# Proofs about nw

nw boots a city of supervised houses from one sealed plan. A baker turns a city file into a binary plan; a checker in
the trusted base accepts or refuses its bytes; PID 1 and nw-spawn build each house's descriptor table from it; nw-sup
supervises one house each; a fold merges what a house has written back into its image. This project models the eight
parts of that chain whose promises no finite test settles, and proves them over every input, run or interleaving.

| part | files | what is proved |
|---|---|---|
| overlay fold | HostFs, Overlay, Fold, ApplyMerge, Modes | reading an upper tree into a plan and replaying the plan on a mutable host gives the recursive overlay view, and creates, removes, retypes or rewrites no entry outside `merged`; where the modes set at the end land |
| plan codec | Bytes, Blob, Fnv and DupTable, Crc, CrcAlgebra, CrcTheory, Check, Codec, BlobCodec, Spelling, Refusals, Tamper | the checker accepts exactly the canonical encodings of well-formed plans, and a refusal names the first rule broken; a copy altered within four bytes is refused |
| baker | Baker, BakerCodec, BakerRules | for exactly which cities a blob is written, and that it is the canonical encoding of the city; when the checker accepts it, and that it then tells every house, bind and edge |
| descriptors | Fds, Packing, Spawn, Boot | from PID 1's three descriptors to every house's table: exactly its kit, each wire end in one house |
| supervisor | Decide, Supervisor, Courses, WaitHouse, WaitTells | budget, forks, shutdown and stop delivery over every run, with the signal handler between any two statements; what a death, a START, a STOP and a TERM lead to; why and when a wait ends |
| store | Store, StoreEnds | any number of calls interleaved call by call leave whole buffers under their own digests; why each call ends as it does, and that it ends |
| SHA-256 | Sha256, Sha256Constants | the in-place code is FIPS 180-4 for every message, its constants the roots of the primes; the padding is injective |
| tail ring, seccomp filter | TailRing, Seccomp | the tail file is the last 4096 bytes of the stream; the emitted filter is its list, for exactly the lengths up to 255 |

The host of the fold is a whole file system with links, inside and outside `merged`, walked as the kernel walks it; the
library calls the Python makes are methods on it. The descriptor table is a map from number to object and
close-on-exec flag with lowest-free allocation. The supervisor and the store are state machines over their steps,
because a signal handler or another caller may run between any two of them; everything else that works in place is a
class or a method with loops, proved against a specification.

Findings, each proved below:

- The baker's path rule is not the checker's, although the comment at `bakery/nw-cc.py:268-271` says it is. Of the blobs
  the baker writes for a city as load_city leaves it, the checker refuses those with the path `/` or with a control
  character in a path, and no others
  (`BakerCodec.BakeRoundTrip`, `BakerCodec.RootIsBakedAndRefused`; trailing NULs, which padding swallows, are treated in
  `BakerCodec.BakedIff`).
- `bakery/fold.py:494-513` leaves open whether the order of the replace step matters for nested opaque directories. It
  does not: `ApplyMerge.ReplaceAll` takes them in any order.
- `NW_BOOT_NEED` covers PID 1 and nw-spawn, but not the process that packs a house. At a limit of exactly that need a
  house runs if and only if it has at most two wires (`Boot.BootAtNeed`); four houses wired as a star boot at their need
  of 18 with the hub dead (`Boot.BootStar`). With w explicit, a house of w wires runs exactly when the limit is at
  least 6 + n + 2e + w and `/proc/self/fd`, if a number is left for it, can be read (`Boot.BootCity`).
- When `/proc/self/fd` cannot be listed, the sweep of `close_others` stops at 1024, and descriptors beyond it stay open in
  the house (`Packing.FarStaysOpen`). The table is the kit alone exactly when the listing can be had, which the table,
  the limit and `/proc` decide before the call, or nothing is open from 1024 up (`Packing.PackKit`,
  `Packing.KitAlone`). Under the boot's own numbers nothing is (`Boot.BootCity`).
- With the marker check off, a fold that may not read trusted attributes builds the overlay of a clean layer if and only
  if no opaque directory of it hides a base entry that it does not name itself (`Fold.HiddenIff`,
  `ApplyMerge.FoldLayers`). The two layers alone decide that; `Fold.HiddenMarkResurrects` is a layer where it fails.
- The last loop of `apply_merge` (`bakery/fold.py:556-559`) tests only the last component of a path for a link, so a mode
  noted for a base entry below a directory that the layer has made a link is set where the link leads. The modes set by
  the loop all land in `merged` if and only if no noted base entry resolves, by way of such a link, to a non-link
  outside it (`Modes.ApplyMergeModes`; `Modes.NestedStraysOut` is an instance, and `Modes.FinishIsOne` says that the
  layers and the host before the fold decide it). Where none resolves by way of such a link at all, and no file has a
  second name, the modes are those of the overlay.
- The comment at `nwspawn.c:104-202` rests the safety of pack_kit against sources that lie on earlier targets on its
  caller handing them over in rising order. The code needs no such thing: `Packing.PackKit` asks nothing of the order.

## Model

| member | source | states |
|---|---|---|
| HostFs.WalkIsLiteral | bakery/fold.py:441-455 | with no link above it, a path inside `merged` leads to its own place or nowhere, links elsewhere notwithstanding |
| Overlay.OverlaidLook | bakery/fold.py:474-486 | the recursive overlay view of two layers, read off path by path: what each upper entry decides and where the lower shows through |
| Fold.MergePlan.Walk | bakery/fold.py:245-289 | one directory of the upper tree, in any listing order, adds to the four collections exactly what its subtree holds, or refuses exactly when a marker in it must be refused |
| Fold.MergePlan.Enter | bakery/fold.py:250-289 | one name of a listing: whiteout, refused marker, directory or other entry |
| Fold.PlanMerge | bakery/fold.py:199-307 | with the check on, refuses exactly when some path of the tree finds a directory with a foreign marker or an unreadable opaque mark, a file with a foreign marker, or a special with one; otherwise the plan is the tree's whiteouts, opaque directories, directories with parents first, and other entries once each |
| Fold.AncestorsPlanned | bakery/fold.py:453-455 | every proper ancestor of a planned path is a planned directory |
| ApplyMerge.Remove | bakery/fold.py:363-378 | whatever the path is, it and all below it are gone and nothing else on the host is |
| ApplyMerge.MakeDirs | bakery/fold.py:469-469 | os.makedirs over directories and absences: the path and its ancestors become directories, the rest stays |
| ApplyMerge.ReconcileDirs | bakery/fold.py:437-471 | every listed path becomes a real directory, whatever stood there, and no other entry changes, inside or outside `merged` |
| ApplyMerge.DeleteAll | bakery/fold.py:485-489 | the whiteouts and what lies below them are gone, in any order, and nothing else is |
| ApplyMerge.ReplaceAll | bakery/fold.py:491-526 | in any order, nested or not: exactly what lies below an opaque directory goes; a planned directory among it may be away until the second reconcile puts it back |
| ApplyMerge.EmptyDir | bakery/fold.py:525-526 | exactly what lies below the directory goes |
| ApplyMerge.CopyDir | bakery/fold.py:381-413 | the base is laid out below the directory, entry for entry, hard links by content; it fails exactly at a device, fifo or socket |
| ApplyMerge.CopyEntry | bakery/fold.py:310-360 | one entry by type: a link's own target, a directory, a hard link's first copy, a file's bytes; it fails exactly at a special file and where a directory meets something else; onto a link, links and hard links replace it, bytes go where it leads, and a directory is taken for granted where it leads to one |
| ApplyMerge.CopyAll | bakery/fold.py:533-550 | every copied entry stands at its path with nothing of the old tree below it, and nothing else changes |
| ApplyMerge.ReplayIsOverlay | bakery/fold.py:474-550 | the states after copy, reconcile, delete, replace, reconcile and copy meet the overlay view at every path |
| ApplyMerge.ApplyMerge | bakery/fold.py:474-550 | into a fresh directory: it fails exactly at special files, and otherwise `merged` is the overlay view; no entry outside `merged` is created, removed, retyped or rewritten whatever links the base holds |
| Fold.HiddenIff | bakery/fold.py:92-118 | reading every opaque mark as absent leaves the overlay view as it is if and only if no name of the base is hidden by a mark alone |
| Fold.HiddenMarkResurrects | bakery/fold.py:92-118 | an instance: one opaque directory whose base entry is back in the view |
| ApplyMerge.FoldLayers | bakery/fold.py:591-653 | fold: the exact condition for it to go through, of layers, markers and surroundings, path by path; with the marker check on it has then built the overlay view of the two layers at every path; of a clean layer with the check off, exactly when the marks could be read or hide nothing; and of any layer the view of what could be read of it |
| Modes.NoteTree | bakery/fold.py:394-408 | step 1 notes the mode of every directory and of every file, of a shared inode under exactly one of its names, the one remembered, and of no link |
| Modes.NoteCopied | bakery/fold.py:533-550 | step 4b: of the copied names of one shared inode the first in the order of the plan has its mode noted and no other; every other file has; a link cancels |
| Modes.NoteAll | bakery/fold.py:474-550 | what is noted for each path after all steps, later steps over earlier ones, a copied link cancelling, and a shared inode under one name of the base and the first of the layer |
| Modes.LastLoop | bakery/fold.py:552-559 | in any order of the notes: exactly the paths that resolve and are no link themselves get their mode, at the place they lead to |
| Modes.LinkIsSwapped | bakery/fold.py:329-334 | the only links above a path whose mode is due are those the layer has put where the base has a directory |
| Modes.LandingIff | bakery/fold.py:556-559 | every mode lands on its own path if and only if no noted base entry resolves by way of such a link, and every mode lands in `merged` if and only if none resolves to outside |
| Modes.ModesShown | bakery/fold.py:552-559 | where no file has a second name and none so resolves, each directory and file ends with its mode in the overlay, and no link is given one |
| Modes.ApplyMergeModes | bakery/fold.py:474-559 | the whole of apply_merge: the entries of the overlay, no entry outside touched, exactly the chmods that the notes ask for, and both conditions for where they land |
| Modes.FinishIsOne | bakery/fold.py:474-559 | the finished tree is decided by the layers and the host before |
| Modes.NestedStraysOut | bakery/fold.py:556-559 | an instance: a base directory with a file, and a layer that makes the directory a link |
| Crc.Crc32Split | nwcheck.c:69-85 | the checksum of two regions is that of their concatenation |
| CrcTheory.Crc32IsRfc1952 | nwcheck.c:69-85 | the bitwise loop is the CRC of section 8 of RFC 1952, table and all |
| CrcTheory.BurstDetected | nwcheck.c:69-85 | equal lengths that differ, and only within four consecutive bytes, never have the same checksum |
| Tamper.AlterationRefused | nwcheck.c:243-254 | of a blob and a copy of it altered within four consecutive bytes that do not straddle the checksum field, at most one is accepted |
| Fnv.HashName | nwcheck.c:142-150 | the hash of a field depends only on its text up to the first NUL |
| DupTable.FieldDup | nwcheck.c:200-220 | reports a duplicate exactly when an earlier member has the same text, and keeps the table's probe chains whole |
| DupTable.ProbeFrom | nwcheck.c:203-220 | the probe loop does so for any hash of the text and any wraparound |
| DupTable.AnyRepeat | nwcheck.c:277-412 | a whole run over up to 128 fields, for any hash of the text, reports a repeat exactly when two fields have the same text |
| DupTable.HasHole | blob.h:306-324 | fewer members than slots always leave an empty slot on every probe sequence |
| DupTable.HoleMeansNew | nwcheck.c:207-218 | an empty slot reached by probing proves that no member has the text |
| Check.NameOkField | nwcheck.c:87-101 | exactly the NUL-padded names of one to thirty-one legal characters |
| Check.PathOkField | nwcheck.c:103-138 | exactly the NUL-padded absolute printable paths with no ".." component; no read leaves the field |
| Check.SplitScan | nwcheck.c:132-137 | the scan for "/.." finds a climb exactly when splitting at slashes leaves a ".." component after the first |
| Check.UnitHasBrick | blob.h:1099-1111 | some byte of the hash is not zero |
| Check.CheckUnits | nwcheck.c:277-419 | the unit loop with both duplicate tables returns the first broken rule, for any legal number of units |
| Check.CheckBinds | nwcheck.c:421-434 | the bind loop returns the first broken rule |
| Check.CheckEdges | nwcheck.c:436-463 | the edge loop returns the first broken rule, unordered duplicates included |
| Check.NwCheck | nwcheck.c:222-501 | the whole checker: its code is the first rule broken in its order, with every table read in bounds |
| Codec.DecodeEncodedUnit | blob.h:595-688 | a legal unit survives encoding and decoding |
| Codec.EncodeDecodedUnit | blob.h:595-688 | an accepted unit's bytes survive decoding and encoding |
| BlobCodec.AcceptedIsCanonical | nwcheck.c:222-501 | an accepted blob is the canonical encoding of the well-formed plan it decodes to |
| BlobCodec.CanonicalIsAccepted | nwcheck.c:222-501 | every well-formed plan's canonical encoding is accepted and decodes to it |
| BlobCodec.AcceptedIff | nwcheck.c:222-501 | accepted if and only if it is the canonical encoding of some well-formed plan |
| Refusals.UnitFirst | nwcheck.c:277-419 | the code a unit is refused with is the first of 21 rules, each said of the decoded unit by the character and the number, that it breaks |
| Refusals.BindFirst | nwcheck.c:421-434 | the same for a bind: which of its two codes, of the decoded plan |
| Refusals.EdgeFirst | nwcheck.c:436-463 | the same for an edge: range and self, an unlocked end, an earlier pair in either order |
| Refusals.HeaderTells | nwcheck.c:222-254 | the same for the header: magic, the three counts, the length, the checksum |
| Refusals.RefusalTells | nwcheck.c:222-501 | whichever code is given, its rule is the first broken: of the header, or of the first unit with a broken rule, or else of the first bind, or else of the first edge |
| BlobCodec.DecodeInjective | blob.h:1043-1071 | two accepted blobs that decode alike are the same bytes |
| Baker.HexZero | bakery/nw-cc.py:344-366 | a hex hash decodes to the no-brick field exactly when it is all zeros |
| Baker.NamesDiffer | bakery/nw-cc.py:276-278 | comparing the list with its set finds exactly the repeated names |
| Baker.LayersDiffer | bakery/nw-cc.py:394-404 | finds exactly the layers two houses share |
| Baker.CheckAll | bakery/nw-cc.py:275-452 | check() accepts exactly the cities that meet all its rules |
| Baker.ResolveWires | bakery/nw-cc.py:464-485 | edges resolve exactly when both names exist, differ, and no pair repeats in either order |
| Baker.PackUnits | bakery/nw-cc.py:487-507 | the unit table is the canonical one, and packing stops exactly when a value does not fit its field |
| Baker.Bake | bakery/nw-cc.py:455-524 | writes a blob exactly when every rule is met, and then the canonical encoding of the plan the city describes |
| BakerRules.AcceptsIff | bakery/nw-cc.py:275-507 | the cities a blob is written for, by the character and the number: names, paths, hashes, layers, lids, ranges, pairs of values, counts, and wires between two locked houses, no pair twice |
| BakerRules.HouseIff | bakery/nw-cc.py:319-452 | the same for one house |
| BakerCodec.BareUnique | bakery/nw-cc.py:261-265 | padding loses trailing NULs and nothing else |
| BakerCodec.BakedIff | bakery/nw-cc.py:268-272 | of a city as load_city leaves it, the checker accepts the blob exactly when every path, its trailing NULs dropped, is clean, printable and more than the root |
| BakerCodec.BakeRoundTrip | bakery/nw-cc.py:455-524 | without NULs in paths: accepted exactly when every path has two characters and no control character, and then decoded to the plan that was baked |
| BakerCodec.BakeAndCheck | bakery/nw-cc.py:455-524 | a blob is written exactly for a city that meets the rules by the character and the number; one that the checker accepts decodes, by name, to each value of each house, hex hash included, to the binds house by house in order, and to edges between the places of the two names given |
| BakerCodec.RootIsBakedAndRefused | bakery/nw-cc.py:268-272 | a house whose program is "/" is baked and then refused |
| BakerCodec.ChildOfRootIsAccepted | bakery/nw-cc.py:268-272 | the same house with the program "/a" is baked and accepted |
| Packing.Gather | nwspawn.c:205-215 | every scratch number comes before any placement, rises, and lies above its own target; it succeeds exactly when enough numbers are free |
| Packing.CloseOthers | nwspawn.c:63-95 | what is not kept is closed; when the table cannot be listed, only below 1024; when it fails |
| Packing.PlaceStdio | nwspawn.c:223-229 | 0, 1 and 2 in place and passed on, from whatever numbers the kernel had picked, those two numbers closed |
| Packing.WaitingAbove | nwspawn.c:236-241 | every scratch number that still waits lies above the target being placed |
| Packing.PlaceWires | nwspawn.c:236-241 | the wires in order from 3 up, none lost |
| Packing.PackKit | nwspawn.c:203-243 | from any table and any open sources: whether it succeeds is decided by the table, the limit and /proc; the table is then the null device, the log twice and the wires, none closed on exec, and beside them exactly what a sweep that cannot list does not reach; at most 3 + w descriptors more at once, and that many when it can list |
| Packing.KitAlone | nwspawn.c:104-109 | nothing else stays open if and only if the table could be listed or held nothing from 1024 up |
| Packing.FarStaysOpen | nwspawn.c:63-95 | a table with a descriptor at 1024 that packing, without /proc, leaves open |
| Packing.PacksIff | nwspawn.c:203-221 | with 0, 1 and 2 taken and all numbers below the limit, packing w wires takes 2 + w more, and one for the listing where there is one |
| Spawn.MakeEdges | nwspawn.c:299-302 | a fresh pair of descriptors for each edge; fails exactly for want of two numbers each |
| Spawn.Collect | nwspawn.c:316-329 | the scan for house i picks its end of each of its edges, with the peer, in table order |
| Spawn.Census | nwspawn.c:501-520 | the wires of all houses together are twice the edges |
| Spawn.SetLabels | nwspawn.c:347-351 | NW_WIRE_ slot by slot: the name of the house at the other end |
| Spawn.SpawnHouse | nwspawn.c:331-479 | a turn of the unit loop leaves nw-spawn's table as it was; the house runs exactly when packing can succeed from that table, and then with its kit, its names and what the sweep cannot reach; the peak of its process |
| Spawn.NoneLeaked | nwspawn.c:543-556 | passes exactly when no edge descriptor is open |
| Spawn.SpawnAll | nwspawn.c:299-556 | fails only for want of numbers, never at the census or the leak check; every house runs exactly when packing can succeed from the table with every socketpair, and then with its kit; nw-spawn is left with what it was given less the logs; at most 2e + 2 descriptors above that at once |
| Spawn.WireOnce | nwspawn.c:311-351 | an end of an edge is in house i if and only if i is that end's house, and then on one descriptor, labelled with the house at the other end |
| Spawn.NothingElse | nwspawn.c:104-109 | a house has nothing but the null device, its own log twice, and labelled wires |
| Boot.CheckLimit | pid1.c:719-743 | goes on only with hard and soft limits that cover the need; halts exactly when the hard limit does not or both raises fail |
| Boot.MakeLogs | pid1.c:770-776 | the interleave: a logger holds of all pipes only its own read end, and PID 1 one write end for each |
| Boot.OpenCity | pid1.c:770-828 | needs n + 3 numbers and no more; nw-spawn starts with stdio, the report pipe and every log |
| Boot.BootCity | blob.h:163-206 | with a limit that covers NW_BOOT_NEED no allocation of PID 1 or nw-spawn fails and their peaks are at most 6 + n and 6 + n + 2e; a house of w wires runs, with exactly its kit, if and only if the limit is at least 6 + n + 2e + w and /proc, when there is a number left for it, can be read; the packing process has up to 7 + n + 2e + w open |
| Boot.BootAtNeed | blob.h:274-278 | at a limit of exactly NW_BOOT_NEED the houses that run are those of at most two wires |
| Boot.BootStar | blob.h:274-278 | a star of three edges over four houses at a limit of 18: the hub dies and the others run |
| Decide.NwDecide | decide.c:8-82 | exactly when each decision is given: once stopping only a term or an exit; a START matters only to an unlocked house without a child; only an unrequested, unfinished death of a locked house is counted, RESTART below the budget and SPENT at it |
| Supervisor.BudgetIsHard | nwsup.c:2487-2522 | over every run at most budget + 1 deaths, each recorded once under its own ordinal, none for an unlocked house |
| Supervisor.SpentIsFinal | nwsup.c:2524-2529 | past the budget no continuation forks or counts again |
| Supervisor.ForksAreEarned | nwsup.c:2116-2216 | forks are at most the first of a locked house, one for each restart and one for each accepted START, each in a generation of its own, numbered in order; when the loop is idle or waits for a house, exactly as many as earned |
| Supervisor.TopIsClean | nwsup.c:2116-2213 | at the top of the loop, and when a leaf cgroup is made, no stop request, child or older leaf is left |
| Supervisor.ShutdownWinds | nwsup.c:2125-2145 | once stopping, in every continuation at most one fork more, no restart and no accepted START |
| Supervisor.StopReachesTheHouse | nwsup.c:2398-2420 | whenever wait_house is entered or turns with a stop pending, the house has been sent the stop signal; SIGKILL only after that and with a grace period |
| Courses.WhatCanHappen | nwsup.c:2113-2541 | after any run, exactly which events can follow; a failing call ends the supervisor, and no empty leaf is left; an escalation only with a stop pending and a grace period |
| Courses.Begins | nwsup.c:2109-2115 | a locked house is forked unasked, an unlocked one idles |
| Courses.StartOpens | nwsup.c:2147-2195 | a START read while idle leads to the next generation, or, once stopping, to the exit |
| Courses.IdleStays | nwsup.c:2147-2195 | nothing else that is read while idle changes anything |
| Courses.GenerationRuns | nwsup.c:2197-2420 | from the top a fresh leaf under the next number, the house in it, its pid noted, and the wait; a house forked while stopping is signalled before it is waited for |
| Courses.LiveStart | nwsup.c:1236-1237 | a START for a live house changes nothing |
| Courses.LiveStop | nwsup.c:1238-1258 | a STOP for a live house is recorded and the house signalled; a second one changes nothing |
| Courses.StopIsKept | nwsup.c:2467-2473 | from a pending STOP on, until on_term fires or a START is accepted: no death counted, no restart, no fork, no exit; whenever the loop is back at its top or idle it is stopped and the request is gone |
| Courses.HouseDies | nwsup.c:2398-2422 | while the loop waits, the house it waits for is running or dead, and what it dies of is what the loop has of it |
| Courses.DeathIdles | nwsup.c:2467-2473 | an asked death, or one of an unlocked house, leads to the idle loop with the request cleared |
| Courses.DeathEnds | nwsup.c:2458-2465 | a death on shutdown, and a clean exit of a house that completes on it, end the supervisor with the house's exit code, or 0 for a signal |
| Courses.DeathCounts | nwsup.c:2475-2530 | an unasked death of a locked house is recorded under the next ordinal and leads to the next generation below the budget; at it to the exit with the house's code, or 71 for a signal |
| Courses.TermIsSeen | nwsup.c:1095-1101 | on_term in any state that is not over sets the flag, and nothing else, and signals the child that is noted |
| Courses.TopEnds | nwsup.c:2125-2145 | at the top of the loop the flag ends the supervisor with 0 |
| Supervisor.RunKeeps | nwsup.c:2116-2541 | the invariant of all of these, over every run with on_term between any two statements |
| WaitHouse.PollingTier | nwsup.c:1286-1381 | the loop is the wait of its specification round by round, for any answers of the kernel and with on_term before any test |
| WaitHouse.ArmedServesNothing | nwsup.c:1308-1340 | after a test that sees a stop no request is served and no stop is recorded; a SIGKILL is the last thing done |
| WaitHouse.ArmedCycles | blob.h:486-520 | at most ceil(g/50) cycles are counted, and all of them before a SIGKILL |
| WaitHouse.NoWrap | blob.h:486-520 | armed_cycles * 50 never wraps in 32 bits and reaches the period exactly at the last cycle |
| WaitHouse.ArmedEnds | nwsup.c:1308-1381 | uninterrupted, the wait ends within the cycles left and one round more, and kills if and only if none of them finds the house gone or the poll broken |
| WaitHouse.PollingEnds | nwsup.c:1286-1381 | from whatever round a stop is seen in, the wait ends within ceil(g/50) uninterrupted rounds and one more |
| WaitHouse.PollingIsOrderly | nwsup.c:1286-1381 | from the start, armed or not: nothing is served after a seen stop, SIGKILL comes last, after such a test, and never without a grace period |
| WaitHouse.PollingKills | nwsup.c:1308-1381 | from any start, SIGKILL only after all ceil(g/50) cycles |
| WaitHouse.PollingUses | nwsup.c:1286-1381 | one test for each round until the round that ends the wait, which reaps a gone house or fails at a broken poll |
| WaitHouse.PidfdTier | nwsup.c:1408-1531 | the same loop with one bounded wait of g ms once armed |
| WaitHouse.WindowDecides | nwsup.c:1476-1505 | once a stop is seen, the first poll that is not interrupted ends the wait: killed exactly when the window ran out, reaped when the house is gone before, with one window of g ms for each poll |
| WaitHouse.PidfdIsOrderly | nwsup.c:1408-1531 | nothing is served after a seen stop, and SIGKILL comes last and never without a grace period |
| WaitHouse.PidfdKills | nwsup.c:1476-1505 | from any start, SIGKILL only as the last thing, right after a bounded wait of all g ms in a round whose poll ran out |
| WaitHouse.PidfdEnds | nwsup.c:1408-1531 | a stop seen at some round ends the wait there or before, unless that poll is interrupted |
| WaitTells.PollingTells | nwsup.c:1286-1381 | from any start, by the number of the round: the polling wait ends in the first round that is armed with all cycles over, or has a broken poll, or finds the house gone, and with that outcome; its log and the recorded stop are those of its rounds |
| WaitTells.PidfdTells | nwsup.c:1408-1532 | the same for the pidfd tier: it ends in the first round whose poll is broken, whose pidfd is ready, or which is armed and not interrupted, and with that outcome |
| WaitHouse.GraceTs | nwsup.c:1476-1478 | the timespec is the grace period to the millisecond, with a legal nanosecond field |
| Store.ContentMatches | store.c:31-45 | the chunked comparison is true exactly when the file begins with the data, hence at equal sizes exactly when they are equal |
| Store.HashNamesAreWhole | store.c:47-111 | for any interleaving of any number of calls: a hash name is as it was at the start or holds one whole buffer with that digest |
| Store.ReturnedIsStored | store.c:47-111 | a call that has returned 0 or 1 has exactly its data at its name in every later state, whatever was there before |
| StoreEnds.EndsForAReason | store.c:47-111 | in any interleaving: a call returns 1 exactly when its own rename has gone through, 0 exactly when its own comparison has matched, and -1 only when one of its own system calls has failed or written too little |
| StoreEnds.EndsInTime | store.c:47-111 | a call makes at most eight moves and one for each chunk of its data, whatever the others do |
| StoreEnds.NeverStuck | store.c:47-111 | a call that has not returned can always make its next move and be answered in full |
| StoreEnds.AnyCallCanFail | store.c:47-111 | any system call of it may fail, and where each failure leads: stat and mkostemp end it, open and read send it on to write, write and rename remove the temporary name first |
| StoreEnds.AnyAmountCanCome | store.c:25-45 | a read may come back with any number of the bytes there and a write may be short, and what each then leaves |
| StoreEnds.StoredIsFound | store.c:47-70 | a call whose data stands at its name, and whose own calls go through with full reads, writes nothing and returns 0 |
| Store.InvStep | store.c:47-111 | the invariant: temporary names and files are private, and whatever is read or counted on is never written |
| Sha256.Sha256Block | sha256.c:34-70 | the block function in place, with its shifts and sums as written, is one step of section 6.2.2 of FIPS 180-4, said with rotations and weighted octets |
| Sha256.FillSchedule | sha256.c:41-52 | the schedule in place is W |
| Sha256.BuildTail | sha256.c:83-96 | the tail buffer holds the rest of the message and its padding, every write in bounds, for every length |
| Sha256.NwSha256 | sha256.c:72-108 | SHA-256 of every message shorter than 2^64 bytes, the length field taken modulo 2^64 bits as the code takes it |
| Sha256Constants.RoundConstants | sha256.c:14-31 | each of the 64 words is the first 32 fractional bits of the cube root of its prime |
| Sha256Constants.InitialHash | sha256.c:74-77 | each of the eight words is the first 32 fractional bits of the square root of its prime |
| Sha256.PaddingInjective | sha256.c:83-96 | messages shorter than 2^61 bytes are padded alike only if they are the same |
| Sha256.ZeroCountIsLeast | sha256.c:83-96 | the padding has the least number of zeros that section 5.1.1 allows |
| TailRing.Ring.Store | pid1.c:405-421 | a chunk of up to 256 bytes is added at the end and as many dropped at the start as are too many |
| TailRing.Ring.FlushTail | pid1.c:251-265 | whatever the file held, it now holds the ring oldest byte first and nothing older |
| TailRing.Logger | pid1.c:386-445 | the tail file is the last 4096 bytes of everything read, for any chunks |
| Seccomp.Emit | lids.c:61-71 | writes one load, one compare for each call and two returns, into its bounds, with offsets cut to a byte |
| Seccomp.FilterIsTheList | lids.c:61-71 | up to 255 calls the filter ends inside the program and allows exactly the list |
| Seccomp.FirstIsKilled | lids.c:46-55 | from 256 calls on, the first call of a list without repeats is killed |
| Seccomp.BoundIsExact | lids.c:46-55 | over lists without repeats, the filter is its list if and only if the list has at most 255 calls |

## Left out

- Modes.ApplyMergeModes: that the modes are those of the overlay is not claimed where a file of either layer has a second name, because the mode is noted under one name only and the linked copies are not modelled as one inode; nor where an entry strays, because the order of the notes then decides. The notes, which the source takes while it copies and reads only in the last loop, are taken after the copying.
- Extended attributes, owners and times in the fold: attributes are only added, so a base directory keeps those the layer's does not have.
- Hard-link identity in the fold: linked copies are modelled by their content, not by a shared inode.
- ApplyMerge.FoldLayers: hashing and mounting the base and packing the result are one answer each, whether they succeed; the modes are in Modes.ApplyMergeModes, the sidecar is not modelled.
- I/O errors in the fold: listings, reads and library calls succeed unless the tree makes them fail.
- Fold images, slots and the tools around bakery/fold.py: plumbing around the merge.
- Parsing city text, sizes and CPU lists in bakery/nw-cc.py: the baker starts here from houses with the shapes the parser guarantees; the digest and layers files it also writes are not modelled.
- Error texts of the baker: every SystemExit, UnicodeEncodeError and struct.error is one refusal, so the order in which it looks is not visible.
- Reading the plan file in PID 1 and nw-spawn: the blob's descriptor is opened and closed before the modelled part, within its peak.
- The environment of a house other than NW_WIRE_ names, and variables inherited from before boot.
- Failing forks, writes and waits in PID 1 and nw-spawn: they end the process.
- Decide.NwDecide: deaths and budget are unbounded naturals; the plan bounds the budget by 255, so the int arithmetic of the source does not wrap.
- Liveness of shutdown: a signal between the test of `stopping` and a blocking poll is not observed again until something wakes the poll; only safety is claimed.
- The signalfd tier of wait_house: a pending or stop-induced SIGCHLD ends its bounded wait early, so its window is no bound.
- A signal sent to a child that has been reaped but whose pid the supervisor still holds: the number could have been reused.
- Removing a cgroup leaf is taken to succeed once it has been swept; memory and pid counters are not modelled.
- Store.ReturnedIsStored: only calls of nw_store_put act on the directory after the start; hashing is by a digest field that no two of the buffers share unless they are equal, not by Sha256 itself.
- Short or failing writes of the tail file: the source ignores them too.
- Namespaces, mounts, Landlock, capabilities, loop devices, rescue and dawn: kernel plumbing.
