# Verification of the Light network stack

This project models parts of the Light user-space network stack in Dafny and proves properties of the
models for all inputs and all runs.

- **The lock-free list** (`service/ll.c`) is modelled twice. `LlMachine` takes one atomic operation at a time, for
  any number of threads and nodes under sequential consistency; `LlLedger` balances the references, locks and
  deletion marks of each control point; `LlSafety` has the invariant of all runs and its consequences; `LlRelease`
  counts unlinks against releases, `LlTouch` says which nodes a thread touches, `LlHead` keeps the head unmarked, and
  `LlPops` follows the pops, and `LlRuns` replays the runs that show what does not hold. `LlList` is the same code run
  one operation at a time, refining operations on a sequence of nodes while any number of unlinked nodes wait to be
  released; `LlShape` has its memory. The two meet in `LlCalls`, `LlInserts` and `LlForeach`: in the machine, a thread
  that runs alone between idle threads does to the sequence what its call says and gets the reference it says;
  `LlScene` and `LlSolo` take it there one operation at a time.
- **Number printing and parsing**: `Digits` and `PutDec` (both decimal algorithms), `FormatNumber` and `Printf` (the
  printf engine), `Layout` (where everything in a field stands), `ParseInteger` (`kstrtox.c`), and `RoundTrip` and
  `FormatTrip` (printing followed by parsing, from numbers and from format strings).
- **Bitmaps**: `Bits` (64-bit words), `FindBit`, `BitmapShift`, `BitmapRange`, `BitmapRemap`, and `BitmapRegion` (the
  aligned power-of-two allocator).
- **The service**: `GlueQueues` (the four ready queues and their passes) and `Slots` (the life cycle of connection slots).
- **Smaller parts**: `Checksum`, `Notifier`, `PerCpuCounter`; `Arith` and `Options` are shared.

Code that updates state in place is modelled by classes and methods with loops; pure code by functions. The stack, the
application, the scheduler and the CPU's per-CPU reads are parameters: an interleaving, a script of callbacks, a command
sequence, the answers of notifier callbacks.

Where the code and its comments differ, the model follows the code:

- `bitmap_onto` follows the specification at bitmap.c:896-898; the "equivalent loop" at lines 1001-1005 names the wrong map.
- `kstrtoll` rejects "-0".
- `ll_unlink_release` trusts its caller. At most one unlink succeeds between two releases in every run in which callers
  release only nodes whose unlink was returned to them and that they have not released since; `ReleaseWithoutUnlink` and
  `ReleasedTwice` are runs in which they do not.
- Once the wait of `unlink_release` is over another thread can still take a reference and reach the node, as the comment in
  `llll_unlink` says; `AloneUntilTaken` says exactly when, and `TouchedDuringRelease` is such a run.
- While no other thread moves, a node can be unlinked with `wait` only if the caller holds the only reference and no unlinked
  node still links to it; `UnlinkStalls` and `PopStalls` show that otherwise the call never ends.
- `pred` may return a node other than the direct predecessor in an interleaved run, so that is claimed only for one
  operation at a time.
- The free ring is created with as many entries as there are slots, but a ring of that kind holds one fewer, so the last slot is
  never handed out.
- With `__this_cpu_read` defined as 0 the per-CPU counts are never emptied; `ConstantConservedIff` and
  `ConstantComparisonIff` state exactly when totals and comparisons are still right, and `StaleReadMisleads` is a run in
  which the comparison is wrong.
- A socket accepted without a free command buffer keeps the user data the stack gave it; `AcceptUnannounced` states when
  that is harmless.
- `__bitmap_and` and `__bitmap_andnot` return a flag that also sees unused bits; `BitmapAnd` states exactly when it is right,
  and `UnusedBitsShow` is a call for which it is wrong.
- A number printed with a blank in its field, or in place of its sign, does not parse; the round trips of fields and formats are
  equivalences for that reason.

## Model

| member | source | states |
|---|---|---|
| `LlMachine.QueueLedger` | `stack_and_service/service/ll.c:142-183` | Appending one committed count, unlock or flag operation to a thread changes that thread's ledger by exactly that operation and nothing else. |
| `LlLedger.SuccBooks` | `stack_and_service/service/ll.c:270-319` | Every atomic step of `succ` keeps the books: the references and locks the thread holds afterwards are those before plus what the step moved in memory. |
| `LlLedger.PredBooks` | `stack_and_service/service/ll.c:332-426` | The same for every step of `pred`, including skipping deleted nodes and repairing `pred` links. |
| `LlLedger.UnlinkBooks` | `stack_and_service/service/ll.c:590-773` | The same for every step of `unlink_ps_lock` and `llll_unlink`; deletion marks set and not yet reported are balanced too. |
| `LlLedger.ReleaseBooks` | `stack_and_service/service/ll.c:781-830` | The same for every step of `unlink_release`, with and without the insert lock. |
| `LlLedger.InsertBooks` | `stack_and_service/service/ll.c:435-582` | The same for every step of `insert_lock`, `insert_between` and the insert loops, including undoing a failed insert. |
| `LlLedger.BeginBooks` | `stack_and_service/service/ll.c:851-1305` | Entering any public operation neither gains nor loses a reference, lock or mark. |
| `LlLedger.AfterBooks` | `stack_and_service/service/ll.c:270-830` | All control points together: whatever the operation saw, the thread's holdings change by exactly what memory lost or gained. |
| `LlSafety.StepKeepsInv` | `stack_and_service/service/ll.c:23-68` | The global invariant (counts = links + holdings, lock bits = owners, marks = clears + flag) is kept by every step of every thread. |
| `LlSafety.EveryRun` | `stack_and_service/service/ll.c:23-68` | The invariant holds after every interleaving of any number of threads over any number of nodes, from the initial state. |
| `LlSafety.ReferencesConserved` | `stack_and_service/service/ll.c:142-183` | In every reachable state a node's refcnt is the number of links holding it plus what the threads hold, and no thread holds a negative amount. |
| `LlSafety.ReleaseNeverUnderflows` | `stack_and_service/service/ll.c:152-168` | The assertion of `deref_release` never fires: the count is at least what is released. |
| `LlSafety.LastReference` | `stack_and_service/service/ll.c:781-797` | When `unlink_release` sees a count of one, no link of any node points at the node and no other thread holds it. |
| `LlRelease.StepOnce` | `stack_and_service/service/ll.c:781-830` | While the mark of a node stands at most one thread is completing its unlink or release and at most one success is unreported; past the wait of a release none is. Every step of a disciplined run keeps this. |
| `LlRelease.MarkAccounted` | `stack_and_service/service/ll.c:781-830` | In every disciplined run the mark of a node stands for exactly one unlink or release under way, or one unlink that was returned to a caller and not released since. |
| `LlRelease.FairIffDisciplined` | `stack_and_service/service/ll.c:862-867` | A run is disciplined if and only if, by the history of the callers, every release is of a node whose unlink without waiting was returned and not released since. |
| `LlRelease.FairlyUnlinkedOnce` | `stack_and_service/service/ll.c:633-773` | If callers release only what was returned to them: releases <= successes of `llll_unlink` <= releases + 1, for every node in every run. |
| `LlRelease.UnlinkedOncePerRelease` | `stack_and_service/service/ll.c:633-773` | In every run whose release calls are owed: releases <= successes of `llll_unlink` <= releases + 1, for every node. |
| `LlRelease.OneSuccessPerInterval` | `stack_and_service/service/ll.c:633-773` | Between two states of such a run with no release in between, `llll_unlink` returns 1 for the node at most once. |
| `LlRuns.ReleaseWithoutUnlink` | `stack_and_service/service/ll.c:862-867` | A run that breaks the discipline: releasing a node that was never unlinked clears the mark of the next unlink, one release and no success. |
| `LlRuns.ReleasedTwice` | `stack_and_service/service/ll.c:862-867` | A run that breaks the discipline: a second release of the same unlinked node, two releases and one success. |
| `LlTouch.TouchedNodeIsReferenced` | `stack_and_service/service/ll.c:142-830` | Every node that a thread is about to read or write, queued operations included, is the head, or counted and held by the thread, or the target of a link it has locked; exceptions are `ll_ref`, the reference a new insert takes to its own node, and the points that wait for the insert lock of a node. |
| `LlTouch.AloneIff` | `stack_and_service/service/ll.c:781-797` | In every reachable state no link leads to a node and no other thread holds it, if and only if its refcnt is what the one thread holds. |
| `LlTouch.WaitLeavesAlone` | `stack_and_service/service/ll.c:781-797` | The step that ends the wait of `unlink_release` leaves the releasing thread alone with the node. |
| `LlTouch.AloneUntilTaken` | `stack_and_service/service/ll.c:781-830` | To the last queued write of the release, it stays alone after a step if and only if that step does not take a reference to the node for another thread. |
| `LlTouch.AloneThroughout` | `stack_and_service/service/ll.c:781-830` | Over any run to the last queued write of the release it is alone if no step on the way took such a reference. |
| `LlTouch.ReleaseIsExclusive` | `stack_and_service/service/ll.c:781-830` | While a thread is alone with a node, no other thread is about to touch it, except by taking a new reference or waiting for its insert lock. |
| `LlRuns.TouchedDuringRelease` | `stack_and_service/service/ll.c:666-673` | The exception happens: a reachable state in which a properly unlinked node is past the wait of its release and another thread is about to lock its link. |
| `LlSafety.LockHasOneOwner` | `stack_and_service/service/ll.c:170-183` | A DEREF bit is set if and only if exactly one thread owns that link. |
| `LlSafety.OnlyOwnerUnlocks` | `stack_and_service/service/ll.c:245-252` | Whoever clears a DEREF bit owns it and the bit was set, so the assertions at lines 181, 251 and 544 hold. |
| `LlSafety.OtherStepsKeepLock` | `stack_and_service/service/ll.c:217-243` | A set DEREF bit is cleared by no step except the unlocking of its owner. |
| `LlSafety.CasRespectsLock` | `stack_and_service/service/ll.c:217-243` | No exchange through a locked link changes its address or unlocks it, and the only plain exchange is the undo of an insert by the lock's owner. |
| `LlSafety.UndoFindsOwnNode` | `stack_and_service/service/ll.c:531-546` | When an insert is taken back, `p->succ` still holds n with the lock bit set (assertions at lines 543 and 544). |
| `LlSafety.MarkedAtDirectPredecessor` | `stack_and_service/service/ll.c:670-708` | A successful deletion mark is set while the locked `p->succ` leads to n, and puts exactly p with the flag into `n->pred`. |
| `LlSafety.OnlyUnlinkMarks` | `stack_and_service/service/ll.c:590-625` | Every other write to a `pred` link keeps the FLAGGED mark as it was. |
| `LlSafety.OnlyReleaseClearsMark` | `stack_and_service/service/ll.c:817-824` | A deletion mark disappears only in `unlink_release`. |
| `LlHead.HeadNeverDeleted` | `stack_and_service/service/ll.c:49-50` | In every reachable state the head is not marked as deleted, and no caller holds it as an element. |
| `LlPops.PopStep` | `stack_and_service/service/ll.c:1249-1296` | Whatever a thread inside a pop sees: it goes on in its own direction from the node another thread took first, or ends with none only when its lookup came to the head, or ends with a node that its own unlink removed. |
| `LlPops.EveryRunDirected` | `stack_and_service/service/ll.c:1249-1296` | In every run a pop from the front looks up successors only and a pop from the back predecessors only, from the head or from the node it just failed to unlink, and unlinks what it found. |
| `LlSolo.SuccRun` | `stack_and_service/service/ll.c:270-319` | A thread that runs alone takes `succ` along any chain of deleted successors to the live node at its end, and memory is what `LlList` says. |
| `LlSolo.PredRun` | `stack_and_service/service/ll.c:332-426` | The same for `pred`, back over deleted nodes or forward over live ones. |
| `LlSolo.InsertJoins` | `stack_and_service/service/ll.c:467-582` | `insert_between` of neighbours links the node between them, counts it and drops the references of the insert. |
| `LlSolo.InsertFails` | `stack_and_service/service/ll.c:467-582` | Otherwise it puts every link and count back and goes on to repair its anchor. |
| `LlSolo.UnlinkDetaches` | `stack_and_service/service/ll.c:633-712` | From the predecessor that `pred` found, `llll_unlink` marks the node and makes the predecessor skip it. |
| `LlSolo.WalkRun` | `stack_and_service/service/ll.c:713-773` | Its walk repairs the successor and ends after one round of the list at most, with the memory of the shorter list. |
| `LlSolo.ReleaseRun` | `stack_and_service/service/ll.c:781-830` | `unlink_release` of a node with no other reference clears both links and gives up, keeps or reuses the reference of its caller. |
| `LlCalls.InitRests` | `stack_and_service/service/ll.h:80-106` | In the initial state every thread is idle and the memory represents the empty sequence. |
| `LlCalls.SuccCall` | `stack_and_service/service/ll.c:895-912` | From any state in which all threads are idle and memory represents a sequence: a thread that calls `ll_succ` and runs alone ends idle with a reference to the node behind its argument in the ring, or none at the end; the sequence and the size stay. |
| `LlCalls.PredCall` | `stack_and_service/service/ll.c:917-934` | The same for `ll_pred` and the node before. |
| `LlCalls.EndsCall` | `stack_and_service/service/ll.h:180-189` | The first and the last element of the sequence are what `ll_first` and `ll_last` return; nothing if it is empty. |
| `LlCalls.RefCall` | `stack_and_service/service/ll.c:935-944` | One more reference for the caller, and nothing else. |
| `LlCalls.ReleaseCall` | `stack_and_service/service/ll.c:946-954` | One reference less for the caller, and nothing else. |
| `LlCalls.UnlinkCall` | `stack_and_service/service/ll.c:851-859` | `ll_unlink` removes exactly its node from the sequence; with `wait` the reference is gone and the node blank, without it the node is marked. |
| `LlCalls.UnlinkOffCall` | `stack_and_service/service/ll.c:851-859` | On a node that is not listed it changes neither the sequence nor the references. |
| `LlCalls.UnlinkReleaseCall` | `stack_and_service/service/ll.c:862-867` | The unlinked node is blank and the reference of the caller gone. |
| `LlCalls.RobustCall` | `stack_and_service/service/ll.c:874-890` | Afterwards the node is off the sequence and locked against insertion, and its caller still holds it. |
| `LlCalls.PopCall` | `stack_and_service/service/ll.c:1249-1296` | `ll_pop_front` removes and returns the first element, `ll_pop_back` the last one. |
| `LlCalls.PopEmptyCall` | `stack_and_service/service/ll.c:1249-1296` | Both return nothing on the empty sequence and change nothing. |
| `LlCalls.UnlinkStalls` | `stack_and_service/service/ll.c:781-797` | With `wait` and another reference to the node, or an unlinked node that leads to it, the call never ends while no other thread moves. |
| `LlCalls.PopStalls` | `stack_and_service/service/ll.c:781-797` | The same for a pop with `wait`. |
| `LlCalls.UnlinkReleaseStalls` | `stack_and_service/service/ll.c:781-797` | The same for `ll_unlink_release` of a node that is counted more than once. |
| `LlInserts.InsertCall` | `stack_and_service/service/ll.c:979-1244` | Each insert operation puts its node right behind or before the anchor in the ring or, if the anchor is unlinked, where its live neighbour is; the size is the length of the new sequence and no reference is gained or lost. |
| `LlInserts.InsertEndCall` | `stack_and_service/service/ll.c:1139-1244` | `ll_insert_head` puts the node in front of the sequence, `ll_insert_tail` at its end. |
| `LlInserts.InsertRefusedCall` | `stack_and_service/service/ll.c:435-455` | A node that is listed, unlinked or locked is not inserted and nothing changes. |
| `LlForeach.Foreach` | `stack_and_service/service/ll.h:147-154` | `LL_FOREACH` visits the elements of the sequence in order and `LL_FOREACH_REVERSE` in reverse, with a reference to the current element only, and ends with none. |
| `LlSafety.MarkedOncePerRelease` | `stack_and_service/service/ll.c:633-773` | Without any discipline: marks set are releases, or one more exactly while the mark stands, and no more successes are reported than marks were set. |
| `LlList.List.constructor` | `stack_and_service/service/ll.h:80-106` | Initialised head and entries represent the empty sequence. |
| `LlList.List.Succ` | `stack_and_service/service/ll.c:270-319` | Along any chain of deleted successors: the result is the live node at its end with one more reference, n->succ leads there, and the counts of the skipped nodes are balanced. |
| `LlList.List.Pred` | `stack_and_service/service/ll.c:332-426` | Back over any chain of deleted nodes from a deleted n, over one from a live n, or forward over any number of live nodes: the result is the end of the path with one more reference, and n->pred leads there. |
| `LlList.List.SearchForward` | `stack_and_service/service/ll.c:361-399` | The forward search ends at the live node whose successor is n, however many hops away; from a deleted predecessor of n it changes nothing. |
| `LlList.List.InsertBetween` | `stack_and_service/service/ll.c:467-582` | Succeeds if and only if p and s are neighbours on the list, and then n is between them; otherwise every link and count is put back. |
| `LlList.List.Unlink` | `stack_and_service/service/ll.c:633-773` | Returns 1 if and only if n was listed, and then removes exactly n and marks it; on a node already unlinked only its pred link may skip other unlinked nodes. |
| `LlList.List.UnlinkRelease` | `stack_and_service/service/ll.c:781-830` | The released node has null links and no references left, or is insert-locked with the caller's reference; no link of another node changes. |
| `LlList.List.LockForInsert` | `stack_and_service/service/ll.c:435-455` | The insert lock is granted if and only if n is neither listed nor unlinked nor locked; otherwise nothing changes. |
| `LlList.List.LlInsertAfter` | `stack_and_service/service/ll.c:1061-1135` | n is placed right behind rel or, if rel was unlinked, behind the live node that pred(rel) leads to; refused, with nothing changed, if and only if n is listed, unlinked or locked; its count is two plus the held references and all others are balanced. |
| `LlList.List.LlInsertBefore` | `stack_and_service/service/ll.c:979-1053` | n is placed right before rel or, if rel was unlinked, before the live node that succ(rel) leads to, under the same conditions. |
| `LlList.LandInOrder` | `stack_and_service/service/ll.c:973-978` | For an unlinked rel the place after it is never behind the place before it, so both kinds of insert keep their relative order. |
| `LlList.List.LlInsertHead` | `stack_and_service/service/ll.c:1139-1190` | n becomes the first element, with a count of two plus the held references; nothing changes on refusal. |
| `LlList.List.LlInsertTail` | `stack_and_service/service/ll.c:1194-1244` | n becomes the last element, with a count of two plus the held references; nothing changes on refusal. |
| `LlList.List.LlUnlink` | `stack_and_service/service/ll.c:851-859` | Removes exactly n and, when waiting, leaves it blank; NULL if n is not listed. |
| `LlList.List.LlUnlinkRelease` | `stack_and_service/service/ll.c:862-867` | The unlinked node is blank again and every other link stays. |
| `LlList.List.LlUnlinkRobust` | `stack_and_service/service/ll.c:874-889` | Afterwards n is off the list and cannot be inserted; the result tells whether it was listed. |
| `LlList.List.LlPopFront` | `stack_and_service/service/ll.c:1249-1270` | Returns and removes the first element, NULL on the empty list. |
| `LlList.List.LlPopBack` | `stack_and_service/service/ll.c:1275-1296` | Returns and removes the last element, NULL on the empty list. |
| `LlList.List.LlSucc` | `stack_and_service/service/ll.c:895-912` | The next element with a reference; for an unlinked node the live node behind it; NULL at the end or off the list. |
| `LlList.List.LlPred` | `stack_and_service/service/ll.c:917-934` | The previous element with a reference; for an unlinked node the live node before it; NULL at the start or off the list. |
| `LlList.List.LlSize` | `stack_and_service/service/ll.c:1301-1305` | The stored size is the length of the sequence. |
| `LlList.List.LlEmpty` | `stack_and_service/service/ll.c:965-972` | Empty if and only if the sequence is. |
| `LlShape.ListedCount` | `stack_and_service/service/ll.c:142-168` | A node on the list has a count of two, plus the references callers hold, plus the links of unlinked nodes to it. |
| `LlShape.CountIsTwoIff` | `stack_and_service/service/ll.c:142-168` | The count of a listed node is two plus the held references if and only if no unlinked node leads to it. |
| `LlShape.CountsWhenReleased` | `stack_and_service/service/ll.c:142-168` | When nothing is unlinked, the count is two plus the held references on the list and the held references off it. |
| `LlShape.OffCount` | `stack_and_service/service/ll.c:142-168` | Off the list the count is the held references. |
| `LlList.WaitEndsIff` | `stack_and_service/service/ll.c:789-791` | The wait for an unlinked node ends if and only if its caller held the only reference and no unlinked node leads to it. |
| `LlShape.InsertRepresents` | `stack_and_service/service/ll.c:467-582` | The four link writes of an insert turn a memory that represents a sequence into one that represents it with n inserted, whatever unlinked nodes there are. |
| `LlShape.UnlinkRepresents` | `stack_and_service/service/ll.c:633-773` | The link writes of an unlink represent the sequence without n, n keeping its own two links. |
| `LlShape.ReleaseRepresents` | `stack_and_service/service/ll.c:781-830` | Clearing the links of an unlinked node that nothing refers to keeps every count equal to its links and held references. |
| `LlShape.SuccRepresents` | `stack_and_service/service/ll.c:270-319` | Skipping unlinked nodes keeps the sequence, and every count equal to its links and held references. |
| `LlShape.PredRepresents` | `stack_and_service/service/ll.c:332-426` | The same for `pred`. |
| `LlShape.SuccPath` | `stack_and_service/service/ll.c:285-316` | From an unlinked node the successor links lead forward over unlinked nodes and end at a live one. |
| `LlShape.PredPath` | `stack_and_service/service/ll.c:402-422` | From an unlinked node the predecessor links lead back over unlinked nodes and end at a live one. |
| `LlShape.GoneBetween` | `stack_and_service/service/ll.c:270-426` | The live node before an unlinked node comes before the live node behind it on the list. |
| `PutDec.Tenth32` | `stack_and_service/lib/vsprintf.c:132-175` | The 32-bit reciprocal multiplication divides by 10 exactly below 1,073,741,829. |
| `PutDec.Tenth16` | `stack_and_service/lib/vsprintf.c:132-175` | The 16-bit reciprocal is exact below 16,389. |
| `PutDec.Tenth15` | `stack_and_service/lib/vsprintf.c:248-263` | The 15-bit reciprocal is exact below 16,389. |
| `PutDec.Tenth11` | `stack_and_service/lib/vsprintf.c:132-208` | The 11-bit reciprocal is exact below 1,029. |
| `PutDec.TenThousandth` | `stack_and_service/lib/vsprintf.c:265-275` | The reciprocal for 10,000 is exact below 1,128,869,999, which covers every limb. |
| `PutDec.TenThousandthBound` | `stack_and_service/lib/vsprintf.c:265-275` | That bound is sharp: at 1,128,869,999 the quotient is one too large. |
| `PutDec.Limbs` | `stack_and_service/lib/vsprintf.c:282-312` | The four limb sums stay within 1,125,520,955 and together are the number in base 10,000. |
| `PutDec.PutDecFull9` | `stack_and_service/lib/vsprintf.c:132-175` | Appends exactly the nine low decimal digits, lowest first, for every value below 10^9. |
| `PutDec.PutDecTrunc8` | `stack_and_service/lib/vsprintf.c:182-208` | Appends the decimal digits without leading zeros, for every value in its exact range. |
| `PutDec.PutDecGeneric` | `stack_and_service/lib/vsprintf.c:231-241` | For every 64-bit number: appends its reversed decimal digits. |
| `PutDec.PutDecHelper4` | `stack_and_service/lib/vsprintf.c:265-275` | Appends four digits and returns the quotient by 10,000. |
| `PutDec.PutDecLimbs` | `stack_and_service/lib/vsprintf.c:282-312` | For every 64-bit number: the algorithm without 64-bit division appends the same digits as the generic one. |
| `PutDec.StripTrailing` | `stack_and_service/lib/vsprintf.c:306-309` | Dropping the zeros at the end of the reversed digits leaves exactly the number. |
| `PutDec.NoLeadingZero` | `stack_and_service/lib/vsprintf.c:231-312` | The digits of a positive number do not end in a zero; zero is one digit. |
| `PutDec.NumToStr` | `stack_and_service/lib/vsprintf.c:322-340` | Stores the decimal text if it fits; returns 0 and leaves the buffer alone otherwise. |
| `FormatNumber.ReverseDigits` | `stack_and_service/lib/vsprintf.c:422-443` | The digit loops for bases 8, 10 and 16 produce the digits of the number in that base. |
| `FormatNumber.SignAndWidth` | `stack_and_service/lib/vsprintf.c:392-420` | Sign, magnitude and the width left for padding. |
| `FormatNumber.PutHead` | `stack_and_service/lib/vsprintf.c:448-484` | Padding, sign, prefix and zero fill come in the right order and at most one kind of padding is printed. |
| `FormatNumber.Number` | `stack_and_service/lib/vsprintf.c:382-505` | For every 64-bit value and specification: appends exactly the text laid out by the specification function, truncated at the end of the buffer. |
| `RoundTrip.NumberFillsField` | `stack_and_service/lib/vsprintf.c:382-505` | The printed text is exactly as long as the larger of the field width and what sign, prefix, precision and digits need. |
| `Layout.NumberIsLaid` | `stack_and_service/lib/vsprintf.c:382-505` | Position by position and for every width, precision and flag: blanks, sign, prefix, zeros, digits, blanks; blanks only in front, or only behind with LEFT, and none with ZEROPAD, where zeros follow sign and prefix. |
| `Layout.PaddedText` | `stack_and_service/lib/vsprintf.c:382-505` | Without zero fill the field is the text that needs no padding with blanks on one side. |
| `Layout.SignedFieldReadsBack` | `stack_and_service/lib/vsprintf.c:382-505` | A signed decimal field of any width and precision is read back by `kstrtoll` if and only if it holds no blank. |
| `Layout.UnsignedFieldReadsBack` | `stack_and_service/lib/vsprintf.c:382-505` | An unsigned field is read back in its own base, with or without prefix, if and only if it holds no blank. |
| `Printf.Decode` | `stack_and_service/lib/vsprintf.c:1420-1597` | Decoding stays inside the format and consumes characters, except once for a pending `*` argument. |
| `Printf.NextToken` | `stack_and_service/lib/vsprintf.c:1659-1800` | Each turn of the main loop consumes format characters or settles a pending `*` argument, so the loop ends. |
| `Printf.PutString` | `stack_and_service/lib/vsprintf.c:507-536` | Appends the string cut to the precision and padded to the width. |
| `Printf.PutToken` | `stack_and_service/lib/vsprintf.c:1659-1780` | One turn of the loop appends the text of one token and takes its arguments. |
| `Printf.Vsnprintf` | `stack_and_service/lib/vsprintf.c:1644-1803` | The result is the length of the full output, as an int, whatever the size; the buffer holds the first min(len, size - 1) characters and a NUL, and nothing else is written; a size that is negative as an int gives 0. |
| `Printf.KvAsprintf` | `stack_and_service/lib/kasprintf.c:16-32` | NULL if and only if there is no memory; otherwise the measuring pass and the printing pass agree, so the buffer holds exactly the output and a NUL. |
| `Printf.StoredAt` | `stack_and_service/lib/vsprintf.c:1793-1798` | The buffer, position by position: the output, the NUL at the latest in the last place of the given size, and what was there before. |
| `Printf.LengthReturned` | `stack_and_service/lib/vsprintf.c:1800-1801` | The returned int is the length of the output if and only if that is below 2^31. |
| `FormatTrip.FormatIsPrinted` | `stack_and_service/lib/vsprintf.c:1644-1803` | For every format of texts and conversions with any flags, widths, precisions and qualifiers, given in digits or as `*`: the items are printed in order and take their arguments in order. |
| `FormatTrip.NumberItem` | `stack_and_service/lib/vsprintf.c:1752-1789` | Every integer conversion prints the value of its C type that agrees with the argument modulo the size of the type, laid out in its field. |
| `FormatTrip.WrappedIs` | `stack_and_service/lib/vsprintf.c:1752-1789` | That value is in the range of the type, written out in numbers, is the only one there, and is the argument itself if the type has it. |
| `FormatTrip.AtoiReads` | `stack_and_service/lib/vsprintf.c:113-121` | Decimal digits of a width or precision in the format are read as their value. |
| `FormatTrip.StringItem` | `stack_and_service/lib/vsprintf.c:507-536` | A string conversion prints the first characters up to the precision, with blanks in front, or behind with `-` or a negative width. |
| `FormatTrip.CharItem` | `stack_and_service/lib/vsprintf.c:1690-1711` | A character conversion prints the byte at the end of its field, or at the start with `-`, and blanks elsewhere. |
| `FormatTrip.UnknownPrinted` | `stack_and_service/lib/vsprintf.c:1730-1734` | An unknown conversion is printed as it stands and takes no argument. |
| `ParseInteger.ParseDigits` | `stack_and_service/lib/kstrtox.c:51-88` | Consumes the longest run of digits of the base; the overflow bit is set if and only if their value exceeds 2^64 - 1, and the result is the value modulo 2^64. |
| `ParseInteger.FitsIff` | `stack_and_service/lib/kstrtox.c:73-79` | The delayed overflow test is exact at every digit. |
| `ParseInteger.WrapStep` | `stack_and_service/lib/kstrtox.c:73-81` | The wrapped accumulator stays the true value modulo 2^64. |
| `ParseInteger.KStrToUllNoSign` | `stack_and_service/lib/kstrtox.c:90-108` | Agrees with the specification of numerals in every base, or returns the right error and leaves the result alone. |
| `ParseInteger.KStrToUll` | `stack_and_service/lib/kstrtox.c:126-131` | The same after an optional plus sign. |
| `ParseInteger.KStrToLl` | `stack_and_service/lib/kstrtox.c:150-171` | Accepts exactly 0..2^63-1 without a minus sign and magnitudes 1..2^63 after one; the result is untouched on every error. |
| `ParseInteger.KStrToUnsigned` | `stack_and_service/lib/kstrtox.c:222-325` | The narrow unsigned parsers accept exactly the values of their type. |
| `ParseInteger.KStrToSigned` | `stack_and_service/lib/kstrtox.c:222-325` | The narrow signed parsers accept exactly the values of their type. |
| `ParseInteger.NumeralsParse` | `stack_and_service/lib/kstrtox.c:90-108` | Every digit string with a value below 2^64, with or without a final newline, is accepted with that value. |
| `ParseInteger.OnlyNumeralsParse` | `stack_and_service/lib/kstrtox.c:90-108` | Nothing else is accepted. |
| `ParseInteger.ParseOutcome` | `stack_and_service/lib/kstrtox.c:90-108` | Which error: -ERANGE for every digit string of 2^64 or more whatever follows it, -EINVAL for no digits and for anything but one newline behind a smaller value. |
| `ParseInteger.DigitTable` | `stack_and_service/lib/kstrtox.c:63-68` | The sixteen digits in both cases have their values. |
| `ParseInteger.OnlyDigits` | `stack_and_service/lib/kstrtox.c:63-68` | No other character has a digit value. |
| `RoundTrip.NarrowUnsignedBounds` | `stack_and_service/lib/kstrtox.c:222-325` | On the decimal text of any number `kstrtou8`, `kstrtou16` and `kstrtouint` accept exactly up to 255, 65535 and 4294967295, and answer -ERANGE beyond. |
| `RoundTrip.NarrowSignedBounds` | `stack_and_service/lib/kstrtox.c:150-325` | On the decimal text of any integer `kstrtos8`, `kstrtos16`, `kstrtoint` and `kstrtoll` accept exactly -128..127, -32768..32767, -2147483648..2147483647 and the signed 64-bit range. |
| `RoundTrip.TooLargeIsOutOfRange` | `stack_and_service/lib/kstrtox.c:90-108` | A number of 2^64 or more is out of range in every base. |
| `RoundTrip.HexPrefix` | `stack_and_service/lib/kstrtox.c:27-41` | Hexadecimal text is read with radix 16 with and without "0x", and with radix 0 with it. |
| `RoundTrip.NoDigitIsNoNumber` | `stack_and_service/lib/kstrtox.c:126-171` | A sign is accepted once and no blank is skipped: anything but a digit in front is -EINVAL. |
| `RoundTrip.NumeralsAre` | `stack_and_service/lib/vsprintf.c:382-449` | Printed digits are the usual characters in the asked case, denote the number, and start with 0 only for 0. |
| `RoundTrip.PrintedUnsignedReadsBack` | `stack_and_service/lib/vsprintf.c:382-505` | Every 64-bit number printed unpadded in base 10, or in base 8 or 16 with its prefix, is read back by the parser that detects the base. |
| `RoundTrip.PrintedSignedReadsBack` | `stack_and_service/lib/vsprintf.c:382-505` | Every signed 64-bit number printed in base 10 is read back by `kstrtoll`, if and only if no blank was printed in place of a plus sign. |
| `RoundTrip.BlankFiveIsNoNumber` | `stack_and_service/lib/vsprintf.c:382-505` | Five printed with a blank for its sign is refused by `kstrtoll`. |
| `RoundTrip.NegativeZeroIsRefused` | `stack_and_service/lib/kstrtox.c:150-171` | `kstrtoll` answers -ERANGE to "-0". |
| `FormatTrip.SignedFormatReadsBack` | `stack_and_service/lib/vsprintf.c:1644-1803` | What printf prints for `%d` or `%i` with any flags, width, precision and qualifier is read back by `kstrtoll` as the value of the C type that agrees with the argument, if and only if no blank is in the field. |
| `FormatTrip.UnsignedFormatReadsBack` | `stack_and_service/lib/vsprintf.c:1644-1803` | What it prints for `%u`, `%o`, `%x` and `%X` is read back in the base of the conversion, if and only if no blank is in the field. |
| `FormatTrip.BareFormatReadsBack` | `stack_and_service/lib/vsprintf.c:1644-1803` | Without width and precision the base is detected: in decimal, and in octal and hexadecimal with the prefix flag. |
| `RoundTrip.OctalReadsBack` | `stack_and_service/lib/kstrtox.c:27-41` | Octal numerals with the prefix zero, and the single digit 0, are recognised as octal and read back. |
| `RoundTrip.NumToStrReadsBack` | `stack_and_service/lib/vsprintf.c:322-340` | `num_to_str` followed by `kstrtoull` is the identity on 64-bit numbers. |
| `FindBit.FindNextBit` | `stack_and_service/lib/find_next_bit.c:26-63` | The least set bit at or after the offset, or size if there is none. |
| `FindBit.FindNextZeroBit` | `stack_and_service/lib/find_next_bit.c:72-109` | The least clear bit at or after the offset, or size if there is none. |
| `FindBit.FindFirstBit` | `stack_and_service/lib/find_next_bit.c:117-137` | The least set bit, or size. |
| `FindBit.FindFirstZeroBit` | `stack_and_service/lib/find_next_bit.c:145-165` | The least clear bit, or size. |
| `FindBit.FindNextZeroArea` | `stack_and_service/lib/bitmap.c:338-360` | For nr > 0 returns the least index at or after start that the mask aligns and whose nr bits are clear within size, or a value above size if and only if there is none; for nr = 0 the first clear bit found, rounded up. |
| `FindBit.AlignMaskIsAlignUp` | `stack_and_service/lib/bitmap.c:348-349` | Adding the mask and clearing its bits rounds up to a multiple of mask + 1, for every mask of low bits. |
| `BitmapShift.ShiftRight` | `stack_and_service/lib/bitmap.c:119-148` | For every size and shift, also in place: bit b of the result is bit b + shift of the source, whatever the unused bits hold. |
| `BitmapShift.ShiftLeft` | `stack_and_service/lib/bitmap.c:164-189` | For every size and shift, also in place: bit b of the result is bit b - shift of the source, whatever the unused bits hold. |
| `BitmapShift.RightUndoesLeft` | `stack_and_service/lib/bitmap.c:119-189` | Shifting left and then right gives back every bit that was not shifted out. |
| `BitmapRange.BitmapSet` | `stack_and_service/lib/bitmap.c:284-302` | Exactly the bits of the range become set; all others keep their value. |
| `BitmapRange.BitmapClear` | `stack_and_service/lib/bitmap.c:305-323` | Exactly the bits of the range become clear; all others keep their value. |
| `BitmapRange.ClearUndoesSet` | `stack_and_service/lib/bitmap.c:284-323` | Clearing a range that was clear before it was set restores the bitmap word for word. |
| `BitmapRange.BitmapAnd` | `stack_and_service/lib/bitmap.c:192-237` | Bitwise and (and and-not) of whole words, also in place; the returned flag tells whether the used bits meet, if and only if they do or the unused bits of the last word do not. |
| `BitmapRange.UnusedBitsShow` | `stack_and_service/lib/bitmap.c:192-205` | With one used bit, clear in both maps, and an unused bit set in both, the flag says that they meet. |
| `BitmapRemap.Weight` | `stack_and_service/lib/bitmap.c:270-281` | The word loop counts exactly the set bits below `bits`, whatever the unused bits hold. |
| `BitmapRemap.PosToOrd` | `stack_and_service/lib/bitmap.c:743-759` | The number of set bits before a set bit, -1 otherwise. |
| `BitmapRemap.OrdToPos` | `stack_and_service/lib/bitmap.c:779-795` | The position of the set bit with the given ordinal, 0 if there is none. |
| `BitmapRemap.RankSelectInverse` | `stack_and_service/lib/bitmap.c:743-795` | Ordinal and position are inverse to each other. |
| `BitmapRemap.BitRemap` | `stack_and_service/lib/bitmap.c:877-886` | One bit is sent to the set bit of new with its ordinal modulo the weight of new, or to itself. |
| `BitmapRemap.Remap` | `stack_and_service/lib/bitmap.c:829-848` | The result is the image of src under the single-bit map. |
| `BitmapRemap.RemapBack` | `stack_and_service/lib/bitmap.c:829-886` | Remapping a bit of old to new and back is the identity if old weighs no more than new. |
| `BitmapRemap.RemapRoundTrip` | `stack_and_service/lib/bitmap.c:829-848` | Remapping a subset of old by (old, new) and then by (new, old) gives the subset back if old weighs no more than new. |
| `BitmapRemap.Onto` | `stack_and_service/lib/bitmap.c:989-1015` | Bit n is set if and only if n is the m-th set bit of relmap and bit m of orig is set. |
| `BitmapRemap.Fold` | `stack_and_service/lib/bitmap.c:1029-1040` | Bit b is set if and only if some set bit of orig is b modulo sz. |
| `BitmapRemap.FoldThenOnto` | `stack_and_service/lib/bitmap.c:989-1040` | Folding by the weight W of relmap and mapping onto it sets exactly the bits ord_to_pos(relmap, m mod W) for m in orig. |
| `BitmapRegion.DoRegOp` | `stack_and_service/lib/bitmap.c:1067-1117` | The masked word loop tests, sets or clears exactly the bits of an aligned power-of-two region, within a word or across words. |
| `BitmapRegion.AllocConsistent` | `stack_and_service/lib/bitmap.c:1133-1181` | Allocating a free aligned region keeps live regions disjoint and the bitmap their union. |
| `BitmapRegion.ReleaseConsistent` | `stack_and_service/lib/bitmap.c:1158-1161` | Releasing a live region keeps live regions disjoint and the bitmap their union. |
| `BitmapRegion.Allocator.FindFreeRegion` | `stack_and_service/lib/bitmap.c:1133-1144` | Returns the least free aligned position, or -ENOMEM if and only if there is none, and keeps the allocator consistent. |
| `BitmapRegion.Allocator.AllocateRegion` | `stack_and_service/lib/bitmap.c:1175-1181` | Succeeds if and only if the region is free; -EBUSY and no change otherwise. |
| `BitmapRegion.Allocator.ReleaseRegion` | `stack_and_service/lib/bitmap.c:1158-1161` | The region is free again and no other live region changes. |
| `GlueQueues.Glue.SockReadable` | `stack_and_service/porting/app_glue.c:68-110` | Joins the read queue exactly when the state allows it and it is not there; the exit on a zero counter is unreachable. |
| `GlueQueues.Glue.SockWriteSpace` | `stack_and_service/porting/app_glue.c:119-148` | Joins the write queue exactly when writeable and allowed, with one hold. |
| `GlueQueues.Glue.SockErrorReport` | `stack_and_service/porting/app_glue.c:157-177` | Joins the closed queue unless already there. |
| `GlueQueues.Glue.SockWakeup` | `stack_and_service/porting/app_glue.c:187-254` | Exactly one of: the listener joins the accept queue, nothing, the socket joins the closed queue, the socket may join the write queue. |
| `GlueQueues.Glue.CloseDead` | `stack_and_service/porting/app_glue.c:448-461` | The closed queue is emptied, in order, whatever callbacks arrive meanwhile. |
| `GlueQueues.Glue.AcceptReady` | `stack_and_service/porting/app_glue.c:463-481` | Every listener queued at the start is offered, in order; exactly those whose ring was full stay, in front; the saved next pointer is always on the queue. |
| `GlueQueues.Glue.ReadReady` | `stack_and_service/porting/app_glue.c:494-513` | Serves exactly the sockets queued at the start, in order, once each, although callbacks may queue them again; without callbacks the queue ends empty. |
| `GlueQueues.Glue.ProcessRx` | `stack_and_service/porting/app_glue.c:443-513` | The whole receive pass keeps flags, queues, counters and holds in step, and leaves the queues that its three loops leave one after the other. |
| `GlueQueues.Glue.ProcessTx` | `stack_and_service/porting/app_glue.c:522-546` | Serves exactly the sockets queued at the start, in order, and puts each one's hold. |
| `GlueQueues.Glue.CloseSocket` | `stack_and_service/porting/app_glue.c:918-967` | The socket leaves every queue with its flag, counter and write/accept hold, and is in none afterwards unless a callback during the close names it; other members and their order are kept. |
| `GlueQueues.Glue.Run` | `stack_and_service/porting/app_glue.c:68-967` | For every sequence of callbacks, passes and closes: a flag is set if and only if the socket is in that queue, once; both counters are the queue lengths; write and accept holds less puts is membership; exit is never reached. |
| `GlueQueues.Glue.Handle` | `stack_and_service/porting/app_glue.c:68-254` | Each callback changes the four queues exactly as its branch says. |
| `GlueQueues.RxOrder` | `stack_and_service/porting/app_glue.c:443-513` | Closed sockets come first, then listeners, then readable sockets: what one of these loops makes ready for a later one is served in the same pass. |
| `Slots.Service.constructor` | `stack_and_service/light_server_side.h:404-447` | All slots start blank; the ring, which holds one element fewer than its size, ends up with every slot but the last. |
| `Slots.Service.FreeSocket` | `stack_and_service/light_server_side.h:1015-1020` | Giving a slot back always finds room in the ring. |
| `Slots.LeavesRoom` | `stack_and_service/light_server_side.h:1015-1020` | Distinct slot numbers that leave one out are fewer than the ring can hold. |
| `Slots.Service.TakeSlot` | `stack_and_service/service/light_app_api/light_api.c:861-864` | The application gets the oldest free slot, or none if and only if the ring is empty. |
| `Slots.Service.GiveSlotBack` | `stack_and_service/service/light_app_api/light_api.c:917-919` | A slot taken but not bound returns to the ring. |
| `Slots.Service.Open` | `stack_and_service/service/light_service_loop.c:370-394` | The new socket and the slot point at each other and the slot carries its index; a failed creation changes nothing. |
| `Slots.Service.SetRing` | `stack_and_service/service/light_service_loop.c:568-585` | The accepted socket and the slot point at each other; the parent is overwritten only if given. |
| `Slots.Service.Close` | `stack_and_service/service/light_service_loop.c:481-496` | A bound slot is blanked, its socket loses its user data, and the slot returns to the ring; an unbound slot is left alone. |
| `Slots.Service.ShutdownSlot` | `stack_and_service/service/light_service_loop.c:704-729` | Shutting down both directions frees the slot as close does; one direction leaves it bound. |
| `Slots.Service.DeclineSocket` | `stack_and_service/service/light_service_loop.c:731-736` | Declining an accepted socket touches no slot. |
| `Slots.Service.AcceptConnection` | `stack_and_service/user_callbacks.h:62-71` | An accepted socket starts without user data. |
| `Slots.Service.AcceptUnannounced` | `stack_and_service/user_callbacks.h:72-74` | Without a command buffer the socket keeps the user data the stack gave it, and the slots stay linked if and only if that is null. |
| `Slots.BindSlot` | `stack_and_service/service/light_service_loop.c:568-585` | Binding keeps all links mutual and every slot in exactly one place. |
| `Slots.UnbindSlot` | `stack_and_service/service/light_service_loop.c:481-496` | Unbinding keeps all links mutual and puts the slot into the ring, where it was not. |
| `Slots.Service.Run` | `stack_and_service/service/light_service_loop.c:305-741` | For every command sequence in which the application binds only slots it took and claims an accepted socket once: links are mutual, and each slot but the last is once in the ring, or taken, or bound; no slot is ever lost; the state is that of the steps one after the other. |
| `Slots.Service.Perform` | `stack_and_service/service/light_service_loop.c:305-741` | Each command changes slots, user data, ring and the hands of the application exactly as its step says. |
| `Slots.SlotsConserved` | `stack_and_service/service/light_service_loop.c:305-741` | The slots in the ring, taken and bound are together all but one. |
| `Slots.ShutdownLaws` | `stack_and_service/service/light_service_loop.c:704-729` | Shutting down one direction changes nothing at all, both directions what close changes. |
| `Slots.TakeThenGiveBack` | `stack_and_service/service/light_app_api/light_api.c:861-919` | A slot taken and given back leaves the same slots free, that one last. |
| `Slots.OpenThenClose` | `stack_and_service/service/light_service_loop.c:370-496` | A socket opened on a taken slot and closed: the slot is blank and queued last, the socket has no slot. |
| `Slots.ClaimThenClose` | `stack_and_service/service/light_service_loop.c:481-585` | An accepted socket claimed and closed leaves what declining it and giving the slot back leaves. |
| `Slots.NoSlotTouched` | `stack_and_service/service/light_service_loop.c:370-394` | A failed open changes nothing; an accepted and declined socket touches no slot. |
| `Slots.Service.UserDataIndex` | `stack_and_service/porting/app_glue.c:221-226` | The index read through a socket's user data is that of the slot that points back, and that slot is neither free nor taken. |
| `Slots.Service.OneSocketPerSlot` | `stack_and_service/porting/app_glue.c:785-797` | No two sockets carry the same slot. |
| `Checksum.AddHolds` | `stack_and_service/specific_includes/checksum_64.h:49-57` | An add-with-carry step keeps register plus carry equal to the folded total, and the carry is never set with an all-ones register. |
| `Checksum.LastCarry` | `stack_and_service/specific_includes/checksum_64.h:58-58` | Adding in the last carry cannot carry again, so none is lost. |
| `Checksum.CsumFold` | `stack_and_service/specific_includes/checksum_64.h:22-30` | Folds a 32-bit sum to the complement of its 16-bit one's-complement value. |
| `Checksum.Add32WithCarry` | `stack_and_service/specific_includes/checksum_64.h:182-189` | End-around addition of 32-bit sums. |
| `Checksum.OnesSumIsFold` | `stack_and_service/specific_includes/checksum_64.h:15-30` | The one's-complement sum of words depends only on their total. |
| `Checksum.IpFastCsum` | `stack_and_service/specific_includes/checksum_64.h:45-73` | For every header of five or more words the result is the checksum of section 1 of RFC 1071; a shorter length returns the first half word unsummed. |
| `Checksum.CsumTcpUdpNofold` | `stack_and_service/specific_includes/checksum_64.h:86-99` | The 32-bit end-around sum of the pseudo-header fields and the initial sum. |
| `Checksum.MagicIsChecksum` | `stack_and_service/specific_includes/checksum_64.h:86-117` | Equals the checksum of pseudo-header (section 3.1 of RFC 9293) and payload, for every payload whose folded sum was passed in. |
| `Checksum.ShiftIsSwap` | `stack_and_service/specific_includes/checksum_64.h:90-97` | Shifting a field by eight bits instead of swapping its bytes changes the total by a multiple of 0xffff only (section 2(B) of RFC 1071). |
| `Checksum.VerifiesIff` | `stack_and_service/specific_includes/checksum_64.h:45-73` | Data holding c as its checksum sums to zero if and only if c is the computed checksum or the other representation of zero. |
| `Checksum.FillAndVerify` | `stack_and_service/specific_includes/checksum_64.h:45-73` | A header filled in with its own checksum verifies to 0. |
| `Checksum.ByteOrderIndependent` | `stack_and_service/specific_includes/checksum_64.h:86-99` | A machine of the other byte order computes the byte-swapped checksum. |
| `Notifier.Chain.Register` | `stack_and_service/kernel/notifier.c:24-35` | The block is spliced in behind every block of at least its priority; the chain stays linked and ordered. |
| `Notifier.Chain.CondRegister` | `stack_and_service/kernel/notifier.c:37-50` | The early break never misses: a block already on the chain is left alone, any other is registered. |
| `Notifier.Chain.Unregister` | `stack_and_service/kernel/notifier.c:52-63` | Removes exactly the block, or returns -ENOENT if and only if it is not there. |
| `Notifier.Chain.CallChain` | `stack_and_service/kernel/notifier.c:78-107` | Calls exactly the prefix up to the first answer with the stop bit, the limit, or the end, and returns the last answer. |
| `Notifier.StopValues` | `stack_and_service/specific_includes/linux/notifier.h:153-161` | 0x8001 and 0x8002 stop the chain, no value below 0x8000 does. |
| `Notifier.ErrnoRoundTrip` | `stack_and_service/specific_includes/linux/notifier.h:163-177` | An error code stops the chain and is recovered from its return value; success does neither. |
| `Notifier.InsertedOrdered` | `stack_and_service/kernel/notifier.c:24-35` | Descending priority with ties in order of arrival is kept by an insertion at the place the walk finds. |
| `PerCpuCounter.AddedValue` | `stack_and_service/lib/percpu_counter.c:79-96` | One addition, for both reads: right modulo 2^32, and exactly right if and only if the read is live, the amount reaches the batch, or the per-CPU count stays within 32 bits. |
| `PerCpuCounter.ConservedModulo` | `stack_and_service/lib/percpu_counter.c:79-96` | After any additions, for both reads, the value is the start plus all amounts modulo 2^32. |
| `PerCpuCounter.LiveConserved` | `stack_and_service/lib/percpu_counter.c:79-96` | With the live read any additions conserve the total exactly and keep every per-CPU count strictly within the batch. |
| `PerCpuCounter.ConstantCounts` | `stack_and_service/specific_includes/dummies.h:278` | With the constant read this build uses, each per-CPU count is the 32-bit sum of the small amounts added there and is never emptied. |
| `PerCpuCounter.ConstantConservedIff` | `stack_and_service/specific_includes/dummies.h:278` | With the constant read the value is right all along if and only if no CPU's running sum of small amounts leaves 32 bits. |
| `PerCpuCounter.ConstantDrift` | `stack_and_service/specific_includes/dummies.h:278` | With the constant read the value is right if and only if the per-CPU counts together hold exactly the small amounts. |
| `PerCpuCounter.ComparedRightIff` | `stack_and_service/lib/percpu_counter.c:200-220` | The comparison is right if and only if the exact sum is taken or the per-CPU counts together do not reach across the distance from the shared count to rhs. |
| `PerCpuCounter.LiveComparison` | `stack_and_service/lib/percpu_counter.c:200-220` | With the live read the comparison is always right. |
| `PerCpuCounter.ConstantComparisonIff` | `stack_and_service/lib/percpu_counter.c:200-220` | With the constant read and running sums in range, it is right if and only if the small amounts do not reach across that distance. |
| `PerCpuCounter.StaleReadMisleads` | `stack_and_service/specific_includes/dummies.h:278` | A run with the constant read whose comparison gives -1 where the exact value is larger. |
| `PerCpuCounter.TotalWithin` | `stack_and_service/lib/percpu_counter.c:200-220` | Per-CPU counts within the batch add up to at most batch times CPUs, the slack of the rough test. |
| `PerCpuCounter.Counter.Set` | `stack_and_service/lib/percpu_counter.c:64-76` | The counter stands for the amount and every per-CPU count is zero. |
| `PerCpuCounter.Counter.Add` | `stack_and_service/lib/percpu_counter.c:79-96` | The counter in place takes exactly the step of the value model. |
| `PerCpuCounter.Counter.Run` | `stack_and_service/lib/percpu_counter.c:64-96` | A set followed by any additions, with either read, ends in the value that the lemmas above are about. |
| `PerCpuCounter.Counter.Sum` | `stack_and_service/lib/percpu_counter.c:102-116` | The exact value. |
| `PerCpuCounter.Counter.Compare` | `stack_and_service/lib/percpu_counter.c:200-220` | The answer of the value model. |

## Left out

- `ll.c`: of the invariants at lines 36-67 only those of the head and of the deletion mark (6 and 10) are stated for interleaved runs; the shape of the list (1-5, 7-9) and the marks of an insert (11-13) are stated for one operation at a time.
- `ll.c`: what `LlCalls`, `LlInserts` and `LlForeach` state starts from a state whose memory represents a sequence, as the initial state and the state after each of these calls does; that every state left by overlapping calls does is not proved.
- `ll.c`: weak memory orders and progress of the spin loops; the machine is sequentially consistent and only safety is proved.
- `ll.c`: the assertions at lines 503, 509, 569, 575, 797, 817 and 822, and that no thread follows a NULL link, are not claimed; a thread whose exchange or access fails there stays where it is.
- `ll.c`: where an insert lands when its anchor is deleted by another thread meanwhile; only the balance of such an insert is proved.
- LlList.List.Succ: the chain of deleted successors has an end; along a cycle the code would not return.
- LlList.List.Pred: a forward search across deleted nodes, and a live n with two or more deleted predecessors in a row; neither arises one operation at a time.
- LlList.List.SearchForward: the same forward searches across deleted nodes.
- LlList.List.UnlinkRelease: starts where the wait for the count ends.
- LlRelease.UnlinkedOncePerRelease: for runs that keep the discipline; outside it see `ReleaseWithoutUnlink` and `ReleasedTwice`.
- Printf.Decode: `format_decode` is modelled as functions on the format rather than with a moving pointer.
- Printf.Vsnprintf: the text of `%p` is an argument; pointer extensions, binary printf and scanning are not modelled.
- FormatNumber.Number: width and precision are unbounded integers, not 16-bit fields.
- GlueQueues.Glue.CloseSocket: holds of the read and closed queues, which the code does not give back, are not balanced.
- GlueQueues.Glue.CloseDead: the source may free a socket that is still on another queue; sockets never die in the model.
- GlueQueues.Glue.AcceptReady: an accepted connection is an event outside the model; only the listener's place in the queue is followed.
- `app_glue_get_next_*`, an alternative interface that does not maintain the counters.
- Slots.Service.ShutdownSlot: only the slot update; the later call of `inet_shutdown` is outside the model.
- Slots.Service.AcceptConnection: the number of free ring entries and which listener is asked.
- FindBit.FindNextZeroArea: indices are unbounded; wrap-around of start plus mask at 2^64 is not modelled.
- Notifier.Chain.CallChain: callbacks that change the chain while it is called.
- PerCpuCounter.Counter.Add: one operation at a time; the shared 64-bit count is unbounded, and all possible CPUs are online.
- PerCpuCounter.ConstantComparisonIff: for running sums in range; outside it the value itself is off, and `ComparedRightIff` applies.
- Checksum.IpFastCsum: the text of `checksum_64.h` with explicit carries; the copy a build selects is not part of this model.
- Words are sequences of 64 bits and C pointers are indices; addresses and overlap of partially aliased buffers are not modelled.
- DPDK, device setup, crash detection, monitoring, the epoll sleep/wake handshake, and the TCP/IP functions behind `kernel_*`.
- md5, sha1, timers and memory wrappers: they would only add straight-line members.
