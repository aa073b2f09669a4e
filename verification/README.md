# Verified models of the Spitfire core

Spitfire is a data-channel library over WebRTC. This project models the parts of it, and of the Chromium base
and WebRTC headers it ships with, whose behaviour is hardest to see from the code, and proves what they promise
for every input, every run and every interleaving.

| files | what they model |
|---|---|
| `Common.dfy` | concepts that several models share |
| `ObserverListSpec.dfy`, `ObserverList.dfy` | `base::ObserverList` and its iterators: removal during iteration leaves marked slots, the last iterator compacts |
| `CallbackListSpec.dfy`, `CallbackList.dfy` | `base::CallbackList`: list nodes, subscriptions, nested passes, the removal callback |
| `ThreadSafeObserverList.dfy` | `base::ObserverListThreadSafe` as a protocol of sequences, task queues, nested loops and one lock, and what every step keeps |
| `ThreadSafeDelivery.dfy`, `ThreadSafeRemoval.dfy`, `ThreadSafeOrder.dfy`, `ThreadSafeOvertaking.dfy`, `ThreadSafeDraining.dfy`, `ThreadSafeRuns.dfy` | the theorems about it: who gets what and how often, removal, order of delivery, and whether the queues drain; `ThreadSafeRuns.dfy` has what the example runs share |
| `LazyPointer.dfy` | `base::subtle::GetOrCreateLazyPointer` as a protocol of threads over one word |
| `ScopedRefptr.dfy`, `ReleaseProtocols.dfy` | `rtc::scoped_refptr`, `rtc::RefCountedBase`, and the hand-written `Release` of Spitfire's session observers |
| `ConductorSpec.dfy`, `Conductor.dfy` | `Spitfire::RtcConductor`: initialisation, teardown, the data channel registry |
| `ConductorRegistry.dfy` | the data channel registry in terms of the calls alone |
| `ConductorOverlap.dfy` | the two calls that enter a data channel, when they overlap |
| `IceRegex.dfy`, `IceGrammar.dfy`, `IceMatching.dfy`, `IceAddresses.dfy`, `IceParser.dfy`, `IceRoundTrip.dfy`, `IceWhiteSpace.dfy` | `SpitfireUtils.IceParser`: its regular expressions under a backtracking matcher, `Parse`, the addresses accepted, and the round trip with a printer |
| `SendTime.dfy`, `BigEndian.dfy`, `Slices.dfy` | 24-bit send time differences, big-endian integers, buffer copies |

Where the source changes objects in place there are two layers. The specification module has a state, the
operations on it as one `Step` function, an invariant, and theorems over whole runs. The class module has the
objects and loops of the source; each method is proved to take the abstract state through the corresponding
`Step`. Protocols between threads are state machines whose steps are as small as the locks and atomic
operations allow, so that every interleaving is a run.

Nine promises turned out to hold only under a condition. For each there is a lemma with a concrete failing run or
input, and one that says exactly when the promise holds:

- `ObserverListThreadSafe::RemoveObserver` is documented to abort a notification that has not started to run
  (`include/base/observer_list_threadsafe.h:134-138`). `NotifyWrapper` drops the lock between its check and the
  callback, so a removal from another sequence can come in between. It is final if and only if no sequence stands
  there (`LateCallbackIffChecked`, with the run `RemovalFromElsewhereCanBeLate`); on the observer's own sequence it is always final (`RemovedOnOwnSequence`).
- Under ALL, `ObserverListThreadSafe` delivers a notification twice to an observer that another observer's callback
  for it removes and adds again (`ReaddedGetsItTwice`). In a run after which all queues have drained, an observer has
  begun a notification more than once if and only if the times it was owed it exceed by more than one the times it was
  dropped, because the observer was not registered at the check (`BegunExactly`). That takes ALL, a removal after the
  notification was sent, and being added again from inside its dispatch (`TwiceOnlyIfReadded`). Under EXISTING_ONLY
  it is never more than once (`ExistingOnlyAtMostOnce`).
- Notifications do not always reach an observer in the order in which they were sent. A posted notification can
  be overtaken if and only if it has not begun and the next one is sent by `NotifySynchronously` on the observer's own
  sequence (`PostedIsOvertakenIff`, with the run `SyncOvertakesPosted`). One that such a call has still to dispatch can
  also be overtaken through a nested loop (`NestedLoopOvertakes`). `OvertakesIff` is the condition for all cases: the
  first has begun, or the second is posted and the first is in the queue or comes next with no client code before it.
- Whether the queues can drain at all depends on observers that were added again on another sequence: a task that
  waits elsewhere would fail a DCHECK. They can drain if and only if there is none (`DrainsIffAllAtHome`, with the run
  `NeverDrains`).
- The first data channel for a label wins, and no registered observer is dropped, only as long as the calls that enter
  channels do not overlap. An observer is lost if and only if two calls stood past a lookup of the same label
  (`LostIffRivals`, with the run `TwoCallsLoseOne`).
- `GetOrCreateLazyPointer` gives every caller the one instance if and only if the creator never returns null
  (`OnceIffNeverNull`). After a null result a build without DCHECKs can even return the value 1, which means
  "creating" (`NullCreatorLetsCreatingOut`).
- Spitfire's own `Release` agrees with `RefCountedBase::Release` on one thread, and never deletes early or twice on
  several. It leaks if and only if all the references that are left are past the test and before the decrement at
  once (`SpitfireLeaksIffStranded`, with the run `TwoReleasesCanLeak`).
- A numeric candidate field that is out of range is rejected if the field must be there. A remote port, network
  id or network cost with too many digits is cut off instead, and what follows it is lost (`RejectedIff`,
  `LongRemotePortIsCutOff`).
- `Slice` within one array is a block copy if and only if the target window does not overlap the source window from
  above (`SmearedIsBlockCopyIff`, `SmearedDiffers`).

DCHECKs are the preconditions that the source demands of its callers, and runs end before one would fail, except
where a row says otherwise.

## Model

| member | source | states |
|---|---|---|
| `ObserverListSpec.RemoveSlotLive` | include/base/observer_list.h:279-293 | erasing the slot and marking it leave clients with the same list: the old one without the observer |
| `ObserverListSpec.ErasedIsWithout` | include/base/observer_list.h:279-293 | erasing the entry that the search finds takes the observer out and nothing else, and changes nothing if it is not registered |
| `ObserverListSpec.StepRefinesPlain` | include/base/observer_list.h:268-330 | add, remove, clear, iterator copies, assignments and destructions act on the unmarked entries as on a plain list, live iterators or not; compaction is invisible |
| `ObserverListSpec.StepKeepsInv` | include/base/observer_list.h:115-330 | no observer is registered twice, every cursor is in bounds, and without a live iterator there is no marked slot; every operation keeps this |
| `ObserverListSpec.RunRefinesPlain` | include/base/observer_list.h:115-330 | over every run the list refines a duplicate-free ordered list, and is that list whenever no iterator is live |
| `ObserverListSpec.IteratorsFollowTheCalls` | include/base/observer_list.h:123-178 | which iterators are attached after each call; a copy or an assigned iterator stands where the other stands, and nobody else is moved |
| `ObserverListSpec.DuringRun` | include/base/observer_list.h:149-178 | while an iterator is live, whatever else happens, slots are only appended or marked, and only its own `++` moves it |
| `ObserverListSpec.VisitsInOrder` | include/base/observer_list.h:172-219 | an iterator visits slots in order, each at most once, below its limit, and finds the observer that was registered there |
| `ObserverListSpec.VisitedIffLiveWhenReached` | include/base/observer_list.h:172-215 | a slot that the cursor gets to or past is visited if and only if its registration is live at that moment |
| `ObserverListSpec.SurvivorsAreReached` | include/base/observer_list.h:208-221 | in a finished pass, a registration that is still there was live when reached |
| `ObserverListSpec.EndsAtEnd` | include/base/observer_list.h:221-221 | a finished pass leaves its iterator at end |
| `ObserverListSpec.PassVisitsTheLive` | include/base/observer_list.h:125-231 | for every nesting of passes that add, remove and clear: of the registrations that the policy covers, a pass visits exactly those that are live when reached, among them all that are never removed |
| `ObserverListSpec.PassVisitsInOrder` | include/base/observer_list.h:125-231 | a pass visits in order and at most once; under EXISTING_ONLY nothing that was added since it began |
| `ObserverListSpec.ExistingOnlyTerminates` | include/base/observer_list.h:125-178 | an EXISTING_ONLY pass makes at most starting size minus index further increments, whatever callbacks do |
| `ObserverListSpec.AllNeedNotTerminate` | include/base/observer_list.h:125-178 | under ALL there are runs of any length in which callbacks keep a pass going |
| `ObserverLists.UnlinkedFacts` | include/base/observer_list_internal.h:124-129 | unlinking a node leaves the other nodes in order |
| `ObserverLists.ObserverList.constructor` | include/base/observer_list.h:244-248 | an empty list without iterators |
| `ObserverLists.ObserverList.HasObserver` | include/base/observer_list.h:296-305 | true exactly for registered observers; false for null, marked slots or not |
| `ObserverLists.ObserverList.AddObserver` | include/base/observer_list.h:268-275 | appends, or does nothing if registered already |
| `ObserverLists.ObserverList.RemoveObserver` | include/base/observer_list.h:279-293 | erases without live iterators and marks with them |
| `ObserverLists.ObserverList.Clear` | include/base/observer_list.h:308-316 | empties the list, or marks every slot |
| `ObserverLists.ObserverList.Compact` | include/base/observer_list.h:324-330 | what is left is the unmarked entries in order |
| `ObserverLists.ObserverList.Begin` | include/base/observer_list.h:237-240 | an iterator at the first unmarked slot, detached if there is no slot |
| `ObserverLists.ObserverList.Destroy` | include/base/observer_list.h:250-261 | terminates and detaches every live iterator |
| `ObserverLists.Iter.AtEnd` | include/base/observer_list.h:123-123 | a detached iterator |
| `ObserverLists.Iter.OnList` | include/base/observer_list.h:125-136 | joins the live iterators, with the limit of the policy |
| `ObserverLists.Iter.CopyOf` | include/base/observer_list.h:143-147 | stands where the other stands and joins its list |
| `ObserverLists.Iter.SetList` | include/base/observer_list_internal.h:117-122 | the node is appended to the live iterators |
| `ObserverLists.Iter.Invalidate` | include/base/observer_list_internal.h:124-129 | the node is unlinked, the others stay in order; no effect on a detached node |
| `ObserverLists.Iter.IsOnlyRemainingNode` | include/base/observer_list_internal.h:112-115 | comparing head and tail tells whether this is the only live iterator |
| `ObserverLists.Iter.EnsureValidIndex` | include/base/observer_list.h:208-215 | stops at the first unmarked slot or at the clamped limit |
| `ObserverLists.Iter.Increment` | include/base/observer_list.h:172-178 | one step of the pass; nothing on a detached iterator |
| `ObserverLists.Iter.GetCurrent` | include/base/observer_list.h:201-206 | the observer in the slot that the iterator stands on |
| `ObserverLists.Iter.Destroy` | include/base/observer_list.h:138-141 | the last iterator compacts, and every one unlinks itself |
| `ObserverLists.Iter.Assign` | include/base/observer_list.h:149-163 | leaves the old list as a destructor would and joins the other one; self-assignment, one list and two lists |
| `CallbackListSpec.StepKeepsInv` | include/base/callback_list.h:98-196 | bound nodes are exactly the live subscriptions, in order; without an active iterator there is no reset node |
| `CallbackListSpec.RunKeepsInv` | include/base/callback_list.h:98-196 | the same in every reachable state |
| `CallbackListSpec.SubscriptionsFollowTheCalls` | include/base/callback_list.h:98-196 | over every run the live subscriptions are exactly those there were and those added, less those destroyed, with identities handed out in order |
| `CallbackListSpec.UnsubscribedIsNeverCalled` | include/base/callback_list.h:186-196 | once its subscription is destroyed, no pass of any continuation calls a callback; every other subscription stays |
| `CallbackListSpec.CalledIsSubscribed` | include/base/callback_list.h:140-150 | only a callback that is subscribed, or is added later, is called by any pass |
| `CallbackListSpec.PassesFollowTheCalls` | include/base/callback_list.h:107-150 | which passes are active after each call; a copy goes on from the place of the other, and the removal callback is the one last set |
| `CallbackListSpec.DuringRun` | include/base/callback_list.h:120-196 | no node is erased while an iterator is active, and only its own GetNext moves it |
| `CallbackListSpec.CallsInOrder` | include/base/callback_list.h:140-150 | a pass calls in order of subscription, each callback at most once |
| `CallbackListSpec.CalledIffBoundWhenReached` | include/base/callback_list.h:140-150 | a callback is called if and only if it is subscribed when reached, in nested passes too |
| `CallbackListSpec.SurvivorsAreReached` | include/base/callback_list.h:140-150 | a callback that is still subscribed when a pass has finished was subscribed when reached |
| `CallbackListSpec.NotifyCallsTheSubscribed` | include/base/callback_list.h:219-225 | a whole Notify calls exactly the callbacks that are subscribed when reached, among them all that stay subscribed |
| `CallbackListSpec.NotifyFollowsTheCalls` | include/base/callback_list.h:98-225 | a Notify on a list with any history calls every callback that was added and not taken back, and none that was taken back before or never added |
| `CallbackListSpec.AddedWhileRunning` | include/base/callback_list.h:140-150 | a callback added while another one runs is called by the same pass if and only if that one was not the last node when it was fetched and the new one is subscribed when reached |
| `CallbackListSpec.RemovalStep` | include/base/callback_list.h:169-196 | which single operations run the removal callback, if one is set then, and which one |
| `CallbackListSpec.RemovalCallbackRuns` | include/base/callback_list.h:107-196 | over every run, however removal callbacks are set and reset, one runs per subscription destroyed outside a pass and per outermost pass that dropped entries, each time the one set at that moment, in order |
| `CallbackLists.CallbackList.constructor` | include/base/callback_list.h:157-157 | an empty list |
| `CallbackLists.CallbackList.Add` | include/base/callback_list.h:98-104 | a new node at the end, with a subscription of its own |
| `CallbackLists.CallbackList.SetRemovalCallback` | include/base/callback_list.h:107-109 | the removal callback from now on, or none |
| `CallbackLists.CallbackList.OnSubscriptionDestroyed` | include/base/callback_list.h:186-196 | resets the node of this subscription during a pass, otherwise erases it and runs the removal callback |
| `CallbackLists.CallbackList.Compact` | include/base/callback_list.h:169-183 | keeps the bound nodes in order, and runs the removal callback if there was another |
| `CallbackLists.Iterator.constructor` | include/base/callback_list.h:122-126 | a pass from the first node |
| `CallbackLists.Iterator.CopyOf` | include/base/callback_list.h:128-132 | a pass from the place of the other one |
| `CallbackLists.Iterator.Destroy` | include/base/callback_list.h:134-138 | the outermost pass compacts |
| `CallbackLists.Iterator.GetNext` | include/base/callback_list.h:140-150 | the next bound node, or null; end() stays end() when the list grows |
| `ThreadSafeObserverList.MovedPending` | include/base/observer_list_threadsafe.h:201-250 | what a sequence does by itself begins or drops exactly what it takes off the deliveries under way |
| `ThreadSafeObserverList.StepKeepsShape` | include/base/observer_list_threadsafe.h:173-250 | the thread-local notification is the one being dispatched, nested loops included, and a collecting frame holds the lock |
| `ThreadSafeObserverList.StepKeepsLocated` | include/base/observer_list_threadsafe.h:101-250 | a delivery under way is on a sequence where its observer was registered, and is registered unless it was removed since the notification was sent |
| `ThreadSafeObserverList.StepKeepsBalanced` | include/base/observer_list_threadsafe.h:101-250 | for every observer and notification, begun, dropped and pending deliveries add up to those handed out, after every step |
| `ThreadSafeObserverList.StepKeepsRecorded` | include/base/observer_list_threadsafe.h:101-250 | until its observer is removed after the notification was sent, a delivery is handed out at most once and not dropped; under EXISTING_ONLY at most once in any case |
| `ThreadSafeObserverList.RunKeepsInv` | include/base/observer_list_threadsafe.h:101-250 | all of this under every interleaving |
| `ThreadSafeDelivery.NoneLostNoneMadeUp` | include/base/observer_list_threadsafe.h:101-250 | whatever is removed and added again, no delivery begins that was not handed out, and when all queues have drained all have begun but those dropped because the observer was not registered |
| `ThreadSafeDelivery.DeliveredExactlyOnce` | include/base/observer_list_threadsafe.h:101-250 | an observer not removed since N was sent begins N at most once, and exactly once if owed when all queues have drained, however often it was removed and added before |
| `ThreadSafeDelivery.ExistingOnlyAtMostOnce` | include/base/observer_list_threadsafe.h:120-131 | under EXISTING_ONLY no observer begins a notification twice, removed and added again or not |
| `ThreadSafeDelivery.RegistrationFollowsTheCalls` | include/base/observer_list_threadsafe.h:101-142 | over every run an observer is registered where it was last added, unless it was removed since; nothing else registers, removes or sends |
| `ThreadSafeDelivery.HandedWhenOwed` | include/base/observer_list_threadsafe.h:115-204 | a delivery is handed out exactly when an observer is registered as N is sent, or is added under ALL from inside a dispatch of N |
| `ThreadSafeDelivery.DroppedWhenGone` | include/base/observer_list_threadsafe.h:223-229 | a delivery is dropped exactly when its check finds the observer not registered |
| `ThreadSafeDelivery.StaleIffRemovedSince` | include/base/observer_list_threadsafe.h:139-142 | which deliveries the exclusion covers: those of observers taken out after N was sent |
| `ThreadSafeDelivery.RegisteredIsSettled` | include/base/observer_list_threadsafe.h:221-231 | while an observer stays registered, nothing more is handed out or dropped of a notification that was sent |
| `ThreadSafeDelivery.StayingGetsTheRest` | include/base/observer_list_threadsafe.h:101-250 | exactly how often an observer that stays registered to the end gets N, whatever happened before |
| `ThreadSafeDelivery.BegunExactly` | include/base/observer_list_threadsafe.h:101-250 | in every run that drains, an observer begins N as often as it is owed less the times it is dropped; hence exactly when more than once |
| `ThreadSafeDelivery.TwiceOnlyIfReadded` | include/base/observer_list_threadsafe.h:115-131 | what being begun twice takes, in runs that have not drained too: ALL, a removal after N was sent, and being added again from inside its dispatch |
| `ThreadSafeDelivery.ReaddedGetsItTwice` | include/base/observer_list_threadsafe.h:115-131 | a run in which that happens |
| `ThreadSafeDelivery.OwedGetsItOnce` | include/base/observer_list_threadsafe.h:115-204 | an observer registered when N is sent, or added under ALL from inside a dispatch of N, and not removed since N was sent, gets N exactly once |
| `ThreadSafeDelivery.LatecomersGetNothing` | include/base/observer_list_threadsafe.h:120-131 | under EXISTING_ONLY an observer that was not registered when N was sent never gets N |
| `ThreadSafeObserverList.HistoryGrows` | include/base/observer_list_threadsafe.h:101-250 | callbacks begun, and observers removed after a notification, stay so |
| `ThreadSafeRemoval.StepKeepsClosed` | include/base/observer_list_threadsafe.h:162-204 | no step lets a dispatch of N past its check while the loop of N holds the lock |
| `ThreadSafeRemoval.SnapshotBeforeDispatch` | include/base/observer_list_threadsafe.h:162-231 | in every run no callback for N begins before the loop of N has released the lock |
| `ThreadSafeRemoval.GoneStaysGone` | include/base/observer_list_threadsafe.h:221-231 | once an observer is out and nobody has passed the check for it, no callback to it begins |
| `ThreadSafeRemoval.RemovedOnOwnSequence` | include/base/observer_list_threadsafe.h:134-142 | after a removal on the observer's own sequence no callback to it begins, whatever the other sequences do and have posted |
| `ThreadSafeRemoval.LateCallbackIffChecked` | include/base/observer_list_threadsafe.h:221-245 | a removed observer can still be called if and only if some sequence stands between its check and the callback |
| `ThreadSafeRemoval.RemovalFromElsewhereCanBeLate` | include/base/observer_list_threadsafe.h:134-142 | a run in which that happens |
| `ThreadSafeOrder.SentIsInTheMail` | include/base/observer_list_threadsafe.h:156-199 | what Notify, or NotifySynchronously on another sequence, sends to a registered observer is posted to its sequence or about to be |
| `ThreadSafeOrder.InTheMailRun` | include/base/observer_list_threadsafe.h:162-231 | what was posted to an observer that is not removed stays in its queue or in NotifyWrapper until its callback begins |
| `ThreadSafeOrder.BeforeStep` | include/base/observer_list_threadsafe.h:101-250 | no step, nested loops included, lets a later posted notification overtake an earlier one on the observer's sequence |
| `ThreadSafeOrder.LaterStaysBehind` | include/base/observer_list_threadsafe.h:162-231 | from every reachable state, what is posted to an observer now begins after what is posted to it already |
| `ThreadSafeOrder.DeliveredInOrder` | include/base/observer_list_threadsafe.h:156-250 | an observer that is posted N1 and then N2, and is not removed meanwhile, begins N1 before N2 |
| `ThreadSafeOvertaking.SyncOvertakesPosted` | include/base/observer_list_threadsafe.h:201-203 | a run after which NotifySynchronously on the observer's own sequence can overtake a posted notification |
| `ThreadSafeOvertaking.HeldStep` | include/base/observer_list_threadsafe.h:101-250 | while the first notification comes next on the observer's sequence, no step of any sequence lets the second begin before it |
| `ThreadSafeOvertaking.KeptInOrder` | include/base/observer_list_threadsafe.h:156-250 | when the condition holds, no continuation overtakes |
| `ThreadSafeOvertaking.PostedOvertakes` | include/base/observer_list_threadsafe.h:201-250 | when client code can run before the first begins, a run in which a posted second one begins first |
| `ThreadSafeOvertaking.SyncOvertakes` | include/base/observer_list_threadsafe.h:185-203 | a run in which NotifySynchronously on the observer's own sequence calls it before anything in its queue |
| `ThreadSafeOvertaking.OvertakesIff` | include/base/observer_list_threadsafe.h:156-250 | from every reachable state, exactly when the second of two notifications can overtake the first |
| `ThreadSafeOvertaking.PostedIsOvertakenIff` | include/base/observer_list_threadsafe.h:156-250 | the same for a first one that was posted: it has not begun and the second is sent by NotifySynchronously on the observer's own sequence |
| `ThreadSafeOvertaking.NestedLoopOvertakes` | include/base/observer_list_threadsafe.h:201-245 | a run in which a nested loop in a callback of a synchronous notification lets a later one overtake it |
| `ThreadSafeDraining.RunKeepsCollectors` | include/base/observer_list_threadsafe.h:185-199 | in every reachable state a sequence that is in the first loop of NotifySynchronously holds the lock |
| `ThreadSafeDraining.StepWorks` | include/base/observer_list_threadsafe.h:156-250 | every step that goes on with what is under way leaves less to do |
| `ThreadSafeDraining.GoingOnIsBounded` | include/base/observer_list_threadsafe.h:156-250 | without further calls by clients every run comes to an end |
| `ThreadSafeDraining.SomethingGoesOn` | include/base/observer_list_threadsafe.h:156-250 | and does not get stuck before all queues have drained, if no task waits on a sequence other than its observer's |
| `ThreadSafeDraining.NeverDrains` | include/base/observer_list_threadsafe.h:221-231 | a run after which the queues cannot drain: an observer is added again on another sequence while a task for it waits |
| `ThreadSafeDraining.DrainsIffAllAtHome` | include/base/observer_list_threadsafe.h:221-231 | from every reachable state the queues can drain if and only if no task waits, unchecked, on a sequence other than the one where its observer is registered |
| `LazyPointer.StepKeepsLock` | include/base/lazy_instance_helpers.h:18-33 | the word says "creating" exactly while one thread, and only one, is creating |
| `LazyPointer.RunKeepsInv` | include/base/lazy_instance_helpers.h:57-95 | the lock, and what every thread knows at its place, under every interleaving |
| `LazyPointer.OneInstance` | include/base/lazy_instance_helpers.h:57-95 | there is at most one instance, and whoever got an instance got that one, completed |
| `LazyPointer.CreatorRunsOnce` | include/base/lazy_instance_helpers.h:57-95 | while the creator has not returned null it has run at most once, and nobody has returned anything but its instance |
| `LazyPointer.OnceIffNeverNull` | include/base/lazy_instance_helpers.h:57-95 | when no call is about to complete, that holds if and only if the creator has not returned null |
| `LazyPointer.SomeoneGoesOn` | include/base/lazy_instance_helpers.h:57-95 | while some call has not returned, some thread can take a step: whoever waits, waits for one that can |
| `LazyPointer.EveryCallReturns` | include/base/lazy_instance_helpers.h:57-95 | however threads are scheduled, a run without new calls has at most four steps per thread, and one that cannot go on has let every call return |
| `LazyPointer.AllCanReturn` | include/base/lazy_instance_helpers.h:57-95 | from every reachable state all calls can return, and if the creator has not returned null each gets the one instance |
| `LazyPointer.FirstLoadGetsIt` | include/base/lazy_instance_helpers.h:75-76 | once there is an instance, a call gets it with its first load |
| `LazyPointer.NullCreatorLetsCreatingOut` | include/base/lazy_instance_helpers.h:86-94 | a run, without the DCHECK, in which a caller gets the value that means "creating" |
| `ScopedRefptrs.RefCountedBase.AddRef` | include/api/ref_counted_base.h:23-23 | one more reference |
| `ScopedRefptrs.RefCountedBase.Release` | include/api/ref_counted_base.h:24-31 | one reference less, and deletion with the last |
| `ScopedRefptrs.ScopedRefptr.Null` | include/api/scoped_refptr.h:76-76 | keeps the conservation law: for every object the count is its holding smart pointers plus released raw owners, and it is deleted exactly once, when that sum has come back to zero |
| `ScopedRefptrs.ScopedRefptr.OfRaw` | include/api/scoped_refptr.h:78-81 | takes a reference and keeps the law |
| `ScopedRefptrs.ScopedRefptr.CopyOf` | include/api/scoped_refptr.h:83-86 | shares and keeps the law |
| `ScopedRefptrs.ScopedRefptr.MoveOf` | include/api/scoped_refptr.h:95-95 | empties the other pointer, changes no count |
| `ScopedRefptrs.ScopedRefptr.Destroy` | include/api/scoped_refptr.h:100-103 | gives the reference up and keeps the law for the remaining pointers |
| `ScopedRefptrs.ScopedRefptr.ReleaseOwnership` | include/api/scoped_refptr.h:114-118 | the reference passes to a raw owner |
| `ScopedRefptrs.ScopedRefptr.AssignRaw` | include/api/scoped_refptr.h:120-128 | points to p and keeps the law; assigning the pointer it holds keeps the object alive with the same count |
| `ScopedRefptrs.ScopedRefptr.Assign` | include/api/scoped_refptr.h:130-132 | shares the target of r, r may be this pointer |
| `ScopedRefptrs.ScopedRefptr.Swap` | include/api/scoped_refptr.h:150-156 | exchanges the targets, also with itself |
| `ScopedRefptrs.ScopedRefptr.MoveAssign` | include/api/scoped_refptr.h:139-142 | takes the target of r over; a self-move keeps the object, its count and the pointer |
| `ScopedRefptrs.DropRaw` | include/api/scoped_refptr.h:109-118 | a raw owner gives its reference up |
| `ReleaseProtocols.SameHistory` | Spitfire/SetSessionDescriptionObserver.h:33-46 | on one thread every proper history of AddRef and Release has the same statuses and the same deletion point under both ways to release |
| `ReleaseProtocols.HistoryByCounting` | include/api/ref_counted_base.h:23-31 | which statuses and how many deletions: every release leaves other references, but the one that makes releases equal references taken |
| `ReleaseProtocols.SessionDescriptionObserver.AddRef` | Spitfire/SetSessionDescriptionObserver.h:33-36 | one more reference |
| `ReleaseProtocols.SessionDescriptionObserver.Release` | Spitfire/CreateSessionDescriptionObserver.h:27-40 | tests, then deletes or decrements |
| `ReleaseProtocols.StepKeepsSpitfireInv` | Spitfire/SetSessionDescriptionObserver.h:37-46 | the counter is the number of references left until one release has decided to delete, and no step deletes under a holder |
| `ReleaseProtocols.StepKeepsBaseInv` | include/api/ref_counted_base.h:23-31 | the same for decrement and test |
| `ReleaseProtocols.DecidesIffLast` | Spitfire/SetSessionDescriptionObserver.h:37-46 | under both ways a release decides to delete exactly when it holds the last reference |
| `ReleaseProtocols.BaseDeletesExactlyOnce` | include/api/ref_counted_base.h:23-31 | under every interleaving the object is deleted at most once, with no reference left, and exactly once when all references are given up |
| `ReleaseProtocols.SpitfireNeverDeletesEarlyOrTwice` | Spitfire/SetSessionDescriptionObserver.h:33-46 | under every interleaving it is deleted at most once, and never under a holder |
| `ReleaseProtocols.StrandedIsNeverDeleted` | Spitfire/SetSessionDescriptionObserver.h:37-46 | when every reference left is past the test, nothing deletes the object any more |
| `ReleaseProtocols.DecidedIsDeleted` | Spitfire/SetSessionDescriptionObserver.h:37-46 | once a release has decided to delete, the object is deleted when all are done |
| `ReleaseProtocols.SpitfireLeaksIffStranded` | Spitfire/SetSessionDescriptionObserver.h:33-46 | an object whose references are all given up is leaked if and only if the run passed a state where all that were left were past the test |
| `ReleaseProtocols.SerialReleasesDelete` | Spitfire/SetSessionDescriptionObserver.h:37-46 | releases that do not overlap delete the object exactly once |
| `ReleaseProtocols.TwoReleasesCanLeak` | Spitfire/CreateSessionDescriptionObserver.h:27-40 | a run with two references that leaks |
| `ConductorSpec.ObserveKeepsInv` | Spitfire/RtcConductor.cpp:285-295 | entering a channel keeps the registry: one observer per label, registered once, on a channel of that label |
| `ConductorSpec.UnobserveKeepsInv` | Spitfire/RtcConductor.cpp:237-246 | an observer that leaves the registry has been closed once and unregistered once |
| `ConductorSpec.UnobserveAllKeepsInv` | Spitfire/RtcConductor.cpp:133-135 | the same for all observers, in any order of the walk |
| `ConductorSpec.TornDownKeepsInv` | Spitfire/RtcConductor.cpp:117-149 | a teardown leaves every connection closed and every observer unregistered, before the signalling thread quits |
| `ConductorSpec.StepKeepsInv` | Spitfire/RtcConductor.cpp:52-295 | every call keeps the registry, the balance of connections made and closed and of threads started and quit, and the order of shutdown |
| `ConductorSpec.RunKeepsInv` | Spitfire/RtcConductor.cpp:52-295 | in every reachable state every observer ever made is in the map and untouched, or was closed once and then unregistered once; connections and threads that are gone were closed and quit; the signalling thread quits when all is silent, and the others after it |
| `ConductorSpec.NewConductorInv` | Spitfire/RtcConductor.cpp:9-16 | a new conductor satisfies the invariant, can be initialised, and has nothing but its observers |
| `ConductorSpec.FirstChannelWins` | Spitfire/RtcConductor.cpp:225-295 | until it is closed or torn down, the observer of a label is never replaced |
| `ConductorRegistry.BroughtIsEntered` | Spitfire/RtcConductor.cpp:225-295 | a handled channel, or one that the connection makes, gets a new observer, registered once, if its label is free; nothing else changes, and nothing at all for a taken label |
| `ConductorRegistry.ClosedIsLeft` | Spitfire/RtcConductor.cpp:237-246 | closing a label closes its channel, then unregisters its observer, and leaves the other labels alone |
| `ConductorRegistry.ConnectionFollowsTheCalls` | Spitfire/RtcConductor.cpp:52-149 | there is a connection exactly when the last initialisation or teardown was an initialisation that succeeded |
| `ConductorRegistry.RegisteredIff` | Spitfire/RtcConductor.cpp:117-295 | after any calls a label is registered exactly when a call brought a channel for it and nothing closed it or tore down since, and on the channel of the first such call |
| `ConductorRegistry.SentOnTheFirstChannel` | Spitfire/RtcConductor.cpp:277-283 | after any calls a message goes to that channel, and nowhere if there is none |
| `ConductorSpec.TornDownFields` | Spitfire/RtcConductor.cpp:117-149 | a teardown clears every field but the relay port factory |
| `ConductorSpec.TeardownInOrder` | Spitfire/RtcConductor.cpp:117-149 | the whole sequence of what a teardown does: connection, observers, threads, the queue of the caller |
| `ConductorSpec.TeardownChangesNothingIff` | Spitfire/RtcConductor.cpp:117-149 | a teardown changes no field if and only if the conductor is torn down already |
| `ConductorSpec.InitializeConnectsOrTearsDown` | Spitfire/RtcConductor.cpp:52-109 | initialisation starts the threads, asks for a connection with the servers and ports, and installs it, or leaves the conductor torn down |
| `ConductorSpec.FailedInitialize` | Spitfire/RtcConductor.cpp:52-109 | the whole sequence of what a failing initialisation does |
| `ConductorSpec.ConfiguredWithAllServers` | Spitfire/RtcConductor.cpp:40-47 | the first initialisation asks for a connection with exactly the servers added before, in order, and the given port range |
| `ConductorSpec.NoConnectionAfterTeardown` | Spitfire/RtcConductor.cpp:52-149 | after a teardown no run that keeps to the preconditions has a connection or a thread again |
| `ConductorOverlap.StepKeepsAccounted` | Spitfire/RtcConductor.cpp:285-295 | under every interleaving of calls that enter channels, every observer made is in the map, in the hands of one call, or lost |
| `ConductorOverlap.InMapOrLost` | Spitfire/RtcConductor.cpp:225-236 | when all calls have returned, every registered observer is in the map or lost, not both |
| `ConductorOverlap.LostIffRivals` | Spitfire/RtcConductor.cpp:225-295 | one is lost if and only if at some time two calls stood past a lookup that had not found the same label |
| `ConductorOverlap.FirstStaysWithoutRivals` | Spitfire/RtcConductor.cpp:230-231 | short of that the first channel for a label wins, overlapping calls or not |
| `ConductorOverlap.TwoCallsLoseOne` | Spitfire/RtcConductor.cpp:285-295 | a run in which two calls for one label lose an observer that is still registered |
| `Conductor.DataChannelObserver.constructor` | Spitfire/DataChannelObserver.h:15-20 | an observer that is not registered |
| `Conductor.DataChannelObserver.RegisterObserver` | Spitfire/DataChannelObserver.h:28-36 | registers once |
| `Conductor.DataChannelObserver.UnregisterObserver` | Spitfire/DataChannelObserver.h:37-48 | closes the channel, then unregisters |
| `Conductor.RtcConductor.constructor` | Spitfire/RtcConductor.cpp:9-16 | a conductor with a peer observer, session observers and nothing else |
| `Conductor.RtcConductor.AddServerConfig` | Spitfire/RtcConductor.cpp:151-160 | one more server with its user name and password, nothing else changes |
| `Conductor.RtcConductor.HandleDataChannel` | Spitfire/RtcConductor.cpp:285-295 | enters the channel unless its label is taken |
| `Conductor.RtcConductor.CreateDataChannel` | Spitfire/RtcConductor.cpp:225-236 | does nothing without a connection or for a taken label, otherwise enters the new channel |
| `Conductor.RtcConductor.CloseDataChannel` | Spitfire/RtcConductor.cpp:237-246 | closes, unregisters and forgets the observer of the label, if there is one |
| `Conductor.RtcConductor.Query` | Spitfire/RtcConductor.cpp:248-276 | what the channel of a label reports of itself, exactly when the label is registered |
| `Conductor.RtcConductor.SendToDataChannel` | Spitfire/RtcConductor.cpp:277-283 | sends on the channel of the label, or nothing |
| `Conductor.RtcConductor.UnregisterAll` | Spitfire/RtcConductor.cpp:133-135 | the loop unregisters every observer once and empties the map |
| `Conductor.RtcConductor.ClosePeerConnection` | Spitfire/RtcConductor.cpp:121-127 | closes a connection if there is one and drops the peer observer |
| `Conductor.RtcConductor.QuitThread` | Spitfire/RtcConductor.cpp:110-116 | quits a thread that exists, once |
| `Conductor.RtcConductor.DeletePeerConnection` | Spitfire/RtcConductor.cpp:117-149 | the whole teardown: all fields, with everything closed and unregistered, and the queue of the calling thread quit last, if it has one |
| `Conductor.RtcConductor.StartThreads` | Spitfire/RtcConductor.cpp:62-72 | the three threads are started |
| `Conductor.RtcConductor.ConfiguredServers` | Spitfire/RtcConductor.cpp:40-41 | the loop copies all servers in order |
| `Conductor.RtcConductor.CreatePeerConnection` | Spitfire/RtcConductor.cpp:26-51 | asks for a connection with the servers and the port range, and installs what the factory returns |
| `Conductor.RtcConductor.InitializePeerConnection` | Spitfire/RtcConductor.cpp:52-109 | returns true if and only if a connection is installed, and otherwise tears down |
| `IceRegex.Sound` | SpitfireUtils/IceParser.cs:79-98 | every match that the backtracking matcher finds is in the language of the expression |
| `IceRegex.Complete` | SpitfireUtils/IceParser.cs:79-98 | every prefix in the language is found |
| `IceRegex.MatcherFindsTheLanguage` | SpitfireUtils/IceParser.cs:79-98 | the two together, whatever the greediness and order of trying |
| `IceRegex.Search` | SpitfireUtils/IceParser.cs:122-122 | the leftmost position with a match, and the first match there |
| `IceRegex.FieldGives` | SpitfireUtils/IceParser.cs:96-97 | a captured field followed by white space ends where it must, if no other end can be continued |
| `IceRegex.TokenGives` | SpitfireUtils/IceParser.cs:79-82 | a field without white space, within its bound, is captured whole |
| `IceRegex.TokenFails` | SpitfireUtils/IceParser.cs:81-82 | a field longer than its bound makes the match fail, on every way of backtracking |
| `IceRegex.GreedyGives` | SpitfireUtils/IceParser.cs:98-98 | a field at the end is captured as far as its bound |
| `IceGrammar.ItemsGive` | SpitfireUtils/IceParser.cs:98-98 | from any combination of the optional attributes the expression captures their values, up to the first that is too long |
| `IceGrammar.AttributesAreItems` | SpitfireUtils/IceParser.cs:98-98 | the attributes of the expression have the names and the order in which they are written |
| `IceMatching.AddressShape` | SpitfireUtils/IceParser.cs:83-90 | what matches as an address has no white space, or of two neighbouring characters one is a digit: the dots are not escaped |
| `IceMatching.AddressGivesBeforeNumber` | SpitfireUtils/IceParser.cs:83-97 | still, an address before a port is captured alone |
| `IceMatching.AddressGivesBeforeWord` | SpitfireUtils/IceParser.cs:98-98 | and so is an address before a word |
| `IceAddresses.QuadsIff` | SpitfireUtils/IceParser.cs:83-83 | the first alternative accepts exactly four numbers of up to three digits with any characters but line feeds between them |
| `IceAddresses.HexAndColonsIff` | SpitfireUtils/IceParser.cs:84-84 | the second accepts exactly the texts of hexadecimal digits and colons, in any number and order |
| `IceAddresses.DomainNameIff` | SpitfireUtils/IceParser.cs:86-86 | the third accepts exactly domain names: labels of up to 63 characters, the last of at least two |
| `IceAddresses.AcceptedIff` | SpitfireUtils/IceParser.cs:83-90 | the expression accepts in full exactly these three kinds of addresses |
| `IceMatching.TailGives` | SpitfireUtils/IceParser.cs:98-98 | what is captured from the optional end of a line |
| `IceMatching.BodyGives` | SpitfireUtils/IceParser.cs:96-98 | what is captured from the fields of a line |
| `IceMatching.BodyFails` | SpitfireUtils/IceParser.cs:96-97 | no match if component, priority or port are too long |
| `IceMatching.StartsOnlyAtTheFront` | SpitfireUtils/IceParser.cs:96-96 | the word that starts a candidate is nowhere else in a line |
| `IceMatching.LineIsMatched` | SpitfireUtils/IceParser.cs:94-98 | the expression matches a well formed line if and only if component, priority and port are short enough; it matches at the front, and the groups are the fields |
| `IceMatching.SeenIsAPrefix` | SpitfireUtils/IceParser.cs:98-98 | what is matched is a beginning of the line |
| `IceParser.ReadGroup` | SpitfireUtils/IceParser.cs:133-184 | a group goes into its own field, a blank one is skipped, an unreadable one fails |
| `IceParser.ReadGroups` | SpitfireUtils/IceParser.cs:129-190 | the loop returns the record of all groups, or fails if any one cannot be read |
| `IceParser.MasterHasThirteenGroups` | SpitfireUtils/IceParser.cs:125-128 | the guard on the number of groups never fails by itself |
| `IceParser.Parse` | SpitfireUtils/IceParser.cs:119-191 | the record of the leftmost match, or a failure |
| `IceRoundTrip.ParseDec` | SpitfireUtils/IceParser.cs:145-176 | a decimal number is read back, and rejected exactly above the maximum of its type |
| `IceRoundTrip.CutOfDec` | SpitfireUtils/IceParser.cs:98-98 | cutting off digits leaves the number that the leading digits make |
| `IceRoundTrip.GroupsHoldFields` | SpitfireUtils/IceParser.cs:139-183 | every group of a printed line holds its own field, an absent one is empty |
| `IceRoundTrip.LineIsRead` | SpitfireUtils/IceParser.cs:119-191 | parsing a printed line reads the fields of what was seen of it |
| `IceRoundTrip.TransportIff` | SpitfireUtils/IceParser.cs:72-111 | "udp" and "tcp", however capitalised, and nothing else, name the transports |
| `IceRoundTrip.TypeIff` | SpitfireUtils/IceParser.cs:64-202 | so do "host", "srflx", "prflx" and "relay" the types |
| `IceRoundTrip.UnknownNameIsRejected` | SpitfireUtils/IceParser.cs:107-111 | a line whose transport or type is none of these words is rejected |
| `IceRoundTrip.OddFoundationIsRejected` | SpitfireUtils/IceParser.cs:144-146 | a foundation that is not a number, with or without a plus sign, is rejected |
| `IceRoundTrip.PlusIsIgnored` | SpitfireUtils/IceParser.cs:144-146 | a plus sign in front of the foundation changes nothing but the text |
| `IceRoundTrip.PrintedIsParsed` | SpitfireUtils/IceParser.cs:119-202 | for all numbers, what parsing a printed candidate returns: a record or a failure |
| `IceRoundTrip.RoundTrip` | SpitfireUtils/IceParser.cs:119-202 | a printed candidate, with any combination of optional fields and any capitalisation, comes back with the same transport, type, addresses and numbers if and only if its numbers are in range |
| `IceRoundTrip.RejectedIff` | SpitfireUtils/IceParser.cs:119-202 | exactly which candidates are rejected |
| `IceRoundTrip.LongRemotePortIsCutOff` | SpitfireUtils/IceParser.cs:92-98 | a remote port of 100000 is read as 10000 and the later attributes are lost |
| `IceWhiteSpace.RunAlike` | SpitfireUtils/IceParser.cs:79-98 | an expression without white space in its literals finds the same matches in texts that differ only in their white space |
| `IceWhiteSpace.AnyWhiteSpace` | SpitfireUtils/IceParser.cs:94-202 | a printed candidate with any white space but line feeds between its fields is parsed like the one with spaces |
| `SendTime.DeltaIsCentred` | include/api/rtp_headers.h:108-113 | the shifts give the difference modulo 2^24, between -2^23 and 2^23 |
| `SendTime.DeltaRecovers` | include/api/rtp_headers.h:108-113 | the delta of the low 24 bits is the true difference if and only if that is less than half a period |
| `SendTime.DeltasTelescope` | include/api/rtp_headers.h:108-113 | over any sequence of true times with smaller gaps the deltas sum to the exact difference, however often the counter wraps |
| `SendTime.TruncDivError` | include/api/rtp_headers.h:104-114 | the division drops the fraction, toward zero on either side |
| `SendTime.TimestampIsWholeMicros` | include/api/rtp_headers.h:101-106 | a timestamp is the whole number of microseconds in the ticks, 2^18 to a second |
| `SendTime.DeltaMicrosTowardZero` | include/api/rtp_headers.h:108-115 | a delta in microseconds is the true difference without its fraction, toward zero on either side |
| `SendTime.MicrosWithinOneEach` | include/api/rtp_headers.h:108-115 | n results in microseconds sum to within n microseconds of the true duration |
| `SendTime.TimestampsAgreeWithDelta` | include/api/rtp_headers.h:101-115 | timestamps and deltas agree to two microseconds, and 64 bits do not overflow |
| `BigEndian.ValueOfBytes` | include/base/big_endian.h:33-39 | spelling a value and reading it is the identity modulo 256^n |
| `BigEndian.BytesOfValue` | include/base/big_endian.h:21-29 | reading bytes and spelling the value, up to multiples of 256^n, restores the bytes |
| `BigEndian.ByteAt` | include/base/big_endian.h:33-39 | byte i of n has the weight 256^(n-1-i): the most significant one comes first |
| `BigEndian.ValueFromTheFront` | include/base/big_endian.h:21-29 | the first byte that is read has the greatest weight |
| `BigEndian.WriteThenRead` | include/base/big_endian.h:21-39 | for every width and signedness, write then read returns the value |
| `BigEndian.ReadThenWrite` | include/base/big_endian.h:21-39 | read then write restores the bytes |
| `BigEndian.SignIsShiftedOut` | include/base/big_endian.h:23-28 | the sign of the first char is off by a multiple of 256^n after the shifts |
| `BigEndian.ShiftAndOr` | include/base/big_endian.h:25-27 | one turn of the loop in T is one turn in unbounded arithmetic, converted to T |
| `BigEndian.ReadBigEndian` | include/base/big_endian.h:21-29 | the loop returns the value that the unsigned bytes spell, converted to T |
| `BigEndian.WriteBigEndian` | include/base/big_endian.h:33-39 | the loop writes the bytes of the value and nothing beyond them |
| `Slices.ReadFindsOrigin` | SpitfireUtils/DataChannelUtils.cs:78-83 | what the loop reads next within one array, after its own writes |
| `Slices.Slice` | SpitfireUtils/DataChannelUtils.cs:72-85 | a block copy between two arrays; within one array the bytes that repeated reading finds; nothing outside the window changes |
| `Slices.Resize` | SpitfireUtils/DataChannelUtils.cs:50-63 | copies the first count bytes and keeps the rest; one array as both, and a negative count, change nothing |
| `Slices.MemorySlice` | SpitfireUtils/DataChannelUtils.cs:34-42 | a block copy |
| `Slices.SmearedIsBlockCopy` | SpitfireUtils/DataChannelUtils.cs:72-85 | downwards, or without overlap, the byte loop is a block copy of the old contents |
| `Slices.SmearedDiffers` | SpitfireUtils/DataChannelUtils.cs:72-85 | upwards with overlap it is not, where the first bytes of the windows differ |
| `Slices.SmearedIsBlockCopyIff` | SpitfireUtils/DataChannelUtils.cs:72-85 | it is one on all contents if and only if the windows do not overlap upwards |
| `Slices.UpwardCopyIsPeriodic` | SpitfireUtils/DataChannelUtils.cs:78-83 | copying upwards by d repeats the first d bytes with period d |
| `Slices.PieceOutAndBack` | SpitfireUtils/DataChannelUtils.cs:72-85 | slicing a piece into a buffer of its own and back puts it at the same place and changes nothing else |
| `Slices.OutAndBack` | SpitfireUtils/DataChannelUtils.cs:72-85 | slicing pieces of any lengths out of source and back leaves the bytes of source there and nothing else changed, in two arrays or within one; pieces that make up all of it restore the source |

## Left out

- The checked observer adapter and weak pointers: only the unchecked adapter, where a marked slot is a null pointer.
- Sequence checkers, logging, `check_empty` and `allow_reentrancy`: assertions without effect on the lists.
- `base::LinkedList` pointers: the live iterators are a sequence in the order of the list.
- `size_t` and counter overflow: indices, counts and identities are unbounded.
- CallbackLists.CallbackList: destruction of a list, and a removal callback that destroys it, are not modelled; removal callbacks are recorded, not run.
- `CallbackList::Notify` as a method: its callbacks are arbitrary client code, so a Notify is a stretch of a run in `NotifyCallsTheSubscribed`.
- ThreadSafeObserverList: each sequence has one thread and a first-in first-out queue, `AddObserver` outside a sequence (which returns at once) is not a step, and the lock's memory order is sequentially consistent.
- LazyPointer: `NeedsLazyInstance` and `CompleteLazyInstance` are taken at their documented contracts, since their bodies are not in the repository, and atomic operations are sequentially consistent; registration of the destructor is left out.
- ScopedRefptrs: conversions between element types, comparison and the atomicity of the counter (the interleavings of Release are in `ReleaseProtocols`).
- Conductor.RtcConductor.CreatePeerConnection: leaves the fixed policies of the configuration and the allocator out; what WebRTC answers is a parameter, and the failure of a `new` is not modelled.
- Conductor: calls do not overlap there; overlap is modelled for the two calls that enter a channel (`ConductorOverlap`), with each of lookup, registration and entry atomic, and not for closing, sending and teardown.
- Conductor.RtcConductor.Query: what a channel reports of itself is WebRTC's, and a parameter here.
- Offers, answers, session descriptions and remote candidates (Spitfire/RtcConductor.cpp:161-223): forwarding to WebRTC.
- IceRegex: `\d` stands for the ASCII digits only, where .NET accepts every Unicode decimal digit; only `generation` uses it.
- IceParser.Parse: numbers have no sign but `+` and no white space around them, as no group can hold either; `ToLower` maps ASCII letters; all exceptions are one failure without its message.
- IceRoundTrip.RoundTrip: addresses are those that the expression accepts in full (`AcceptedIff`) and that have no white space in them.
- IceWhiteSpace.AnyWhiteSpace: a line feed between fields is not covered, since the unescaped dots tell it from other white space.
- Slices.MemorySlice: overlapping windows are excluded, since the native copy does not define them; offsets are those that fit, since the source works on raw pointers without checks.
- SpitfireRtc.cpp, the observers that forward callbacks to function pointers, and the managed wrappers: marshalling without an invariant of its own.
- Parts of the headers that only declare interfaces or plain records.
