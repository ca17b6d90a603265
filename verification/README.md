# Verified model of the framework and message service

This project models the parts of the repository that carry real state, branching or arithmetic, and proves what they
promise. It is written for Dafny 4.11; `dafny verify dfyconfig.toml` checks all of it.

| file | what it models |
|---|---|
| `JsonTree`, `JsonLaws`, `MergeHeap` | configuration merging: the meaning of `Merge` on document values, its laws, and the stack-driven in-place code on a heap of maps and slices |
| `Lease`, `LeaseUse`, `LeaseClient` | the Redis lease lock: the atomic scripts, a network that delays, reorders and loses, what a client may conclude from an answer, and the client code |
| `Allocator`, `AllocatorNames` | the block id allocator with many processes, restarts and failing or unanswered reservations, and with several generator names |
| `SceneCopy` | copying an application: three collections, renaming, skipping, forced overwrite, compensating deletes |
| `TargetRemoval` | deleting the reached receivers from a slice while ranging over it |
| `MessageStatus`, `MessageStore`, `UserCache` | the life of a message: its status, its two storage tiers, the pull queue of each user |
| `Base64`, `Aes`, `ConfigStore`, `Credentials` | padding, chaining and base64 around an abstract block cipher, the license decryptor, the store of class configurations, and its inherited credentials |
| `Diff`, `Trace` | the two-pointer list difference, and the levels printed by the RPC interceptors |

Code that changes state is a class or a method here too, and each such method is proved equal to a specification
function; the properties are then lemmas about those functions, over all inputs and all runs.

Findings, each with a lemma that says exactly when the code does what it is for:

- `Merge` of a document with itself gives the document back exactly if it holds no null (`JsonLaws.MergeIdempotent`),
  and merging is associative exactly if no middle document hides a container behind another kind
  (`JsonLaws.MergeAssociative`).
- When the class of a cached message becomes persistent, updates of the message report success and are lost
  (`MessageStore.LostAfterSwitch`).
- A failing reservation makes the allocator hand out ids below the base; ids stay distinct over all processes exactly
  if at most one reservation ever fails (`Allocator.NoIdTwice`), and a process's ids increase exactly if none of its
  reservations fails after its first id (`Allocator.IdsIncrease`).
- Generator names of one process share a block: while no reservation fails, every name issues distinct ids in all runs
  exactly if no process uses two names (`AllocatorNames.NeverTwiceIffOneNameEach`).
- Acting on a lock's positive answer until its time is over is right in every run exactly if the client, under that id,
  asks for no lock after an unlock and refreshes for no less time than any of its leases
  (`LeaseUse.RightIffSafeUse`): an unlock delayed past the next lock of the same id ends that lock, and so does a
  shorter refresh. A client that does either can be made to share the key with any other (`LeaseUse.UnsafeUseShares`).
- The unique index that `scripts/xdm_init.mongodb` puts on scene relations does not include the application, so that a
  copy with any relation to copy fails (`SceneCopy.IndexForbidsRelations`). Copying an application onto itself by
  force erases it (`SceneCopy.ForcedSelfCopyErases`). Copied classes keep the parent id they had, which as a rule is
  not an id of the new application (`SceneCopy.CopiedParent`). After a failed insert the new application is empty
  exactly if the deletions that also fail had nothing to delete (`SceneCopy.EmptyIffDeleted`).
- The redirect slices out of bounds exactly if the last receiver of the target is reached and listed before
  (`TargetRemoval.RedirectPanicsIffLastReachedTwice`). A send keeps pull queues free of repeated ids exactly if its
  target names no one twice (`UserCache.SendKeepsDistinctIffClean`).
- A broadcast message none of whose receivers got a first status is stored with an empty status map that comes back
  nil, and every later write to it panics (`MessageStatus.PanicsIffNoneMarked`). The older send gives the first status
  to the receivers named in the request, and only then, in listening mode, replaces them by those who listen: sent to
  no one by name, such a message panics however many receive it. One that gave anyone a first status never does, even
  if all its receivers were removed since.
- A bulk status update by class ids looks up those classes only, but finds each message's class under its subclass: a
  message of a child class is skipped, although its own request would update it (`MessageStatus.ParentSkipsChild`).
  The bulk request does what one request for each message it matches would do exactly under the condition of
  `MessageStatus.BulkIsSinglesIff`.
- A failed existence read counts as a free class id: a step breaks the uniqueness of class ids exactly if it is a
  creation whose existence read failed while the class was stored (`ConfigStore.UniqueIffNotDoubled`).
- Deleting a listening class can fail after the document is gone (`ConfigStore.FailureLeavesCollection`), and updates
  that switch listening on or off leave user lists behind (`ConfigStore.ListsKeptIffNoDrift`).
- The credentials in an update are validated and encrypted but not among the fields written, so the password of a
  class is the one of its creation (`Credentials.DecryptOnce`).
- One trace level is a string prefix of another exactly if its place is above the other's, or its last number is cut
  short in the other (`Trace.BarePrefixIff`); the second cannot happen below a hundred calls
  (`Trace.BarePrefixBelowHundred`) and does for every call from the hundredth on (`Trace.BarePrefixMisleads`). With a
  dot appended the prefix always tells the truth (`Trace.DottedPrefixIffAncestor`).
- The second lock's deferred delete is not checked: its value holds the key afterwards exactly in the cases of
  `LeaseClient.KeyStaysIff`.

## Model

| member | source | states |
|---|---|---|
| MergeHeap.Copy | framework/variant/variant.go:95-112 | the copy consists of fresh nodes only, denotes the old document without the null entries of its objects, and panics exactly on a null inside an array |
| MergeHeap.SetChild | framework/variant/value.go:97-141 | setting an entry of a map to nil removes the key, setting an element of a slice to nil panics, a key that does not fit changes nothing, and no other entry changes |
| MergeHeap.ToArray | framework/variant/value.go:360-390 | a new slice with the same elements |
| MergeHeap.Merger.Visit | framework/variant/variant.go:172-207 | one key of the new document, with the stack as found afterwards: the container on top holds the overlay at that key and is otherwise unchanged, whatever was there |
| MergeHeap.Merger.KeepArray | framework/variant/variant.go:191-203 | where both sides hold an array the old elements stay |
| MergeHeap.Merger.Descend | framework/variant/variant.go:183-190 | where both sides hold an object the pushed destination ends as the overlay, and the stack is back to what it was |
| MergeHeap.Merger.Traverse | framework/variant/value.go:153-166 | for every order in which the keys are visited the destination ends as the overlay of the two objects, and only nodes of the copy at or below it are written |
| MergeHeap.Merger.TraverseElems | framework/variant/value.go:161-165 | for two root arrays: element by element, panicking exactly if a null meets an element |
| MergeHeap.MergeTwo | framework/variant/variant.go:150-212 | the in-place merge denotes the recursive specification `MergeTrees`, returns nil and panics exactly where that says so, and changes no map or slice that existed before |
| MergeHeap.MergeAll | framework/variant/variant.go:214-231 | the variadic merge is the left fold of the two-document merge over all arguments that are not nil, and changes none of them |
| JsonLaws.MergeMeaning | framework/variant/variant.go:150-212 | which roots are merged, exactly when it panics, and arrays element by element at the length of the old one |
| JsonLaws.OverlayMeaning | framework/variant/variant.go:172-207 | at every path of shared objects: which keys the merge has and the value at each, nested nulls of the new document kept and old arrays staying under new ones |
| JsonLaws.CopyableMeaning | framework/variant/variant.go:95-112 | a document can be copied if and only if no array anywhere in it holds a null |
| JsonLaws.MergeOfTwo | framework/variant/variant.go:214-231 | the variadic merge of two documents is the one of `merge` |
| JsonLaws.FoldSnoc | framework/variant/variant.go:214-231 | one more document at the end of any merge: a panic stays, nil changes nothing, a first document is itself, any other is merged underneath the result so far |
| JsonLaws.GetAfterMergeAll | framework/variant/variant.go:214-231 | a dotted-path get of a merge of any number of objects returns the scalar of the document that has one, if those before it leave the path untouched and no later one meets an array of it on the way |
| JsonTree.CompactPruned | framework/variant/variant.go:97-108 | no object in a copy stores a null, and only null copies to null |
| JsonLaws.CompactIdentity | framework/variant/variant.go:95-112 | copying is the identity exactly on null-free documents |
| JsonLaws.OverlaySelf | framework/variant/variant.go:172-207 | laying a document over its own copy changes nothing |
| JsonLaws.MergeIdempotent | framework/variant/variant.go:148-212 | merging an object with itself gives it back if and only if it is null-free |
| JsonLaws.AddsNothingMeaning | framework/variant/variant.go:172-207 | laying one document under another changes nothing exactly if, at every path of shared objects, it has no further key |
| JsonLaws.OverlayAssociative | framework/variant/variant.go:172-207 | on null-free documents the overlay is associative if and only if kinds agree along shared paths |
| JsonLaws.MergeAssociative | framework/variant/variant.go:149-232 | the same for whole merges of objects |
| JsonLaws.GetAfterMerge | framework/variant/variant.go:51-68 | a dotted-path get of a merge returns the new scalar where the new document has one (the old value where two arrays meet on the way), and the old value at paths the new document does not touch |
| JsonLaws.GetNewScalar | framework/variant/variant.go:51-68 | the scalar half on the overlay itself, for any two documents |
| JsonLaws.GetUntouched | framework/variant/variant.go:51-68 | the untouched half on the overlay itself |
| JsonLaws.GetCompact | framework/variant/variant.go:51-68 | a get of the copy is the copy of the get |
| JsonLaws.GetElement | framework/variant/value.go:59-78 | a key finds an element of an array if and only if it is the base-ten number of its place, of 32 bits, with or without a sign |
| Lease.RunKeepsInv | framework/database/redis.go:18-30 | in every run of clients, network and clock, each id's record of its last grant agrees with the server, and no undelivered or believed answer promises more than the server granted |
| Lease.HolderIsTheGrantee | framework/database/redis.go:18-30 | in every run an id holds the key if and only if its last grant was not deleted by itself and has not run out |
| Lease.AtMostOneLease | framework/database/redis.go:18-30 | in every run at most one id owns an unexpired lease |
| Lease.OthersStep | framework/database/redis.go:26-30 | a step of anyone else (a stale unlock included) leaves an unexpired lease in place and gives the id none |
| Lease.LeaseSurvivesOthers | framework/database/redis.go:506-517 | whatever others, the network and the clock do, an id keeps the key until its lease ends, unless a request of its own takes effect |
| LeaseUse.RightIffSafeUse | framework/database/redis.go:506-555 | for the sequence of requests a client sends under an id, where after an unlock it takes no answer until it has asked again: acting on a positive answer until T + t is right in every run of any network if and only if no request that can be granted is sent after an unlock and no refresh is for less time than any of the leases, whichever of the two is sent first |
| LeaseUse.SafeUseIsRight | framework/database/redis.go:506-535 | under such a use a client whose answer to a request of time T with lease t is not over holds the key, late retries and lost replies included |
| LeaseUse.OneLengthIsSafe | framework/database/redis.go:519-555 | in particular a client that locks, and locks again, for one length of time, and unlocks at the end |
| LeaseUse.LateUnlockMisleads | framework/database/redis.go:551-555 | for every sequence with a lock after an unlock, a run in which the unlock is delayed past the grant and takes the key away while its client relies on it |
| LeaseUse.ShortRefreshMisleads | framework/database/redis.go:18-20 | for every sequence with a refresh for less time than a lock, a run in which it ends the lease before that answer says |
| LeaseUse.OneBeliever | framework/database/redis.go:506-535 | two clients with safe uses never both rely on the key |
| Lease.BeliefIsSound | framework/database/redis.go:506-517 | also for clients that unlock and lock again: an answer holds until T + t if it is the last of that id to have taken effect |
| Lease.TwoBelieversImpossible | framework/database/redis.go:519-550 | no two clients rely on such last answers at once |
| LeaseUse.UnsafeUseShares | framework/database/redis.go:519-555 | every client with an unsafe use can be made to rely on the key together with any other that locks once |
| Lease.LosingTryLockDelete | framework/lock/lock.go:74-91 | the deferred delete of a TryLock that lost never removes a lease of another id, however late it runs |
| LeaseClient.RedisServer.EvalLock | framework/database/redis.go:18-23 | the lock script, command by command, is the atomic step of the protocol |
| LeaseClient.RedisServer.EvalDel | framework/database/redis.go:26-30 | likewise the delete script |
| LeaseClient.RedisServer.SetNX | framework/lock/lock.go:83 | the set-if-absent step, without expiry for a zero duration |
| LeaseClient.RedisLock.TryLock | framework/database/redis.go:506-517 | one attempt under each fate of its request and reply |
| LeaseClient.RedisLock.LockRetry | framework/database/redis.go:519-535 | returns at the first attempt that is granted and answered, holding the lease from that moment, or at cancellation |
| LeaseClient.RedisLock.Unlock | framework/database/redis.go:551-555 | runs the delete step for its own id, unless the request is lost |
| LeaseClient.LockAndRun | framework/lock/lock.go:74-91 | SETNX, the body and the deferred delete, under each fate of both requests |
| LeaseClient.HolderThrough | framework/lock/lock.go:83-90 | while only others act, a granted value holds the key exactly as long as its lease lasts |
| LeaseClient.KeyStaysIff | framework/lock/lock.go:74-91 | afterwards the value holds the key if and only if the delete never reached the server and the value held it before, or was granted it unanswered, or was granted it for longer than the body took |
| LeaseClient.LostReplyRecovers | framework/database/redis.go:17-23 | when a grant's reply was lost, the next answered attempt within the lease succeeds |
| Allocator.Process.GenerateIds | framework/database/mongo_setting.go:23-47 | adds the count to the shared counter and returns its new value; -1 if the reservation was refused, or was made and its answer cannot be used |
| Allocator.Setting.FindOneAndUpdate | framework/database/mongo_setting.go:24-34 | the counter before an atomic increment; no change if refused; the increment without an answer |
| Allocator.Process.Allocate | framework/database/mongo_setting.go:62-75 | the package variables and the id after one call are those of the specification step `Next` |
| Allocator.RunKeepsInv | framework/database/mongo_setting.go:23-78 | in every run each id below the counter is issued, held by one process or lost, and the held ids are the rests of the blocks |
| Allocator.NoIdTwice | framework/database/mongo_setting.go:23-78 | over all interleavings, restarts and failures no reserved id is issued twice, and no id at all exactly if at most one reservation failed |
| Allocator.Conservation | framework/database/mongo_setting.go:23-78 | counter minus 10000000 is always the ids issued plus those still held plus those lost to restarts and unanswered reservations, in whole blocks |
| Allocator.IdsIncrease | framework/database/mongo_setting.go:62-75 | between restarts a process's ids strictly increase exactly if no reservation of its failed after its first id |
| AllocatorNames.NeverTwiceIffOneNameEach | framework/database/mongo_setting.go:11-14 | with a counter for each name and the block shared by a process: no name issues an id twice in any fault-free run over a given use of names if and only if no process uses two names |
| AllocatorNames.ProjectionAgrees | framework/database/mongo_setting.go:49-78 | where no process uses two names, what happens under one name is a run of the single-name allocator |
| AllocatorNames.TwoNamesCollide | framework/database/mongo_setting.go:62-75 | any process that uses two names can issue an id twice, on its own |
| SceneCopy.Store.CopySceneRelation | src/restful/services/scenes.go:523-704 | the whole procedure, for every outcome of its finds, inserts and deletions, is the specification `CopyApp` |
| SceneCopy.Store.ReadExisting | src/restful/services/scenes.go:534-593 | collects the class, template and scene ids of the new application in order |
| SceneCopy.Store.BuildConfigs | src/restful/services/scenes.go:594-618 | the renamed copies, in order, of the old application's classes whose new id does not exist |
| SceneCopy.Store.BuildTemplates | src/restful/services/scenes.go:619-643 | likewise for templates |
| SceneCopy.Store.BuildRelations | src/restful/services/scenes.go:644-668 | likewise for relations, whose scene id is kept and both references renamed |
| SceneCopy.Store.InsertDocuments | src/restful/services/scenes.go:669-702 | the three inserts, with the deletions in the new application when one fails, whichever of these take effect |
| SceneCopy.CopyOutcome | src/restful/services/scenes.go:523-704 | documents of all other applications never change; a success adds exactly the copies to what the new application started with; a failed find leaves that; a failed insert leaves that and what was put in, but for the collections whose deletion takes effect |
| SceneCopy.InsertsInOrder | src/restful/services/scenes.go:669-702 | classes are put in before templates and these before relations, each in order up to where its insert stops |
| SceneCopy.FirstClashMeaning | scripts/xdm_init.mongodb:18-21 | the index stops at the first relation with the scene, tenant and instance of one stored or just inserted |
| SceneCopy.ClassesStored | src/restful/services/scenes.go:602-616 | after a success a class is stored if and only if it was and was not deleted first, or it is a class of the old application with the id renamed, the application the new one and every other field as it was |
| SceneCopy.TemplatesStored | src/restful/services/scenes.go:626-641 | the same for templates |
| SceneCopy.RelationsStored | src/restful/services/scenes.go:651-667 | the same for relations, with both references renamed and scene, tenant, instance and the rest as they were |
| SceneCopy.EmptyIffDeleted | src/restful/services/scenes.go:669-702 | after a failed insert the new application is empty if and only if each deletion that fails too is of a collection that held nothing and was put nothing in |
| SceneCopy.ClassesAfterCopy | src/restful/services/scenes.go:594-618 | after a success the new application has a class id exactly if it started with it or it is the renamed id of a class of the old one |
| SceneCopy.TemplatesAfterCopy | src/restful/services/scenes.go:619-643 | the same for templates |
| SceneCopy.CopiedRelationResolves | src/restful/services/scenes.go:644-668 | a copied relation points to a class (template) of the new application exactly if its original's belonged to the old one, or the new one started with that id |
| SceneCopy.CopiedParent | src/restful/services/scenes.go:611-613 | a copied class's parent is in the new application exactly if that started with a class of the unchanged id, or the id is itself a renamed one; the parent's copy is there under the renamed id |
| SceneCopy.RenameInjective | src/restful/services/scenes.go:612 | renaming by suffix is injective |
| SceneCopy.ClassIdsStayDistinct | src/restful/services/scenes.go:611-617 | class ids end unique in the new application exactly if those it started with are and, when forced, none of them is a renamed id |
| SceneCopy.TemplateIdsStayDistinct | src/restful/services/scenes.go:636-642 | the same for template ids |
| SceneCopy.SceneIdsStayDistinct | src/restful/services/scenes.go:661-667 | the same for scene ids, which are not renamed |
| SceneCopy.SecondCopyAddsNothing | src/restful/services/scenes.go:530-593 | after a success an unforced copy changes nothing and cannot fail at an insert |
| SceneCopy.IndexForbidsRelations | scripts/xdm_init.mongodb:18-21 | under the unique index a copy succeeds if and only if it has no relation to copy |
| SceneCopy.ForcedSelfCopyErases | src/restful/services/scenes.go:530-533 | a forced copy of an application onto itself whose deletions take effect deletes it and reports success |
| TargetRemoval.Message.DeleteAt | src/restful/services/messages.go:2203 | append of the two halves shifts the shared backing array and shortens the slice, and panics exactly past its end |
| TargetRemoval.Message.RemoveReceiver | src/restful/services/messages.go:2201-2205 | one pass over the stale slice header drops each receiver it reads and passes over the element after it, and panics exactly if the last element is the receiver and an earlier one is too |
| TargetRemoval.Message.CollectReached | src/restful/services/messages.go:2182-2189 | the reached receivers in the order of the target |
| TargetRemoval.Message.Redirect | src/restful/services/messages.go:2182-2207 | collecting the reached receivers and removing each, against the specification `Redirected` |
| TargetRemoval.RedirectPanicsIffLastReachedTwice | src/restful/services/messages.go:2198-2207 | for every target the loops go out of bounds if and only if the last receiver listed is reached and listed before |
| TargetRemoval.RedirectRemovesReached | src/restful/services/messages.go:2198-2207 | whenever they do not, they remove exactly the reached receivers and keep the order when two or more were reached, and change nothing otherwise, repeated names included |
| MessageStatus.Message.ValidateForBroadcast | src/restful/services/messages.go:2505-2520 | the broadcast check and write, with the panic on a nil map |
| MessageStatus.Message.ValidateUpdate | src/restful/services/messages.go:730-786 | the update check of every message type, with its error codes, is the rule `Update` |
| MessageStatus.Message.ValidateDelete | src/restful/services/messages.go:965-996 | the deletion check is the rule `Delete` |
| MessageStatus.UpdateDoneIff | src/restful/services/messages.go:730-786 | an update is done if and only if the status is a state, not "deleted", not the current one, the current one is not "deleted", the user is a receiver where the class is exclusive, and the map is not nil for a broadcast; then the status is the one asked for and nothing else differs, and otherwise nothing does |
| MessageStatus.UpdateErrors | src/restful/services/messages.go:730-786 | which error each refusal names |
| MessageStatus.DeleteDoneIff | src/restful/services/messages.go:965-996 | the same for a deletion, which leaves "deleted" |
| MessageStatus.LastDoneStays | src/restful/services/messages.go:730-996 | in every run the status (a user's own entry of a broadcast) is the one wanted by the last action done, or the first one if none was |
| MessageStatus.Message.SetDefault | src/restful/services/messages.go:2432-2456 | the initial status, per receiver for a broadcast; panics exactly where a state is needed and the class has none |
| MessageStatus.Message.Create | src/restful/services/messages.go:577-618 | the two sends: the older gives the first status to the receivers requested before listeners replace them, the newer (messages.go:698-726, 1876-1891) after |
| MessageStatus.FirstStatus | src/restful/services/messages.go:2432-2456 | each receiver that gets a first status, and no one else, has the first state; any other message has it as its status; it panics exactly where a state is needed and there is none |
| MessageStatus.BulkUpdate | src/restful/services/messages.go:907-960 | the loop, with its own copy of every check, over the messages and classes it is given, is the rule `Update` mapped over them, keeping the successes in order |
| MessageStatus.UpdateMany | src/restful/services/messages.go:862-962 | the whole bulk request: the messages its query selects, the classes whose ids it asks for, and the loop |
| MessageStatus.BulkOfLoaded | src/restful/services/messages.go:898-909 | the loop does to a message whose subclass was asked for what its own request does, and skips any other |
| MessageStatus.BulkIsSinglesIff | src/restful/services/messages.go:862-962 | the bulk request does what one request for each message it matches does if and only if a message it selects, with a subclass asked for, panics, or every message that its own request updates or panics on is selected and has a subclass asked for |
| MessageStatus.BulkIsSinglesIffAddressed | src/restful/services/messages.go:2085-2110 | with no panics and messages as created: if and only if every message that its own request updates has a subclass asked for and, unless exclusive or broadcast, names the user as a receiver |
| MessageStatus.ParentSkipsChild | src/restful/services/messages.go:898-909 | a message that its own request updates is skipped by a bulk request for its class id exactly if its subclass is another, and updated by one for its subclass id |
| MessageStatus.StatusStaysInStates | src/restful/services/messages.go:730-996 | in every run from creation by either send, whoever the receivers are by then, the status (each entry of a broadcast) is one of the class's states |
| MessageStatus.DeletedForever | src/restful/services/messages.go:2486-2493 | "deleted" is never left |
| MessageStatus.OnlyActorsChange | src/restful/services/messages.go:730-996 | over every run the entry of a user who does not act stays, and an exclusive status stays while no target acts |
| MessageStatus.PanicsIffNoneMarked | src/restful/services/messages.go:577-617 | in every run of a stored message, whoever its receivers are by then, an action panics if and only if no receiver was given a first status at its creation and the action writes an entry |
| MessageStore.Store.FindMessageById | src/restful/services/messages.go:1938-1972 | cache first, then database |
| MessageStore.Store.InsertOneMessage | src/restful/services/messages.go:1975-1995 | to the database or, for a day, to the cache, by the class's Persist |
| MessageStore.Store.UpdateOneMessage | src/restful/services/messages.go:1998-2041 | writes Status, StatusSync and UpdatedAt only, and renews the cache's day |
| MessageStore.Store.AddMessageToRedis | src/restful/services/messages.go:2044-2060 | one cache entry is replaced and lasts a day from now |
| MessageStore.InsertOutcome | src/restful/services/messages.go:1975-1995 | when an insertion is refused and what a lookup finds afterwards, from any state of the two tiers: a live copy in the cache hides the database |
| MessageStore.UpdateOutcome | src/restful/services/messages.go:1998-2041 | the same for an update: refused exactly if the class is not persistent and the message gone from the cache; for a persistent class it succeeds even where it writes nothing |
| MessageStore.LostAfterSwitch | src/restful/services/messages.go:1998-2041 | when the class of a cached message becomes persistent every later update of it reports success and changes nothing |
| MessageStore.RunRefines | src/restful/services/messages.go:1938-2060 | in every run with fixed Persist the two tiers refine one map of messages |
| MessageStore.FindIsTheMap | src/restful/services/messages.go:1938-1972 | a lookup finds a message if and only if the map holds it and, outside the database, it was written within a day; it returns what was last written |
| MessageStore.LastWriteWins | src/restful/services/messages.go:1938-2060 | in every run a lookup finds a message if and only if a write of it took effect (outside the database, less than a day ago), with the status fields of the last such write, an empty map of entries read as nil unless an update sent it to the database, and every other field of the last insertion that took effect |
| MessageStore.StaysAsWritten | src/restful/services/messages.go:1938-2060 | while nobody writes a message a lookup on the two tiers finds what it found before, until the day of its last write is over, where the class is not persistent, and then nothing |
| UserCache.Cache.Add | src/restful/services/messages.go:2141-2176 | appends to the user's list |
| UserCache.Cache.Update | src/restful/services/messages.go:2285-2334 | the search loop overwrites the first entry with the id or appends |
| UserCache.Cache.Drain | src/restful/services/messages.go:2063-2083 | returns the list and removes it |
| UserCache.Cache.Send | src/restful/services/messages.go:1124-1132 | the send loop over the target |
| UserCache.Cache.Refresh | src/restful/services/messages.go:1311-1322 | the update loop over the target without the actor |
| UserCache.PutInPlace | src/restful/services/messages.go:2295-2307 | an entry is overwritten where its id first stands, or added at the end |
| UserCache.PutExact | src/restful/services/messages.go:2295-2307 | with distinct ids one entry with the id remains, the new one, and the others in their order |
| UserCache.SentList | src/restful/services/messages.go:1124-1132 | a send adds the message once for every time a user is named |
| UserCache.RefreshedList | src/restful/services/messages.go:1311-1322 | a status change reaches each receiver but the actor, and no other list |
| UserCache.OneEntryPerId | src/restful/services/messages.go:2141-2176 | in every run whose sends name no one twice, no list holds two entries with one id |
| UserCache.SendKeepsDistinctIffClean | src/restful/services/messages.go:1124-1132 | a send keeps it so if and only if its target names no one twice |
| UserCache.RefreshReachesTheReceivers | src/restful/services/messages.go:1311-1322 | after a status change in such a run each receiver but the actor holds one entry with the id, the new message, and the others in order; all other lists are as they were |
| UserCache.NothingLost | src/restful/services/messages.go:2063-2083 | in every run, counting repetitions, the entries a user holds, has fetched, and had replaced by a newer one of the same id are exactly those put into the list |
| UserCache.EntryStays | src/restful/services/messages.go:2285-2334 | an entry stays until its user fetches it or it is written again |
| Base64.RoundTrip | src/restful/services/common.go:328 | every byte string is decoded from its encoding |
| Base64.DecodedIsEncoding | src/restful/services/common.go:333 | a decodable text is the encoding of its bytes if and only if it has no line break and no unused bit set |
| Base64.AlphabetDigits | src/restful/services/common.go:328 | the digits are those of the standard alphabet, each standing for its place |
| Base64.EncodedGroups | src/restful/services/common.go:328 | every three bytes and the four digits at their place are one number in base 256 and 64; the last group is filled up with "=" and has zero bits |
| Base64.FirstRead | src/restful/services/common.go:333 | reading takes a group for the bytes of its number, whatever its unused bits, and then the rest |
| Base64.ReadIff | src/restful/services/common.go:333 | a text is read if and only if it is whole groups of digits, the last of which may end in one or two "=" |
| Base64.StripMeaning | src/restful/services/common.go:333 | line breaks are left out wherever they are, and nothing else |
| Aes.UnpadUndoesPad | src/restful/services/common.go:250-267 | padding is whole and unpadding undoes it |
| Aes.PadUndoesUnpad | src/restful/services/common.go:259-267 | padding brings back what was unpadded if and only if its padding was whole |
| Aes.CbcDecryptsEncrypted | src/restful/services/common.go:283-285 | chained decryption undoes chained encryption |
| Aes.CbcEncryptsDecrypted | src/restful/services/common.go:308-313 | and the reverse |
| Aes.EncryptBlocks | src/restful/services/common.go:281-285 | filling the buffer block by block is the chaining specification |
| Aes.DecryptBlocks | src/restful/services/common.go:308-313 | likewise for decryption |
| Aes.AesEncrypt | src/restful/services/common.go:270-287 | the specification `Encrypt`, which fails exactly for a key of another length than 16, 24 or 32 |
| Aes.CiphertextBlocks | src/restful/services/common.go:270-287 | each block of the ciphertext is the encryption of the padded block combined bit by bit with the ciphertext block before it, the first with the first block of the key |
| Aes.AesDecrypt | framework/xutil/decrypt.go:138-164 | the specification `Decrypt`, with the recovered panics as errors; `common.go:290-318` is the same code |
| Aes.DecryptOutcome | framework/xutil/decrypt.go:138-164 | which key or text fails with which error, and that a success takes off as many bytes as the last one says |
| Aes.AesEncryptBase64 | src/restful/services/common.go:321-329 | encryption and its text form |
| Aes.AesDecryptBase64 | src/restful/services/common.go:332-340 | decoding and decryption, with both errors |
| Aes.DecryptUndoesEncrypt | src/restful/services/common.go:270-318 | every byte string comes back under every legal key |
| Aes.EncryptUndoesDecrypt | src/restful/services/common.go:290-318 | what decrypts is an encryption of its plaintext if and only if its padding is whole |
| Aes.Base64RoundTrip | src/restful/services/common.go:321-340 | the text is the canonical encoding of the ciphertext and round trips; it fails exactly where the bytes do or the text is not base64 |
| Aes.RsaDecrypt | framework/xutil/decrypt.go:104-135 | the block-splitting loop is the specification `Unseal`, a short last piece included |
| Aes.UnsealUndoesSeal | framework/xutil/decrypt.go:104-135 | however the plaintext was cut, pieces sealed to the key's size come back joined |
| Aes.CutExists | framework/xutil/decrypt.go:104-135 | every text can be cut into pieces of the key's size with a last one perhaps shorter |
| Aes.UnsealMeaning | framework/xutil/decrypt.go:104-135 | a text of pieces of the key's size, the last perhaps shorter, opens if and only if every piece does, to what they open to, joined |
| Aes.DecryptData | framework/xutil/decrypt.go:64-98 | the three layers in order |
| Aes.LicenseRoundTrip | framework/xutil/decrypt.go:64-98 | the license decryptor recovers the plaintext of `AES_Encrypt` |
| Aes.LicenseOpensIff | framework/xutil/decrypt.go:64-98 | a license opens if and only if each of its three layers does |
| ConfigStore.ValidateNextAction | src/restful/services/configuration.go:1417-1451 | the counting loop decides the three errors in order |
| ConfigStore.ValidateActions | src/restful/services/configuration.go:1175-1222 | the first error over all actions |
| ConfigStore.ErrorFree | src/restful/services/configuration.go:1175-1222 | no error if and only if every action is sound: its successor another action of the list, its name unique if it has one, its trigger known |
| ConfigStore.FirstUnsound | src/restful/services/configuration.go:1175-1222 | the error is that of the first unsound action, and which one |
| ConfigStore.WalkStays | src/restful/services/configuration.go:1417-1451 | following nextAction any number of times from an action of a checked list stays in it or ends |
| ConfigStore.Store.ValidateChild | src/restful/services/configuration.go:220-290 | inheritance from the parent field by field, credentials copied or encrypted |
| ConfigStore.Store.ValidateRoot | src/restful/services/configuration.go:507-541 | the checks of a root, credentials defaulted as a pair and encrypted |
| ConfigStore.Store.ValidateCreate | src/restful/services/configuration.go:212-224 | the order of the checks: required fields, class id free, parent found; a failed existence read counts as free, a failed parent read as missing |
| ConfigStore.Store.ValidateUpdate | src/restful/services/configuration.go:782-841 | only fields given are checked and replaced |
| ConfigStore.Store.CreateConfiguration | src/restful/services/configuration.go:68-87 | the whole creation, for every outcome of its reads and writes |
| ConfigStore.CreationStores | src/restful/services/configuration.go:212-290 | a successful creation appends one document: below a parent each given field as given and each other as the parent has it, a root as requested, with the credentials of its mode |
| ConfigStore.CreationSucceedsIff | src/restful/services/configuration.go:68-87 | exactly when a creation succeeds |
| ConfigStore.CreationErrors | src/restful/services/configuration.go:212-224 | a failed creation names the first check that failed |
| ConfigStore.Store.UpdateConfiguration | src/restful/services/configuration.go:90-116 | the whole update; the stored credentials are not written |
| ConfigStore.UpdateStores | src/restful/services/configuration.go:782-841 | a successful update changes the one document: each given field as given, each other field and the credentials as they were |
| ConfigStore.UpdateReports | src/restful/services/configuration.go:822-841 | what it reports has the credentials that are not stored |
| ConfigStore.UpdateSucceedsIff | src/restful/services/configuration.go:90-116 | exactly when an update succeeds, and which check a failed one names |
| ConfigStore.Store.DeleteConfiguration | src/restful/services/configuration.go:119-135 | the whole deletion, the document before the user list |
| ConfigStore.DeletionRemoves | src/restful/services/configuration.go:119-135 | a deletion takes out the one document and, for a listening class, its user list, as far as reads and writes succeed |
| ConfigStore.NothingFound | src/restful/services/configuration.go:90-135 | an update or deletion of a class that is not found changes nothing |
| ConfigStore.StoredIsLegal | src/restful/services/configuration.go:68-135 | in every run, whichever reads and writes fail, each stored configuration contains "deleted" and has a legal type and mode and sound actions |
| ConfigStore.UniqueIffNotDoubled | src/restful/services/configuration.go:1225-1241 | unique class ids stay unique in a step if and only if it is not a successful creation whose existence read failed while the class was stored |
| ConfigStore.RunKeepsUnique | src/restful/services/configuration.go:1225-1241 | in every run whose existence reads succeed class ids are unique |
| ConfigStore.StoredActionsStayInside | src/restful/services/configuration.go:1417-1451 | in every run following nextAction from a stored action, even one without a name, never leaves its list |
| ConfigStore.FailureLeavesCollection | src/restful/services/configuration.go:967-983 | a failed request leaves the collection unchanged, except for exactly one case of deletion |
| ConfigStore.ListsKeptIffNoDrift | src/restful/services/configuration.go:931-983 | the user lists stay those of the listening classes exactly if a request is not one of the drifting ones |
| Credentials.RunFaithful | src/restful/services/configuration.go:277-290 | in every run each stored password is the single encryption of the nearest one up its line of creations, or empty where there is no line, and each request of a line names the one before as its parent |
| Credentials.DecryptOnce | src/restful/services/messages.go:3170-3173 | in every run, with updates, deletions and failures anywhere between, decrypting the stored password once spells out the password of the nearest request up its line that supplied both account and password, or the root's default; it fails exactly where there is no line |
| Credentials.NearestMeaning | src/restful/services/configuration.go:278-290 | the nearest supplied password is that of the last request in line that supplied both |
| Credentials.ChildKept | src/restful/services/configuration.go:277-290 | a child in email mode extends its parent's line and stands for the password nearest in it |
| Diff.AppendTail | framework/xutil/slice.go:33-39 | the reduction over a tail appends its positions |
| Diff.WalkLists | framework/xutil/slice.go:101-128 | the two cursors with their tails are the specification `Walk` |
| Diff.Diff | framework/xutil/slice.go:91-131 | both arguments end sorted, even if they are one array, and the result is `Walk` of them |
| Diff.SortedOfSorts | framework/xutil/slice.go:98-99 | what sorting leaves is sorted and a rearrangement |
| Diff.DiffIsDifference | framework/xutil/slice.go:90-131 | positions strictly increase, they pick exactly the multiset differences both ways, and what is unmatched balances |
| Diff.PositionsExactly | framework/xutil/slice.go:101-128 | a position is named if and only if its value stands before it as often already as in the other list |
| Diff.NoDiffIffRearranged | framework/xutil/slice.go:90-131 | nothing is reported if and only if the lists are rearrangements of each other |
| Trace.ClientLevels | framework/server.go:582-599 | the levels of an outgoing call, empty outside a request |
| Trace.Log.Serve | framework/server.go:329-523 | the lines a request and everything below it print, in order |
| Trace.Log.MakeCall | framework/server.go:525-709 | one outgoing call: everything the callee prints, then the line of the call |
| Trace.LinesPrintPaths | framework/server.go:582-599 | each line's level is the encoding of its place in the call tree, and its caller's the encoding of the place above |
| Trace.PathsDistinct | framework/server.go:530-534 | the places of all lines are distinct |
| Trace.LogIsTheTree | framework/server.go:329-709 | the log has a line for each place of the call tree and no other, what is below a call before its line, calls in their order and a request's own line last |
| Trace.NumberValue | framework/server.go:499 | "%02d" is read back |
| Trace.LevelInjective | framework/server.go:586 | dot-joined numbers are an injective encoding of places |
| Trace.DottedPrefixIffAncestor | framework/server.go:586 | a level followed by a dot begins another if and only if its place is above the other's |
| Trace.BarePrefixIff | framework/server.go:586 | for all places, a level begins another if and only if its place is above or equal, or they agree up to its last number and that number is cut short in the other |
| Trace.BarePrefixBelowHundred | framework/server.go:586 | with numbers below a hundred it begins another if and only if its place is above or equal |
| Trace.BarePrefixMisleads | framework/server.go:586 | every call from the hundredth on has a level that an earlier call's level begins |
| Trace.LevelsDistinct | framework/server.go:334-599 | in the log of every call tree all levels are pairwise distinct and each properly extends its caller's |

## Left out

- HTTP, gRPC, websocket, e-mail, SMS, Feishu, DingTalk, RocketMQ, Kubernetes and object storage code: plumbing over
  libraries that are not part of this model.
- Linkage messages after their creation, and the sending modes other than pull: not modelled.
- `Set` by dotted path in the variant package: its innermost call returns false, so it never writes.
- Go values in a variant other than JSON ones: maps with string keys, slices, and scalars, which are compared as opaque values.
- Concurrency inside one handler: each handler, script and database command is one atomic step; the user-cache
  read-modify-write and the first insert of the allocator's counter can interleave in the service.
- AllocatorNames.NeverTwiceIffOneNameEach: speaks of runs without failing reservations; those are in `Allocator`.
- Allocator.NoIdTwice: does not model the 64-bit wrap-around of the counter, which starts at 10000000 and moves by ten.
- Lease.BeliefIsSound: speaks of the last answer of an id to have taken effect, which the client cannot
  see; what it can check is in `LeaseUse.RightIffSafeUse`.
- Lease.TwoBelieversImpossible: the same for two clients; see `LeaseUse.OneBeliever`.
- Lease: the random ids are taken to be distinct, the server's clock does not go back, and an expiry holds strictly before its deadline.
- SceneCopy.CopyOutcome: does not model deletions that take effect in part, cursors that stop early, or the generated
  document ids.
- SceneCopy.Store.CopySceneRelation: does not model them either.
- MessageStatus.UpdateMany: does not model that the query sees the database only, nor the checks that user, status and
  exactly one of the two id lists are given.
- MessageStore.FindIsTheMap: does not model failures of the cache or the database, nor UpdatedAt beyond its being written.
- UserCache.OneEntryPerId: does not model failures of the cache, nor the queue that an offline websocket receiver gets.
- Aes.AesEncrypt: takes the block cipher and RSA as any invertible functions, and does not model that padding may
  write into the spare capacity of the caller's slice.
- Diff.Diff: does not model the library's sorting algorithm, only that it leaves the sorted rearrangement; the element order is that of the integers, so floating-point NaN is excluded.
- ConfigStore.Store.ValidateChild: does not model the credentials of the SMS, third-party, Feishu and DingTalk modes.
- ConfigStore.Store.ValidateRoot: does not model them either.
- ConfigStore.Store.ValidateUpdate: does not model them either.
- ConfigStore.Store.CreateConfiguration: does not model the SMS, Feishu and DingTalk credentials, callbacks registered
  with those services, or configurations that arrive by copying an application; a secret key of illegal length makes
  only the email mode fail here.
- Trace.Log.Serve: does not model calls made concurrently by one request, whose counter can skip a value, nor the rest of a log line; gRPC metadata is taken to be copied on every read.
- Queries, paging, JSON and BSON encoding (but for the omission of an empty status map), templates and timestamps.
