# The ID connector, verified

The ID connector replicates users and school classes from one UCS@school domain to the
school authorities.  The host writes every change as a JSON file into the in queue.  There
a file is preprocessed: it gets the previous data of its object from a database and is
marked as ready.  Ready files are copied to the out queues of the school authorities that
the object has, or had, to do with.  Each out queue handles its files by type and name and
brings the accounts on its target in line.  Meanwhile an RPC server creates, changes and
deletes school authorities.

This project models that in Dafny 4.11 and proves what the design relies on.
`dafny verify dfyconfig.toml` checks everything.

## How it is built

Code that changes things step by step is modelled by classes and loops: the in queue, the out
queues, the handler with its target, the old-data database, the RPC server with its queues,
tasks and lists, the in-place update of nested dictionaries, the wrapping of secrets, and the
cache for UCR values.  The contract of each of these methods equates the new state with a
function of the old one, and the properties are proved about these functions.

The pipeline as a whole is a state machine (`Pipeline.dfy`).  Its steps are what the single
asyncio thread does between two points where another task may run, and they use the same
functions that the classes were proved against.  In between, authorities are registered and
removed, their tasks stop, even in the middle of a file, and start again, the routing changes,
and the whole service restarts.  The theorems in `PipelineTheorems.dfy` hold in every state
that any sequence of steps leads to.

| files | about |
|---|---|
| `Names`, `Directories` | file names and their order, the ready mark, directories and the trash |
| `Listener`, `OldData`, `Routing` | events, the history of objects, the choice of school authorities |
| `UserTarget`, `Convergence` | the user handler and the accounts on its target |
| `InQueue`, `OutQueue` | preprocessing, distributing and handling files |
| `Fifo`, `Inbox`, `Pipeline`, `PipelineInvariant`, `PipelineTheorems`, `PipelineProgress` | the pipeline over whole runs |
| `DeepMerge`, `DictUpdate`, `AttributeMapping` | nested dictionaries and the request body |
| `SchoolRoles`, `RoleMapping`, `GroupSync`, `LowerCaseKeys`, `SchoolChoice` | roles, class members and schools |
| `Secrets`, `Configurations`, `Registry`, `RpcServer` | school authorities, their files and tasks |
| `UcrCache` | reading UCR values |

## What turned out to be different

- A file whose targets are all unknown is deleted without a copy in the trash, unlike one that
  has no targets; and `discard_file` deletes a file whose name the trash already holds.  In no
  other case is a ready file gone without a copy.
- Becoming ready does not always keep the order of file names: `7.json` and `70.json` swap, and so
  do `x.JSON` and `x.a.json`.  In the state machine the host therefore writes names that come
  after the earlier ones both before and after the rename.
- `recursive_dict_update` raises when `None` meets a dict even if `None` values are to be
  ignored.  A patch without `plugin_configs` therefore always fails, after its task was stopped.
- "Updating with one dict and then another is updating with their merge" fails in two ways, and
  in no other: the merge can succeed where the first update raises, because it replaces what
  would have clashed, and where the sequence raises on a `None` value that the merge drops.
- The check of the role mappings takes an explicitly empty mapping for a missing one, the
  selection of the mapping does not.
- School names in the mapping that differ only by case make the mapping depend on the order of
  its items; saving it with sorted keys and loading it again can then change it.
- A configuration file that is not called after the authority in it is read at the start, but
  not found when the authority is deleted, which therefore comes back at the next start.
- A change of the UCR file that does not raise its modification time can go unnoticed, and the
  cache of its values takes the defaults `True` and 1 for the same.
- An attribute that is no longer sent for a user stays on the target until the user leaves the
  authority.
- A comment at `create_school_authority` wonders why the two lists of out queues differ when they
  start empty: `out_queues or []` replaces an empty list.  They are equal all the same.

## Model

| member | source | states |
|---|---|---|
| `Names.StemOfJson` | src/ucsschool_id_connector/queues.py:301-303 | For every name that `queue_files` lists, in whatever case its extension is, the stem used for the rename is the name without its last five characters |
| `Names.ReadyNameCollides` | src/ucsschool_id_connector/queues.py:301-304 | Two listed names become ready under the same name if and only if they differ at most in the case of their extension |
| `Names.ReadyNameOverwrites` | src/ucsschool_id_connector/queues.py:301-304 | Such names exist, so that the second rename overwrites the file of the first |
| `Names.RenameOrder` | src/ucsschool_id_connector/queues.py:301-304 | The rename to `_ready.json` keeps the order of any two listed files with different stems, whatever the case of their extensions, if and only if neither stem continues the other one, or does so in a way that sorts alike against the extension as it is and against `_ready.json` |
| `Names.RenameCanSwap` | src/ucsschool_id_connector/queues.py:301-304 | For `7.json` and `70.json` the order is reversed |
| `Names.CaseOfExtensionMatters` | src/ucsschool_id_connector/queues.py:301-304 | For `x.a.json` it is reversed against `x.JSON` but not against `x.json` |
| `Names.SortNames` | src/ucsschool_id_connector/queues.py:134-135 | A directory listing in any order, sorted, is the one ascending list of its names |
| `Names.LowerIs` | src/ucsschool_id_connector/queues.py:141-142 | Comparing in lower case folds the ASCII capitals and nothing else |
| `Directories.QueueFiles` | src/ucsschool_id_connector/queues.py:116-135 | The sorted names of exactly the JSON files, in upper or lower case; every other file is discarded |
| `Directories.HandleDisposes` | src/ucsschool_id_connector/queues.py:538-542 | After `handle` exactly the handled file is gone; it is in the trash if and only if loading or handling failed and the trash did not hold that name before |
| `Directories.CopyIsLeftIff` | src/ucsschool_id_connector/queues.py:388-444 | Distributing a file leaves a copy of it, in the out queue of a target or, without any target, in the trash, if and only if some target is registered, or it has no target at all and the trash holds no other file of that name |
| `Directories.UnknownTargetLosesFile` | src/ucsschool_id_connector/queues.py:422-444 | A ready file of a user whose school is mapped to an authority that is not registered is gone without a copy anywhere |
| `Listener.RankIsTypeOrder` | src/ucsschool_id_connector/queues.py:458-479 | Of two objects that of a user comes before that of a group, and both come before any other |
| `OldData.ListenerObjectHandler.PreprocessAddMod` | src/plugins/plugins/listener_objects.py:146-174 | The new state of the old-data database, the `old_data` attached to the event, and exactly when the event has to be saved |
| `OldData.ListenerObjectHandler.PreprocessRemove` | src/plugins/plugins/listener_objects.py:177-208 | The same for removals: an entry that was found expires in a week |
| `OldData.AttachedIsHistory` | src/plugins/plugins/listener_objects.py:146-208 | In every run the `old_data` of an event is the latest earlier add or modify event of that object, as schools and identity of a user or members of a group, and is missing exactly when there was none or some later removal was left alone for a week |
| `OldData.GetIsHistory` | src/plugins/plugins/listener_objects.py:137-139 | The same for a lookup at any moment of a run |
| `OldData.AliveWhileFollowed` | src/plugins/plugins/listener_objects.py:197-206 | An entry is alive exactly as long as every removal since the latest change is followed by another one, or by now, within a week |
| `OldData.EntriesAreLatestChanges` | src/plugins/plugins/listener_objects.py:235-238 | The database has an entry for exactly the objects that were changed, with the snapshot of the latest change |
| `OldData.ChangeClearsExpiry` | src/plugins/plugins/listener_objects.py:170-173 | An add or modify event clears a pending expiry |
| `OldData.ExistingObjectIsRemembered` | src/plugins/plugins/listener_objects.py:167-173 | While an object exists, its next event carries the snapshot of its latest one |
| `Routing.UserAuthorities` | src/plugins/plugins/distribution_user.py:56-108 | A user event goes to exactly the authorities of its present and former schools, and to none unless an active authority uses the plugin `kelvin` |
| `Routing.AddMapped` | src/plugins/plugins/distribution_user.py:84-106 | The loop over schools adds exactly the authorities they are mapped to, compared in lower case |
| `Routing.GroupAuthorities` | src/plugins/packages/ucsschool_id_connector_defaults/distribution_group_base.py:59-116 | A change or removal of a class goes to the authority that its school is mapped to, if one of that name is configured for the plugin, and to no other; nothing else goes anywhere |
| `Routing.Authorities` | src/ucsschool_id_connector/queues.py:400-406 | The union of what all distribution plugins return, on the objects themselves: users, classes, and all others |
| `Routing.TargetsAre` | src/plugins/packages/ucsschool_id_connector_defaults/distribution_group_base.py:59-116 | Which authorities get an event, for each kind of object: those of the present and former schools of a user, that of the school of a class, none for anything else |
| `Routing.HandOverIsComplete` | src/plugins/plugins/distribution_user.py:77-108 | Every authority that the schools of a user are mapped to after one change is a target of the next event of that user |
| `Routing.SentRemovalHasOldData` | src/plugins/plugins/distribution_user.py:94-108 | Every user removal that is sent anywhere carries `old_data` with a school mapped there |
| `InQueues.InQueue.PreprocessFile` | src/ucsschool_id_connector/queues.py:270-305 | One file is loaded, given its `old_data`, saved if it changed and renamed, or discarded if any of that fails |
| `InQueues.InQueue.PreprocessNew` | src/ucsschool_id_connector/queues.py:322-361 | The loop over the new files is preprocessing them one after the other in order |
| `InQueues.InQueue.DistributeLoop` | src/ucsschool_id_connector/queues.py:321-367 | One round leaves no file that is not ready, leaves no file at all if there are out queues, and distributes nothing if there are none |
| `InQueues.PreprocessAllFiles` | src/ucsschool_id_connector/queues.py:322-361 | Preprocessing takes every listed file out of the new files and makes no other file new |
| `InQueues.InQueue.CopyToAuthority` | src/ucsschool_id_connector/queues.py:423-434 | A copy goes to the queue of a registered authority, and an unknown authority is skipped |
| `InQueues.InQueue.DistributeTo` | src/ucsschool_id_connector/queues.py:414-444 | Copies go to exactly the registered targets; then the file is deleted, or discarded if it had no targets at all, so that a file with unknown targets only is deleted without a copy in the trash |
| `InQueues.InQueue.DistributeOne` | src/ucsschool_id_connector/queues.py:384-444 | One iteration does what `DistributeFile` says; wherever it is stopped, the file is still there, or the directories of all its registered targets hold it |
| `InQueues.InQueue.Distribute` | src/ucsschool_id_connector/queues.py:373-445 | A completed call distributes the ready files in sorted order and leaves none; after a call that is stopped anywhere, every file is still there or in the directories of all its registered targets |
| `InQueues.InQueue.DistributeWithStops` | src/ucsschool_id_connector/queues.py:373-445 | For any directory: after any number of calls stopped at any file operation and one that is not, every JSON file that was ready is in the directories of all its registered targets, no ready file is left, and these directories got no other files |
| `InQueues.NothingLeft` | src/ucsschool_id_connector/queues.py:373-445 | Distributing a directory without new files empties it |
| `InQueues.SafeTransitive` | src/ucsschool_id_connector/queues.py:423-444 | The guarantee that files leave the in queue only when they are accounted for carries over from call to call |
| `OutQueues.OutQueue.RankedList` | src/ucsschool_id_connector/queues.py:458-479 | The (type order, path) pairs in sorted order, that is user files before group files before all others, and files of one type by name; one file that cannot be loaded makes the listing raise |
| `OutQueues.OutQueue.HandleOne` | src/ucsschool_id_connector/queues.py:554-577 | The directory and the target after one file was handled or failed |
| `OutQueues.OutQueue.HandleLowest` | src/ucsschool_id_connector/queues.py:514-542 | Exactly the user files are handled; if there are none, exactly the group files; if there are none of either, all files; in the order of their names |
| `OutQueues.OutQueue.Pass` | src/ucsschool_id_connector/queues.py:505-552 | Each pass discards the files that are not JSON, and of the others handles exactly the user files, or the group files if there are no user files, or all if there is neither; it continues one total order, and handles at least one file if there is any |
| `OutQueues.OutQueue.Drain` | src/ucsschool_id_connector/queues.py:505-552 | For any directory in which nothing arrives, the loop of listing, sorting, handling the lowest type and listing again ends, and handles every JSON file once: users before groups before all others, and those of one type by name |
| `OutQueues.RemainingFiles` | src/ucsschool_id_connector/queues.py:510-511 | What is left after some passes is listed as the rest of the first listing |
| `OutQueues.TotalOrderIsInOrder` | src/ucsschool_id_connector/queues.py:458-479 | Sorting by rank and name is sorting by type and name |
| `UserTarget.UserDispatcher.FetchMatches` | src/plugins/packages/ucsschool_id_connector_defaults/users_kelvin.py:122-136 | All accounts with the identity pair, each once |
| `UserTarget.UserDispatcher.ExistsOnTarget` | src/plugins/packages/ucsschool_id_connector_defaults/output_plugin_handler_base.py:269-295 | Found, absent, missing search parameters, or an error, by the identity of the old data where there is any |
| `UserTarget.SearchedPair` | src/plugins/packages/ucsschool_id_connector_defaults/user_handler_base.py:200-216 | The identity that a user is searched by: the old one before the new one, and the default source UID if both are empty; for a removal the old one alone |
| `UserTarget.UserDispatcher.UserHasSchools` | src/plugins/packages/ucsschool_id_connector_defaults/user_handler_base.py:109-119 | Whether a school of the user is known on the target, compared in lower case |
| `UserTarget.UserDispatcher.DoCreateOrUpdate` | src/plugins/packages/ucsschool_id_connector_defaults/output_plugin_handler_base.py:245-267 | The accounts on the target after creating or modifying, by what the search finds: one account, none, several, or that it has nothing to search for or raises; and that nothing changes if mapping the attributes or saving fails |
| `UserTarget.UpdatedAccount` | src/plugins/packages/ucsschool_id_connector_defaults/users_kelvin.py:148-155 | Updating an account writes the identity and the attributes that the event carries, keeps all others, and touches no other account |
| `UserTarget.UserDispatcher.DoRemove` | src/plugins/packages/ucsschool_id_connector_defaults/output_plugin_handler_base.py:142-160 | The same for removing |
| `UserTarget.UserDispatcher.HandleListenerObject` | src/plugins/packages/ucsschool_id_connector_defaults/user_handler_base.py:105-119 | Which of these an event leads to; a user without schools left is removed under its old identity |
| `UserTarget.RemovedPair` | src/plugins/packages/ucsschool_id_connector_defaults/user_handler_base.py:143-179 | A user without schools on the target is searched for removal by the old identity, or by that in the event if there is no old data |
| `Convergence.SearchFindsAccount` | src/plugins/packages/ucsschool_id_connector_defaults/user_handler_base.py:181-216 | If the target has converged so far, the search parameters of the next event find the account of exactly that user, although its identity may just have changed |
| `Convergence.MemberIsRouted` | src/plugins/plugins/distribution_user.py:84-108 | A user that has an account never gets an event that is not routed to that target |
| `Convergence.StepConverges` | src/plugins/packages/ucsschool_id_connector_defaults/user_handler_base.py:109-216 | Handling one more event keeps the target converged |
| `Convergence.Converges` | src/plugins/packages/ucsschool_id_connector_defaults/output_plugin_handler_base.py:133-160 | So does handling all events for a target in order |
| `Convergence.AttributesAreSent` | src/plugins/packages/ucsschool_id_connector_defaults/users_kelvin.py:148-155 | The attributes of a member are exactly those that some event carried since which the user always belonged to the authority, and those of its latest event have the latest values |
| `Convergence.AttributesAreLatestIff` | src/plugins/packages/ucsschool_id_connector_defaults/users_kelvin.py:148-155 | They are those of the latest event if and only if that carries all attributes that were sent since then |
| `Convergence.AttributeStays` | src/plugins/packages/ucsschool_id_connector_defaults/users_kelvin.py:148-155 | A user whose account keeps an attribute that the user no longer has |
| `Convergence.MembersBelong` | src/plugins/packages/ucsschool_id_connector_defaults/user_handler_base.py:109-119 | The members of an authority are the users whose latest event since a given time is a change with a school mapped there, with the data of that event |
| `PipelineInvariant.ArriveKeeps` | src/ucsschool_id_connector/queues.py:270-305 | A new file that arrives at any moment, with a name after the earlier ones before and after it becomes ready, keeps the in queue invariant |
| `PipelineInvariant.PreprocessKeeps` | src/ucsschool_id_connector/queues.py:270-305 | So does preprocessing the next file |
| `PipelineInvariant.DistributeKeepsOut` | src/ucsschool_id_connector/queues.py:382-443 | Distributing the next file keeps the invariant of every out queue |
| `PipelineInvariant.OutStepKeeps` | src/ucsschool_id_connector/queues.py:505-552 | Listing or handling files of an out queue keeps its invariant |
| `PipelineInvariant.ServerStepKeepsOut` | src/ucsschool_id_connector/rpc.py:212-296 | Creating, deleting, stopping and starting an authority, changing the routing and restarting the service keep the invariants of all out queues |
| `PipelineInvariant.StepKeeps` | src/ucsschool_id_connector/queues.py:321-445 | Every step of any task and of the server keeps the invariants of the in queue and of all out queues |
| `PipelineInvariant.Reachable` | src/ucsschool_id_connector/queues.py:321-552 | They hold in every reachable state, for every queue that is registered then |
| `PipelineTheorems.LogIsAccepted` | src/ucsschool_id_connector/queues.py:270-305 | The preprocessed events are exactly the loadable arrivals, in order, and unchanged but for their `old_data` |
| `PipelineTheorems.OldDataIsHistory` | src/plugins/plugins/listener_objects.py:146-208 | In every reachable state every event carries the history of its object |
| `PipelineTheorems.ExactlyOnceInOrder` | src/ucsschool_id_connector/queues.py:382-552 | In every reachable state the events that an out queue has handled, followed by its waiting ones, are for each type exactly the events that were routed to it since it was registered, by the routing at the time each was sent, each once and in order; authorities may come and go, stop and start, the routing may change and the service restart at any time |
| `PipelineTheorems.DeliveredExactlyOnce` | src/ucsschool_id_connector/queues.py:382-552 | The events that a queue has handled, followed by those that wait, are exactly those sent since it was registered that were meant for it; those of one type stand in the order of their names, each once |
| `PipelineTheorems.EventIsDelivered` | src/ucsschool_id_connector/queues.py:382-552 | An event that left the in queue was handled by an out queue or waits there if and only if it was meant for it by the routing at that time |
| `PipelineTheorems.ClassIsDelivered` | src/plugins/packages/ucsschool_id_connector_defaults/distribution_group_base.py:85-116 | So a class change or removal reaches exactly the authority of its school, if that is configured for one of the two Kelvin plugins |
| `PipelineTheorems.PrecedesIff` | src/ucsschool_id_connector/queues.py:301-304 | The names that may arrive after one another are exactly the larger ones whose order the rename keeps, among them all larger ones that do not continue the earlier one |
| `PipelineTheorems.HandledInOrderOfArrival` | src/ucsschool_id_connector/queues.py:505-552 | Of any two events of one type that an out queue has handled, the one handled first arrived first |
| `PipelineTheorems.ScanNeverRaises` | src/ucsschool_id_connector/queues.py:505-511 | In every reachable state every file of an out queue can be loaded, and listing it does not end the scan task |
| `PipelineTheorems.RemovalsHaveOldData` | src/plugins/plugins/distribution_user.py:94-108 | In every reachable state every user removal that waits in an out queue or was handled by it carries the `old_data` of the user |
| `PipelineTheorems.PassHandlesFirstType` | src/ucsschool_id_connector/queues.py:505-552 | In every reachable state a pass plans to handle exactly the user files of its listing; the group files if there are no user files; and all files only if there is neither |
| `PipelineTheorems.DrainedTarget` | src/ucsschool_id_connector/queues.py:505-577 | A queue that is drained without failures has brought its target where handling its events since the registration in order would |
| `PipelineTheorems.TargetConverges` | src/plugins/packages/ucsschool_id_connector_defaults/user_handler_base.py:109-216 | Then the target has one account for each user whose latest event since the registration is a change with a school mapped there, under its latest identity and with exactly the attributes that were sent since it came to belong there, and no other account |
| `PipelineTheorems.PipelineConverges` | src/ucsschool_id_connector/queues.py:321-577 | End to end: once the in queue is drained as well, the target of an authority that was there from the start holds exactly the users that belong to it by the files that the host wrote, although other authorities may have come and gone |
| `PipelineProgress.CanDrain` | src/ucsschool_id_connector/queues.py:321-552 | From every reachable state in which the task of a queue runs, the pipeline can work off the in queue and that queue with nothing else arriving: it never gets stuck |
| `PipelineProgress.CanConverge` | src/ucsschool_id_connector/queues.py:321-577 | So from every such state without a failure so far, the target can be brought in line with all events since the registration |
| `PipelineProgress.NewAuthorityConverges` | src/ucsschool_id_connector/queues.py:321-577 | In every such state a new authority can be registered and its target be brought in line with all that is still to be sent |
| `PipelineProgress.UnregisterUndoesRegister` | src/ucsschool_id_connector/rpc.py:212-261 | In every reachable state in which nothing is being distributed a new queue can be registered and started, and stopping and removing it restores the very same state |
| `PipelineProgress.StopAndStart` | src/ucsschool_id_connector/queues.py:153-172 | Stopping the task of a queue and starting it again loses nothing but the rest of its listing |
| `PipelineProgress.CanRestart` | src/ucsschool_id_connector/scripts/queue_management.py:88-125 | From every reachable state the service can be restarted; files, waiting and handled events stay as they are, and the in queue begins with its ready files |
| `DeepMerge.MergeableByPath` | src/ucsschool_id_connector/utils.py:358-362 | The update succeeds if and only if no path holds a dict in `ori` and a present non-dict, `None` included, in `updater` |
| `DeepMerge.MergedByPath` | src/ucsschool_id_connector/utils.py:358-366 | The value at every path after a successful update |
| `DeepMerge.Idempotent` | src/ucsschool_id_connector/utils.py:344-366 | Updating again with the same dict succeeds and changes nothing |
| `DeepMerge.ComposedSucceeds` | src/ucsschool_id_connector/utils.py:344-366 | If the first update does not raise, updating with one dict and then another succeeds exactly when updating with their merge does, if that merge keeps `None` values |
| `DeepMerge.SequenceSucceeds` | src/ucsschool_id_connector/utils.py:344-366 | The whole law: the sequence succeeds exactly when the first update does, the two dicts can be merged, and updating with their merge succeeds, if that merge keeps `None` values |
| `DeepMerge.MergeSucceedsInSequence` | src/ucsschool_id_connector/utils.py:344-366 | Where updating with the merge succeeds, the sequence does if and only if the first update succeeds and, if the merge drops `None` values, none of these would have met a dict |
| `DeepMerge.MergeHidesFirstClash` | src/ucsschool_id_connector/utils.py:359-365 | Updating with the merge can succeed, whatever becomes of `None` values, where the first of the two updates raises |
| `DeepMerge.Composes` | src/ucsschool_id_connector/utils.py:344-366 | And then the results are equal, with or without `None` values |
| `DeepMerge.DroppingNoneHidesClash` | src/ucsschool_id_connector/utils.py:359-365 | If the merge drops `None` values it can succeed where the two updates in sequence raise |
| `DeepMerge.PartialFrames` | src/ucsschool_id_connector/utils.py:358-366 | Whether the update raises or not, it changes nothing at the paths that `updater` does not have |
| `DeepMerge.MergedIsPartial` | src/ucsschool_id_connector/utils.py:358-366 | A completed update is a special case of a partial one |
| `DictUpdate.RecursiveDictUpdate` | src/ucsschool_id_connector/utils.py:344-366 | The update in place on nested dictionaries, in any order of the items: it raises exactly on a clash, otherwise the result is the merge; if it raises, the dictionary is a partial merge |
| `DictUpdate.Put` | src/ucsschool_id_connector/utils.py:363-365 | Where no dict was, the value of the updater itself is put in, shared with it, and nothing else changes |
| `DictUpdate.UpdateBelow` | src/ucsschool_id_connector/utils.py:362-362 | The recursive call changes nothing but the dict below its key, even if it raises |
| `AttributeMapping.MapAttributes` | src/plugins/packages/ucsschool_id_connector_defaults/output_plugin_handler_base.py:350-376 | The loop over the mapping, on dictionaries that are updated in place, makes the request body or fails as `Mapped` says, of which `OneItem` and `RequestBodyByPath` say what it is |
| `AttributeMapping.MappedIsNested` | src/plugins/packages/ucsschool_id_connector_defaults/users_kelvin.py:254-259 | The body holds each Kelvin attribute at the top level, every other one below `udm_properties`, and nothing else |
| `AttributeMapping.SlotsAreIndependent` | src/plugins/packages/ucsschool_id_connector_defaults/output_plugin_handler_base.py:354-374 | The value of every target attribute is that made by its own items alone, and mapping fails exactly when the items of some attribute do |
| `AttributeMapping.LastWins` | src/plugins/packages/ucsschool_id_connector_defaults/output_plugin_handler_base.py:354-374 | If items for one attribute carry no dicts, mapping fails only if a special method does, and the last item that was not skipped wins |
| `AttributeMapping.RequestBodyByPath` | src/plugins/packages/ucsschool_id_connector_defaults/user_handler_base.py:218-224 | The complete body by attribute, with the password hashes, which touch no other attribute |
| `AttributeMapping.OneItem` | src/plugins/packages/ucsschool_id_connector_defaults/users_kelvin.py:246-259 | A target attribute with one item has exactly what this item gives: the value of the special method, or of the attribute if there is no method; `None` for a missing birthday or expiry, the empty list for missing guardians or wards, and nothing for anything else that is missing |
| `AttributeMapping.ReservedKeys` | src/plugins/packages/ucsschool_id_connector_defaults/users_kelvin.py:56-75 | `udm_properties` and `kelvin_password_hashes` are no Kelvin attributes |
| `SchoolRoles.ParseIsInverse` | src/ucsschool_id_connector/utils.py:315-316 | The pattern matches exactly the texts of three non-empty parts without colons |
| `SchoolRoles.RolesAtIs` | src/plugins/packages/ucsschool_id_connector_defaults/users_kelvin.py:212-220 | The roles of a user are those that some `role:school:context` text gives in a handled school, compared in lower case |
| `RoleMapping.BothOrNone` | src/ucsschool_id_connector/models.py:413-440 | For an accepted configuration students get guardians mapped exactly when guardians get wards mapped, if and only if not just one of the two role mappings is explicitly empty and hides that of all users |
| `RoleMapping.UsedBySingleRole` | src/plugins/packages/ucsschool_id_connector_defaults/users_kelvin.py:206-234 | The mapping that is used for a role has an attribute exactly when the check counts it as configured and no explicitly empty mapping hides it |
| `RoleMapping.FirstRoleDecides` | src/plugins/packages/ucsschool_id_connector_defaults/users_kelvin.py:206-234 | Of school admin, staff, teacher, legal guardian and student the first role that a user has in a handled school, and that has a mapping, decides; without any the mapping of all users is used |
| `RoleMapping.EmptyMappingDiffers` | src/plugins/packages/ucsschool_id_connector_defaults/users_kelvin.py:206-234 | A configuration that is accepted although students get no guardians and guardians get wards |
| `GroupSyncs.HandleAttrUsers` | src/plugins/plugins/kelvin_partial_group_sync_handlers.py:61-132 | It raises exactly if LDAP does not know a local member; otherwise a user who is unknown to LDAP, or has among the role texts one that gives an ignored role in a handled school, is a member if it was one on the target, and every other user if it is one locally |
| `GroupSyncs.TwoWayMerge` | src/plugins/plugins/kelvin_partial_group_sync_handlers.py:97-132 | After any interleaving of edits on both sides and syncs, the protected members on the target are those last set there, and the other ones those of the last sync or edit there |
| `GroupSyncs.SyncIsStable` | src/plugins/plugins/kelvin_partial_group_sync_handlers.py:61-132 | After any history, a sync leaves those protected users as they were on the target and all others as they are locally, and a second one changes nothing |
| `SchoolChoice.School` | src/ucsschool_id_connector/models.py:260-275 | The primary school is the one in the DN if the user is in it, else the first in alphabetical order |
| `SchoolChoice.ApiSchools` | src/plugins/packages/ucsschool_id_connector_defaults/user_handler_base.py:114-114 | The schools on the target in lower case are the keys of the mapping that the attributes use |
| `SchoolChoice.SchoolsCanBeMapped` | src/plugins/packages/ucsschool_id_connector_defaults/user_handler_base.py:109-119 | The handler creates or updates exactly those users whose schools it can map |
| `SchoolChoice.HandleAttrSchool` | src/plugins/packages/ucsschool_id_connector_defaults/user_handler_base.py:263-282 | Raises exactly if no school is known; otherwise the primary school as the target spells it, if known there, else the first known one |
| `SchoolChoice.HandleAttrSchools` | src/plugins/packages/ucsschool_id_connector_defaults/user_handler_base.py:284-303 | All known schools as the target spells them, in alphabetical order; raises exactly if there are none |
| `SchoolChoice.ChoiceIsConsistent` | src/plugins/packages/ucsschool_id_connector_defaults/user_handler_base.py:263-303 | A user with a known school gets both attributes, and the one school is among all of them |
| `SchoolChoice.ChosenIsUnique` | src/plugins/packages/ucsschool_id_connector_defaults/user_handler_base.py:268-275 | The choice depends on nothing but the schools |
| `LowerCaseKeys.LowerKeys` | src/ucsschool_id_connector/queues.py:141-142 | Keys in lower case, of clashing keys the last wins |
| `LowerCaseKeys.OrderMattersIffClash` | src/ucsschool_id_connector/rpc.py:165-172 | All orders of the items give the same school mapping if and only if no two keys that differ by case alone have different values |
| `LowerCaseKeys.ReloadKeepsIff` | src/ucsschool_id_connector/rpc.py:165-172 | Saving with sorted keys and loading keeps the school mapping if and only if, among keys that differ by case alone, the last one in the live order has the value of the one that sorts last |
| `LowerCaseKeys.ReloadCanChange` | src/ucsschool_id_connector/rpc.py:165-172 | A mapping that saving and loading changes |
| `Secrets.PlainToSecret` | src/ucsschool_id_connector/models.py:372-380 | Wraps, in place, exactly the strings at the keys `key`, `password` and `token` of all plugin configurations |
| `Secrets.SecretsToPlain` | src/ucsschool_id_connector/models.py:362-370 | Unwraps, in place, exactly the secrets there |
| `Secrets.DictSecretsAsStr` | src/ucsschool_id_connector/models.py:352-360 | The secrets are unwrapped in dictionaries that are all new, and the live dictionaries, which are mutable, keep theirs |
| `Secrets.HiddenByPath` | src/ucsschool_id_connector/models.py:362-380 | What wrapping and unwrapping do to the value at each plugin and key: they change strings, or secrets, at `key`, `password` and `token` alone |
| `Secrets.NoSecretsByPath` | src/ucsschool_id_connector/models.py:352-380 | A document without secrets is one in which no path leads to one |
| `Secrets.SecretsRoundTrip` | src/ucsschool_id_connector/models.py:352-380 | What is saved has no wrapped secret, and wrapping it again restores the live configuration |
| `Secrets.MergedInPlace` | src/ucsschool_id_connector/models.py:345-350 | Merging plugin configurations puts no secret anywhere else |
| `Configurations.ConfigRoundTrip` | src/ucsschool_id_connector/config_storage.py:115-125 | Loading a saved configuration gives the same configuration |
| `Configurations.ParsedIs` | src/ucsschool_id_connector/models.py:390-402 | Exactly which documents are accepted, and the configuration field by field, with the defaults of the fields that may be missing |
| `Configurations.MappingAcceptedByPath` | src/ucsschool_id_connector/models.py:413-440 | The check of the role mappings, by the paths of the attributes in the document |
| `Configurations.PatchIsMergeable` | src/ucsschool_id_connector/utils.py:359-361 | A patch document without `plugin_configs` never merges, because its `None` meets a dict |
| `Configurations.PatchedIff` | src/ucsschool_id_connector/rpc.py:278-288 | A patch is accepted if and only if it has plugin configurations, these can be merged, and the resulting role mappings are accepted; the new configuration, field by field |
| `Configurations.ParsedPatchIs` | src/ucsschool_id_connector/models.py:443-457 | Exactly which documents are patches, and the patched configuration field by field: what the document gives and is not `None` is the new value, all else stays, and the plugin configurations are the merge |
| `Registries.StepIsSaved` | src/ucsschool_id_connector/rpc.py:212-296 | After every request the configuration directory has exactly one file for each authority, which loads as its live configuration |
| `Registries.StepChangesOne` | src/ucsschool_id_connector/rpc.py:212-296 | A request changes nothing but the queue and the file of one authority |
| `Registries.StepIsSound` | src/ucsschool_id_connector/rpc.py:212-296 | Every authority is known by its own name and has a checked configuration without open secrets |
| `Registries.DeleteUndoesCreate` | src/ucsschool_id_connector/rpc.py:212-261 | Creating succeeds exactly for a valid document with a new name; the authority is then registered, saved and started, and deleting it restores the registry and the directory |
| `Registries.CreateOutcome` | src/ucsschool_id_connector/rpc.py:212-239 | By the document: it is rejected exactly if it describes no configuration; otherwise the authority exists already, or is registered with that configuration, saved without wrapped secrets and started if active |
| `Registries.PatchOutcome` | src/ucsschool_id_connector/rpc.py:263-296 | By the document: a wrong type is rejected and an unknown authority not found, both without effect. Otherwise the task is stopped; it fails exactly if the document has no plugin configurations, these cannot be merged, or a plugin is not loaded, and is rejected if the role mappings do not fit; else the authority has the values of the document, is saved, and has a task exactly if it is active now |
| `Registries.TaskRunsIff` | src/ucsschool_id_connector/rpc.py:212-296 | After any requests the scan task of an authority runs if and only if the authority is active and its last patch did not fail |
| `Registries.RestartReproduces` | src/ucsschool_id_connector/scripts/queue_management.py:88-97 | Starting again from a saved registry gives the same configurations, with exactly the active tasks |
| `Registries.RestartAfterRequests` | src/ucsschool_id_connector/scripts/queue_management.py:88-97 | So after any requests to a service whose files are called after their authorities, a restart brings back every authority with the same configuration, secrets included, and no other |
| `Registries.DeletedComesBack` | src/ucsschool_id_connector/config_storage.py:127-135 | If a file is called otherwise, deleting its authority leaves the file, and a restart brings the authority back |
| `Registries.RestartIsFaithfulIff` | src/ucsschool_id_connector/scripts/queue_management.py:88-97 | A restart is faithful after all requests if and only if every file is called after the authority in it |
| `RpcServers.RpcServer.constructor` | src/ucsschool_id_connector/scripts/queue_management.py:88-125 | The service starts with one queue for each configuration file, however that is called, sorted, and a task for each active authority |
| `RpcServers.ManagedInQueue.constructor` | src/ucsschool_id_connector/queues.py:263-264 | An empty list of out queues is replaced by another list, any other one is shared |
| `RpcServers.ManagedQueue.StartTask` | src/ucsschool_id_connector/queues.py:153-165 | One new task; earlier ones go on if they have not ended, so that a queue is in order only if the task before had ended |
| `RpcServers.ManagedQueue.StopTask` | src/ucsschool_id_connector/queues.py:167-172 | No task is left running |
| `RpcServers.ManagedQueue.DeleteQueue` | src/ucsschool_id_connector/queues.py:174-186 | No task is left running, and the queue is marked as deleted |
| `RpcServers.QueueList.AppendAndSort` | src/ucsschool_id_connector/rpc.py:227-228 | The list stays sorted by name and gains exactly the new queue |
| `RpcServers.QueueList.Remove` | src/ucsschool_id_connector/rpc.py:248-248 | The list stays sorted and loses exactly the queue |
| `RpcServers.RpcServer.StartOutQueueTask` | src/ucsschool_id_connector/rpc.py:76-91 | A task is started if and only if the authority is active |
| `RpcServers.RpcServer.CreateSchoolAuthority` | src/ucsschool_id_connector/rpc.py:212-239 | The registry and the reply after a create request, valid, existing or invalid; every queue that was registered stays so |
| `RpcServers.RpcServer.DeleteSchoolAuthority` | src/ucsschool_id_connector/rpc.py:241-261 | The same for delete; the queue of the authority, and no other, leaves the registered ones and joins those that are deleted with all tasks ended, no task is opened again, and a plugin that is not loaded makes the reply an error after everything was deleted |
| `RpcServers.RpcServer.PatchSchoolAuthority` | src/ucsschool_id_connector/rpc.py:263-296 | The same for patch, as `PatchOutcome` says by the document; the queues are the same ones, and wherever it fails after the authority was found, the task has been stopped and the configuration kept |
| `RpcServers.RpcServer.MergePatch` | src/ucsschool_id_connector/rpc.py:278-280 | The patch is merged into the dictionary of the configuration in place, or raises |
| `RpcServers.RpcServer.DropHandlers` | src/ucsschool_id_connector/rpc.py:281-287 | The cached handlers of the authority are dropped up to the first plugin that is not loaded, at which it raises; all others are kept |
| `RpcServers.RpcServer.Save` | src/ucsschool_id_connector/rpc.py:93-98 | The file gets the secrets in plain text, and no dictionary of the live configuration changes |
| `RpcServers.RpcServer.SimpleRpcServer` | src/ucsschool_id_connector/rpc.py:100-151 | Serving any requests one after the other refines the registry, step by step and reply by reply, keeps all objects consistent, opens no ended task again, and drops no queue without ending its tasks: every queue that was registered or deleted before is so after, and has no running task but its current one |
| `RpcServers.RpcServer.ListsAreEqual` | src/ucsschool_id_connector/rpc.py:230-236 | Whether they are one list or two, the in queue and the server always know the same queues: one for each authority, sorted by name |
| `RpcServers.RpcServer.RunningTaskIsCurrent` | src/ucsschool_id_connector/queues.py:153-186 | Of all tasks ever started for a queue that is or, by the contracts of all requests, ever was registered, one that runs is the current one of a queue that is registered, active and not deleted |
| `RpcServers.RpcServer.LiveHasTask` | src/ucsschool_id_connector/rpc.py:76-91 | A registered queue has a running task exactly if the registry says so |
| `UcrCaches.UcrCache.GetUcrv` | src/ucsschool_id_connector/utils.py:88-103 | What one call returns and does to the cache, for any bounded eviction |
| `UcrCaches.ReadsAreCurrent` | src/ucsschool_id_connector/utils.py:74-103 | If every write raises the modification time, then after any writes and reads a read returns what an uncached first-match scan would, up to the equality of `True` and 1 and of `False` and 0 in defaults |
| `UcrCaches.SameKey` | src/ucsschool_id_connector/utils.py:74-75 | The cache takes two defaults for the same exactly if they are equal or are `True` and 1 or `False` and 0 |
| `UcrCaches.TrueCanBeOne` | src/ucsschool_id_connector/utils.py:74-75 | A read with the default `True` can return 1 |
| `UcrCaches.WriteIsNoticedIff` | src/ucsschool_id_connector/utils.py:98-103 | After a write that follows a read, the next read is right if and only if the cache dropped the value, the write raised the modification time, or the value is the same |
| `UcrCaches.SameTimeIsStale` | src/ucsschool_id_connector/utils.py:100-103 | A write that does not raise the modification time can go unnoticed |

## Left out

- PipelineConverges: assumes that, whenever something is sent, the mapping is the same and some active authority lists the plugin `kelvin`; that the configured attribute mapping sends `record_uid` and `source_uid`; that the target was empty at first, knows exactly the schools mapped to it, and that users and groups do not share ids; that record and source UIDs are present and unique; and that no handler fails or is interrupted. See `AttributesAreLatestIff` for when the attributes on the target are those of the latest event alone.
- TargetConverges: has the same assumptions, and is about the events since the authority was registered, because those before are not sent to it.
- HandledInOrderOfArrival: is about file names that come after the earlier ones before and after they become ready, see `PrecedesIff` and `RenameOrder`.
- OldDataIsHistory: does not cover a crash between writing the database and renaming the file, after which an event finds its own snapshot.
- DistributeWithStops: the out queues are fixed for one call of `distribute`, as its name-to-queue dictionary is.
- Drain: describes a directory that nothing else changes; `PassHandlesFirstType` and `ExactlyOnceInOrder` cover arrivals.
- MapAttributes: the values that it merges are copies, so that a dict which an event shares with the request body is not modelled; what `_handle_attr_*` methods return is an input.
- RecursiveDictUpdate: the two dictionaries are trees that share nothing when the update starts.
- RpcServer.constructor: two configuration files with the same authority, from which the service makes two queues with one name and one directory.
- TaskRunsIff: the same, as `RestartIsFaithfulIff` and all that is said of a start.
- RestartAfterRequests: the same, and the coercions that pydantic applies to field types.
- BothOrNone: role mappings that are not dictionaries count as not accepted.
- ReadsAreCurrent: modification times before 1970, for which the initial value of the remembered time is too large.
- In the state machine, failing to save a preprocessed file (`PreprocessFile` has it), a crash in the middle of copying, renaming or handling a file (`DistributeWithStops` has those of copying), and removing an out queue in the middle of one call of `distribute`, which would then copy to a path that no longer exists.
- Listing an out queue, handling one file and distributing one file are single steps, although other tasks may run while they wait for a file or the target; those tasks do not touch that file, and `Stop` covers a task that is stopped while it waits.
- The branches of `scan` for communication errors and for exceptions: `handle` swallows all of them. `keep_file`, `school_authority_ping` and the heads of queues in replies.
- What a failing handler has already changed on the target before it failed, user names that are taken on the target, and saving again without the legal guardians or wards that the target does not know.
- Groups on the target: their events are queued, ordered and handled, but `do_create` and `do_modify` of classes are not modelled beyond the members.
- Whether a patch takes effect on the next object: the handlers that are dropped are those of the registered plugin, not those of the dispatchers inside it. Whether the school mapping of the handlers, which is cached in a class, follows a new mapping.
- SimpleRpcServer: serves the requests that create, delete and patch authorities; the requests that only read are left out, and the one that replaces the school mapping is `LowerKeys`.
- Random passwords, password hooks, LDAP and Kelvin clients, the ZeroMQ socket, the HTTP API, logging, the trash cleaner and the school scheduler.
- JSON, regular expressions on DNs, Base64 and the cache on disk are taken as functions or maps; changing case is that of ASCII letters.
