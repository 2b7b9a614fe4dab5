# A verified model of the retrieval backend

This project models the parts of the backend where state, concurrency or text handling make mistakes likely, and
proves what they promise. `dafny verify dfyconfig.toml` checks all of it.

* **Access** (`Groups`, `Access`, `SpaceManagers`, `LostManagers`, `AccessOutcomes`, `AccessStore`). Members, the tree
  of groups, spaces and grants of one tenant. Every administrative operation takes the tenant lock, so each is one
  atomic step; histories of steps start with a registration. The recursive queries are iterations that add new rows
  until there are none. `AccessStore` is the service over mutable tables, with its rollbacks; each of its methods ends
  as the step does, keeps the invariant, and says who manages what afterwards. `AccessOutcomes` says row by row what
  each operation writes, who gains or loses which rights, and when it fails.
* **Attachment turns** (`Turns`, `TurnInvariants`, `TurnProtocol`, `TurnSteps`, `TurnTheorems`, `TurnMeanings`,
  `TurnProgress`, `TurnRepository`, `TurnService`, `Retrieval`, `WorkingMemory`). Every SQL transaction is an atomic
  function on the tables; requests, upload processes and answer workers interleave them in any order, any number of
  times, stale workers included, since a claim carries no fencing token. The system state adds history that the tables
  do not keep: which worker persisted which answer, the claims that were handed out, the first document linked to each
  attachment, and where each upload stands. `TurnRepository` writes the transactions statement by statement, is proved
  to commit those functions and to keep the invariant of the tables, and says what each leaves possible
  (`TurnMeanings`); `TurnService` is the service calls made of them. `TurnProgress` is what the steps achieve.
* **Documents** (`Documents`, `Deletions`, `Ingestions`, `DocumentStore`). Deletions and retries as step sequences
  that race with ingestion attempts over document rows, chunk rows and two indexes. An ingestion that is not over may
  repeat any of its writes, because activities are retried while older attempts may still run. `Ingestions` is what
  ingestions, retries and deletions do when they get through, and what they leave alone.
* **Chunkers** (`Text`, `SplitText`, `TokenChunker`, `Markdown`, `MarkdownTheorems`, `MarkdownChunker`). The loops with
  their accumulators, against plans and spans that local rules determine uniquely. "Ink" is the text without its
  white space.
* **Smaller algorithms** (`RateLimit`, `Fusion`, `FusionProperties`, `FilterExpr`).

Search hits, token counts, file validation and generated keys are arbitrary inputs; generated keys do not repeat.

Where code and comments differ, the model follows the code:

* `delete` says that its caller may retry when a step fails, but the checks at its head refuse a document that is
  already 'deleting', or that an overlapping deletion has finished. `DeleteCanBeRepeatedIff` says exactly when a later
  call is accepted all the same; `AbandonedIsReached` and `TombstoneIsNeverRepeated` give runs in which none ever is.
* A deletion is meant to leave nothing of a document. `DeletionIsCleanIff` says exactly when it does, and
  `LateWritesComeBack` gives a run in which it does not.
* The documented lifecycle of documents (`app/domain/document.py:28-39`) is not enforced anywhere, so statuses are
  overwritten freely, also after a deletion.
* A metadata key may end with one line feed: the dollar of the pattern also matches before it. Such a key still prints
  and reads back.
* The limiter is described as a limit per minute; a window that crosses the minute can admit more, and
  `LimitCanBeExceededIff` says when and `WindowMaximum` by how much.

## Model

| member | source | states |
|---|---|---|
| `Groups.ClosureIsReachability` | app/infrastructure/postgres/repositories/authorization_repo.py:26-34 | the UNION iteration of a recursive query terminates (measure: rows not collected) and returns exactly the filtered rows that a filtered seed row reaches through filtered parents |
| `Groups.StatusFilterNeverCuts` | app/infrastructure/postgres/repositories/authorization_repo.py:26-34 | while active groups are closed upward, the status filter of the recursive term never cuts a chain: the query returns all ancestors of the active seed groups |
| `Groups.ClosureOfUnion` | app/services/access_management_service.py:154-163 | one closure started from several seed sets at once is the union of the closures started from each |
| `Groups.CycleCheckIsReachability` | app/services/access_management_service.py:404-414 | the query on `ancestors` finds the group exactly when the new parent is the group or lies below it |
| `Groups.WriteKeepsAcyclic` | app/services/access_management_service.py:431-446 | rewriting one row keeps the parent relation free of cycles when its new parent does not reach it |
| `Groups.SaveGroupKeepsTree` | app/services/access_management_service.py:395-455 | every accepted save, move or archive keeps parents existing, the relation acyclic and every active group's ancestors active |
| `Groups.CycleRefusedIffItWouldClose` | app/services/access_management_service.py:404-414 | a move is refused as a cycle exactly when it would close one: no valid move is refused |
| `Access.ArchivedForever` | app/services/access_management_service.py:400-403 | over any later history of operations an archived group is never changed again |
| `Access.EligibleGroupsAreMembersGroups` | app/services/access_management_service.py:154-163 | the closure over all eligible members' groups is the union over members of the closures of the access query |
| `Access.GrantReachesSomeone` | app/services/access_management_service.py:164-170 | one manager grant counts for `_has_manager` exactly when it reaches some member through the access query, tenant-wide grants needing one eligible member |
| `Access.HasManagerIsExactIff` | app/services/access_management_service.py:149-173 | in an active tenant `_has_manager` is true exactly when some active member manages the space, if and only if somebody is eligible or no tenant-wide manager grant is live |
| `Access.HasManagerIsExactUnderLock` | app/services/access_management_service.py:30-46 | under the tenant lock the two queries agree on every space |
| `Access.GroupGrantReaches` | app/infrastructure/postgres/repositories/authorization_repo.py:26-43 | a group grant reaches exactly the members of the group and of active groups below it |
| `Access.WriteGrantKeepsOneLive` | app/services/access_management_service.py:92-147 | writing a grant leaves exactly one live grant for its target and revokes no other target's grant; `AccessOutcomes.WriteGrantMeans` says which row it is |
| `Access.StepKeepsInv` | app/services/access_management_service.py:175-498 | each operation keeps the tree intact, one live grant per space and subject, one membership per user, and an active administrator |
| `Access.HistoriesKeepInv` | app/infrastructure/postgres/repositories/user_repo.py:55-114 | these invariants hold after any history of operations that starts with a registration |
| `Access.GrantOperationsKeepManagers` | app/services/access_management_service.py:175-286 | a committed create_space, put_grant, revoke_grant, takeover or add_member leaves somebody managing its space and takes no manager from any other space |
| `LostManagers.SuspendingCanOrphanASpace` | app/services/access_management_service.py:368-393 | `update_member` does not re-check: in a history from registration, suspending the one member who manages a personal space leaves it without anybody |
| `SpaceManagers.SuspensionKeepsManagerIff` | app/services/access_management_service.py:368-393 | a suspension leaves a managed space exactly when another member manages it beforehand |
| `SpaceManagers.RemovalKeepsManagerIff` | app/services/access_management_service.py:467-474 | removing a member from a group leaves somebody managing the space exactly when somebody else manages it beforehand, or that member would without the link |
| `SpaceManagers.ArchiveKeepsManagerIff` | app/services/access_management_service.py:415-439 | archiving a group leaves somebody managing the space exactly when somebody manages it without belonging to the group |
| `SpaceManagers.MoveKeepsManagerIff` | app/services/access_management_service.py:404-439 | moving a group leaves somebody managing the space exactly when somebody does from the groups above it on the tree cut at the group, or above the new parent |
| `LostManagers.GroupStepsCanOrphanASpace` | app/services/access_management_service.py:395-498 | a history from registration after which each of three single steps, removing the member, archiving the group or moving it, takes the last manager of a space |
| `AccessOutcomes.WriteGrantMeans` | app/services/access_management_service.py:70-128 | the new row is exactly the subject and role that were asked for, the live row of the same subject is revoked and no other changes; each error has its exact condition |
| `AccessOutcomes.OnlyActiveMembersSee` | app/infrastructure/postgres/repositories/authorization_repo.py:18-43 | only an active member of an active tenant, with its own active user, sees or manages a space |
| `AccessOutcomes.WrittenChanges` | app/infrastructure/postgres/repositories/authorization_repo.py:26-43 | after one written grant a member newly manages a space only if the grant is a manager's, on that space, and reaches the member, and then it does; all it reaches see the space; spaces and members it does not reach keep their rights |
| `AccessOutcomes.WrittenKeeps` | app/services/access_management_service.py:105-128 | with a manager's grant nobody loses a space, as whoever the replaced grant reached is reached again |
| `AccessOutcomes.PutGrantMeans` | app/services/access_management_service.py:234-245 | put_grant writes exactly the requested row; every error has its exact condition on the tables before, and the last manager's grant is the one that cannot be replaced by a lesser role |
| `AccessOutcomes.RevokeGrantMeans` | app/services/access_management_service.py:247-267 | revoke_grant revokes exactly one row; every error has its exact condition |
| `AccessOutcomes.RevokeGrantIff` | app/services/access_management_service.py:264-266 | a revocation is refused for the last manager exactly when nobody manages the space through another grant |
| `AccessOutcomes.TakeoverMeans` | app/services/access_management_service.py:269-286 | the row of a takeover, and the exact condition of each refusal in its order |
| `AccessOutcomes.CreateSpaceErrors` | app/services/access_management_service.py:175-211 | create_space succeeds exactly when the caller may, the keys are new and the group is active; each error has its condition |
| `AccessOutcomes.CreateSpaceMeans` | app/services/access_management_service.py:179-206 | the owner's manager grant, and beside it nothing, the group in the requested role, or everybody as viewers |
| `AccessOutcomes.AddMemberMeans` | app/services/access_management_service.py:316-366 | the member, space and grant rows as requested, and the exact condition of each error |
| `AccessOutcomes.UpdateMemberMeans` | app/services/access_management_service.py:368-393 | the target's row takes the new role and status and keeps the rest; each error has its exact condition |
| `AccessOutcomes.SaveGroupOutcome` | app/services/access_management_service.py:395-455 | each check of save_group in its order, in terms of groups and parents |
| `AccessOutcomes.SavedGroupRow` | app/services/access_management_service.py:431-446 | the row that is written takes the name, parent and status it was given and keeps the others |
| `AccessOutcomes.GroupMembersMeans` | app/services/access_management_service.py:457-498 | exactly the one link is added or removed, and the exact condition of each error |
| `SpaceManagers.MovedAncestors` | app/services/access_management_service.py:404-439 | after an accepted move the groups above the moved one are itself and exactly those above its new parent |
| `SpaceManagers.JoiningAddsTheGroup` | app/services/access_management_service.py:475-491 | a member that joins a group manages exactly what it managed before and what the group and the groups above it manage; nobody else's spaces change |
| `SpaceManagers.LeavingKeepsTheOthers` | app/services/access_management_service.py:467-474 | a member that leaves a group manages exactly what its other groups and its own grants give; nobody else's spaces change |
| `AccessStore.AccessService.Register` | app/infrastructure/postgres/repositories/user_repo.py:55-114 | registration leaves tables that meet the invariant, with the member as administrator and manager of both spaces |
| `AccessStore.AccessService.WriteGrant` | app/services/access_management_service.py:92-147 | revoke-then-insert commits exactly the row that was asked for, in its role, as the one live grant of its subject, or fails and restores what was revoked |
| `AccessStore.AccessService.CreateSpace` | app/services/access_management_service.py:175-211 | on success the owner's manager grant and, by preset, the group's grant in the requested role or everybody's viewer grant are the new rows; somebody manages the space and every other space keeps its managers |
| `AccessStore.AccessService.PutGrant` | app/services/access_management_service.py:234-245 | the row of the requested role is written; with MANAGER exactly the members it covers gain the space and nobody loses one, with another role nobody gains any; rolled back when no manager would be left |
| `AccessStore.AccessService.RevokeGrant` | app/services/access_management_service.py:247-267 | revokes exactly one grant; afterwards a member manages a space exactly when another of the live grants gives it; rolled back when no manager would be left |
| `AccessStore.AccessService.Takeover` | app/services/access_management_service.py:269-286 | succeeds exactly for an acting administrator with a reason, an existing space and a new grant key; afterwards the caller manages the space, and no other space has lost its managers |
| `AccessStore.AccessService.AddMember` | app/services/access_management_service.py:316-366 | on success the new member manages its personal space; otherwise no row is left; no space loses its managers |
| `AccessStore.AccessService.UpdateMember` | app/services/access_management_service.py:368-393 | keeps an administrator: refused for the last one exactly when the change ends an administrator's role or status and every administrator is the target |
| `AccessStore.AccessService.SaveGroup` | app/services/access_management_service.py:395-455 | keeps the tree and every archived group; a refused move would have closed a cycle; a moved group has exactly its new parent's ancestors above it, and an archived one takes exactly itself out of every closure |
| `AccessStore.AccessService.GroupMembers` | app/services/access_management_service.py:457-498 | joining adds exactly the spaces that the group and the groups above it manage, leaving keeps exactly what the other groups and own grants give, for every member and space |
| `TurnRepository.ValidateAttachmentList` | app/services/chat_turn_service.py:379-389 | accepts exactly 1 to 5 well-formed declarations with distinct client keys; otherwise the first offending declaration decides the refusal |
| `TurnRepository.Repository.InsertPlaceholders` | app/infrastructure/postgres/repositories/chat_turn_repo.py:133-160 | the attachment rows are inserted exactly when no key repeats or is taken |
| `TurnRepository.Repository.CreateTurn` | app/infrastructure/postgres/repositories/chat_turn_repo.py:52-184 | returns the turn of the client request; a new one is inserted exactly when the keys are free, with its message, its waiting attachments as declared and the count; a failure leaves nothing behind |
| `TurnRepository.Repository.AddAttachment` | app/infrastructure/postgres/repositories/chat_turn_repo.py:247-338 | accepted means the turn has the client's attachment and asking again changes nothing; refused means the turn is closed or full and nothing changed; no linked attachment is touched |
| `TurnRepository.Repository.LinkDocument` | app/infrastructure/postgres/repositories/chat_turn_repo.py:340-380 | applies exactly to an owned attachment without another document and a document of its tenant and space; then the attachment counts exactly when it is not ignored and its document is indexed |
| `TurnRepository.Repository.MarkUploadFailed` | app/infrastructure/postgres/repositories/chat_turn_repo.py:382-419 | applies exactly to an owned attachment without a document; one that is not ignored makes the turn unclaimable for everybody |
| `TurnRepository.Repository.SetIgnored` | app/infrastructure/postgres/repositories/chat_turn_repo.py:421-454 | applies to every attachment of an owned turn, whatever its upload; ignoring the one attachment that blocks a turn makes its guard true |
| `TurnRepository.Repository.CancelTurn` | app/infrastructure/postgres/repositories/chat_turn_repo.py:456-483 | applies exactly to the owner's waiting or failed turns; a cancelled turn is granted to no owner, and no answer can be saved for it |
| `TurnRepository.Repository.ClaimReadyAnswer` | app/infrastructure/postgres/repositories/chat_turn_repo.py:514-611 | grants exactly what the guarded update grants; then nobody else can claim the turn, the answer for the claim can be saved, and the scope, read after the update, is not empty; the error for an empty scope is never raised because no other transaction comes between the two statements |
| `TurnRepository.Repository.FailAnswer` | app/infrastructure/postgres/repositories/chat_turn_repo.py:613-643 | applies exactly to an answer in progress; its worker is locked out, and the turn can be claimed again exactly when the guard holds |
| `TurnRepository.Repository.SaveAssistant` | app/infrastructure/postgres/repositories/answer_repo.py:35-140 | answer row, citations with ranks 1, 2, ..., count and completion are written together exactly when session, key and turn allow it, each refusal having its condition; afterwards the turn can be neither claimed nor answered again |
| `TurnRepository.Repository.AddMessage` | app/infrastructure/postgres/repositories/session_repo.py:312-356 | one row of the given role in the session, counted, exactly when the session is owned and the key is new; no turn and no guard changes |
| `TurnService.Service.ListAttachments` | app/infrastructure/postgres/repositories/chat_turn_repo.py:683-704 | lists exactly the attachments of the turn |
| `TurnService.Service.PrepareAnswer` | app/services/chat_turn_service.py:149-180 | undisturbed, claims exactly the turns that are shown as ready and wait or failed before; each refusal has its exact condition, and a turn that is not ready is explained by its attachments |
| `TurnService.Service.StreamAnswer` | app/services/chat_turn_service.py:182-211 | an answer is reported exactly when it was generated and its turn was still being answered, and then it is persisted; otherwise the turn is marked as failed and nothing else remains |
| `TurnService.Service.UploadAttachment` | app/services/chat_turn_service.py:213-294 | undisturbed, each of the six replies has its exact condition on the tables before: a repeated upload reports the first document, a storage failure marks the attachment, and success creates and links one document |
| `TurnInvariants.CreateTurnKeepsTables` | app/infrastructure/postgres/repositories/chat_turn_repo.py:52-184 | a new turn keeps foreign keys, counts, 1 to 5 distinct attachments and one message per client request |
| `TurnInvariants.AddAttachmentKeepsTables` | app/infrastructure/postgres/repositories/chat_turn_repo.py:247-338 | an added placeholder keeps at most 5 attachments with distinct client keys |
| `TurnInvariants.LinkKeepsTables` | app/infrastructure/postgres/repositories/chat_turn_repo.py:340-380 | a link keeps 'uploaded' equivalent to having a document of the same tenant and space |
| `TurnInvariants.MarkFailedKeepsTables` | app/infrastructure/postgres/repositories/chat_turn_repo.py:382-419 | a failed mark keeps 'uploaded' equivalent to having a document |
| `TurnInvariants.SaveAssistantKeepsTables` | app/infrastructure/postgres/repositories/answer_repo.py:35-140 | a persisted answer keeps the message count equal to the number of rows |
| `TurnInvariants.DeleteSessionKeepsTables` | app/infrastructure/postgres/repositories/session_repo.py:288-299 | deleting a session with its cascades keeps all table invariants |
| `TurnMeanings.IgnoredMeans` | app/infrastructure/postgres/repositories/chat_turn_repo.py:421-454 | an ignored attachment neither blocks a turn nor helps it: the guard is true exactly when the others that are not ignored are all usable and there is one |
| `TurnMeanings.ClaimedMeans` | app/infrastructure/postgres/repositories/chat_turn_repo.py:514-611 | after a claim every other claim of the turn is refused, and saving an answer under the claim succeeds for every fresh key |
| `TurnMeanings.FailedMeans` | app/infrastructure/postgres/repositories/chat_turn_repo.py:613-643 | failing an answer locks out its worker, and a new claim is granted exactly when the attachments are ready |
| `TurnMeanings.SetIgnoredRows` | app/infrastructure/postgres/repositories/chat_turn_repo.py:421-454 | the flag can be set on every attachment of an owned turn, and nothing else changes |
| `TurnMeanings.IgnoringReleases` | app/infrastructure/postgres/repositories/chat_turn_repo.py:421-454 | when every other attachment that counts is usable and there is one, ignoring an attachment succeeds and the turn can be claimed |
| `TurnMeanings.ReadinessIff` | app/domain/chat_turn.py:99-115 | the four values of the readiness by equivalences over the views that are not ignored |
| `TurnMeanings.ViewIff` | app/infrastructure/postgres/repositories/chat_turn_repo.py:775-811 | each status that is shown for an attachment by an equivalence over its row and its document |
| `TurnMeanings.DeletedSessionRows` | app/infrastructure/postgres/repositories/session_repo.py:288-299 | a deleted session takes exactly its messages, their attachments and citations with it |
| `TurnProgress.ReadyTurnIsAnswered` | app/services/chat_turn_service.py:149-211 | a ready turn that waits is answered by one claim and one save, with the scope of its ready documents and the citations in the order of the hits |
| `TurnProgress.FailedTurnIsReclaimed` | app/infrastructure/postgres/repositories/chat_turn_repo.py:613-643 | after a failure the next worker gets the turn while its attachments are ready |
| `TurnProgress.IgnoringReleasesTurn` | app/services/chat_turn_service.py:312-337 | ignoring the one attachment that blocks a turn lets the next claim succeed |
| `TurnProgress.UploadSucceeds` | app/services/chat_turn_service.py:213-294 | an upload that nothing comes in between creates a document of the attachment's space, links it and starts one ingest |
| `TurnProgress.BreakStep` | app/services/chat_turn_service.py:268-278 | a call that breaks marks its attachment as failed exactly when it is still there without a document |
| `TurnProgress.LinkThenBreakStep` | app/services/chat_turn_service.py:248-278 | a call that breaks after its link was committed leaves the link as it is |
| `TurnProgress.IndexedBecomesUsable` | app/infrastructure/postgres/repositories/chat_turn_repo.py:541-570 | a linked document that becomes indexed makes its attachment count |
| `TurnProgress.NewTurnStep` | app/services/chat_turn_service.py:99-136 | a new client request with 1 to 5 distinct declarations creates its turn with exactly these attachments; anything else changes nothing |
| `TurnProgress.NewAttachmentStep` | app/services/chat_turn_service.py:339-366 | an attachment is added exactly to a waiting turn without that client key and with room |
| `TurnProgress.CancelStep` | app/services/chat_turn_service.py:368-381 | exactly a waiting or failed turn of the owner is cancelled, and nothing else changes |
| `TurnProgress.RowSteps` | app/infrastructure/postgres/repositories/session_repo.py:312-356 | a message, or an answer without a turn with its ranked citations, is one more counted row of an owned session |
| `TurnProgress.SessionSteps` | app/infrastructure/postgres/repositories/session_repo.py:288-299 | a session opens empty; a deleted one takes its messages with it and no other's |
| `TurnProgress.CitationsFollowTheSearch` | app/infrastructure/postgres/repositories/answer_repo.py:65-95 | in every reachable state the citations of an answer are, rank by rank, the hits its search had found inside the scope of its claim: none left out, none added, none moved |
| `TurnSteps.ApplyKeepsInv` | app/infrastructure/postgres/repositories/chat_turn_repo.py:52-643 | every transaction of every process keeps the invariants of tables, answers, scopes and uploads |
| `TurnSteps.CompletionKeepsAnswers` | app/infrastructure/postgres/repositories/answer_repo.py:114-140 | a completion happens only from 'answering', so it never gives a turn a second answer |
| `TurnTheorems.ReachableInv` | app/infrastructure/postgres/repositories/chat_turn_repo.py:52-643 | all invariants hold after every interleaving of transactions from empty tables |
| `TurnTheorems.OneAnswerIffCompleted` | app/infrastructure/postgres/repositories/answer_repo.py:114-140 | a turn has exactly one persisted answer when it is completed and none otherwise |
| `TurnTheorems.StatusMoves` | app/infrastructure/postgres/repositories/chat_turn_repo.py:456-643 | every surviving message keeps its owner and client request and moves only along the edges of the turn's state machine, and no deleted message comes back |
| `TurnTheorems.TerminalForever` | app/infrastructure/postgres/repositories/chat_turn_repo.py:456-643 | completed and cancelled are never left, by any number of workers, stale ones included |
| `TurnTheorems.CompletionIff` | app/infrastructure/postgres/repositories/answer_repo.py:35-140 | a worker completes its turn exactly when the turn is still being answered; otherwise no row, citation or count remains |
| `TurnTheorems.EveryClaimWasGranted` | app/infrastructure/postgres/repositories/chat_turn_repo.py:514-611 | every claim a worker holds was granted by the guarded update at some earlier moment |
| `TurnTheorems.CitedDocumentsWereReady` | app/infrastructure/postgres/repositories/answer_repo.py:65-95 | each cited document was a non-ignored, uploaded, indexed attachment of the turn when its worker claimed, and ranks are 1, 2, ... in hit order |
| `TurnTheorems.RetrievalStaysInScope` | app/workflows/rag_orchestrator.py:114-135 | retrieval for a claim never leaves its document scope and never widens to the whole space |
| `TurnTheorems.GuardIffReady` | app/infrastructure/postgres/repositories/chat_turn_repo.py:541-570 | the SQL guard of the claim is true exactly when the readiness computed from the attachment views is READY |
| `TurnTheorems.GuardIffReadyIn` | app/domain/chat_turn.py:99-115 | the same on any tables with intact rows, for any order of the views |
| `TurnTheorems.ViewIsIndexedIffUsable` | app/infrastructure/postgres/repositories/chat_turn_repo.py:775-811 | an attachment is shown as indexed exactly when the claim's join counts it |
| `TurnTheorems.MessageCountIsRows` | app/infrastructure/postgres/repositories/session_repo.py:328-346 | in every reachable state message_count is the number of message rows of the session |
| `TurnTheorems.OneToFiveAttachments` | app/services/chat_turn_service.py:379-389 | every turn always has 1 to 5 attachments with distinct client keys |
| `TurnTheorems.RepeatedRequestIsIdempotent` | app/infrastructure/postgres/repositories/chat_turn_repo.py:84-108 | a client request sent again after any events that leave its message in place, whatever the second call carries, changes nothing and finds that message and no other |
| `TurnTheorems.OneIngestPerAttachment` | app/services/chat_turn_service.py:213-294 | over all interleavings of uploads at most one ingest is started for an attachment |
| `TurnTheorems.LosersReportTheWinner` | app/services/chat_turn_service.py:261-269 | an upload that loses the race reports the winner's document; it conflicts only when the attachment is gone |
| `TurnTheorems.DocumentIsSetOnce` | app/infrastructure/postgres/repositories/chat_turn_repo.py:340-419 | an attachment's document goes from none to one value and is never changed or cleared by links or failure marks |
| `Retrieval.FilterKeepsOrder` | app/workflows/rag_orchestrator.py:131-135 | a filter keeps exactly the elements that pass, each as often as before and in their order |
| `Retrieval.RetrieveKeepsOrder` | app/workflows/rag_orchestrator.py:114-135 | what is retrieved stands at increasing positions of what was found, and these are exactly the positions of hits in scope whose chunk was read back |
| `Retrieval.CitationsFollowHits` | app/services/chat_service.py:93-108 | citations are the retrieved hits, all of them and in order, hydrated and inside a non-empty scope |
| `WorkingMemory.GetLastIsSuffix` | app/infrastructure/postgres/repositories/session_repo.py:411-438 | the newest rows, read backwards and reversed, are the suffix of the history |
| `WorkingMemory.PartitionIff` | app/infrastructure/postgres/repositories/session_repo.py:383-474 | first, middle and last rows make up the history, in order and without repetition, exactly when the windows do not overlap |
| `WorkingMemory.MemoryIsWhole` | app/memory/manager.py:47-85 | the working memory is all messages, or anchor, compressed middle and recent messages together are the whole history, even when messages arrive while it is loaded |
| `Documents.RunKeepsConsistent` | app/infrastructure/postgres/repositories/chunk_repo.py:62-98 | rows and index entries always belong to the document their chunk was cut from, whoever writes again |
| `Documents.ResultIff` | app/infrastructure/postgres/repositories/chunk_repo.py:177-206 | retrieval returns exactly the hits in scope whose chunk row exists and whose document is live in the space |
| `Documents.ResultKeepsOrder` | app/infrastructure/postgres/repositories/chunk_repo.py:177-206 | the result keeps the order of the search: its positions are increasing and are exactly those of live hits in scope |
| `Documents.TombstoneForever` | app/infrastructure/postgres/repositories/chunk_repo.py:123-175 | no step clears `deleted_at` |
| `Documents.DeletedIsNeverRetrieved` | app/services/document_service.py:214-252 | once a document is deleted no later retrieval returns a hit of it, for every interleaving of ingestions, retries and deletions and whatever the indexes still hold |
| `Deletions.LateWritesComeBack` | app/workflows/ingestion_activities.py:207-226 | from nothing: a document deleted while its first ingestion runs gets its row, its entry and the status 'indexed' back after the deletion finished |
| `Deletions.QuietDeleteIsComplete` | app/services/document_service.py:214-247 | a deletion that marks the document with no ingestion running and no retry holding it hides it at once and leaves no row and no entry, for good |
| `Deletions.DeletionIsCleanIff` | app/services/document_service.py:230-247 | every way of finishing a deletion that marked its document leaves no row, no entry and the document deleted if and only if no ingestion of it is running and no retry holds it |
| `Deletions.LateWritesSurvive` | app/workflows/ingestion_activities.py:207-226 | with an ingestion still running, a deletion can finish and be followed by a row and an entry of the document and the status 'indexed' |
| `Deletions.DeleteCanBeRepeatedIff` | app/services/document_service.py:214-247 | a deletion that fails after marking the document can ever be repeated, past both checks at its head, if and only if, at that moment, `deleted_at` is not set and an ingestion of the document is running or a retry holds it |
| `Deletions.TombstoneIsNeverRepeated` | app/infrastructure/postgres/repositories/authorization_repo.py:115-131 | a run from nothing with two overlapping deletions: the ingestion is still running when the second one fails, and yet `document_scope` refuses every later deletion because the first one set `deleted_at` |
| `Deletions.AbandonedIsReached` | app/services/document_service.py:230-247 | a run from nothing in which a deletion fails and can never be repeated |
| `Ingestions.CleanupsSpareOthers` | app/services/document_service.py:230-247 | no step of a deletion or a retry removes an entry or a row of another document, or adds any |
| `Ingestions.CreateStep` | app/infrastructure/postgres/repositories/chunk_repo.py:27-60 | a new key becomes one pending document with one run; a taken key changes nothing |
| `Ingestions.OthersSurvive` | app/services/document_service.py:114-247 | over any run, nothing of a document is lost as long as nobody deletes or retries that document |
| `Ingestions.IngestionCompletes` | app/workflows/ingestion_activities.py:135-226 | an ingestion that nothing comes in between puts all its chunks into both indexes and the database and sets the document to indexed |
| `Ingestions.IngestedIsFound` | app/infrastructure/postgres/repositories/chunk_repo.py:177-206 | after that every hit on one of its chunks is returned to a search in the space |
| `Ingestions.RetryRestarts` | app/services/document_service.py:114-165 | a retry that nothing comes in between clears the document's stores and no other's, resets the document and starts one run |
| `Ingestions.DeletionCompletes` | app/services/document_service.py:214-247 | a deletion that nothing comes in between clears the document's stores and no other's and marks the document |
| `Ingestions.AbortSteps` | app/services/document_service.py:150-163 | a retry that breaks off after it took the document over gives it back as failed; a deletion leaves it as it is |
| `Deletions.AbandonedForever` | app/services/document_service.py:230-247 | a deletion that fails after marking the document, with no ingestion running and no retry holding it, leaves it 'deleting' for good, and no further deletion is authorized |
| `Documents.OneRetryPerFailure` | app/infrastructure/postgres/repositories/chunk_repo.py:254-279 | however many retries race, each that takes over used up one failure |
| `DocumentStore.Stores.CreateDocument` | app/infrastructure/postgres/repositories/chunk_repo.py:27-60 | a key that is taken keeps its document, deleted or not; otherwise exactly this document becomes visible, in its space only |
| `DocumentStore.Stores.UpdateDocumentStatus` | app/infrastructure/postgres/repositories/chunk_repo.py:123-175 | whatever the status was: afterwards the reset of a retry takes the document over exactly when set to failed, and it is visible exactly when never deleted and not being deleted; a deletion mark stays and no other document changes |
| `DocumentStore.Stores.ResetFailedDocument` | app/infrastructure/postgres/repositories/chunk_repo.py:254-279 | takes over only a failed document, and afterwards nobody else can |
| `DocumentStore.Stores.SaveChunks` | app/infrastructure/postgres/repositories/chunk_repo.py:62-98 | commits all upserts, or rolls back exactly when some row breaks the unique key after those before it; a row that exists keeps its document and takes the last index given for it |
| `DocumentStore.SaveChunksIsOneStep` | scripts/migrate.py:208 | for the batches of an ingestion, saving row by row succeeds exactly when the whole result obeys the unique key, and gives the result of the one step of the state machine |
| `DocumentStore.Stores.DeleteChunksByDocument` | app/infrastructure/postgres/repositories/chunk_repo.py:323-341 | afterwards a read of chunks by key returns exactly what it did without the chunks of the document |
| `DocumentStore.Stores.Delete` | app/services/document_service.py:214-247 | undisturbed, a deletion is refused without a change exactly when `deleted_at` is set or the status is 'deleting' or 'deleted'; otherwise exactly the document's rows and entries are gone, those of others all remain, and the document is marked |
| `DocumentStore.Stores.RetryIngestion` | app/services/document_service.py:114-165 | undisturbed, exactly a failed document whose `deleted_at` is not set is taken over: its rows and entries are gone, those of others all remain, and it is reset, or marked failed again when the run cannot start |
| `Text.StripIsMiddle` | app/pipeline/stages/chunking/token_chunker.py:41 | stripping removes white space at both ends and nothing else |
| `SplitText.PlanIff` | app/pipeline/stages/chunking/token_chunker.py:49-84 | the rules (when to cut, what to carry, what to add) are met by exactly one division of the atoms |
| `SplitText.ExtendIsGood` | app/pipeline/stages/chunking/token_chunker.py:49-81 | handling one more paragraph or sentence keeps the rules |
| `TokenChunker.Overlap` | app/pipeline/stages/chunking/token_chunker.py:70-78 | the loop from the end computes the overlap |
| `TokenChunker.TailIsLongest` | app/pipeline/stages/chunking/token_chunker.py:70-78 | the overlap is the longest suffix within the budget: every longer one exceeds it |
| `TokenChunker.AddSentence` | app/pipeline/stages/chunking/token_chunker.py:58-64 | one sentence is joined or put behind a cut, without overlap |
| `TokenChunker.AddWhole` | app/pipeline/stages/chunking/token_chunker.py:67-81 | a paragraph that fits is joined, or put behind a cut and its overlap |
| `TokenChunker.AddSentences` | app/pipeline/stages/chunking/token_chunker.py:57-65 | the sentences of an oversize paragraph are divided by the rules |
| `TokenChunker.AddParagraph` | app/pipeline/stages/chunking/token_chunker.py:49-81 | one round of the outer loop divides the paragraph by the rules |
| `TokenChunker.Split` | app/pipeline/stages/chunking/token_chunker.py:32-86 | the loops produce exactly the chunks of the one plan that obeys the rules; the two fallback returns are never taken with text |
| `TokenChunker.ChunksRebuildText` | app/pipeline/stages/chunking/token_chunker.py:41-84 | the new parts are the paragraphs, oversize ones replaced by their sentences, in order, and carry every non-blank character once |
| `TokenChunker.NoChunksIff` | app/pipeline/stages/chunking/token_chunker.py:41-43 | the result is empty exactly when the text is white space |
| `TokenChunker.OverlapIsLongestSuffix` | app/pipeline/stages/chunking/token_chunker.py:67-81 | each chunk is an overlap and a non-empty new part; the overlap is empty or the longest suffix of the chunk before within the budget |
| `TokenChunker.ChunkIsBounded` | app/pipeline/stages/chunking/token_chunker.py:49-84 | the pieces of a chunk have at most chunk size plus overlap tokens, or the chunk is one single sentence |
| `TokenChunker.CutsAreNeeded` | app/pipeline/stages/chunking/token_chunker.py:49-81 | inside a chunk every atom continued it and fitted; a later chunk begins only because its first atom did not fit or is the first sentence of an oversize paragraph |
| `TokenChunker.ParagraphsThatFitStayWhole` | app/pipeline/stages/chunking/token_chunker.py:51-56 | a paragraph within the chunk size is one atom, a larger one is its sentences |
| `TokenChunker.AtomsByParagraph` | app/pipeline/stages/chunking/token_chunker.py:49-81 | one more paragraph adds itself, or its sentences when it is too large, behind the atoms before it |
| `TokenChunker.SentencesEndAtTerminators` | app/pipeline/stages/chunking/token_chunker.py:57 | every sentence but the last ends with its only terminator, the last has none |
| `TokenChunker.SentencesBeginWithText` | app/pipeline/stages/chunking/token_chunker.py:57 | white space after a terminator is dropped: no sentence of a stripped paragraph begins with it |
| `TokenChunker.PartsHaveNoBreak` | app/pipeline/stages/chunking/token_chunker.py:41 | no part of the split at blank lines contains one |
| `Markdown.TakeCode` | app/pipeline/stages/chunking/markdown_chunker.py:66-77 | a fenced block runs to its closing fence or the end of the text, verbatim |
| `Markdown.TakeTable` | app/pipeline/stages/chunking/markdown_chunker.py:87-94 | a table runs over all following lines with a bar, verbatim |
| `Markdown.TakeParagraph` | app/pipeline/stages/chunking/markdown_chunker.py:102-115 | a paragraph runs to a blank line, fence, heading or table |
| `Markdown.ParseBlocks` | app/pipeline/stages/chunking/markdown_chunker.py:53-117 | the line machine terminates and produces exactly the blocks of the specified spans |
| `MarkdownTheorems.ObeysIff` | app/pipeline/stages/chunking/markdown_chunker.py:60-115 | a stretch of lines obeys the rules of its kind exactly when the machine takes it |
| `MarkdownTheorems.ParseIff` | app/pipeline/stages/chunking/markdown_chunker.py:53-117 | the rules fix the parse: blocks cover disjoint increasing line ranges and every other line is blank, in exactly one way |
| `MarkdownTheorems.BlocksAreLines` | app/pipeline/stages/chunking/markdown_chunker.py:53-117 | code and tables are verbatim line ranges, headings are one stripped line with 1 to 6 marks, paragraphs are stripped line ranges |
| `MarkdownTheorems.BlocksConserveText` | app/pipeline/stages/chunking/markdown_chunker.py:53-117 | the non-blank characters of the blocks, in order, are those of the text |
| `MarkdownTheorems.ParagraphIsPlain` | app/pipeline/stages/chunking/markdown_chunker.py:102-115 | a parsed paragraph is not empty, has text at both ends and no blank line inside |
| `MarkdownTheorems.SplitUndoesJoin` | app/pipeline/stages/chunking/markdown_chunker.py:133-134 | for parsed paragraphs the split at blank lines exactly undoes the join with blank lines |
| `MarkdownTheorems.FenceIff` | app/pipeline/stages/chunking/markdown_chunker.py:19 | a fence is three backticks or three tildes and is taken as it stands |
| `MarkdownTheorems.HeadingIff` | app/pipeline/stages/chunking/markdown_chunker.py:18 | a heading is one to six marks and then white space |
| `MarkdownTheorems.TableStartIff` | app/pipeline/stages/chunking/markdown_chunker.py:40-51 | a table starts with a line with a bar above a line of bars, dashes, colons and blanks with a bar and a dash |
| `MarkdownTheorems.CodeEndsWithItsFence` | app/pipeline/stages/chunking/markdown_chunker.py:66-77 | a code block ends with the first line that starts with the three characters of its own fence, or with the text |
| `MarkdownTheorems.ParagraphEndsAtMark` | app/pipeline/stages/chunking/markdown_chunker.py:102-115 | a paragraph goes on to the next blank line, fence, heading or start of a table, and holds none of these |
| `MarkdownChunker.Flush` | app/pipeline/stages/chunking/markdown_chunker.py:130-136 | flushing appends the chunks of the joined buffer, each with the current section |
| `MarkdownChunker.BlocksToChunks` | app/pipeline/stages/chunking/markdown_chunker.py:120-150 | buffering and flushing produce, run by run, the specified pieces |
| `MarkdownChunker.PiecesStayInTheirRun` | app/pipeline/stages/chunking/markdown_chunker.py:120-150 | no text piece crosses a heading, code block or table; its atoms are the paragraphs of its run; every piece carries the latest heading before it |
| `MarkdownChunker.SolidBlocksSurvive` | app/pipeline/stages/chunking/markdown_chunker.py:142-145 | code blocks and tables come out verbatim, labelled by their kind, once and in order |
| `MarkdownChunker.SectionIsLatestHeading` | app/pipeline/stages/chunking/markdown_chunker.py:138-141 | the section is the last heading before a piece, and empty when there is none |
| `MarkdownChunker.NothingIsLost` | app/pipeline/stages/chunking/markdown_chunker.py:120-150 | headings, whole blocks and new parts together carry every non-blank character of the text once and in order |
| `RateLimit.RateLimiter.Get` | app/api/middleware/rate_limit.py:95-96 | a counter is never expired while its minute is read as the current or the previous one |
| `RateLimit.RateLimiter.Increment` | app/api/middleware/rate_limit.py:91-94 | counting and setting the time to live keep the counters equal to the requests made |
| `RateLimit.RateLimiter.Handle` | app/api/middleware/rate_limit.py:81-128 | admits exactly when the exact weighted estimate is within the limit; the headers give the rounded remainder and the end of the minute |
| `RateLimit.Answer` | app/api/middleware/rate_limit.py:107-122 | refuses exactly above the limit; the remaining requests are the room rounded down, and waiting ends with the minute |
| `RateLimit.BucketBound` | app/api/middleware/rate_limit.py:81-107 | every minute admits at most the limit |
| `RateLimit.WindowBound` | app/api/middleware/rate_limit.py:81-107 | sixty seconds that end at elapsed second e admit at most limit * (60 + e) / 60 requests |
| `RateLimit.WindowMaximum` | app/api/middleware/rate_limit.py:81-107 | the exact maximum for the sixty seconds ending with second t: the limit when they begin with a minute, else limit + limit * e / 60 rounded down; never more, and some requests reach it |
| `RateLimit.LimitCanBeExceededIff` | app/api/middleware/rate_limit.py:103-107 | some sixty seconds admit more than the limit exactly when the limit is at least two |
| `Fusion.SortContents` | app/pipeline/stages/retrieval/rrf_fusion_stage.py:40 | sorting permutes |
| `Fusion.SortDescends` | app/pipeline/stages/retrieval/rrf_fusion_stage.py:40 | sorting puts higher scores first |
| `Fusion.SortKeepsTies` | app/pipeline/stages/retrieval/rrf_fusion_stage.py:40 | sorting keeps hits of equal score in their order |
| `Fusion.AddList` | app/pipeline/stages/retrieval/rrf_fusion_stage.py:41-44 | the loop over one ranked list adds one vote per hit, or divides by zero exactly when the constant cancels a rank |
| `Fusion.Tally` | app/pipeline/stages/retrieval/rrf_fusion_stage.py:39-44 | scores, first hits and insertion order after both lists |
| `Fusion.Execute` | app/pipeline/stages/retrieval/rrf_fusion_stage.py:29-62 | the fused list holds, rank by rank, the first hit of each best key with its score, and keeps the source of the hit |
| `Fusion.RrfFuse` | app/services/debug_retrieval_service.py:50-73 | the same with the caller's constant and its own source label; an error exactly when a denominator is zero |
| `Fusion.ImplementationsAgree` | app/services/debug_retrieval_service.py:50-73 | with the constant 60 both implementations, each proved on its own in `Execute` and `RrfFuse` over the tally that the sources share, give the same keys, scores and ranks |
| `FusionProperties.FusedShape` | app/pipeline/stages/retrieval/rrf_fusion_stage.py:47-60 | distinct keys, as many as asked for and available, ranks 1 to n, scores that never rise, and nothing left out scores more than something kept |
| `FusionProperties.FusedScores` | app/pipeline/stages/retrieval/rrf_fusion_stage.py:39-42 | on lists without duplicates a score is the sum of the reciprocals of constant plus rank |
| `FusionProperties.FusedHits` | app/pipeline/stages/retrieval/rrf_fusion_stage.py:43 | a key stands for its best ranked vector hit if the vector list has it, else for its best ranked keyword hit, with the source of that hit |
| `FusionProperties.FusedTies` | app/pipeline/stages/retrieval/rrf_fusion_stage.py:47 | of two keys with equal score the one voted for first comes first |
| `FusionProperties.DominanceIsKept` | app/pipeline/stages/retrieval/rrf_fusion_stage.py:39-47 | a key ranked above another wherever the other appears precedes it in the result |
| `FilterExpr.ParseFilters` | app/domain/metadata_filter.py:38-65 | accepts exactly the valid items, in order and with their key, operator and value; otherwise the first bad item's first defect is the error |
| `FilterExpr.KeyOkIff` | app/domain/metadata_filter.py:12 | a key is a letter or underscore, then letters, digits and underscores, and perhaps one final line feed |
| `FilterExpr.ReplacementsEscape` | app/infrastructure/milvus/filter_builder.py:41 | the two replacements in sequence escape each character on its own |
| `FilterExpr.QuotedReadsBack` | app/infrastructure/milvus/filter_builder.py:41-42 | a quoted literal ends at its own closing quote, whatever it contains and whatever follows |
| `FilterExpr.ScalarReadsBack` | app/infrastructure/milvus/filter_builder.py:35-42 | a printed scalar reads back, booleans and integers kept apart |
| `FilterExpr.OneReadsBack` | app/infrastructure/milvus/filter_builder.py:26-32 | a printed condition reads back with its key, operator and value |
| `FilterExpr.BuildReadsBack` | app/infrastructure/milvus/filter_builder.py:17-46 | printing a validated list and reading it back gives the same list |
| `FilterExpr.BuildIsInjective` | app/infrastructure/milvus/filter_builder.py:17-46 | different filter lists never print the same expression |

## Left out

- Access: one tenant; requests of other tenants touch no row of it. Audit rows, names of spaces, e-mail addresses, error texts and timestamps are not modelled. `update_space` and the listing queries only add easy members.
- Every space always has a manager: not maintained by the code; the operations that lose managers are covered by the exact conditions in `SpaceManagers`.
- Turns: query text, file names, sizes, error messages and timestamps are not modelled. The checks that the service makes before a transaction on possibly stale data only refuse more; the model lets those transactions run anyway.
- `claim_answer` has no caller and skips the readiness guard; it is not a step of the protocol.
- The assistant row of a turn is found by timestamps in `_get_turn_with_db`; the model uses the recorded worker instead.
- TurnRepository.Repository.ClaimReadyAnswer: transactions are serialised in the model; in the database another commit can fall between the update and the scope query, the scope is then that of the later moment, and the source undoes the claim with an error when it is empty.
- Documents: object storage, the workflow engine and the semantic cache are not modelled; chunk contents and counts neither. Of the authorization at the head of `delete` and `retry_ingestion`, the filter of `document_scope` on `deleted_at` and status is modelled, as a read of its own before the status check; the permissions of the caller are not.
- Documents: an ingestion counts as running until no attempt of it writes any more, and until then may perform any of its writes again; the workflow allows three attempts of an activity, so some of these late writes are more than it can do.
- WorkingMemory.MemoryIsWhole: assumes that messages are listed in the order in which they were inserted; rows with equal creation times are not modelled.
- Chunkers: the tokenizer is an arbitrary function from text to a number that is not negative; the sum of the pieces of a chunk is bounded, not the tokens of the joined text. Titles and chunk metadata are not modelled.
- RateLimit.RateLimiter.Handle: exact arithmetic instead of floating point, a clock that never goes back, and counting and reading as one step. Requests that bypass the limiter, a failing store (which admits) and a failure between counting and setting the time to live are left out.
- FusionProperties.DominanceIsKept: is stated for constants that are not negative; the stage uses 60, and with a negative one a vote lowers the score.
- Fusion: exact numbers instead of floating point.
- FilterExpr.BuildReadsBack: floating-point values are not modelled; integers print in full.
- Network and storage clients, routers, tokens and passwords, telemetry, settings and scripts, except for the constraints of the schema, are not part of this model.
- The reply assembly of `stream_answer`, the prompt budget and the role table add easy members only.
