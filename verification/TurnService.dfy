/** The service around the turn repository: each call as the sequence of transactions it makes, when no other
    process comes between them. `TurnProtocol` is about what happens when others do. */
module TurnService {
  import opened Common
  import T = Turns
  import I = TurnInvariants
  import M = TurnMeanings
  import R = Retrieval
  import P = TurnProtocol
  import H = TurnTheorems
  import opened TurnRepository

  datatype Conflict = NotFound | NotReady(readiness: T.Readiness) | WrongStatus

  datatype Upload = Known(document: Id) | Ingesting(document: Id) | NoSuchAttachment | Closed | BadFile | StorageFailed

  class Service {
    const repo: Repository

    constructor (repo: Repository)
      ensures this.repo == repo
    {
      this.repo := repo;
    }

    /** The attachments of a turn, in some order. */
    method ListAttachments(turn: Id) returns (rows: seq<Id>)
      ensures forall a :: a in rows <==> a in T.AttachmentsOf(repo.Snapshot(), turn)
    {
      var todo := T.AttachmentsOf(repo.Snapshot(), turn);
      rows := [];
      while todo != {}
        invariant forall a :: a in T.AttachmentsOf(repo.Snapshot(), turn) <==> a in todo || a in rows
        decreases |todo|
      {
        var a :| a in todo;
        todo := todo - {a};
        rows := rows + [a];
      }
    }

    /** `prepare_answer`: the readiness that is shown and the guard of the claim never disagree, so a turn that is
        ready is claimed. */
    method PrepareAnswer(turn: Id, o: T.Owner) returns (r: Result<T.AnswerClaim, Conflict>)
      requires repo.Valid()
      modifies repo
      ensures repo.Valid()
      ensures r.Ok? <==>
              && T.Owned(old(repo.Snapshot()), turn, o) && old(repo.Snapshot()).messages[turn].role == T.User
              && T.ClaimGuard(old(repo.Snapshot()), turn)
              && T.StatusIs(old(repo.Snapshot()), turn, {T.WaitingFiles, T.AnswerFailed})
      ensures r == Err(NotFound) <==>
                !T.Owned(old(repo.Snapshot()), turn, o) || old(repo.Snapshot()).messages[turn].role != T.User
      ensures r == Err(WrongStatus) <==>
                && r != Err(NotFound) && T.ClaimGuard(old(repo.Snapshot()), turn)
                && !T.StatusIs(old(repo.Snapshot()), turn, {T.WaitingFiles, T.AnswerFailed})
      ensures r.Err? && r.error.NotReady? <==> r != Err(NotFound) && !T.ClaimGuard(old(repo.Snapshot()), turn)
      ensures r.Err? && r.error.NotReady? ==> Explains(old(repo.Snapshot()), turn, r.error.readiness)
      ensures r.Ok? ==> (repo.Snapshot(), Some(r.value)) == T.ClaimReadyAnswer(old(repo.Snapshot()), turn, o)
      ensures r.Err? ==> repo.Snapshot() == old(repo.Snapshot())
    {
      var t := repo.Snapshot();
      if !T.Owned(t, turn, o) || t.messages[turn].role != T.User {
        return Err(NotFound);
      }
      var rows := ListAttachments(turn);
      H.GuardIffReadyIn(t, turn, rows);
      var readiness := T.ComputeReadiness(H.Views(t, rows));
      ReadinessExplained(t, turn, rows);
      if readiness != T.Ready {
        return Err(NotReady(readiness));
      }
      if !T.StatusIs(t, turn, {T.WaitingFiles, T.AnswerFailed}) {
        return Err(WrongStatus);
      }
      var claim := repo.ClaimReadyAnswer(turn, o);
      if claim.None? {
        assert false;
      }
      return Ok(claim.value);
    }

    /** `stream_answer`: the answer is persisted, or the turn is marked as failed and nothing else remains. */
    method StreamAnswer(claim: T.AnswerClaim, generated: bool, id: Id, found: seq<R.Hit>, hydrated: set<Id>)
      returns (answered: bool)
      requires repo.Valid()
      modifies repo
      ensures repo.Valid()
      ensures answered <==>
                generated
                && T.SaveAssistant(old(repo.Snapshot()), Some(claim.turn), claim.session, claim.owner, id,
                                   P.Cited(claim, found, hydrated)).Ok?
      ensures answered <==>
                && generated && id !in old(repo.messages)
                && claim.session in old(repo.sessions) && old(repo.sessions)[claim.session].owner == claim.owner
                && T.Owned(old(repo.Snapshot()), claim.turn, claim.owner)
                && old(repo.messages)[claim.turn].session == claim.session
                && old(repo.messages)[claim.turn].status == Some(T.Answering)
      ensures answered ==>
                && id in repo.messages && claim.turn in repo.messages
                && repo.messages[claim.turn].status == Some(T.Completed)
      ensures !answered && T.Owned(old(repo.Snapshot()), claim.turn, claim.owner)
              && old(repo.messages)[claim.turn].status == Some(T.Answering) ==>
                repo.messages == old(repo.messages)
                                   [claim.turn := old(repo.messages)[claim.turn].(status := Some(T.AnswerFailed))]
      ensures answered ==>
                T.SaveAssistant(old(repo.Snapshot()), Some(claim.turn), claim.session, claim.owner, id,
                                P.Cited(claim, found, hydrated)) == Ok(repo.Snapshot())
      ensures !answered ==> repo.Snapshot() == T.FailAnswer(old(repo.Snapshot()), claim.turn, claim.owner).0
    {
      M.SaveAssistantRows(repo.Snapshot(), Some(claim.turn), claim.session, claim.owner, id,
                          P.Cited(claim, found, hydrated));
      M.StatusRows(repo.Snapshot(), claim.turn, claim.owner);
      if generated {
        var error := repo.SaveAssistant(Some(claim.turn), claim.session, claim.owner, id,
                                        P.Cited(claim, found, hydrated));
        if error.None? {
          return true;
        }
      }
      var failed := repo.FailAnswer(claim.turn, claim.owner);
      return false;
    }

    /** `upload_attachment`: a second upload is answered with the first one's document; otherwise the document is
        created, linked and ingested, or the attachment is marked as failed. */
    method UploadAttachment(turn: Id, a: Id, o: T.Owner, document: Id, fileOk: bool, stored: bool)
      returns (reply: Upload)
      requires repo.Valid() && document !in repo.documents
      modifies repo
      ensures repo.Valid()
      ensures reply == NoSuchAttachment <==> !T.OwnedAttachment(old(repo.Snapshot()), turn, a, o)
      ensures reply.Known? <==>
                T.OwnedAttachment(old(repo.Snapshot()), turn, a, o) && old(repo.attachments)[a].document.Some?
      ensures reply.Known? ==> old(repo.attachments)[a].document == Some(reply.document)
      ensures reply == Closed <==>
                && T.OwnedAttachment(old(repo.Snapshot()), turn, a, o) && old(repo.attachments)[a].document.None?
                && !T.StatusIs(old(repo.Snapshot()), turn, {T.WaitingFiles})
      ensures reply == BadFile <==> Wanted(old(repo.Snapshot()), turn, a, o) && !fileOk
      ensures reply == StorageFailed <==> Wanted(old(repo.Snapshot()), turn, a, o) && fileOk && !stored
      ensures reply.Ingesting? <==> Wanted(old(repo.Snapshot()), turn, a, o) && fileOk && stored
      ensures reply.Ingesting? ==>
                && reply.document == document
                && repo.documents
                   == old(repo.documents)[document := T.Document(o.tenant, old(repo.attachments)[a].space,
                                                                 T.DocPending)]
                && repo.attachments
                   == old(repo.attachments)
                        [a := old(repo.attachments)[a].(document := Some(document), upload := T.Uploaded)]
      ensures reply == StorageFailed ==>
                a in old(repo.attachments) && repo.documents == old(repo.documents)
                && repo.attachments == old(repo.attachments)[a := old(repo.attachments)[a].(upload := T.Failed)]
      ensures !reply.Ingesting? && reply != StorageFailed ==> repo.Snapshot() == old(repo.Snapshot())
      ensures repo.messages == old(repo.messages) && repo.sessions == old(repo.sessions)
    {
      var t := repo.Snapshot();
      if !T.OwnedAttachment(t, turn, a, o) || t.messages[turn].role != T.User {
        UploadedTurnIsUser(t, turn, a, o);
        return NoSuchAttachment;
      }
      var row := repo.attachments[a];
      if row.document.Some? {
        return Known(row.document.value);
      }
      if !T.StatusIs(t, turn, {T.WaitingFiles}) {
        return Closed;
      }
      if !fileOk {
        return BadFile;
      }
      assert I.AttachmentOk(t, a);
      if !stored {
        var marked := repo.MarkUploadFailed(turn, a, o);
        return StorageFailed;
      }
      repo.CreateDocument(document, o.tenant, t.sessions[t.messages[turn].session].space);
      var linked := repo.LinkDocument(turn, a, document, o);
      if !linked {
        assert false;
      }
      return Ingesting(document);
    }
  }

  /** The turn still takes a file for the attachment. */
  predicate Wanted(t: T.Tables, turn: Id, a: Id, o: T.Owner) {
    && T.OwnedAttachment(t, turn, a, o) && t.attachments[a].document.None? && T.StatusIs(t, turn, {T.WaitingFiles})
  }

  function ViewOf(t: T.Tables, a: Id): T.ViewStatus
    requires a in t.attachments
  {
    T.ToView(t, t.attachments[a]).status
  }

  /** Why a turn is not ready: every attachment is ignored, or one has failed, or none has and one is on its way. */
  ghost predicate Explains(t: T.Tables, turn: Id, r: T.Readiness) {
    && r != T.Ready
    && (r == T.Empty <==> forall a <- T.AttachmentsOf(t, turn) :: t.attachments[a].ignored)
    && (r == T.Blocked <==> exists a <- T.AttachmentsOf(t, turn) :: ViewOf(t, a) == T.ViewFailed)
    && (r == T.NotYet <==>
          && (forall a <- T.AttachmentsOf(t, turn) :: ViewOf(t, a) != T.ViewFailed)
          && exists a <- T.AttachmentsOf(t, turn) :: ViewOf(t, a) in {T.PendingUpload, T.Ingesting})
  }

  lemma ReadinessExplained(t: T.Tables, turn: Id, rows: seq<Id>)
    requires I.RowsInv(t) && forall a :: a in rows <==> a in T.AttachmentsOf(t, turn)
    ensures var r := T.ComputeReadiness(H.Views(t, rows)); r != T.Ready ==> Explains(t, turn, r)
  {
    var views := H.Views(t, rows);
    M.ReadinessIff(views);
    var live := set i | 0 <= i < |views| && !views[i].ignored && views[i].status != T.Ignored;
    forall i | 0 <= i < |rows|
      ensures rows[i] in T.AttachmentsOf(t, turn) && views[i].status == ViewOf(t, rows[i])
      ensures i in live <==> !t.attachments[rows[i]].ignored
    {
      assert rows[i] in rows;
      M.ViewIff(t, rows[i]);
    }
    forall a <- T.AttachmentsOf(t, turn)
      ensures exists i :: 0 <= i < |rows| && rows[i] == a
      ensures t.attachments[a].ignored <==> ViewOf(t, a) == T.Ignored
    {
      assert a in rows;
      M.ViewIff(t, a);
    }
  }

  lemma UploadedTurnIsUser(t: T.Tables, turn: Id, a: Id, o: T.Owner)
    requires I.RowsInv(t)
    ensures T.OwnedAttachment(t, turn, a, o) ==> t.messages[turn].role == T.User
  {
    if T.OwnedAttachment(t, turn, a, o) {
      assert I.AttachmentOk(t, a) && I.MessageOk(t, turn);
    }
  }
}
