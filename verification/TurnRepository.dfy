/** The repositories that change the turn tables, statement by statement inside each transaction. */
module TurnRepository {
  import opened Common
  import T = Turns
  import I = TurnInvariants
  import M = TurnMeanings

  datatype Declaration = Declaration(client: Id, wellFormed: bool)

  datatype Refusal = NoAttachment | TooMany | Malformed | DuplicateClient

  /** Position `i` is the first declaration that cannot be accepted after those before it. */
  ghost predicate FirstBad(ds: seq<Declaration>, i: nat) {
    && i < |ds|
    && (forall j :: 0 <= j < i ==> ds[j].wellFormed)
    && (forall j, k :: 0 <= j < k < i ==> ds[j].client != ds[k].client)
    && (ds[i].wellFormed ==> exists j :: 0 <= j < i && ds[j].client == ds[i].client)
  }

  /** `_validate_attachment_list`: 1 to 5 well-formed declarations with distinct client keys, or the reason
      that the first offending declaration gives. */
  method ValidateAttachmentList(ds: seq<Declaration>) returns (refusal: Option<Refusal>)
    ensures refusal.None? <==>
            && 1 <= |ds| <= 5
            && (forall d <- ds :: d.wellFormed)
            && (forall i, j :: 0 <= i < j < |ds| ==> ds[i].client != ds[j].client)
    ensures refusal == Some(NoAttachment) <==> ds == []
    ensures refusal == Some(TooMany) <==> |ds| > 5
    ensures refusal == Some(Malformed) ==> exists i: nat :: FirstBad(ds, i) && !ds[i].wellFormed
    ensures refusal == Some(DuplicateClient) ==> exists i: nat :: FirstBad(ds, i) && ds[i].wellFormed
  {
    if ds == [] {
      return Some(NoAttachment);
    }
    if |ds| > T.MAX_ATTACHMENTS {
      return Some(TooMany);
    }
    var seen: set<Id> := {};
    for i := 0 to |ds|
      invariant seen == set j | 0 <= j < i :: ds[j].client
      invariant forall j :: 0 <= j < i ==> ds[j].wellFormed
      invariant forall j, k :: 0 <= j < k < i ==> ds[j].client != ds[k].client
    {
      if !ds[i].wellFormed {
        assert ds[i] in ds;
        assert FirstBad(ds, i);
        return Some(Malformed);
      }
      if ds[i].client in seen {
        assert FirstBad(ds, i);
        return Some(DuplicateClient);
      }
      seen := seen + {ds[i].client};
    }
    return None;
  }

  /** No declaration repeats a key, and none uses a key that is taken. */
  ghost predicate Insertable(rows: map<Id, T.Attachment>, ds: seq<T.Declared>) {
    T.DistinctDeclarations(ds) && forall i :: 0 <= i < |ds| ==> ds[i].attachment !in rows
  }

  ghost predicate Inserted(rows0: map<Id, T.Attachment>, rows: map<Id, T.Attachment>, o: T.Owner, space: Id, turn: Id,
                           ds: seq<T.Declared>)
  {
    Insertable(rows0, ds) && rows == rows0 + T.Placeholders(o, space, turn, ds)
  }

  /** The primary key, and UNIQUE (message_id, client_id). */
  predicate Collides(rows: map<Id, T.Attachment>, id: Id, row: T.Attachment) {
    id in rows || exists a <- rows :: rows[a].turn == row.turn && rows[a].client == row.client
  }

  lemma InsertablePrefix(rows: map<Id, T.Attachment>, ds: seq<T.Declared>, n: nat)
    requires n <= |ds| && Insertable(rows, ds)
    ensures Insertable(rows, ds[..n])
  {
  }

  lemma PlaceholdersSnoc(o: T.Owner, space: Id, turn: Id, ds: seq<T.Declared>, d: T.Declared)
    requires T.DistinctDeclarations(ds) && T.DistinctDeclarations(ds + [d])
    ensures T.Placeholders(o, space, turn, ds + [d])
            == T.Placeholders(o, space, turn, ds)
                 [d.attachment := T.Attachment(turn, o.tenant, space, d.client, None, T.Pending, false)]
  {
    var more := T.Placeholders(o, space, turn, ds + [d]);
    assert forall i :: 0 <= i < |ds| ==> (ds + [d])[i] == ds[i];
    assert (ds + [d])[|ds|] == d;
  }

  lemma CollisionIsReal(rows0: map<Id, T.Attachment>, o: T.Owner, space: Id, turn: Id, ds: seq<T.Declared>,
                        d: T.Declared, row: T.Attachment)
    requires Insertable(rows0, ds) && (forall a <- rows0 :: rows0[a].turn != turn) && row.turn == turn
             && row.client == d.client
    requires Collides(rows0 + T.Placeholders(o, space, turn, ds), d.attachment, row)
    ensures !Insertable(rows0, ds + [d])
  {
    var more := ds + [d];
    if d.attachment !in rows0 {
      var j :| 0 <= j < |ds| && (ds[j].attachment == d.attachment || ds[j].client == d.client);
      assert more[j] == ds[j] && more[|ds|] == d;
    } else {
      assert more[|ds|] == d;
    }
  }

  lemma NoCollisionIsInsertable(rows0: map<Id, T.Attachment>, o: T.Owner, space: Id, turn: Id, ds: seq<T.Declared>,
                                d: T.Declared, row: T.Attachment)
    requires Insertable(rows0, ds) && row.turn == turn && row.client == d.client
    requires !Collides(rows0 + T.Placeholders(o, space, turn, ds), d.attachment, row)
    ensures Insertable(rows0, ds + [d])
  {
    var rows := rows0 + T.Placeholders(o, space, turn, ds);
    forall j | 0 <= j < |ds| ensures ds[j].attachment != d.attachment && ds[j].client != d.client {
      assert ds[j].attachment in rows && rows[ds[j].attachment].client == ds[j].client;
    }
  }

  /** One more row after those of `ds`. */
  lemma RowsSnoc(rows0: map<Id, T.Attachment>, o: T.Owner, space: Id, turn: Id, ds: seq<T.Declared>, d: T.Declared)
    requires Insertable(rows0, ds) && Insertable(rows0, ds + [d])
    ensures var row := T.Attachment(turn, o.tenant, space, d.client, None, T.Pending, false);
            rows0 + T.Placeholders(o, space, turn, ds + [d])
            == (rows0 + T.Placeholders(o, space, turn, ds))[d.attachment := row]
  {
    PlaceholdersSnoc(o, space, turn, ds, d);
  }

  /** The unique keys stop a row exactly when its key is taken or the list repeats a key. */
  lemma InsertNext(rows0: map<Id, T.Attachment>, rows: map<Id, T.Attachment>, o: T.Owner, space: Id, turn: Id,
                   ds: seq<T.Declared>, d: T.Declared)
    requires Inserted(rows0, rows, o, space, turn, ds) && forall a <- rows0 :: rows0[a].turn != turn
    ensures var row := T.Attachment(turn, o.tenant, space, d.client, None, T.Pending, false);
            if Collides(rows, d.attachment, row) then !Insertable(rows0, ds + [d])
            else Inserted(rows0, rows[d.attachment := row], o, space, turn, ds + [d])
  {
    var row := T.Attachment(turn, o.tenant, space, d.client, None, T.Pending, false);
    if Collides(rows, d.attachment, row) {
      CollisionIsReal(rows0, o, space, turn, ds, d, row);
    } else {
      NoCollisionIsInsertable(rows0, o, space, turn, ds, d, row);
      RowsSnoc(rows0, o, space, turn, ds, d);
    }
  }

  lemma NewTurnHasNoRows(t: T.Tables, turn: Id)
    requires I.RowsInv(t) && turn !in t.messages
    ensures forall a <- t.attachments :: t.attachments[a].turn != turn
  {
    forall a <- t.attachments ensures t.attachments[a].turn != turn {
      assert I.AttachmentOk(t, a);
    }
  }

  /** A new request is decided by whether its rows can be inserted. */
  lemma CreatedIffInsertable(t: T.Tables, o: T.Owner, session: Id, space: Id, request: Id, turn: Id,
                             ds: seq<T.Declared>)
    requires T.SessionOwned(t, session, o) && t.sessions[session].space == space
    requires !T.Requested(t, o, request) && turn !in t.messages
    ensures T.CreateTurn(t, o, session, space, request, turn, ds)
            == if Insertable(t.attachments, ds) then
                 Ok(T.AddRow(t, turn, T.Message(session, o, T.User, Some(T.WaitingFiles), Some(request)))
                     .(attachments := t.attachments + T.Placeholders(o, space, turn, ds)))
               else Err(T.Integrity)
  {
    assert forall i :: 0 <= i < |ds| ==> ds[i] in ds;
  }

  lemma CreatedKeeps(t: T.Tables, o: T.Owner, session: Id, space: Id, request: Id, turn: Id, ds: seq<T.Declared>,
                     t': T.Tables)
    requires I.TableInv(t) && T.CreateTurn(t, o, session, space, request, turn, ds) == Ok(t')
    ensures 1 <= |ds| <= T.MAX_ATTACHMENTS ==> I.TableInv(t')
    ensures !T.Requested(t, o, request) ==>
              M.TurnAdded(t, t', o, session, space, request, turn, ds) && T.RequestRow(t', o, request, turn)
  {
    if !T.Requested(t, o, request) {
      M.AddedTurnRows(t, o, session, space, request, turn, ds, t');
    }
    if 1 <= |ds| <= T.MAX_ATTACHMENTS {
      I.CreateTurnKeepsTables(t, o, session, space, request, turn, ds);
    }
  }

  lemma AddedKeeps(t: T.Tables, turn: Id, o: T.Owner, id: Id, client: Id, max: int, t': T.Tables)
    requires I.TableInv(t) && T.AddAttachment(t, turn, o, id, client, max) == Ok((t', true))
    ensures (max <= T.MAX_ATTACHMENTS ==> I.TableInv(t')) && M.LinksKept(t, t')
    ensures exists a <- T.AttachmentsOf(t', turn) :: t'.attachments[a].client == client
    ensures forall id2: Id :: T.AddAttachment(t', turn, o, id2, client, max) == Ok((t', true))
  {
    M.AddedMeans(t, turn, o, id, client, max);
    if max <= T.MAX_ATTACHMENTS {
      I.AddAttachmentKeepsTables(t, turn, o, id, client, max);
    }
  }

  lemma SavedKeeps(t: T.Tables, source: Option<Id>, session: Id, o: T.Owner, id: Id, cited: seq<(Id, Id)>, t': T.Tables)
    requires I.TableInv(t) && T.SaveAssistant(t, source, session, o, id, cited) == Ok(t')
    ensures I.TableInv(t')
    ensures source.Some? ==> M.Unclaimable(t', source.value) && M.Unsaveable(t', source.value)
  {
    I.SaveAssistantKeepsTables(t, source, session, o, id, cited);
    if source.Some? {
      M.SavedMeans(t, source.value, session, o, id, cited);
    }
  }

  class Repository {
    var sessions: map<Id, T.Session>
    var messages: map<Id, T.Message>
    var attachments: map<Id, T.Attachment>
    var documents: map<Id, T.Document>
    var citations: map<Id, seq<T.Citation>>

    function Snapshot(): T.Tables
      reads this
    {
      T.Tables(sessions, messages, attachments, documents, citations)
    }

    ghost predicate Valid()
      reads this
    {
      I.TableInv(Snapshot())
    }

    constructor ()
      ensures Snapshot() == T.Tables(map[], map[], map[], map[], map[]) && Valid()
    {
      sessions, messages, attachments, documents, citations := map[], map[], map[], map[], map[];
    }

    method Rollback(t: T.Tables)
      modifies this
      ensures Snapshot() == t
    {
      sessions, messages, attachments, documents, citations :=
        t.sessions, t.messages, t.attachments, t.documents, t.citations;
    }

    method Increment(session: Id)
      requires session in sessions
      modifies this`sessions
      ensures sessions == old(sessions)[session := old(sessions)[session].(count := old(sessions)[session].count + 1)]
    {
      var row := sessions[session];
      sessions := sessions[session := row.(count := row.count + 1)];
    }

    /** The rows of one INSERT: a duplicate key of either kind stops it. */
    method InsertPlaceholders(o: T.Owner, space: Id, turn: Id, ds: seq<T.Declared>) returns (ok: bool)
      requires forall a <- attachments :: attachments[a].turn != turn
      modifies this`attachments
      ensures ok <==> Insertable(old(attachments), ds)
      ensures ok ==> attachments == old(attachments) + T.Placeholders(o, space, turn, ds)
    {
      ghost var before := attachments;
      for i := 0 to |ds|
        invariant Inserted(before, attachments, o, space, turn, ds[..i])
      {
        assert ds[..i + 1] == ds[..i] + [ds[i]];
        var row := T.Attachment(turn, o.tenant, space, ds[i].client, None, T.Pending, false);
        InsertNext(before, attachments, o, space, turn, ds[..i], ds[i]);
        if Collides(attachments, ds[i].attachment, row) {
          if Insertable(before, ds) {
            InsertablePrefix(before, ds, i + 1);
          }
          return false;
        }
        attachments := attachments[ds[i].attachment := row];
      }
      assert ds[..|ds|] == ds;
      return true;
    }

    /** `create_turn` returns the turn of the request, new or not. */
    method CreateTurn(o: T.Owner, session: Id, space: Id, request: Id, turn: Id, ds: seq<T.Declared>)
      returns (r: Result<Id, T.Error>)
      requires Valid()
      modifies this
      ensures 1 <= |ds| <= T.MAX_ATTACHMENTS ==> Valid()
      ensures r == Err(T.NotFound) <==>
                !(session in old(sessions) && old(sessions)[session].owner == o
                  && old(sessions)[session].space == space)
      ensures r.Ok? && T.Requested(old(Snapshot()), o, request) ==> Snapshot() == old(Snapshot())
      ensures !T.Requested(old(Snapshot()), o, request) && r != Err(T.NotFound) ==>
                (r.Ok? <==> turn !in old(messages) && Insertable(old(attachments), ds))
      ensures r.Ok? && !T.Requested(old(Snapshot()), o, request) ==>
                r.value == turn && M.TurnAdded(old(Snapshot()), Snapshot(), o, session, space, request, turn, ds)
      ensures r.Ok? ==> T.CreateTurn(old(Snapshot()), o, session, space, request, turn, ds) == Ok(Snapshot())
                        && T.RequestRow(Snapshot(), o, request, r.value)
      ensures r.Err? ==> T.CreateTurn(old(Snapshot()), o, session, space, request, turn, ds) == Err(r.error)
                         && Snapshot() == old(Snapshot())
    {
      if session !in sessions || sessions[session].owner != o || sessions[session].space != space {
        return Err(T.NotFound);
      }
      if m :| m in messages && messages[m].owner == o && messages[m].request == Some(request) {
        assert T.RequestRow(Snapshot(), o, request, m);
        return Ok(m);
      }
      if turn in messages {
        return Err(T.Integrity);
      }
      var before := Snapshot();
      assert !T.Requested(before, o, request);
      NewTurnHasNoRows(before, turn);
      CreatedIffInsertable(before, o, session, space, request, turn, ds);
      messages := messages[turn := T.Message(session, o, T.User, Some(T.WaitingFiles), Some(request))];
      var inserted := InsertPlaceholders(o, space, turn, ds);
      if !inserted {
        Rollback(before);
        return Err(T.Integrity);
      }
      Increment(session);
      assert T.CreateTurn(before, o, session, space, request, turn, ds) == Ok(Snapshot());
      CreatedKeeps(before, o, session, space, request, turn, ds, Snapshot());
      return Ok(turn);
    }

    /** `add_attachment`: accepted means that the turn has the client's attachment, and asking again changes
        nothing; refused means that the turn is closed or full, and changes nothing. */
    method AddAttachment(turn: Id, o: T.Owner, id: Id, client: Id, max: int) returns (r: Result<bool, T.Error>)
      requires Valid()
      modifies this
      ensures max <= T.MAX_ATTACHMENTS ==> Valid()
      ensures r.Ok? ==> T.AddAttachment(old(Snapshot()), turn, o, id, client, max) == Ok((Snapshot(), r.value))
      ensures r.Err? ==> T.AddAttachment(old(Snapshot()), turn, o, id, client, max) == Err(r.error)
                         && Snapshot() == old(Snapshot())
      ensures r == Ok(false) <==>
                old(!M.Open(Snapshot(), turn, o)
                    || (!M.HasClient(Snapshot(), turn, client) && |T.AttachmentsOf(Snapshot(), turn)| >= max))
      ensures r.Err? <==>
                old(M.Open(Snapshot(), turn, o) && !M.HasClient(Snapshot(), turn, client)
                    && |T.AttachmentsOf(Snapshot(), turn)| < max && id in attachments)
      ensures r == Ok(true) ==>
                attachments == if old(M.HasClient(Snapshot(), turn, client)) then old(attachments)
                               else old(attachments[id := T.Attachment(turn, o.tenant,
                                                                       sessions[messages[turn].session].space,
                                                                       client, None, T.Pending, false)])
      ensures r == Ok(true) ==>
                && (exists a <- T.AttachmentsOf(Snapshot(), turn) :: attachments[a].client == client)
                && forall id2: Id :: T.AddAttachment(Snapshot(), turn, o, id2, client, max) == Ok((Snapshot(), true))
      ensures r == Ok(false) ==>
                && Snapshot() == old(Snapshot())
                && (!T.Owned(Snapshot(), turn, o) || !T.StatusIs(Snapshot(), turn, {T.WaitingFiles})
                    || |T.AttachmentsOf(Snapshot(), turn)| >= max)
      ensures M.LinksKept(old(Snapshot()), Snapshot())
    {
      ghost var t := Snapshot();
      M.AddAttachmentRows(t, turn, o, id, client, max);
      if !T.Owned(Snapshot(), turn, o) || messages[turn].status != Some(T.WaitingFiles) {
        return Ok(false);
      }
      var rows := set a <- attachments | attachments[a].turn == turn;
      assert rows == T.AttachmentsOf(Snapshot(), turn);
      if exists a <- rows :: attachments[a].client == client {
        AddedKeeps(t, turn, o, id, client, max, t);
        return Ok(true);
      }
      if |rows| >= max {
        return Ok(false);
      }
      if id in attachments {
        return Err(T.Integrity);
      }
      var space := sessions[messages[turn].session].space;
      attachments := attachments[id := T.Attachment(turn, o.tenant, space, client, None, T.Pending, false)];
      AddedKeeps(t, turn, o, id, client, max, Snapshot());
      return Ok(true);
    }

    /** `create_document`. */
    method CreateDocument(d: Id, tenant: Id, space: Id)
      requires Valid()
      modifies this`documents
      ensures Valid() && Snapshot() == T.CreateDocument(old(Snapshot()), d, tenant, space)
      ensures documents == if d in old(documents) then old(documents)
                           else old(documents)[d := T.Document(tenant, space, T.DocPending)]
    {
      if d !in documents {
        ghost var t := Snapshot();
        documents := documents[d := T.Document(tenant, space, T.DocPending)];
        I.DocumentsFrame(t, Snapshot());
      }
    }

    /** `link_document`: from then on the attachment counts exactly while its document is indexed, no earlier
        link is lost, and no other attachment counts differently. */
    method LinkDocument(turn: Id, a: Id, d: Id, o: T.Owner) returns (linked: bool)
      requires Valid()
      modifies this`attachments
      ensures Valid() && (Snapshot(), linked) == T.LinkDocument(old(Snapshot()), turn, a, d, o)
      ensures M.LinksKept(old(Snapshot()), Snapshot()) && M.OthersCountAsBefore(old(Snapshot()), Snapshot(), a)
      ensures linked <==> old(
                && T.OwnedAttachment(Snapshot(), turn, a, o) && d in documents && documents[d].tenant == o.tenant
                && documents[d].space == attachments[a].space && attachments[a].document in {None, Some(d)})
      ensures attachments == if linked then old(attachments[a := attachments[a].(document := Some(d),
                                                                                 upload := T.Uploaded)])
                             else old(attachments)
      ensures linked ==>
                && a in attachments && attachments[a].document == Some(d) && d in documents
                && (T.Usable(Snapshot(), turn, a) <==> !attachments[a].ignored && documents[d].status == T.DocIndexed)
    {
      ghost var t := Snapshot();
      M.LinkDocumentRows(t, turn, a, d, o);
      M.LinkedMeans(t, turn, a, d, o);
      if !T.OwnedAttachment(Snapshot(), turn, a, o) || d !in documents {
        return false;
      }
      var row := attachments[a];
      if documents[d].tenant != o.tenant || documents[d].space != row.space {
        return false;
      }
      if row.document.Some? && row.document.value != d {
        return false;
      }
      attachments := attachments[a := row.(document := Some(d), upload := T.Uploaded)];
      assert Snapshot() == T.LinkDocument(t, turn, a, d, o).0;
      I.LinkKeepsTables(t, turn, a, d, o);
      return true;
    }

    /** `mark_upload_failed`: nobody can claim the turn until the attachment is ignored; a link is never undone. */
    method MarkUploadFailed(turn: Id, a: Id, o: T.Owner) returns (marked: bool)
      requires Valid()
      modifies this`attachments
      ensures Valid() && (Snapshot(), marked) == T.MarkUploadFailed(old(Snapshot()), turn, a, o)
      ensures M.LinksKept(old(Snapshot()), Snapshot()) && M.OthersCountAsBefore(old(Snapshot()), Snapshot(), a)
      ensures marked <==> old(T.OwnedAttachment(Snapshot(), turn, a, o) && attachments[a].document.None?)
      ensures attachments == if marked then old(attachments[a := attachments[a].(upload := T.Failed)])
              else old(attachments)
      ensures marked ==> a in attachments && (attachments[a].ignored || M.Unclaimable(Snapshot(), turn))
    {
      ghost var t := Snapshot();
      M.MarkUploadFailedRows(t, turn, a, o);
      M.MarkedMeans(t, turn, a, o);
      if !T.OwnedAttachment(Snapshot(), turn, a, o) {
        return false;
      }
      var row := attachments[a];
      if row.document.Some? || row.upload == T.Uploaded {
        return false;
      }
      attachments := attachments[a := row.(upload := T.Failed)];
      assert Snapshot() == T.MarkUploadFailed(t, turn, a, o).0;
      I.MarkFailedKeepsTables(t, turn, a, o);
      return true;
    }

    /** `set_ignored`: an ignored attachment neither blocks the turn nor helps it; one that is not ignored any
        more counts by its upload and its document again. */
    method SetIgnored(turn: Id, a: Id, o: T.Owner, ignored: bool) returns (changed: bool)
      requires Valid()
      modifies this`attachments
      ensures Valid() && (Snapshot(), changed) == T.SetIgnored(old(Snapshot()), turn, a, o, ignored)
      ensures M.LinksKept(old(Snapshot()), Snapshot()) && M.OthersCountAsBefore(old(Snapshot()), Snapshot(), a)
      ensures changed <==> old(T.OwnedAttachment(Snapshot(), turn, a, o))
      ensures attachments == if changed then old(attachments[a := attachments[a].(ignored := ignored)])
              else old(attachments)
      ensures ignored && old(T.OwnedAttachment(Snapshot(), turn, a, o) && M.OthersReady(Snapshot(), turn, a)) ==>
                changed && T.ClaimGuard(Snapshot(), turn)
      ensures changed && ignored ==> (T.ClaimGuard(Snapshot(), turn) <==> M.OthersReady(old(Snapshot()), turn, a))
      ensures changed && !ignored ==>
                a in attachments
                && (T.Usable(Snapshot(), turn, a) <==> T.ToView(Snapshot(), attachments[a]).status == T.Indexed)
    {
      ghost var t := Snapshot();
      if !T.OwnedAttachment(Snapshot(), turn, a, o) {
        return false;
      }
      attachments := attachments[a := attachments[a].(ignored := ignored)];
      M.IgnoredMeans(t, Snapshot(), turn, a, o, ignored);
      return true;
    }

    /** `cancel_turn`: a cancelled turn is given to no worker, and no answer can be saved for it. */
    method CancelTurn(turn: Id, o: T.Owner) returns (cancelled: bool)
      requires Valid()
      modifies this`messages
      ensures Valid() && (Snapshot(), cancelled) == T.CancelTurn(old(Snapshot()), turn, o)
      ensures cancelled <==> old(T.Owned(Snapshot(), turn, o)
                                 && messages[turn].status in {Some(T.WaitingFiles), Some(T.AnswerFailed)})
      ensures messages == if cancelled then old(messages[turn := messages[turn].(status := Some(T.Cancelled))])
                          else old(messages)
      ensures cancelled ==> M.Unclaimable(Snapshot(), turn) && M.Unsaveable(Snapshot(), turn)
    {
      ghost var t := Snapshot();
      if !T.Owned(Snapshot(), turn, o) {
        return false;
      }
      var row := messages[turn];
      if row.status != Some(T.WaitingFiles) && row.status != Some(T.AnswerFailed) {
        return false;
      }
      messages := messages[turn := row.(status := Some(T.Cancelled))];
      assert T.CancelTurn(t, turn, o) == (Snapshot(), true);
      M.CancelledMeans(t, turn, o);
      I.StatusKeepsTables(t, turn, T.Cancelled);
      return true;
    }

    /** `fail_answer`: a stale worker can no longer save, and the turn can be claimed again exactly when its
        attachments are ready, with the scope they give now. */
    method FailAnswer(turn: Id, o: T.Owner) returns (failed: bool)
      requires Valid()
      modifies this`messages
      ensures Valid() && (Snapshot(), failed) == T.FailAnswer(old(Snapshot()), turn, o)
      ensures failed <==> old(T.Owned(Snapshot(), turn, o) && messages[turn].status == Some(T.Answering))
      ensures messages == if failed then old(messages[turn := messages[turn].(status := Some(T.AnswerFailed))])
                          else old(messages)
      ensures failed ==> M.Unsaveable(Snapshot(), turn)
      ensures failed ==> var again := T.ClaimReadyAnswer(Snapshot(), turn, o).1;
                         && (again.Some? <==> T.ClaimGuard(old(Snapshot()), turn))
                         && (again.Some? ==> again.value.documents == T.IndexedScope(old(Snapshot()), turn))
    {
      ghost var t := Snapshot();
      if !T.Owned(Snapshot(), turn, o) || messages[turn].status != Some(T.Answering) {
        return false;
      }
      messages := messages[turn := messages[turn].(status := Some(T.AnswerFailed))];
      assert T.FailAnswer(t, turn, o) == (Snapshot(), true);
      M.FailedMeans(t, turn, o);
      I.StatusKeepsTables(t, turn, T.AnswerFailed);
      return true;
    }

    /** `claim_ready_answer`: the scope is read after the status was written. As nothing comes between the two
        statements it is never empty then, and the error for an empty scope is never raised. */
    method ClaimReadyAnswer(turn: Id, o: T.Owner) returns (claim: Option<T.AnswerClaim>)
      requires Valid()
      modifies this`messages
      ensures Valid() && (Snapshot(), claim) == T.ClaimReadyAnswer(old(Snapshot()), turn, o)
      ensures claim.Some? <==> old(T.Owned(Snapshot(), turn, o) && T.ClaimGuard(Snapshot(), turn)
                                   && messages[turn].status in {Some(T.WaitingFiles), Some(T.AnswerFailed)})
      ensures messages == if claim.Some? then old(messages[turn := messages[turn].(status := Some(T.Answering))])
                          else old(messages)
      ensures claim.Some? ==>
                && claim.value.turn == turn && claim.value.owner == o
                && claim.value.session == old(messages[turn].session)
                && claim.value.space == old(sessions[messages[turn].session].space)
                && forall d :: d in claim.value.documents <==>
                     exists b <- attachments :: T.Usable(old(Snapshot()), turn, b) && attachments[b].document == Some(d)
      ensures claim.Some? ==>
                && claim.value.documents != {} && M.Unclaimable(Snapshot(), turn)
                && forall id: Id, cited: seq<(Id, Id)> :: id !in messages ==>
                     T.SaveAssistant(Snapshot(), Some(turn), claim.value.session, o, id, cited).Ok?
    {
      if !T.Owned(Snapshot(), turn, o) || messages[turn].role != T.User
         || (messages[turn].status != Some(T.WaitingFiles) && messages[turn].status != Some(T.AnswerFailed))
         || !T.ClaimGuard(Snapshot(), turn)
      {
        return None;
      }
      var row := messages[turn];
      ghost var before := Snapshot();
      messages := messages[turn := row.(status := Some(T.Answering))];
      var scope := T.IndexedScope(Snapshot(), turn);
      ScopeIgnoresStatus(before, Snapshot(), turn);
      if scope == {} {
        assert false;
      }
      M.ClaimRows(before, turn, o);
      claim := Some(T.AnswerClaim(turn, row.session, o, sessions[row.session].space, scope));
      assert (Snapshot(), claim) == T.ClaimReadyAnswer(before, turn, o);
      M.ClaimedMeans(before, turn, o);
      I.StatusKeepsTables(before, turn, T.Answering);
    }

    /** The INSERTs of an answer and its citations, and the count. */
    method InsertAnswer(session: Id, o: T.Owner, id: Id, cited: seq<(Id, Id)>)
      requires session in sessions
      modifies this
      ensures Snapshot() == T.AnswerRows(old(Snapshot()), session, o, id, cited)
    {
      messages := messages[id := T.Message(session, o, T.Assistant, None, None)];
      if cited != [] {
        citations := citations[id := T.Ranked(cited)];
      }
      Increment(session);
    }

    /** `save_assistant_with_citations`: insert the answer, insert the citations, count, complete the turn; any
        failure undoes them all. */
    method SaveAssistant(source: Option<Id>, session: Id, o: T.Owner, id: Id, cited: seq<(Id, Id)>)
      returns (error: Option<T.Error>)
      requires Valid()
      modifies this
      ensures Valid()
      ensures error == Some(T.NotFound) <==> !(session in old(sessions) && old(sessions)[session].owner == o)
      ensures error == Some(T.Integrity) <==> error != Some(T.NotFound) && id in old(messages)
      ensures error == Some(T.Rejected) <==>
                && error != Some(T.NotFound) && id !in old(messages) && source.Some?
                && !old(T.Owned(Snapshot(), source.value, o) && messages[source.value].session == session
                        && messages[source.value].status == Some(T.Answering))
      ensures error.None? ==>
                && messages.Keys == old(messages).Keys + {id}
                && messages[id] == T.Message(session, o, T.Assistant, None, None)
                && forall m <- old(messages) ::
                     messages[m] == if source == Some(m) then old(messages)[m].(status := Some(T.Completed))
                                    else old(messages)[m]
      ensures error.None? && cited != [] ==>
                && id in citations && |citations[id]| == |cited|
                && forall i :: 0 <= i < |cited| ==> citations[id][i] == T.Citation(cited[i].0, cited[i].1, i + 1)
      ensures error.None? && source.Some? ==>
                M.Unclaimable(Snapshot(), source.value) && M.Unsaveable(Snapshot(), source.value)
      ensures error.None? ==> T.SaveAssistant(old(Snapshot()), source, session, o, id, cited) == Ok(Snapshot())
      ensures error.Some? ==> T.SaveAssistant(old(Snapshot()), source, session, o, id, cited) == Err(error.value)
                              && Snapshot() == old(Snapshot())
    {
      M.SaveAssistantRows(Snapshot(), source, session, o, id, cited);
      if session !in sessions || sessions[session].owner != o {
        return Some(T.NotFound);
      }
      if id in messages {
        return Some(T.Integrity);
      }
      var before := Snapshot();
      InsertAnswer(session, o, id, cited);
      if source.Some? {
        var turn := source.value;
        if !T.Owned(Snapshot(), turn, o) || messages[turn].session != session || messages[turn].role != T.User
           || messages[turn].status != Some(T.Answering)
        {
          assert T.SaveAssistant(before, source, session, o, id, cited) == Err(T.Rejected);
          Rollback(before);
          return Some(T.Rejected);
        }
        messages := messages[turn := messages[turn].(status := Some(T.Completed))];
      }
      SavedKeeps(before, source, session, o, id, cited, Snapshot());
      M.SavedRows(before, source, session, o, id, cited, Snapshot());
      return None;
    }

    /** `add_message`: one row more in the session, counted, and no turn is touched. */
    method AddMessage(session: Id, o: T.Owner, role: T.MessageRole, id: Id) returns (error: Option<T.Error>)
      requires Valid()
      modifies this
      ensures Valid()
      ensures error.None? <==> session in old(sessions) && old(sessions)[session].owner == o && id !in old(messages)
      ensures messages == if error.None? then old(messages)[id := T.Message(session, o, role, None, None)]
                          else old(messages)
      ensures error.None? ==>
                forall s: Id ::
                  T.RowsOf(Snapshot(), s) == T.RowsOf(old(Snapshot()), s) + if s == session then {id} else {}
      ensures forall turn <- old(messages) ::
                && turn in messages && messages[turn] == old(messages)[turn]
                && (T.ClaimGuard(Snapshot(), turn) <==> T.ClaimGuard(old(Snapshot()), turn))
      ensures error.None? ==> T.AddMessage(old(Snapshot()), session, o, role, id) == Ok(Snapshot())
      ensures error.Some? ==> T.AddMessage(old(Snapshot()), session, o, role, id) == Err(error.value)
                              && Snapshot() == old(Snapshot())
    {
      if session !in sessions || sessions[session].owner != o || id in messages {
        return Some(T.Integrity);
      }
      ghost var t := Snapshot();
      messages := messages[id := T.Message(session, o, role, None, None)];
      Increment(session);
      assert Snapshot() == T.AddRow(t, id, T.Message(session, o, role, None, None));
      M.SaidMeans(t, session, o, role, id);
      I.AddPlainRow(t, id, T.Message(session, o, role, None, None));
      return None;
    }
  }

  lemma ScopeIgnoresStatus(t: T.Tables, t': T.Tables, turn: Id)
    requires T.ClaimGuard(t, turn) && t' == T.SetStatus(t, turn, T.Answering)
    ensures T.IndexedScope(t', turn) == T.IndexedScope(t, turn) != {}
  {
    assert forall a <- t.attachments :: T.Usable(t', turn, a) <==> T.Usable(t, turn, a);
    var a :| a in t.attachments && T.Usable(t, turn, a);
    assert t.attachments[a].document.value in T.IndexedScope(t, turn);
  }
}
