/** What every transaction on the turn tables keeps. */
module TurnInvariants {
  import opened Common
  import opened Turns

  ghost predicate MessageOk(t: Tables, m: Id)
    requires m in t.messages
  {
    var row := t.messages[m];
    && row.session in t.sessions && t.sessions[row.session].owner == row.owner
    && (row.status.Some? ==> row.role == User)
  }

  ghost predicate AttachmentOk(t: Tables, a: Id)
    requires a in t.attachments
  {
    var row := t.attachments[a];
    && row.turn in t.messages && t.messages[row.turn].status.Some?
    && row.tenant == t.messages[row.turn].owner.tenant
    && t.messages[row.turn].session in t.sessions
    && row.space == t.sessions[t.messages[row.turn].session].space
    && (row.upload == Uploaded <==> row.document.Some?)
    && (row.document.Some? ==>
          && row.document.value in t.documents
          && t.documents[row.document.value].tenant == row.tenant
          && t.documents[row.document.value].space == row.space)
  }

  /** Foreign keys, and: an attachment is 'uploaded' iff it has a document. */
  ghost predicate RowsInv(t: Tables) {
    (forall m <- t.messages :: MessageOk(t, m)) && (forall a <- t.attachments :: AttachmentOk(t, a))
  }

  /** `message_count` is the number of rows. */
  ghost predicate CountInv(t: Tables) {
    forall s <- t.sessions :: t.sessions[s].count == |RowsOf(t, s)|
  }

  ghost predicate DistinctClients(t: Tables) {
    forall a <- t.attachments, b <- t.attachments ::
      t.attachments[a].turn == t.attachments[b].turn && t.attachments[a].client == t.attachments[b].client ==> a == b
  }

  /** Every turn has 1 to 5 attachments with distinct client keys. */
  ghost predicate AttachmentsInv(t: Tables) {
    && DistinctClients(t)
    && forall m <- t.messages :: t.messages[m].status.Some? ==> 1 <= |AttachmentsOf(t, m)| <= MAX_ATTACHMENTS
  }

  /** A client request creates at most one message. */
  ghost predicate RequestsInv(t: Tables) {
    forall m <- t.messages, n <- t.messages ::
      (t.messages[m].request.Some? && t.messages[m].request == t.messages[n].request
       && t.messages[m].owner == t.messages[n].owner) ==> m == n
  }

  ghost predicate TableInv(t: Tables) {
    RowsInv(t) && CountInv(t) && AttachmentsInv(t) && RequestsInv(t)
  }

  // ---------- Rows of messages and sessions ----------

  lemma RowsAfterAddRow(t: Tables, id: Id, m: Message, s: Id)
    requires m.session in t.sessions && id !in t.messages
    ensures RowsOf(AddRow(t, id, m), s) == RowsOf(t, s) + if s == m.session then {id} else {}
    ensures id !in RowsOf(t, s)
  {
  }

  lemma CountAfterAddRow(t: Tables, id: Id, m: Message)
    requires CountInv(t) && m.session in t.sessions && id !in t.messages
    ensures CountInv(AddRow(t, id, m))
  {
    var t' := AddRow(t, id, m);
    forall s <- t'.sessions ensures t'.sessions[s].count == |RowsOf(t', s)| {
      RowsAfterAddRow(t, id, m, s);
    }
  }

  lemma CountFrame(t: Tables, t': Tables)
    requires CountInv(t) && t'.sessions == t.sessions && t'.messages.Keys == t.messages.Keys
    requires forall m <- t.messages :: t'.messages[m].session == t.messages[m].session
    ensures CountInv(t')
  {
    forall s <- t'.sessions ensures RowsOf(t', s) == RowsOf(t, s) {
    }
  }

  lemma SameAttachments(t: Tables, t': Tables, m: Id)
    requires t'.attachments.Keys == t.attachments.Keys
    requires forall a <- t.attachments :: t'.attachments[a].turn == t.attachments[a].turn
    ensures AttachmentsOf(t', m) == AttachmentsOf(t, m)
  {
  }

  lemma AttachmentsFrame(t: Tables, t': Tables)
    requires AttachmentsInv(t) && t'.attachments.Keys == t.attachments.Keys
    requires forall a <- t.attachments ::
               t'.attachments[a].turn == t.attachments[a].turn && t'.attachments[a].client == t.attachments[a].client
    requires forall m <- t'.messages :: t'.messages[m].status.Some? ==> m in t.messages && t.messages[m].status.Some?
    ensures AttachmentsInv(t')
  {
    forall m <- t'.messages {
      SameAttachments(t, t', m);
    }
  }

  lemma RequestsFrame(t: Tables, t': Tables)
    requires RequestsInv(t)
    requires forall m <- t'.messages :: t'.messages[m].request.Some? ==>
               m in t.messages && t'.messages[m].request == t.messages[m].request
               && t'.messages[m].owner == t.messages[m].owner
    ensures RequestsInv(t')
  {
  }

  lemma RowsFrame(t: Tables, t': Tables)
    requires RowsInv(t) && t'.documents == t.documents && t'.attachments == t.attachments
    requires forall x <- t.sessions :: x in t'.sessions && t'.sessions[x].owner == t.sessions[x].owner
               && t'.sessions[x].space == t.sessions[x].space
    requires forall m <- t.messages :: m in t'.messages && t'.messages[m].session == t.messages[m].session
               && t'.messages[m].owner == t.messages[m].owner
               && (t'.messages[m].status.Some? <==> t.messages[m].status.Some?)
    requires forall m <- t'.messages :: MessageOk(t', m)
    ensures RowsInv(t')
  {
    forall a <- t'.attachments ensures AttachmentOk(t', a) {
      assert AttachmentOk(t, a);
    }
  }

  lemma AddPlainRow(t: Tables, id: Id, m: Message)
    requires TableInv(t) && SessionOwned(t, m.session, m.owner) && id !in t.messages && m.status.None?
             && m.request.None?
    ensures TableInv(AddRow(t, id, m))
  {
    CountAfterAddRow(t, id, m);
    AttachmentsFrame(t, AddRow(t, id, m));
    RequestsFrame(t, AddRow(t, id, m));
    PlainRowKeepsRows(t, id, m);
  }

  lemma PlainRowKeepsRows(t: Tables, id: Id, m: Message)
    requires RowsInv(t) && SessionOwned(t, m.session, m.owner) && id !in t.messages && m.status.None?
    ensures RowsInv(AddRow(t, id, m))
  {
    var t' := AddRow(t, id, m);
    forall n <- t'.messages ensures MessageOk(t', n) {
      assert n != id ==> MessageOk(t, n);
    }
    RowsFrame(t, t');
  }

  /** The same rows, up to the status of turns and the citations. */
  ghost predicate SameRows(t: Tables, t': Tables) {
    && t' == t.(messages := t'.messages, citations := t'.citations) && t'.messages.Keys == t.messages.Keys
    && forall m <- t.messages ::
         && t'.messages[m] == t.messages[m].(status := t'.messages[m].status)
         && (t'.messages[m].status.Some? <==> t.messages[m].status.Some?)
  }

  lemma SameRowsKeepTables(t: Tables, t': Tables)
    requires TableInv(t) && SameRows(t, t')
    ensures TableInv(t')
  {
    CountFrame(t, t');
    AttachmentsFrame(t, t');
    RequestsFrame(t, t');
    SameRowsKeepRows(t, t');
  }

  lemma SameRowsKeepRows(t: Tables, t': Tables)
    requires RowsInv(t) && SameRows(t, t')
    ensures RowsInv(t')
  {
    forall n <- t'.messages ensures MessageOk(t', n) {
      assert MessageOk(t, n);
    }
    RowsFrame(t, t');
  }

  lemma StatusKeepsTables(t: Tables, turn: Id, st: TurnStatus)
    requires TableInv(t) && turn in t.messages && t.messages[turn].status.Some?
    ensures TableInv(SetStatus(t, turn, st))
  {
    SameRowsKeepTables(t, SetStatus(t, turn, st));
  }

  lemma SaveAssistantKeepsTables(t: Tables, source: Option<Id>, session: Id, o: Owner, id: Id, cited: seq<(Id, Id)>)
    requires TableInv(t) && SaveAssistant(t, source, session, o, id, cited).Ok?
    ensures TableInv(SaveAssistant(t, source, session, o, id, cited).value)
  {
    var t1 := AddRow(t, id, Message(session, o, Assistant, None, None));
    AddPlainRow(t, id, Message(session, o, Assistant, None, None));
    var t2 := if cited == [] then t1 else t1.(citations := t1.citations[id := Ranked(cited)]);
    SameRowsKeepTables(t1, t2);
    if source.Some? {
      StatusKeepsTables(t2, source.value, Completed);
    }
  }

  // ---------- Attachments ----------

  lemma {:induction false} DeclaredKeys(ds: seq<Declared>)
    requires DistinctDeclarations(ds)
    ensures |set d <- ds :: d.attachment| == |ds|
  {
    if ds != [] {
      var rest := ds[..|ds| - 1];
      DeclaredKeys(rest);
      assert ds == rest + [ds[|ds| - 1]];
      assert (set d <- ds :: d.attachment) == (set d <- rest :: d.attachment) + {ds[|ds| - 1].attachment};
    }
  }

  lemma CreateTurnKeepsTables(t: Tables, o: Owner, session: Id, space: Id, request: Id, turn: Id, ds: seq<Declared>)
    requires TableInv(t) && CreateTurn(t, o, session, space, request, turn, ds).Ok? && 1 <= |ds| <= MAX_ATTACHMENTS
    ensures TableInv(CreateTurn(t, o, session, space, request, turn, ds).value)
    ensures Requested(CreateTurn(t, o, session, space, request, turn, ds).value, o, request)
  {
    if !Requested(t, o, request) {
      var t' := CreateTurn(t, o, session, space, request, turn, ds).value;
      var m := Message(session, o, User, Some(WaitingFiles), Some(request));
      assert RequestRow(t', o, request, turn);
      assert CountInv(t') by {
        CountAfterAddRow(t, turn, m);
        CountFrame(AddRow(t, turn, m), t');
      }
      NewTurnRows(t, t', o, session, space, m, turn, ds);
      PlaceholderKeys(o, space, turn, ds);
      PlaceholderRows(o, space, turn, ds);
      NewTurnAttachments(t, t', turn, Placeholders(o, space, turn, ds));
      NewRequest(t, t', turn, m);
    }
  }

  lemma NewRequest(t: Tables, t': Tables, turn: Id, m: Message)
    requires RequestsInv(t) && t'.messages == t.messages[turn := m] && turn !in t.messages
    requires m.request.Some? && !Requested(t, m.owner, m.request.value)
    ensures RequestsInv(t')
  {
    forall n <- t.messages ensures !RequestRow(t, m.owner, m.request.value, n) {
    }
  }

  lemma NewTurnRows(t: Tables, t': Tables, o: Owner, session: Id, space: Id, m: Message, turn: Id, ds: seq<Declared>)
    requires RowsInv(t) && SessionOwned(t, session, o) && t.sessions[session].space == space && turn !in t.messages
    requires DistinctDeclarations(ds) && m == Message(session, o, User, Some(WaitingFiles), m.request)
    requires t' == AddRow(t, turn, m).(attachments := t.attachments + Placeholders(o, space, turn, ds))
    ensures RowsInv(t')
  {
    forall n <- t'.messages ensures MessageOk(t', n) {
      assert n != turn ==> MessageOk(t, n);
    }
    forall a <- t'.attachments ensures AttachmentOk(t', a) {
      assert a in t.attachments ==> AttachmentOk(t, a);
    }
  }

  lemma PlaceholderKeys(o: Owner, space: Id, turn: Id, ds: seq<Declared>)
    requires DistinctDeclarations(ds)
    ensures var added := Placeholders(o, space, turn, ds);
            |added.Keys| == |ds| && added.Keys == (set d <- ds :: d.attachment)
  {
    DeclaredKeys(ds);
    assert forall i :: 0 <= i < |ds| ==> ds[i] in ds;
    assert Placeholders(o, space, turn, ds).Keys == set d <- ds :: d.attachment;
  }

  ghost predicate FreshRows(added: map<Id, Attachment>, turn: Id) {
    && (forall a <- added :: added[a].turn == turn)
    && (forall a <- added, b <- added :: added[a].client == added[b].client ==> a == b)
  }

  lemma PlaceholderRows(o: Owner, space: Id, turn: Id, ds: seq<Declared>)
    requires DistinctDeclarations(ds)
    ensures FreshRows(Placeholders(o, space, turn, ds), turn)
  {
  }

  lemma NewTurnClients(t: Tables, t': Tables, turn: Id, added: map<Id, Attachment>)
    requires DistinctClients(t) && FreshRows(added, turn) && t'.attachments == t.attachments + added
    requires forall a <- t.attachments :: t.attachments[a].turn != turn
    ensures DistinctClients(t')
  {
    forall a <- t'.attachments, b <- t'.attachments
      | t'.attachments[a].turn == t'.attachments[b].turn && t'.attachments[a].client == t'.attachments[b].client
      ensures a == b
    {
      assert a in added <==> b in added;
    }
  }

  lemma NewTurnSizes(t: Tables, t': Tables, turn: Id, added: map<Id, Attachment>, n: Id)
    requires FreshRows(added, turn) && t'.attachments == t.attachments + added && added.Keys !! t.attachments.Keys
    requires forall a <- t.attachments :: t.attachments[a].turn != turn
    ensures AttachmentsOf(t', n) == if n == turn then added.Keys else AttachmentsOf(t, n)
  {
  }

  lemma NewTurnAttachments(t: Tables, t': Tables, turn: Id, added: map<Id, Attachment>)
    requires RowsInv(t) && AttachmentsInv(t) && turn !in t.messages && added.Keys !! t.attachments.Keys
             && FreshRows(added, turn)
    requires turn in t'.messages && t'.messages == t.messages[turn := t'.messages[turn]]
    requires t'.attachments == t.attachments + added
    requires 1 <= |added.Keys| <= MAX_ATTACHMENTS
    ensures AttachmentsInv(t')
  {
    forall a <- t.attachments ensures t.attachments[a].turn != turn {
      assert AttachmentOk(t, a);
    }
    NewTurnClients(t, t', turn, added);
    forall n <- t'.messages {
      NewTurnSizes(t, t', turn, added, n);
    }
  }

  lemma AddAttachmentKeepsTables(t: Tables, turn: Id, o: Owner, id: Id, client: Id, max: int)
    requires TableInv(t) && AddAttachment(t, turn, o, id, client, max).Ok? && max <= MAX_ATTACHMENTS
    ensures TableInv(AddAttachment(t, turn, o, id, client, max).value.0)
  {
    var t' := AddAttachment(t, turn, o, id, client, max).value.0;
    if t' != t {
      CountFrame(t, t');
      assert RowsInv(t') by {
        forall a <- t'.attachments ensures AttachmentOk(t', a) {
          assert a != id ==> AttachmentOk(t, a);
        }
      }
      AddedAttachment(t, t', turn, id, client);
    }
  }

  lemma AddedAttachment(t: Tables, t': Tables, turn: Id, id: Id, client: Id)
    requires AttachmentsInv(t) && id !in t.attachments && |AttachmentsOf(t, turn)| < MAX_ATTACHMENTS
    requires t'.messages == t.messages && id in t'.attachments
             && t'.attachments == t.attachments[id := t'.attachments[id]]
    requires t'.attachments[id].turn == turn && t'.attachments[id].client == client
    requires forall a <- AttachmentsOf(t, turn) :: t.attachments[a].client != client
    ensures AttachmentsInv(t')
  {
    forall n <- t'.messages | t'.messages[n].status.Some? ensures 1 <= |AttachmentsOf(t', n)| <= MAX_ATTACHMENTS {
      if n == turn {
        assert AttachmentsOf(t', n) == AttachmentsOf(t, n) + {id};
      } else {
        assert AttachmentsOf(t', n) == AttachmentsOf(t, n);
      }
    }
    forall a <- t.attachments | t.attachments[a].turn == turn ensures t.attachments[a].client != client {
      assert a in AttachmentsOf(t, turn);
    }
  }

  /** A write to one attachment row that keeps its keys and the pair (upload_status, document_id) consistent. */
  lemma AttachmentWriteKeepsTables(t: Tables, t': Tables, a: Id)
    requires TableInv(t) && a in t.attachments && a in t'.attachments
    requires t' == t.(attachments := t.attachments[a := t'.attachments[a]])
    requires t'.attachments[a] == t.attachments[a].(document := t'.attachments[a].document,
                                                    upload := t'.attachments[a].upload,
                                                    ignored := t'.attachments[a].ignored)
    requires AttachmentOk(t', a)
    ensures TableInv(t')
  {
    CountFrame(t, t');
    AttachmentsFrame(t, t');
    RequestsFrame(t, t');
    AttachmentWriteKeepsRows(t, t', a);
  }

  lemma AttachmentWriteKeepsRows(t: Tables, t': Tables, a: Id)
    requires RowsInv(t) && a in t.attachments && a in t'.attachments
    requires t' == t.(attachments := t.attachments[a := t'.attachments[a]])
    requires AttachmentOk(t', a)
    ensures RowsInv(t')
  {
    forall b <- t'.attachments ensures AttachmentOk(t', b) {
      assert AttachmentOk(t, b);
    }
    forall m <- t'.messages ensures MessageOk(t', m) {
      assert MessageOk(t, m);
    }
  }

  lemma LinkKeepsTables(t: Tables, turn: Id, a: Id, d: Id, o: Owner)
    requires TableInv(t)
    ensures TableInv(LinkDocument(t, turn, a, d, o).0)
  {
    if CanLink(t, turn, a, d, o) {
      assert AttachmentOk(t, a);
      AttachmentWriteKeepsTables(t, LinkDocument(t, turn, a, d, o).0, a);
    }
  }

  lemma MarkFailedKeepsTables(t: Tables, turn: Id, a: Id, o: Owner)
    requires TableInv(t)
    ensures TableInv(MarkUploadFailed(t, turn, a, o).0)
  {
    if MarkUploadFailed(t, turn, a, o).1 {
      assert AttachmentOk(t, a);
      AttachmentWriteKeepsTables(t, MarkUploadFailed(t, turn, a, o).0, a);
    }
  }

  lemma IgnoreKeepsTables(t: Tables, turn: Id, a: Id, o: Owner, flag: bool)
    requires TableInv(t)
    ensures TableInv(SetIgnored(t, turn, a, o, flag).0)
  {
    if SetIgnored(t, turn, a, o, flag).1 {
      assert AttachmentOk(t, a);
      AttachmentWriteKeepsTables(t, SetIgnored(t, turn, a, o, flag).0, a);
    }
  }

  // ---------- Documents and sessions ----------

  lemma DocumentsFrame(t: Tables, t': Tables)
    requires TableInv(t) && t' == t.(documents := t'.documents)
    requires forall d <- t.documents :: d in t'.documents
               && t'.documents[d].tenant == t.documents[d].tenant && t'.documents[d].space == t.documents[d].space
    ensures TableInv(t')
  {
    CountFrame(t, t');
    AttachmentsFrame(t, t');
    RequestsFrame(t, t');
    forall a <- t'.attachments ensures AttachmentOk(t', a) {
      assert AttachmentOk(t, a);
    }
    forall m <- t'.messages ensures MessageOk(t', m) {
      assert MessageOk(t, m);
    }
  }

  lemma CreateSessionKeepsTables(t: Tables, session: Id, o: Owner, space: Id)
    requires TableInv(t)
    ensures TableInv(CreateSession(t, session, o, space))
  {
    if session !in t.sessions {
      var t' := CreateSession(t, session, o, space);
      forall s <- t'.sessions ensures t'.sessions[s].count == |RowsOf(t', s)| {
        assert RowsOf(t', s) == RowsOf(t, s);
        if s == session {
          assert RowsOf(t, s) == {} by {
            assert forall m <- t.messages :: MessageOk(t, m);
          }
        }
      }
      AttachmentsFrame(t, t');
      RequestsFrame(t, t');
      forall m <- t'.messages ensures MessageOk(t', m) {
        assert MessageOk(t, m);
      }
      RowsFrame(t, t');
    }
  }

  lemma DeleteSessionKeepsRows(t: Tables, session: Id, o: Owner)
    requires RowsInv(t) && SessionOwned(t, session, o)
    ensures RowsInv(DeleteSession(t, session, o))
  {
    var t' := DeleteSession(t, session, o);
    forall m <- t'.messages ensures MessageOk(t', m) {
      assert MessageOk(t, m);
    }
    forall a <- t'.attachments ensures AttachmentOk(t', a) {
      assert AttachmentOk(t, a) && MessageOk(t, t.attachments[a].turn);
    }
  }

  lemma DeleteSessionKeepsTables(t: Tables, session: Id, o: Owner)
    requires TableInv(t)
    ensures TableInv(DeleteSession(t, session, o))
  {
    if SessionOwned(t, session, o) {
      var t' := DeleteSession(t, session, o);
      forall s <- t'.sessions ensures RowsOf(t', s) == RowsOf(t, s) {
      }
      forall n <- t'.messages ensures AttachmentsOf(t', n) == AttachmentsOf(t, n) {
      }
      DeleteSessionKeepsRows(t, session, o);
    }
  }
}
