/** Every event keeps the invariants of the protocol. */
module TurnSteps {
  import opened Common
  import opened Turns
  import opened TurnInvariants
  import opened Retrieval
  import opened TurnProtocol

  // ---------- Answers ----------

  ghost predicate SameRow(m: Message, m': Message) {
    && m'.session == m.session && m'.owner == m.owner && m'.role == m.role && m'.request == m.request
    && (m'.status.None? <==> m.status.None?) && (m'.status == Some(Completed) <==> m.status == Some(Completed))
    && (m.status.Some? ==> Allowed(m.status.value, m'.status.value))
  }

  /** The edges of the turn's state machine. */
  predicate Allowed(before: TurnStatus, after: TurnStatus) {
    || before == after
    || (before in {WaitingFiles, AnswerFailed} && after in {Answering, Cancelled})
    || (before == Answering && after in {Completed, AnswerFailed})
  }

  /** What every event except a completion and a deleted session does to messages, claims and citations. */
  ghost predicate Quiet(s: System, s': System) {
    && s'.answers == s.answers
    && (forall w <- s.claims :: w in s'.claims && s'.claims[w] == s.claims[w])
    && (forall w <- s'.claims :: w in s.claims || s'.claims[w].documents != {})
    && (forall m <- s.db.messages :: m in s'.db.messages && SameRow(s.db.messages[m], s'.db.messages[m]))
    && (forall m <- s'.db.messages :: m in s.db.messages || s'.db.messages[m].status != Some(Completed))
    && (forall a <- s.answers ::
          (a in s.db.citations <==> a in s'.db.citations)
          && (a in s.db.citations ==> s'.db.citations[a] == s.db.citations[a]))
  }

  lemma QuietKeepsAnswers(s: System, s': System)
    requires AnswersInv(s) && ScopeInv(s) && Quiet(s, s')
    ensures AnswersInv(s') && ScopeInv(s')
  {
    forall a <- s'.answers ensures AnswerOk(s', a) {
      assert AnswerOk(s, a);
    }
    forall m <- s'.db.messages | s'.db.messages[m].status == Some(Completed) ensures HasAnswer(s', m) {
      assert HasAnswer(s, m);
    }
  }

  /** The scope of a granted claim is not empty: the guard found a usable attachment. */
  lemma ClaimScopeNotEmpty(t: Tables, turn: Id, o: Owner)
    requires ClaimReadyAnswer(t, turn, o).1.Some?
    ensures ClaimReadyAnswer(t, turn, o).1.value.documents != {}
  {
    var a :| a in t.attachments && Usable(t, turn, a);
    assert t.attachments[a].document.value in IndexedScope(t, turn);
  }

  /** What a completion does to messages and answers. */
  ghost predicate Completes(s: System, s': System, id: Id, worker: Id) {
    && worker in s.claims && s'.claims == s.claims && id !in s.db.messages
    && s'.answers == s.answers[id := worker]
    && var c := s.claims[worker];
       && c.turn in s.db.messages && s.db.messages[c.turn].status == Some(Answering)
       && s.db.messages[c.turn].session == c.session
       && s'.db.messages == s.db.messages[id := Message(c.session, c.owner, Assistant, None, None)]
                                         [c.turn := s.db.messages[c.turn].(status := Some(Completed))]
  }

  lemma PersistCompletes(s: System, w: Id, id: Id, found: seq<Hit>, hydrated: set<Id>)
    requires DoPersist(s, w, id, found, hydrated) != s
    ensures Completes(s, DoPersist(s, w, id, found, hydrated), id, w)
  {
  }

  lemma AnswersSurviveCompletion(s: System, s': System, id: Id, worker: Id)
    requires AnswersInv(s) && Completes(s, s', id, worker)
    ensures forall a <- s.answers :: a != id && AnsweredTurn(s, a) != s.claims[worker].turn && AnswerOk(s', a)
  {
    forall a <- s.answers ensures a != id && AnsweredTurn(s, a) != s.claims[worker].turn && AnswerOk(s', a) {
      assert AnswerOk(s, a);
    }
  }

  /** A completion happens only from 'answering', so the turn had no answer before. */
  lemma CompletionKeepsAnswers(s: System, s': System, id: Id, worker: Id)
    requires AnswersInv(s) && Completes(s, s', id, worker)
    ensures AnswersInv(s')
  {
    AnswersSurviveCompletion(s, s', id, worker);
    forall m <- s'.db.messages | s'.db.messages[m].status == Some(Completed) ensures HasAnswer(s', m) {
      AnsweredAfterCompletion(s, s', id, worker, m);
    }
  }

  lemma AnsweredAfterCompletion(s: System, s': System, id: Id, worker: Id, m: Id)
    requires AnswersInv(s) && Completes(s, s', id, worker)
    requires m in s'.db.messages && s'.db.messages[m].status == Some(Completed)
    ensures HasAnswer(s', m)
  {
    if m == s.claims[worker].turn {
      assert AnsweredTurn(s', id) == m;
    } else {
      var a :| a in s.answers && s.answers[a] in s.claims && AnsweredTurn(s, a) == m;
      assert a != id && AnsweredTurn(s', a) == m by {
        assert AnswerOk(s, a);
      }
    }
  }

  lemma PersistKeepsScope(s: System, w: Id, id: Id, found: seq<Hit>, hydrated: set<Id>)
    requires ScopeInv(s) && s.answers.Keys + s.db.citations.Keys <= s.db.messages.Keys
    ensures ScopeInv(DoPersist(s, w, id, found, hydrated))
  {
    if DoPersist(s, w, id, found, hydrated) != s {
      var c := s.claims[w];
      PersistShape(s.db, c.turn, c.session, c.owner, id, Cited(c, found, hydrated));
      CitationsFollowHits(c.documents, found, hydrated);
    }
  }

  /** The rows of an answer and of its turn share a session, so a deleted session takes both or neither. */
  lemma DropKeepsAnswers(s: System, id: Id, o: Owner)
    requires AnswersInv(s) && ScopeInv(s)
    ensures AnswersInv(DoDrop(s, id, o)) && ScopeInv(DoDrop(s, id, o))
  {
    var s' := DoDrop(s, id, o);
    if SessionOwned(s.db, id, o) {
      forall a <- s'.answers ensures AnswerOk(s', a) {
        assert AnswerOk(s, a);
      }
      forall m <- s'.db.messages | s'.db.messages[m].status == Some(Completed) ensures HasAnswer(s', m) {
        var a :| a in s.answers && s.answers[a] in s.claims && AnsweredTurn(s, a) == m;
        assert AnswerOk(s, a);
        assert a in s'.answers && AnsweredTurn(s', a) == m;
      }
    } else {
      assert forall a <- s.answers :: AnswerOk(s, a);
      assert s'.answers == s.answers;
    }
  }

  // ---------- Uploads ----------

  ghost predicate SameAttachment(a: Attachment, a': Attachment) {
    a'.turn == a.turn && a'.tenant == a.tenant && a'.space == a.space && a'.document == a.document
  }

  /** What every event but an upload's does to attachments and documents: rows may go, and come with new keys. */
  ghost predicate UploadQuiet(s: System, s': System) {
    && s'.linked == s.linked && s'.uploads == s.uploads
    && (forall a <- s'.db.attachments ::
          if a in s.db.attachments then SameAttachment(s.db.attachments[a], s'.db.attachments[a])
          else a !in s.issued && s'.db.attachments[a].document.None?)
    && (forall d <- s.db.documents :: d in s'.db.documents
          && s'.db.documents[d].tenant == s.db.documents[d].tenant
          && s'.db.documents[d].space == s.db.documents[d].space)
    && (forall d <- s'.db.documents :: d in s.db.documents || d !in s.issued)
    && (forall m <- s'.db.messages :: m in s.db.messages ==> s'.db.messages[m].owner == s.db.messages[m].owner)
  }

  lemma StillOwned(t: Tables, t': Tables, turn: Id, a: Id, o: Owner)
    requires RowsInv(t') && OwnedAttachment(t, turn, a, o) && a in t'.attachments
    requires SameAttachment(t.attachments[a], t'.attachments[a])
    requires forall m <- t'.messages :: m in t.messages ==> t'.messages[m].owner == t.messages[m].owner
    ensures OwnedAttachment(t', turn, a, o)
  {
    assert AttachmentOk(t', a);
    assert MessageOk(t', turn);
  }

  lemma QuietKeepsUploads(s: System, s': System)
    requires UploadsInv(s) && IssuedInv(s) && RowsInv(s'.db) && UploadQuiet(s, s')
    ensures UploadsInv(s')
  {
    forall u <- s'.uploads ensures UploadOk(s', u) {
      var up := s.uploads[u];
      assert UploadOk(s, u);
      if up.attachment in s'.db.attachments {
        StillOwned(s.db, s'.db, up.turn, up.attachment, up.owner);
      }
    }
  }

  /** One upload moves to another phase; attachment rows keep their documents. */
  lemma MoveKeepsUploads(s: System, s': System, u: Id, p: Phase)
    requires UploadsInv(s) && RowsInv(s'.db) && u in s.uploads
    requires s'.uploads == Move(s, u, p) && s'.linked == s.linked
    requires s'.db.messages == s.db.messages && s'.db.documents == s.db.documents
    requires s'.db.attachments.Keys == s.db.attachments.Keys
    requires forall a <- s.db.attachments :: SameAttachment(s.db.attachments[a], s'.db.attachments[a])
    requires UploadOk(s', u)
    ensures UploadsInv(s')
  {
    forall v <- s'.uploads ensures UploadOk(s', v) {
      if v != u {
        var up := s.uploads[v];
        assert UploadOk(s, v);
        if up.attachment in s'.db.attachments {
          StillOwned(s.db, s'.db, up.turn, up.attachment, up.owner);
        }
      }
    }
  }

  lemma StartKeepsUploads(s: System, u: Id, turn: Id, a: Id, o: Owner, d: Id)
    requires UploadsInv(s) && RowsInv(s.db) && IssuedInv(s) && {u, d} !! s.issued
    ensures UploadsInv(DoStart(s, u, turn, a, o, d))
  {
    var s' := DoStart(s, u, turn, a, o, d);
    if s' != s {
      assert AttachmentOk(s.db, a);
      assert UploadOk(s', u);
      forall v <- s.uploads ensures UploadOk(s', v) && s.uploads[v].document != d {
        assert UploadOk(s, v);
      }
    }
  }

  lemma RegisterKeepsUploads(s: System, u: Id)
    requires UploadsInv(s)
    ensures UploadsInv(DoRegister(s, u))
  {
    var s' := DoRegister(s, u);
    if s' != s {
      assert UploadOk(s, u);
      forall v <- s'.uploads ensures UploadOk(s', v) {
        assert UploadOk(s, v);
      }
    }
  }

  lemma FirstLinkKeepsUploads(s: System, u: Id, next: Phase)
    requires UploadsInv(s) && next in {Linked, Broken} && At(s, u, {Registered})
    requires var up := s.uploads[u]; CanLink(s.db, up.turn, up.attachment, up.document, up.owner)
    ensures UploadsInv(DoLink(s, u, next))
  {
    var s' := DoLink(s, u, next);
    var up := s.uploads[u];
    assert UploadOk(s, u);
    assert up.attachment in s.linked ==> s.linked[up.attachment] == up.document;
    forall v <- s'.uploads ensures UploadOk(s', v) {
      assert UploadOk(s, v);
    }
  }

  /** A link that succeeds is the first one of the attachment, or repeats it. */
  lemma LinkKeepsUploads(s: System, u: Id, next: Phase)
    requires UploadsInv(s) && RowsInv(s.db) && next in {Linked, Broken}
    ensures UploadsInv(DoLink(s, u, next))
  {
    if At(s, u, {Registered}) {
      var up := s.uploads[u];
      if CanLink(s.db, up.turn, up.attachment, up.document, up.owner) {
        FirstLinkKeepsUploads(s, u, next);
      } else {
        assert UploadOk(s, u);
        MoveKeepsUploads(s, DoLink(s, u, next), u, Lost);
      }
    }
  }

  lemma MarkFailedKeepsUploads(s: System, s': System, u: Id)
    requires UploadsInv(s) && RowsInv(s'.db) && u in s.uploads
    requires var up := s.uploads[u];
             s' == s.(db := MarkUploadFailed(s.db, up.turn, up.attachment, up.owner).0, uploads := Move(s, u, Broken))
    ensures UploadsInv(s')
  {
    var up := s.uploads[u];
    assert UploadOk(s, u);
    if up.attachment in s.db.attachments {
      StillOwned(s.db, s'.db, up.turn, up.attachment, up.owner);
    }
    MoveKeepsUploads(s, s', u, Broken);
  }

  lemma ReportKeepsUploads(s: System, u: Id)
    requires UploadsInv(s) && RowsInv(s.db)
    ensures UploadsInv(DoReport(s, u))
  {
    if At(s, u, {Lost}) {
      assert UploadOk(s, u);
      MoveKeepsUploads(s, DoReport(s, u), u, DoReport(s, u).uploads[u].phase);
    }
  }

  lemma IngestKeepsUploads(s: System, u: Id)
    requires UploadsInv(s) && RowsInv(s.db)
    ensures UploadsInv(DoIngest(s, u))
  {
    if At(s, u, {Linked}) {
      assert UploadOk(s, u);
      MoveKeepsUploads(s, DoIngest(s, u), u, Started);
    }
  }

  lemma BrokenLinkKeepsUploads(s: System, u: Id)
    requires UploadsInv(s) && RowsInv(s.db) && RowsInv(DoLinkThenBreak(s, u).db)
    ensures UploadsInv(DoLinkThenBreak(s, u))
  {
    if At(s, u, {Registered}) {
      LinkKeepsUploads(s, u, Broken);
      MarkFailedKeepsUploads(DoLink(s, u, Broken), DoLinkThenBreak(s, u), u);
    }
  }

  lemma BreakKeepsUploads(s: System, u: Id)
    requires UploadsInv(s) && RowsInv(DoBreak(s, u).db)
    ensures UploadsInv(DoBreak(s, u))
  {
    if DoBreak(s, u) != s {
      MarkFailedKeepsUploads(s, DoBreak(s, u), u);
    }
  }

  // ---------- Events that are quiet in every respect ----------

  /** What eleven of the twenty events do: nothing the answers or the uploads depend on; keys stay known. */
  ghost predicate Plain(s: System, s': System, ids: set<Id>) {
    Quiet(s, s') && UploadQuiet(s, s') && RowsIssued(s'.db, ids) && ProcessesIssued(s', ids)
  }

  /** Rows of messages, citations, claims and answers as they were. */
  ghost predicate SameMessages(s: System, s': System) {
    && s'.db.messages == s.db.messages && s'.db.citations == s.db.citations
    && s'.answers == s.answers && s'.claims == s.claims
  }

  lemma SameMessagesAreQuiet(s: System, s': System)
    requires SameMessages(s, s')
    ensures Quiet(s, s')
  {
  }

  lemma OpenIsPlain(s: System, id: Id, o: Owner, space: Id)
    requires IssuedInv(s)
    ensures Plain(s, DoOpen(s, id, o, space), s.issued + {id})
  {
    SameMessagesAreQuiet(s, DoOpen(s, id, o, space));
  }

  /** One message row added, with attachments that have no document yet. */
  ghost predicate AddsRow(s: System, s': System, id: Id, m: Message, added: map<Id, Attachment>) {
    && id !in s.db.messages && m.status != Some(Completed) && s' == s.(db := s'.db)
    && s'.db.messages == s.db.messages[id := m] && s'.db.documents == s.db.documents
    && s'.db.sessions.Keys == s.db.sessions.Keys && s'.db.attachments == s.db.attachments + added
    && s'.db.citations.Keys <= s.db.citations.Keys + {id}
    && (forall x <- s.db.citations :: x in s'.db.citations && (x != id ==> s'.db.citations[x] == s.db.citations[x]))
    && added.Keys !! s.issued && forall a <- added :: added[a].document.None?
  }

  lemma AddedRowIsQuiet(s: System, s': System, id: Id, m: Message, added: map<Id, Attachment>)
    requires IssuedInv(s) && AddsRow(s, s', id, m, added)
    ensures Quiet(s, s')
  {
  }

  lemma AddedRowIsIssued(s: System, s': System, id: Id, m: Message, added: map<Id, Attachment>, ids: set<Id>)
    requires IssuedInv(s) && AddsRow(s, s', id, m, added) && ids == s.issued + {id} + added.Keys
    ensures RowsIssued(s'.db, ids) && ProcessesIssued(s', ids)
  {
  }

  lemma AddedRowIsPlain(s: System, s': System, id: Id, m: Message, added: map<Id, Attachment>)
    requires IssuedInv(s) && AddsRow(s, s', id, m, added)
    ensures Plain(s, s', s.issued + {id} + added.Keys)
  {
    AddedRowIsQuiet(s, s', id, m, added);
    AddedRowIsUploadQuiet(s, s', id, m, added);
    AddedRowIsIssued(s, s', id, m, added, s.issued + {id} + added.Keys);
  }

  lemma AddedRowIsUploadQuiet(s: System, s': System, id: Id, m: Message, added: map<Id, Attachment>)
    requires IssuedInv(s) && AddsRow(s, s', id, m, added)
             && (id in s.db.messages ==> m.owner == s.db.messages[id].owner)
    ensures UploadQuiet(s, s')
  {
  }

  lemma CreateTurnShape(t: Tables, o: Owner, session: Id, space: Id, request: Id, turn: Id, ds: seq<Declared>)
    requires var r := CreateTurn(t, o, session, space, request, turn, ds); r.Ok? && r.value != t
    ensures DistinctDeclarations(ds) && turn !in t.messages
    ensures var t' := CreateTurn(t, o, session, space, request, turn, ds).value;
            && t'.messages == t.messages[turn := Message(session, o, User, Some(WaitingFiles), Some(request))]
            && t'.sessions.Keys == t.sessions.Keys && t'.documents == t.documents && t'.citations == t.citations
            && t'.attachments == t.attachments + Placeholders(o, space, turn, ds)
  {
  }

  lemma CreatedTurnIsPlain(s: System, s': System, o: Owner, session: Id, space: Id, request: Id, turn: Id,
                           ds: seq<Declared>)
    requires IssuedInv(s) && turn !in s.issued && forall d <- ds :: d.attachment !in s.issued
    requires var r := CreateTurn(s.db, o, session, space, request, turn, ds);
             r.Ok? && r.value != s.db && s' == s.(db := r.value)
    ensures Plain(s, s', s.issued + {turn} + (set d <- ds :: d.attachment))
  {
    CreateTurnShape(s.db, o, session, space, request, turn, ds);
    PlaceholderKeys(o, space, turn, ds);
    AddedRowIsPlain(s, s', turn, Message(session, o, User, Some(WaitingFiles), Some(request)),
                    Placeholders(o, space, turn, ds));
  }

  lemma NewTurnIsPlain(s: System, o: Owner, session: Id, space: Id, request: Id, turn: Id, ds: seq<Declared>)
    requires IssuedInv(s) && turn !in s.issued && forall d <- ds :: d.attachment !in s.issued
    ensures Plain(s, DoNewTurn(s, o, session, space, request, turn, ds),
                  s.issued + {turn} + (set d <- ds :: d.attachment))
  {
    if DoNewTurn(s, o, session, space, request, turn, ds) == s {
      NothingIsPlain(s, s.issued + {turn} + (set d <- ds :: d.attachment));
    } else {
      CreatedTurnIsPlain(s, DoNewTurn(s, o, session, space, request, turn, ds), o, session, space, request, turn, ds);
    }
  }

  lemma AddedAttachmentIsPlain(s: System, s': System, a: Id, row: Attachment)
    requires IssuedInv(s) && a !in s.issued && row.document.None?
    requires s' == s.(db := s.db.(attachments := s.db.attachments[a := row]))
    ensures Plain(s, s', s.issued + {a})
  {
    SameMessagesAreQuiet(s, s');
  }

  lemma NewAttachmentIsPlain(s: System, turn: Id, o: Owner, a: Id, client: Id)
    requires IssuedInv(s) && a !in s.issued
    ensures Plain(s, DoNewAttachment(s, turn, o, a, client), s.issued + {a})
  {
    var s' := DoNewAttachment(s, turn, o, a, client);
    if s' == s {
      NothingIsPlain(s, s.issued + {a});
    } else {
      AddedAttachmentIsPlain(s, s', a, s'.db.attachments[a]);
    }
  }

  lemma AddMessageShape(t: Tables, session: Id, o: Owner, role: MessageRole, id: Id)
    requires AddMessage(t, session, o, role, id).Ok?
    ensures id !in t.messages
    ensures var t' := AddMessage(t, session, o, role, id).value;
            && t'.messages == t.messages[id := Message(session, o, role, None, None)]
            && t'.sessions.Keys == t.sessions.Keys && t'.documents == t.documents && t'.attachments == t.attachments
            && t'.citations == t.citations
  {
  }

  lemma SayIsPlain(s: System, session: Id, o: Owner, role: MessageRole, id: Id)
    requires IssuedInv(s)
    ensures Plain(s, DoSay(s, session, o, role, id), s.issued + {id})
  {
    if AddMessage(s.db, session, o, role, id).Ok? {
      AddMessageShape(s.db, session, o, role, id);
      AddedPlainRow(s, DoSay(s, session, o, role, id), id, Message(session, o, role, None, None));
    } else {
      NothingIsPlain(s, s.issued + {id});
    }
  }

  lemma AddedPlainRow(s: System, s': System, id: Id, m: Message)
    requires IssuedInv(s) && AddsRow(s, s', id, m, map[])
    ensures Plain(s, s', s.issued + {id})
  {
    var none: map<Id, Attachment> := map[];
    AddedRowIsPlain(s, s', id, m, none);
    assert s.issued + {id} + none.Keys == s.issued + {id};
  }

  lemma PlainAnswerShape(t: Tables, session: Id, o: Owner, id: Id, cited: seq<(Id, Id)>)
    requires SaveAssistant(t, None, session, o, id, cited).Ok?
    ensures id !in t.messages
    ensures var t' := SaveAssistant(t, None, session, o, id, cited).value;
            && t'.messages == t.messages[id := Message(session, o, Assistant, None, None)]
            && t'.sessions.Keys == t.sessions.Keys && t'.documents == t.documents && t'.attachments == t.attachments
            && t'.citations == if cited == [] then t.citations else t.citations[id := Ranked(cited)]
  {
  }

  lemma PlainAnswerIsPlain(s: System, session: Id, o: Owner, id: Id, cited: seq<(Id, Id)>)
    requires IssuedInv(s)
    ensures Plain(s, DoPlainAnswer(s, session, o, id, cited), s.issued + {id})
  {
    if SaveAssistant(s.db, None, session, o, id, cited).Ok? {
      PlainAnswerShape(s.db, session, o, id, cited);
      AddedPlainRow(s, DoPlainAnswer(s, session, o, id, cited), id, Message(session, o, Assistant, None, None));
    } else {
      NothingIsPlain(s, s.issued + {id});
    }
  }

  lemma NewDocumentIsPlain(s: System, d: Id, tenant: Id, space: Id)
    requires IssuedInv(s) && d !in s.issued
    ensures Plain(s, DoNewDocument(s, d, tenant, space), s.issued + {d})
  {
  }

  lemma DocumentMovesIsPlain(s: System, d: Id, status: DocumentStatus)
    requires IssuedInv(s)
    ensures Plain(s, DoDocumentMoves(s, d, status), s.issued)
  {
  }

  lemma IgnoreIsPlain(s: System, turn: Id, a: Id, o: Owner, flag: bool)
    requires IssuedInv(s)
    ensures Plain(s, DoIgnore(s, turn, a, o, flag), s.issued)
  {
    SameMessagesAreQuiet(s, DoIgnore(s, turn, a, o, flag));
  }

  /** One status moved along an allowed edge that does not enter or leave 'completed'; perhaps a claim handed out. */
  ghost predicate ChangesStatus(s: System, s': System, turn: Id, st: TurnStatus) {
    && turn in s.db.messages && s.db.messages[turn].status.Some? && st != Completed
    && s.db.messages[turn].status != Some(Completed) && Allowed(s.db.messages[turn].status.value, st)
    && s'.db == SetStatus(s.db, turn, st) && s' == s.(db := s'.db, claims := s'.claims)
    && (forall w <- s.claims :: w in s'.claims && s'.claims[w] == s.claims[w])
    && (forall w <- s'.claims :: w in s.claims || s'.claims[w].documents != {})
  }

  lemma StatusChangeIsQuiet(s: System, s': System, turn: Id, st: TurnStatus)
    requires ChangesStatus(s, s', turn, st)
    ensures Quiet(s, s')
  {
  }

  lemma StatusChangeIsPlain(s: System, s': System, turn: Id, st: TurnStatus, ids: set<Id>)
    requires IssuedInv(s) && ChangesStatus(s, s', turn, st) && s.issued <= ids && s'.claims.Keys <= s.claims.Keys + ids
    requires forall w <- s'.claims :: w in s.claims || s'.claims[w].turn == turn
    ensures Plain(s, s', ids)
  {
    StatusChangeIsQuiet(s, s', turn, st);
    StatusChangeIsIssued(s, s', turn, st, ids);
  }

  lemma StatusChangeIsIssued(s: System, s': System, turn: Id, st: TurnStatus, ids: set<Id>)
    requires IssuedInv(s) && ChangesStatus(s, s', turn, st) && s.issued <= ids && s'.claims.Keys <= s.claims.Keys + ids
    requires forall w <- s'.claims :: w in s.claims || s'.claims[w].turn == turn
    ensures RowsIssued(s'.db, ids) && ProcessesIssued(s', ids)
  {
  }

  lemma NothingIsPlain(s: System, ids: set<Id>)
    requires IssuedInv(s) && s.issued <= ids
    ensures Plain(s, s, ids)
  {
  }

  lemma CancelIsPlain(s: System, turn: Id, o: Owner)
    requires IssuedInv(s)
    ensures Plain(s, DoCancel(s, turn, o), s.issued)
  {
    if CancelTurn(s.db, turn, o).1 {
      StatusChangeIsPlain(s, DoCancel(s, turn, o), turn, Cancelled, s.issued);
    } else {
      NothingIsPlain(s, s.issued);
    }
  }

  lemma ClaimIsPlain(s: System, w: Id, turn: Id, o: Owner)
    requires IssuedInv(s) && w !in s.issued
    ensures Plain(s, DoClaim(s, w, turn, o), s.issued + {w})
  {
    if ClaimReadyAnswer(s.db, turn, o).1.Some? {
      ClaimScopeNotEmpty(s.db, turn, o);
      StatusChangeIsPlain(s, DoClaim(s, w, turn, o), turn, Answering, s.issued + {w});
    } else {
      NothingIsPlain(s, s.issued + {w});
    }
  }

  lemma FailIsPlain(s: System, w: Id)
    requires IssuedInv(s)
    ensures Plain(s, DoFail(s, w), s.issued)
  {
    if w in s.claims && FailAnswer(s.db, s.claims[w].turn, s.claims[w].owner).1 {
      StatusChangeIsPlain(s, DoFail(s, w), s.claims[w].turn, AnswerFailed, s.issued);
    } else {
      NothingIsPlain(s, s.issued);
    }
  }

  lemma PlainRowEvent(s: System, e: Event)
    requires IssuedInv(s) && Keys(e) !! s.issued
    requires e.OpenSession? || e.NewTurn? || e.NewAttachment? || e.Say? || e.PlainAnswer? || e.NewDocument?
    ensures Plain(s, Effect(s, e), s.issued + Keys(e))
  {
    match e
    case OpenSession(id, o, space) => OpenIsPlain(s, id, o, space);
    case NewTurn(o, session, space, request, turn, ds) =>
      assert forall d <- ds :: d.attachment in Keys(e);
      NewTurnIsPlain(s, o, session, space, request, turn, ds);
      assert s.issued + Keys(e) == s.issued + {turn} + (set d <- ds :: d.attachment);
    case NewAttachment(turn, o, a, client) => NewAttachmentIsPlain(s, turn, o, a, client);
    case Say(session, o, role, id) => SayIsPlain(s, session, o, role, id);
    case PlainAnswer(session, o, id, cited) => PlainAnswerIsPlain(s, session, o, id, cited);
    case NewDocument(d, tenant, space) => NewDocumentIsPlain(s, d, tenant, space);
  }

  lemma PlainChangeEvent(s: System, e: Event)
    requires IssuedInv(s) && Keys(e) !! s.issued
    requires e.DocumentMoves? || e.Ignore? || e.Cancel? || e.Claim? || e.Fail?
    ensures Plain(s, Effect(s, e), s.issued + Keys(e))
  {
    assert e.Claim? || s.issued + Keys(e) == s.issued;
    match e
    case DocumentMoves(d, status) => DocumentMovesIsPlain(s, d, status);
    case Ignore(turn, a, o, flag) => IgnoreIsPlain(s, turn, a, o, flag);
    case Cancel(turn, o) => CancelIsPlain(s, turn, o);
    case Claim(w, turn, o) => ClaimIsPlain(s, w, turn, o);
    case Fail(w) => FailIsPlain(s, w);
  }

  predicate PlainEvent(e: Event) {
    e.OpenSession? || e.NewTurn? || e.NewAttachment? || e.Say? || e.PlainAnswer? || e.NewDocument?
    || e.DocumentMoves? || e.Ignore? || e.Cancel? || e.Claim? || e.Fail?
  }

  lemma PlainStep(s: System, e: Event)
    requires IssuedInv(s) && Keys(e) !! s.issued && PlainEvent(e)
    ensures Plain(s, Effect(s, e), s.issued + Keys(e))
  {
    if e.DocumentMoves? || e.Ignore? || e.Cancel? || e.Claim? || e.Fail? {
      PlainChangeEvent(s, e);
    } else {
      PlainRowEvent(s, e);
    }
  }

  // ---------- Events of uploads ----------

  /** What an upload event does outside its own upload, attachment and document. */
  ghost predicate Beside(s: System, s': System, ids: set<Id>) {
    && SameMessages(s, s') && RowsIssued(s'.db, ids) && ProcessesIssued(s', ids)
    && (forall a <- s.linked :: a in s'.linked && s'.linked[a] == s.linked[a])
  }

  lemma StartBeside(s: System, u: Id, turn: Id, a: Id, o: Owner, d: Id)
    requires IssuedInv(s)
    ensures Beside(s, DoStart(s, u, turn, a, o, d), s.issued + {u, d}) && DoStart(s, u, turn, a, o, d).db == s.db
  {
    var s' := DoStart(s, u, turn, a, o, d);
    if s' != s {
      AddedUploadBeside(s, s', u, s'.uploads[u], s.issued + {u, d});
    }
  }

  lemma AddedUploadBeside(s: System, s': System, u: Id, up: Upload, ids: set<Id>)
    requires IssuedInv(s) && s.issued + {u, up.document} <= ids && {up.turn, up.attachment} <= s.issued
    requires s' == s.(uploads := s.uploads[u := up])
    ensures Beside(s, s', ids)
  {
  }

  lemma RegisterBeside(s: System, u: Id)
    requires IssuedInv(s)
    ensures Beside(s, DoRegister(s, u), s.issued)
  {
  }

  lemma LinkIsFinal(s: System, u: Id, next: Phase)
    requires UploadsInv(s)
    ensures SameMessages(s, DoLink(s, u, next))
    ensures forall a <- s.linked :: a in DoLink(s, u, next).linked && DoLink(s, u, next).linked[a] == s.linked[a]
  {
  }

  /** An upload changes phase and perhaps an attachment row; no key is new. */
  lemma MoveIsIssued(s: System, s': System, u: Id, p: Phase)
    requires IssuedInv(s) && u in s.uploads && s' == s.(db := s'.db, linked := s'.linked, uploads := Move(s, u, p))
    requires s'.db == s.db.(attachments := s'.db.attachments) && s'.db.attachments.Keys == s.db.attachments.Keys
    requires s'.linked.Keys <= s.linked.Keys + {s.uploads[u].attachment}
    ensures RowsIssued(s'.db, s.issued) && ProcessesIssued(s', s.issued)
  {
  }

  lemma LinkShape(s: System, u: Id, next: Phase)
    requires At(s, u, {Registered})
    ensures var s' := DoLink(s, u, next);
            && u in s'.uploads && s' == s.(db := s'.db, linked := s'.linked, uploads := Move(s, u, s'.uploads[u].phase))
            && s'.db == s.db.(attachments := s'.db.attachments) && s'.db.attachments.Keys == s.db.attachments.Keys
            && s'.linked.Keys <= s.linked.Keys + {s.uploads[u].attachment}
  {
  }

  lemma LinkIsIssued(s: System, u: Id, next: Phase)
    requires IssuedInv(s)
    ensures RowsIssued(DoLink(s, u, next).db, s.issued) && ProcessesIssued(DoLink(s, u, next), s.issued)
  {
    if At(s, u, {Registered}) {
      LinkShape(s, u, next);
      MoveIsIssued(s, DoLink(s, u, next), u, DoLink(s, u, next).uploads[u].phase);
    }
  }

  lemma LinkBeside(s: System, u: Id, next: Phase)
    requires IssuedInv(s) && UploadsInv(s)
    ensures Beside(s, DoLink(s, u, next), s.issued)
  {
    LinkIsFinal(s, u, next);
    LinkIsIssued(s, u, next);
  }

  lemma FailedBeside(s: System, s': System, u: Id)
    requires IssuedInv(s) && u in s.uploads
    requires var up := s.uploads[u];
             s' == s.(db := MarkUploadFailed(s.db, up.turn, up.attachment, up.owner).0, uploads := Move(s, u, Broken))
    ensures Beside(s, s', s.issued)
  {
  }

  lemma IngestBeside(s: System, u: Id)
    requires IssuedInv(s)
    ensures Beside(s, DoIngest(s, u), s.issued)
  {
  }

  lemma ReportBeside(s: System, u: Id)
    requires IssuedInv(s)
    ensures Beside(s, DoReport(s, u), s.issued)
  {
    if At(s, u, {Lost}) {
      MoveIsIssued(s, DoReport(s, u), u, DoReport(s, u).uploads[u].phase);
    }
  }

  lemma BrokenLinkBeside(s: System, u: Id)
    requires IssuedInv(s) && UploadsInv(s) && RowsInv(s.db)
    ensures Beside(s, DoLinkThenBreak(s, u), s.issued)
  {
    if At(s, u, {Registered}) {
      var s1 := DoLink(s, u, Broken);
      LinkBeside(s, u, Broken);
      FailedBeside(s1, DoLinkThenBreak(s, u), u);
    }
  }

  predicate UploadEvent(e: Event) {
    e.StartUpload? || e.RegisterDocument? || e.LinkUpload? || e.LinkThenBreak? || e.StartIngest? || e.Report?
    || e.Break?
  }

  lemma BreakBeside(s: System, u: Id)
    requires IssuedInv(s)
    ensures Beside(s, DoBreak(s, u), s.issued)
  {
    if DoBreak(s, u) != s {
      FailedBeside(s, DoBreak(s, u), u);
    }
  }

  lemma WriteEventBeside(s: System, e: Event)
    requires IssuedInv(s) && UploadsInv(s) && RowsInv(s.db)
             && (e.RegisterDocument? || e.LinkUpload? || e.LinkThenBreak?)
    ensures Beside(s, Effect(s, e), s.issued)
  {
    match e
    case RegisterDocument(u) => RegisterBeside(s, u);
    case LinkUpload(u) => LinkBeside(s, u, Linked);
    case LinkThenBreak(u) => BrokenLinkBeside(s, u);
  }

  lemma PhaseEventBeside(s: System, e: Event)
    requires IssuedInv(s) && (e.StartIngest? || e.Report? || e.Break?)
    ensures Beside(s, Effect(s, e), s.issued)
  {
    match e
    case StartIngest(u) => IngestBeside(s, u);
    case Report(u) => ReportBeside(s, u);
    case Break(u) => BreakBeside(s, u);
  }

  lemma UploadEventBeside(s: System, e: Event, ids: set<Id>)
    requires IssuedInv(s) && UploadsInv(s) && RowsInv(s.db) && UploadEvent(e) && ids == s.issued + Keys(e)
    ensures Beside(s, Effect(s, e), ids)
  {
    if e.StartUpload? {
      StartBeside(s, e.upload, e.turn, e.attachment, e.owner, e.document);
    } else {
      assert ids == s.issued;
      if e.RegisterDocument? || e.LinkUpload? || e.LinkThenBreak? {
        WriteEventBeside(s, e);
      } else {
        PhaseEventBeside(s, e);
      }
    }
  }

  lemma WriteEventKeepsUploads(s: System, e: Event)
    requires UploadsInv(s) && RowsInv(s.db) && RowsInv(Effect(s, e).db)
    requires e.RegisterDocument? || e.LinkUpload? || e.LinkThenBreak?
    ensures UploadsInv(Effect(s, e))
  {
    var s' := Effect(s, e);
    match e
    case RegisterDocument(u) => assert s' == DoRegister(s, u); RegisterKeepsUploads(s, u);
    case LinkUpload(u) => assert s' == DoLink(s, u, Linked); LinkKeepsUploads(s, u, Linked);
    case LinkThenBreak(u) => assert s' == DoLinkThenBreak(s, u); BrokenLinkKeepsUploads(s, u);
  }

  lemma PhaseEventKeepsUploads(s: System, e: Event)
    requires UploadsInv(s) && RowsInv(s.db) && RowsInv(Effect(s, e).db) && (e.StartIngest? || e.Report? || e.Break?)
    ensures UploadsInv(Effect(s, e))
  {
    var s' := Effect(s, e);
    match e
    case StartIngest(u) => assert s' == DoIngest(s, u); IngestKeepsUploads(s, u);
    case Report(u) => assert s' == DoReport(s, u); ReportKeepsUploads(s, u);
    case Break(u) => assert s' == DoBreak(s, u); BreakKeepsUploads(s, u);
  }

  lemma UploadEventKeepsUploads(s: System, e: Event)
    requires UploadsInv(s) && RowsInv(s.db) && IssuedInv(s) && RowsInv(Effect(s, e).db) && Keys(e) !! s.issued
             && UploadEvent(e)
    ensures UploadsInv(Effect(s, e))
  {
    if e.StartUpload? {
      StartKeepsUploads(s, e.upload, e.turn, e.attachment, e.owner, e.document);
    } else if e.RegisterDocument? || e.LinkUpload? || e.LinkThenBreak? {
      WriteEventKeepsUploads(s, e);
    } else {
      PhaseEventKeepsUploads(s, e);
    }
  }

  // ---------- Tables ----------

  lemma PlainRowKeepsTables(s: System, e: Event)
    requires TableInv(s.db)
    requires e.OpenSession? || e.NewTurn? || e.NewAttachment? || e.Say? || e.PlainAnswer? || e.NewDocument?
    ensures TableInv(Effect(s, e).db)
  {
    var t' := Effect(s, e).db;
    if t' != s.db {
      match e
      case OpenSession(id, o, space) => CreateSessionKeepsTables(s.db, id, o, space);
      case NewTurn(o, session, space, request, turn, ds) =>
        CreateTurnKeepsTables(s.db, o, session, space, request, turn, ds);
      case NewAttachment(turn, o, a, client) => AddAttachmentKeepsTables(s.db, turn, o, a, client, MAX_ATTACHMENTS);
      case Say(session, o, role, id) => AddPlainRow(s.db, id, Message(session, o, role, None, None));
      case PlainAnswer(session, o, id, cited) => SaveAssistantKeepsTables(s.db, None, session, o, id, cited);
      case NewDocument(d, tenant, space) => DocumentsFrame(s.db, t');
    }
  }

  lemma ChangeKeepsTables(s: System, e: Event)
    requires TableInv(s.db)
    requires e.DropSession? || e.DocumentMoves? || e.Ignore? || e.Cancel? || e.Claim? || e.Fail? || e.Persist?
    ensures TableInv(Effect(s, e).db)
  {
    var t' := Effect(s, e).db;
    if t' != s.db {
      match e
      case DropSession(id, o) => DeleteSessionKeepsTables(s.db, id, o);
      case DocumentMoves(d, status) => DocumentsFrame(s.db, t');
      case Ignore(turn, a, o, flag) => IgnoreKeepsTables(s.db, turn, a, o, flag);
      case Cancel(turn, o) => StatusKeepsTables(s.db, turn, Cancelled);
      case Claim(w, turn, o) => StatusKeepsTables(s.db, turn, Answering);
      case Fail(w) => StatusKeepsTables(s.db, s.claims[w].turn, AnswerFailed);
      case Persist(w, id, found, hydrated) =>
        var c := s.claims[w];
        SaveAssistantKeepsTables(s.db, Some(c.turn), c.session, c.owner, id, Cited(c, found, hydrated));
    }
  }

  lemma RegisterKeepsTables(s: System, u: Id)
    requires TableInv(s.db)
    ensures TableInv(DoRegister(s, u).db)
  {
    if DoRegister(s, u).db != s.db {
      DocumentsFrame(s.db, DoRegister(s, u).db);
    }
  }

  lemma LinkThenBreakKeepsTables(s: System, u: Id)
    requires TableInv(s.db)
    ensures TableInv(DoLinkThenBreak(s, u).db)
  {
    if At(s, u, {Registered}) {
      var up := s.uploads[u];
      LinkKeepsTables(s.db, up.turn, up.attachment, up.document, up.owner);
      MarkFailedKeepsTables(DoLink(s, u, Broken).db, up.turn, up.attachment, up.owner);
    }
  }

  lemma UploadKeepsTables(s: System, e: Event)
    requires TableInv(s.db) && UploadEvent(e)
    ensures TableInv(Effect(s, e).db)
  {
    if e.RegisterDocument? {
      RegisterKeepsTables(s, e.upload);
    } else if e.LinkThenBreak? {
      LinkThenBreakKeepsTables(s, e.upload);
    } else if Effect(s, e).db != s.db {
      var up := s.uploads[e.upload];
      LinkKeepsTables(s.db, up.turn, up.attachment, up.document, up.owner);
      MarkFailedKeepsTables(s.db, up.turn, up.attachment, up.owner);
    }
  }

  // ---------- All together ----------

  lemma TablesKept(s: System, e: Event)
    requires TableInv(s.db)
    ensures TableInv(Effect(s, e).db)
  {
    if UploadEvent(e) {
      UploadKeepsTables(s, e);
    } else if e.OpenSession? || e.NewTurn? || e.NewAttachment? || e.Say? || e.PlainAnswer? || e.NewDocument? {
      PlainRowKeepsTables(s, e);
    } else {
      ChangeKeepsTables(s, e);
    }
  }

  /** A deleted session and a completion leave the uploads alone, too. */
  lemma DropBeside(s: System, id: Id, o: Owner)
    requires IssuedInv(s)
    ensures UploadQuiet(s, DoDrop(s, id, o)) && RowsIssued(DoDrop(s, id, o).db, s.issued)
            && ProcessesIssued(DoDrop(s, id, o), s.issued)
  {
  }

  lemma PersistShape(t: Tables, turn: Id, session: Id, o: Owner, id: Id, cited: seq<(Id, Id)>)
    requires SaveAssistant(t, Some(turn), session, o, id, cited).Ok?
    ensures id !in t.messages && turn in t.messages && turn != id
    ensures var t' := SaveAssistant(t, Some(turn), session, o, id, cited).value;
            && t'.messages == t.messages[id := Message(session, o, Assistant, None, None)]
                                        [turn := t.messages[turn].(status := Some(Completed))]
            && t'.sessions.Keys == t.sessions.Keys && t'.documents == t.documents && t'.attachments == t.attachments
            && t'.citations == if cited == [] then t.citations else t.citations[id := Ranked(cited)]
  {
  }

  lemma PersistIsIssued(s: System, w: Id, id: Id, found: seq<Hit>, hydrated: set<Id>)
    requires IssuedInv(s) && DoPersist(s, w, id, found, hydrated) != s
    ensures var s' := DoPersist(s, w, id, found, hydrated);
            RowsIssued(s'.db, s.issued + {id}) && ProcessesIssued(s', s.issued + {id})
  {
    var c := s.claims[w];
    PersistShape(s.db, c.turn, c.session, c.owner, id, Cited(c, found, hydrated));
  }

  lemma PersistIsUploadQuiet(s: System, w: Id, id: Id, found: seq<Hit>, hydrated: set<Id>)
    requires IssuedInv(s) && DoPersist(s, w, id, found, hydrated) != s
    ensures UploadQuiet(s, DoPersist(s, w, id, found, hydrated))
  {
    var c := s.claims[w];
    PersistShape(s.db, c.turn, c.session, c.owner, id, Cited(c, found, hydrated));
  }

  lemma PersistBeside(s: System, w: Id, id: Id, found: seq<Hit>, hydrated: set<Id>)
    requires IssuedInv(s)
    ensures var s' := DoPersist(s, w, id, found, hydrated);
            UploadQuiet(s, s') && RowsIssued(s'.db, s.issued + {id}) && ProcessesIssued(s', s.issued + {id})
  {
    if DoPersist(s, w, id, found, hydrated) == s {
      NothingIsPlain(s, s.issued + {id});
    } else {
      PersistIsIssued(s, w, id, found, hydrated);
      PersistIsUploadQuiet(s, w, id, found, hydrated);
    }
  }

  ghost predicate Enabled(s: System, e: Event) {
    Inv(s) && Keys(e) !! s.issued && KeysDistinct(e)
  }

  ghost predicate Rest(s: System, ids: set<Id>) {
    AnswersInv(s) && ScopeInv(s) && UploadsInv(s) && RowsIssued(s.db, ids) && ProcessesIssued(s, ids)
  }

  lemma PlainKeepsRest(s: System, s': System, ids: set<Id>)
    requires Inv(s) && TableInv(s'.db) && Plain(s, s', ids)
    ensures Rest(s', ids)
  {
    QuietKeepsAnswers(s, s');
    QuietKeepsUploads(s, s');
  }

  lemma PersistKeepsRest(s: System, w: Id, id: Id, found: seq<Hit>, hydrated: set<Id>)
    requires Inv(s) && TableInv(DoPersist(s, w, id, found, hydrated).db)
    ensures Rest(DoPersist(s, w, id, found, hydrated), s.issued + {id})
  {
    var s' := DoPersist(s, w, id, found, hydrated);
    if s' != s {
      PersistCompletes(s, w, id, found, hydrated);
      CompletionKeepsAnswers(s, s', id, w);
    }
    PersistKeepsScope(s, w, id, found, hydrated);
    PersistBeside(s, w, id, found, hydrated);
    QuietKeepsUploads(s, s');
  }

  lemma DropKeepsRest(s: System, id: Id, o: Owner)
    requires Inv(s) && TableInv(DoDrop(s, id, o).db)
    ensures Rest(DoDrop(s, id, o), s.issued)
  {
    DropKeepsAnswers(s, id, o);
    DropBeside(s, id, o);
    QuietKeepsUploads(s, DoDrop(s, id, o));
  }

  lemma SameMessagesKeepAnswers(s: System, s': System)
    requires AnswersInv(s) && ScopeInv(s) && SameMessages(s, s')
    ensures AnswersInv(s') && ScopeInv(s')
  {
    QuietKeepsAnswers(s, s');
  }

  lemma RestKept(s: System, e: Event)
    requires Enabled(s, e) && TableInv(Effect(s, e).db)
    ensures Rest(Effect(s, e), s.issued + Keys(e))
  {
    var s' := Effect(s, e);
    var ids := s.issued + Keys(e);
    if e.Persist? {
      PersistKeepsRest(s, e.worker, e.id, e.found, e.hydrated);
    } else if e.DropSession? {
      assert ids == s.issued;
      DropKeepsRest(s, e.id, e.owner);
    } else if UploadEvent(e) {
      UploadEventBeside(s, e, ids);
      SameMessagesKeepAnswers(s, s');
      UploadEventKeepsUploads(s, e);
    } else {
      PlainStep(s, e);
      PlainKeepsRest(s, s', ids);
    }
  }

  lemma SameAnswersAndUploads(s: System, s': System)
    requires s' == s.(issued := s'.issued) && AnswersInv(s) && UploadsInv(s)
    ensures AnswersInv(s')
    ensures UploadsInv(s')
  {
    assert AnswersInv(s') by {
      assert forall a <- s.answers :: AnswerOk(s, a) ==> AnswerOk(s', a);
      assert forall m :: HasAnswer(s, m) ==> HasAnswer(s', m);
    }
    assert forall u <- s.uploads :: UploadOk(s, u) ==> UploadOk(s', u);
  }

  lemma SameButIssued(s: System, ids: set<Id>)
    requires Rest(s, ids) && TableInv(s.db)
    ensures Inv(s.(issued := ids))
  {
    SameAnswersAndUploads(s, s.(issued := ids));
  }

  lemma ApplyKeepsInv(s: System, e: Event)
    requires Inv(s)
    ensures Inv(Apply(s, e))
  {
    if Keys(e) !! s.issued && KeysDistinct(e) {
      TablesKept(s, e);
      RestKept(s, e);
      SameButIssued(Effect(s, e), s.issued + Keys(e));
    }
  }
}
