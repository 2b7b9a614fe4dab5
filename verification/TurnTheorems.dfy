/** What holds in every state that any interleaving of transactions reaches. */
module TurnTheorems {
  import opened Common
  import opened Turns
  import opened TurnInvariants
  import opened Retrieval
  import opened TurnProtocol
  import opened TurnSteps

  lemma {:induction false} RunKeepsInv(s: System, events: seq<Event>)
    requires Inv(s)
    ensures Inv(Run(s, events))
    decreases |events|
  {
    if events != [] {
      ApplyKeepsInv(s, events[0]);
      RunKeepsInv(Apply(s, events[0]), events[1..]);
    }
  }

  lemma ReachableInv(events: seq<Event>)
    ensures Inv(Run(EMPTY, events))
  {
    RunKeepsInv(EMPTY, events);
  }

  // ---------- Answers ----------

  function AnswersOf(s: System, turn: Id): set<Id> {
    set a <- s.answers | s.answers[a] in s.claims && s.claims[s.answers[a]].turn == turn
  }

  lemma AnswersCounted(s: System, turn: Id)
    requires AnswersInv(s) && turn in s.db.messages
    ensures |AnswersOf(s, turn)| == if s.db.messages[turn].status == Some(Completed) then 1 else 0
  {
    if s.db.messages[turn].status == Some(Completed) {
      var a :| a in s.answers && s.answers[a] in s.claims && AnsweredTurn(s, a) == turn;
      forall b <- AnswersOf(s, turn) ensures b == a {
        assert AnsweredTurn(s, b) == AnsweredTurn(s, a);
      }
      assert AnswersOf(s, turn) == {a};
    } else {
      forall b <- s.answers ensures b !in AnswersOf(s, turn) {
        assert AnswerOk(s, b);
      }
      assert AnswersOf(s, turn) == {};
    }
  }

  /** A turn has exactly one persisted answer when it is completed, and none otherwise. */
  lemma OneAnswerIffCompleted(events: seq<Event>, turn: Id)
    requires turn in Run(EMPTY, events).db.messages
    ensures var s := Run(EMPTY, events);
            |AnswersOf(s, turn)| == if s.db.messages[turn].status == Some(Completed) then 1 else 0
  {
    ReachableInv(events);
    AnswersCounted(Run(EMPTY, events), turn);
  }

  /** Every message that survives keeps its owner and its client request, and a turn moves along an edge of the
      state machine. */
  ghost predicate Moves(t: Tables, t': Tables) {
    forall m <- t.messages :: m in t'.messages ==>
      && t'.messages[m].owner == t.messages[m].owner && t'.messages[m].request == t.messages[m].request
      && (t.messages[m].status.Some? ==>
            t'.messages[m].status.Some? && Allowed(t.messages[m].status.value, t'.messages[m].status.value))
  }

  /** No event brings back the key of a message that is gone. */
  ghost predicate NoRevival(s: System, t': Tables) {
    forall m <- t'.messages :: m in s.issued ==> m in s.db.messages
  }

  lemma PlainMoves(s: System, e: Event)
    requires IssuedInv(s) && Keys(e) !! s.issued && PlainEvent(e)
    ensures Moves(s.db, Effect(s, e).db) && NoRevival(s, Effect(s, e).db)
  {
    PlainStep(s, e);
    QuietMoves(s, Effect(s, e));
    PlainRowsAreNew(s, e);
  }

  lemma QuietMoves(s: System, s': System)
    requires Quiet(s, s')
    ensures Moves(s.db, s'.db)
  {
  }

  lemma PersistMoves(s: System, w: Id, id: Id, found: seq<Hit>, hydrated: set<Id>)
    requires IssuedInv(s) && id !in s.issued
    ensures Moves(s.db, DoPersist(s, w, id, found, hydrated).db)
            && NoRevival(s, DoPersist(s, w, id, found, hydrated).db)
  {
    if DoPersist(s, w, id, found, hydrated) != s {
      PersistCompletes(s, w, id, found, hydrated);
    }
  }

  lemma UploadMoves(s: System, e: Event)
    requires IssuedInv(s) && UploadsInv(s) && RowsInv(s.db) && UploadEvent(e)
    ensures Effect(s, e).db.messages == s.db.messages
  {
    UploadEventBeside(s, e, s.issued + Keys(e));
  }

  lemma DropMoves(s: System, id: Id, o: Owner)
    ensures Moves(s.db, DoDrop(s, id, o).db) && NoRevival(s, DoDrop(s, id, o).db)
  {
  }

  lemma StatusMoves(s: System, e: Event)
    requires IssuedInv(s) && UploadsInv(s) && RowsInv(s.db)
    ensures Moves(s.db, Apply(s, e).db) && NoRevival(s, Apply(s, e).db)
  {
    if Keys(e) !! s.issued && KeysDistinct(e) {
      if e.Persist? {
        PersistMoves(s, e.worker, e.id, e.found, e.hydrated);
      } else if UploadEvent(e) {
        UploadMoves(s, e);
      } else if e.DropSession? {
        DropMoves(s, e.id, e.owner);
      } else {
        PlainMoves(s, e);
      }
    }
  }

  lemma RowsAreNew(s: System, e: Event)
    requires IssuedInv(s) && (e.NewTurn? || e.Say? || e.PlainAnswer?)
    ensures Effect(s, e).db.messages.Keys <= s.db.messages.Keys + Keys(e)
  {
  }

  lemma PlainRowsAreNew(s: System, e: Event)
    requires IssuedInv(s) && Keys(e) !! s.issued && PlainEvent(e)
    ensures Effect(s, e).db.messages.Keys <= s.db.messages.Keys + Keys(e)
  {
    if e.NewTurn? || e.Say? || e.PlainAnswer? {
      RowsAreNew(s, e);
    }
  }

  /** The turn has status `st`, or its row is gone for good. */
  ghost predicate Ended(s: System, turn: Id, st: TurnStatus) {
    turn in s.issued && (turn in s.db.messages ==> s.db.messages[turn].status == Some(st))
  }

  lemma EndedFrame(s: System, s': System, turn: Id, st: TurnStatus)
    requires Moves(s.db, s'.db) && NoRevival(s, s'.db) && s.issued <= s'.issued
    requires st in {Completed, Cancelled} && Ended(s, turn, st)
    ensures Ended(s', turn, st)
  {
  }

  lemma EndedStep(s: System, e: Event, turn: Id, st: TurnStatus)
    requires IssuedInv(s) && UploadsInv(s) && RowsInv(s.db) && st in {Completed, Cancelled} && Ended(s, turn, st)
    ensures Ended(Apply(s, e), turn, st)
  {
    StatusMoves(s, e);
    EndedFrame(s, Apply(s, e), turn, st);
  }

  /** 'completed' and 'cancelled' are never left, whatever happens afterwards. */
  lemma {:induction false} TerminalForever(s: System, more: seq<Event>, turn: Id, st: TurnStatus)
    requires Inv(s) && st in {Completed, Cancelled} && Ended(s, turn, st)
    ensures Ended(Run(s, more), turn, st)
    decreases |more|
  {
    if more != [] {
      ApplyKeepsInv(s, more[0]);
      EndedStep(s, more[0], turn, st);
      TerminalForever(Apply(s, more[0]), more[1..], turn, st);
    }
  }

  /** The turn of the worker's claim is being answered, under the session and owner of the claim. */
  predicate CanComplete(s: System, w: Id)
    requires w in s.claims
  {
    var c := s.claims[w];
    Owned(s.db, c.turn, c.owner) && s.db.messages[c.turn].session == c.session && StatusIs(s.db, c.turn, {Answering})
  }

  lemma SavedIff(t: Tables, turn: Id, session: Id, o: Owner, id: Id, cited: seq<(Id, Id)>)
    requires RowsInv(t) && id !in t.messages
    ensures SaveAssistant(t, Some(turn), session, o, id, cited).Ok?
            <==> Owned(t, turn, o) && t.messages[turn].session == session && StatusIs(t, turn, {Answering})
  {
    if turn in t.messages {
      assert MessageOk(t, turn);
    }
  }

  lemma CompletionIffCanComplete(s: System, w: Id, id: Id, found: seq<Hit>, hydrated: set<Id>)
    requires RowsInv(s.db) && w in s.claims && id !in s.db.messages && id !in s.answers
    ensures var s' := DoPersist(s, w, id, found, hydrated);
            && (CanComplete(s, w) <==> id in s'.answers)
            && (!CanComplete(s, w) ==> s' == s)
  {
    var c := s.claims[w];
    SavedIff(s.db, c.turn, c.session, c.owner, id, Cited(c, found, hydrated));
  }

  /** A worker, stale or not, completes its turn exactly when the turn is being answered; otherwise nothing at
      all is left behind: no row, no citation, no count. */
  lemma CompletionIff(s: System, e: Event)
    requires RowsInv(s.db) && IssuedInv(s) && e.Persist? && e.worker in s.claims && e.id !in s.issued
    ensures CanComplete(s, e.worker) <==> e.id in Apply(s, e).answers
    ensures !CanComplete(s, e.worker) ==> Apply(s, e) == s.(issued := s.issued + {e.id})
  {
    assert Keys(e) == {e.id};
    CompletionIffCanComplete(s, e.worker, e.id, e.found, e.hydrated);
  }

  // ---------- Claims and citations ----------

  lemma {:induction false} RunSnoc(s: System, events: seq<Event>, e: Event)
    ensures Run(s, events + [e]) == Apply(Run(s, events), e)
    decreases |events|
  {
    if events == [] {
      assert events + [e] == [e];
    } else {
      assert (events + [e])[1..] == events[1..] + [e];
      RunSnoc(Apply(s, events[0]), events[1..], e);
    }
  }

  lemma RowEventsKeepClaims(s: System, e: Event)
    requires e.OpenSession? || e.DropSession? || e.NewTurn? || e.NewAttachment? || e.Say? || e.PlainAnswer?
             || e.NewDocument?
    ensures Effect(s, e).claims == s.claims
  {
  }

  lemma ChangeEventsKeepClaims(s: System, e: Event)
    requires e.DocumentMoves? || e.Ignore? || e.Cancel? || e.Fail? || e.Persist?
    ensures Effect(s, e).claims == s.claims
  {
  }

  lemma OnlyClaimsAddClaims(s: System, e: Event)
    requires UploadsInv(s) && RowsInv(s.db) && IssuedInv(s) && !e.Claim?
    ensures Apply(s, e).claims == s.claims
  {
    if Keys(e) !! s.issued && KeysDistinct(e) {
      if UploadEvent(e) {
        UploadEventBeside(s, e, s.issued + Keys(e));
      } else if e.DocumentMoves? || e.Ignore? || e.Cancel? || e.Fail? || e.Persist? {
        ChangeEventsKeepClaims(s, e);
      } else {
        RowEventsKeepClaims(s, e);
      }
    }
  }

  lemma ClaimsComeFromTheGuard(s: System, e: Event, w: Id)
    requires UploadsInv(s) && RowsInv(s.db) && IssuedInv(s) && w in Apply(s, e).claims
    ensures || (w in s.claims && Apply(s, e).claims[w] == s.claims[w])
            || (e.Claim? && e.worker == w
                && ClaimReadyAnswer(s.db, e.turn, e.owner).1 == Some(Apply(s, e).claims[w]))
  {
    if !e.Claim? {
      OnlyClaimsAddClaims(s, e);
    } else {
      assert Apply(s, e).claims == s.claims || Apply(s, e).claims == DoClaim(s, e.worker, e.turn, e.owner).claims;
    }
  }

  /** The event number `k` granted claim `c` to worker `w`. */
  ghost predicate GrantedAt(events: seq<Event>, k: nat, w: Id, c: AnswerClaim) {
    && k < |events| && events[k].Claim? && events[k].worker == w
    && ClaimReadyAnswer(Run(EMPTY, events[..k]).db, events[k].turn, events[k].owner).1 == Some(c)
  }

  lemma ReachableClaims(before: seq<Event>, e: Event, w: Id)
    requires var s := Run(EMPTY, before); w in Apply(s, e).claims
    ensures var s := Run(EMPTY, before);
            || (w in s.claims && Apply(s, e).claims[w] == s.claims[w])
            || (e.Claim? && e.worker == w
                && ClaimReadyAnswer(s.db, e.turn, e.owner).1 == Some(Apply(s, e).claims[w]))
  {
    ReachableInv(before);
    ClaimsComeFromTheGuard(Run(EMPTY, before), e, w);
  }

  lemma {:induction false} EveryClaimWasGranted(events: seq<Event>, w: Id)
    requires w in Run(EMPTY, events).claims
    ensures exists k: nat :: GrantedAt(events, k, w, Run(EMPTY, events).claims[w])
    decreases |events|
  {
    if events != [] {
      var n := |events| - 1;
      var before := events[..n];
      var s := Run(EMPTY, before);
      assert events == before + [events[n]];
      RunSnoc(EMPTY, before, events[n]);
      ReachableClaims(before, events[n], w);
      if w in s.claims && Run(EMPTY, events).claims[w] == s.claims[w] {
        EveryClaimWasGranted(before, w);
        var k: nat :| GrantedAt(before, k, w, s.claims[w]);
        assert before[..k] == events[..k];
        assert GrantedAt(events, k, w, s.claims[w]);
      } else {
        assert GrantedAt(events, n, w, Run(EMPTY, events).claims[w]);
      }
    }
  }

  /** Some usable attachment of the turn has this document. */
  ghost predicate ReadyDocument(t: Tables, turn: Id, d: Id) {
    exists b <- t.attachments :: Usable(t, turn, b) && t.attachments[b].document == Some(d)
  }

  lemma ScopeIsReady(t: Tables, turn: Id, d: Id)
    ensures d in IndexedScope(t, turn) <==> ReadyDocument(t, turn, d)
  {
    if ReadyDocument(t, turn, d) {
      var b :| b in t.attachments && Usable(t, turn, b) && t.attachments[b].document == Some(d);
      assert t.attachments[b].document.value in IndexedScope(t, turn);
    }
  }

  lemma ReachableScope(events: seq<Event>)
    ensures ScopeInv(Run(EMPTY, events))
  {
    ReachableInv(events);
  }

  /** Whatever the indexes return: each document an answer cites was the document of a usable attachment of
      the turn (uploaded, indexed, not ignored) at the moment its worker claimed, and ranks are 1, 2, ... */
  lemma CitedDocumentsWereReady(events: seq<Event>, a: Id) returns (k: nat)
    requires a in Run(EMPTY, events).answers && a in Run(EMPTY, events).db.citations
    ensures var s := Run(EMPTY, events);
            var w := s.answers[a];
            && w in s.claims && GrantedAt(events, k, w, s.claims[w])
            && forall i :: 0 <= i < |s.db.citations[a]| ==>
                 && s.db.citations[a][i].rank == i + 1
                 && ReadyDocument(Run(EMPTY, events[..k]).db, s.claims[w].turn, s.db.citations[a][i].document)
  {
    var s := Run(EMPTY, events);
    ReachableScope(events);
    var w := s.answers[a];
    EveryClaimWasGranted(events, w);
    k :| GrantedAt(events, k, w, s.claims[w]);
    var claimed := Run(EMPTY, events[..k]).db;
    CitedInScope(s, a);
    forall i | 0 <= i < |s.db.citations[a]|
      ensures s.db.citations[a][i].rank == i + 1
              && ReadyDocument(claimed, s.claims[w].turn, s.db.citations[a][i].document)
    {
      ScopeIsReady(claimed, s.claims[w].turn, s.db.citations[a][i].document);
    }
  }

  lemma CitedInScope(s: System, a: Id)
    requires ScopeInv(s) && a in s.answers && a in s.db.citations
    ensures s.answers[a] in s.claims
    ensures forall i :: 0 <= i < |s.db.citations[a]| ==>
              s.db.citations[a][i].document in s.claims[s.answers[a]].documents && s.db.citations[a][i].rank == i + 1
  {
  }

  /** A claim's scope is never empty, so retrieval for a claim never widens to the whole space. */
  lemma RetrievalStaysInScope(events: seq<Event>, w: Id, found: seq<Hit>, hydrated: set<Id>)
    requires w in Run(EMPTY, events).claims
    ensures forall h <- Retrieve(Run(EMPTY, events).claims[w].documents, found, hydrated) ::
              h.document in Run(EMPTY, events).claims[w].documents
  {
    ReachableInv(events);
  }

  // ---------- Readiness ----------

  function Views(t: Tables, rows: seq<Id>): seq<View>
    requires forall a <- rows :: a in t.attachments
  {
    seq(|rows|, i requires 0 <= i < |rows| => ToView(t, t.attachments[rows[i]]))
  }

  /** In every reachable state the SQL guard of the claim agrees with the readiness shown to the client. */
  lemma GuardIffReady(events: seq<Event>, turn: Id, rows: seq<Id>)
    requires turn in Run(EMPTY, events).db.messages
    requires forall a :: a in rows <==> a in AttachmentsOf(Run(EMPTY, events).db, turn)
    ensures var t := Run(EMPTY, events).db;
            ClaimGuard(t, turn) <==> ComputeReadiness(Views(t, rows)) == Ready
  {
    ReachableInv(events);
    GuardIffReadyIn(Run(EMPTY, events).db, turn, rows);
  }

  lemma ViewIsIndexedIffUsable(t: Tables, turn: Id, a: Id)
    requires RowsInv(t) && a in AttachmentsOf(t, turn)
    ensures Usable(t, turn, a) <==> ToView(t, t.attachments[a]).status == Indexed
    ensures !t.attachments[a].ignored ==>
              (Usable(t, turn, a) <==> t.attachments[a].upload == Uploaded && JoinsIndexed(t, t.attachments[a]))
  {
    assert AttachmentOk(t, a);
  }

  /** Every attachment of the turn that is not ignored is usable, and there is one. */
  ghost predicate AllUsable(t: Tables, turn: Id) {
    && (exists a <- AttachmentsOf(t, turn) :: Usable(t, turn, a))
    && forall a <- AttachmentsOf(t, turn) :: !t.attachments[a].ignored ==> Usable(t, turn, a)
  }

  lemma GuardIffAllUsable(t: Tables, turn: Id)
    requires RowsInv(t) && turn in t.messages
    ensures ClaimGuard(t, turn) <==> AllUsable(t, turn)
  {
    forall a <- AttachmentsOf(t, turn)
      ensures t.attachments[a].tenant == t.messages[turn].owner.tenant
      ensures !t.attachments[a].ignored ==>
                (Usable(t, turn, a) <==> t.attachments[a].upload == Uploaded && JoinsIndexed(t, t.attachments[a]))
    {
      assert AttachmentOk(t, a);
    }
    if ClaimGuard(t, turn) {
      var a :| a in t.attachments && Usable(t, turn, a);
      assert a in AttachmentsOf(t, turn);
    }
  }

  lemma ReadyIffAllUsable(t: Tables, turn: Id, rows: seq<Id>)
    requires RowsInv(t) && forall a :: a in rows <==> a in AttachmentsOf(t, turn)
    ensures ComputeReadiness(Views(t, rows)) == Ready <==> AllUsable(t, turn)
  {
    var views := Views(t, rows);
    forall i | 0 <= i < |rows|
      ensures rows[i] in AttachmentsOf(t, turn) && views[i].ignored == t.attachments[rows[i]].ignored
      ensures views[i].status == Indexed <==> Usable(t, turn, rows[i])
    {
      assert rows[i] in rows;
      ViewIsIndexedIffUsable(t, turn, rows[i]);
    }
    var active := set i | 0 <= i < |views| && !views[i].ignored && views[i].status != Ignored;
    forall a <- AttachmentsOf(t, turn) | !t.attachments[a].ignored
      ensures exists i :: i in active && rows[i] == a
    {
      assert a in rows;
      var i :| 0 <= i < |rows| && rows[i] == a;
      assert i in active;
    }
    if ComputeReadiness(views) == Ready {
      var i :| i in active;
      assert Usable(t, turn, rows[i]);
    }
  }

  lemma GuardIffReadyIn(t: Tables, turn: Id, rows: seq<Id>)
    requires RowsInv(t) && turn in t.messages
    requires forall a :: a in rows <==> a in AttachmentsOf(t, turn)
    ensures ClaimGuard(t, turn) <==> ComputeReadiness(Views(t, rows)) == Ready
  {
    GuardIffAllUsable(t, turn);
    ReadyIffAllUsable(t, turn, rows);
  }

  // ---------- Rows ----------

  lemma MessageCountIsRows(events: seq<Event>, session: Id)
    requires session in Run(EMPTY, events).db.sessions
    ensures Run(EMPTY, events).db.sessions[session].count == |RowsOf(Run(EMPTY, events).db, session)|
  {
    ReachableInv(events);
  }

  lemma OneToFiveAttachments(events: seq<Event>, turn: Id)
    requires turn in Run(EMPTY, events).db.messages && Run(EMPTY, events).db.messages[turn].status.Some?
    ensures var t := Run(EMPTY, events).db;
            && 1 <= |AttachmentsOf(t, turn)| <= 5
            && forall a <- AttachmentsOf(t, turn), b <- AttachmentsOf(t, turn) ::
                 t.attachments[a].client == t.attachments[b].client ==> a == b
  {
    ReachableInv(events);
  }

  /** Message `m` answers for the client request, or its row is gone for good. */
  ghost predicate Answers(s: System, o: Owner, request: Id, m: Id) {
    m in s.issued && (m in s.db.messages ==> RequestRow(s.db, o, request, m))
  }

  lemma AnswersStep(s: System, e: Event, o: Owner, request: Id, m: Id)
    requires IssuedInv(s) && UploadsInv(s) && RowsInv(s.db) && Answers(s, o, request, m)
    ensures Answers(Apply(s, e), o, request, m)
  {
    StatusMoves(s, e);
  }

  lemma {:induction false} AnswersForever(s: System, more: seq<Event>, o: Owner, request: Id, m: Id)
    requires Inv(s) && Answers(s, o, request, m)
    ensures Inv(Run(s, more)) && Answers(Run(s, more), o, request, m)
    decreases |more|
  {
    if more != [] {
      ApplyKeepsInv(s, more[0]);
      AnswersStep(s, more[0], o, request, m);
      AnswersForever(Apply(s, more[0]), more[1..], o, request, m);
    }
  }

  lemma RequestFound(t: Tables, o: Owner, request: Id, m: Id, session: Id, space: Id, turn: Id, ds: seq<Declared>)
    requires RequestsInv(t) && RequestRow(t, o, request, m)
    ensures forall n :: RequestRow(t, o, request, n) <==> n == m
    ensures CreateTurn(t, o, session, space, request, turn, ds)
            == if SessionOwned(t, session, o) && t.sessions[session].space == space then Ok(t) else Err(NotFound)
  {
  }

  /** A client request that is sent again, after any events that leave its message in place and whatever else
      the second call carries, changes nothing and finds that message and no other. */
  lemma RepeatedRequestIsIdempotent(s: System, more: seq<Event>, o: Owner, request: Id, m: Id,
                                    session: Id, space: Id, turn: Id, ds: seq<Declared>)
    requires Inv(s) && RequestRow(s.db, o, request, m) && m in Run(s, more).db.messages
    ensures var s' := Run(s, more);
            && DoNewTurn(s', o, session, space, request, turn, ds) == s'
            && (forall n :: RequestRow(s'.db, o, request, n) <==> n == m)
            && CreateTurn(s'.db, o, session, space, request, turn, ds)
               == (if SessionOwned(s'.db, session, o) && s'.db.sessions[session].space == space then Ok(s'.db)
                   else Err(NotFound))
  {
    ReachedRow(s, more, o, request, m);
    RequestFound(Run(s, more).db, o, request, m, session, space, turn, ds);
  }

  lemma ReachedRow(s: System, more: seq<Event>, o: Owner, request: Id, m: Id)
    requires Inv(s) && RequestRow(s.db, o, request, m) && m in Run(s, more).db.messages
    ensures RequestsInv(Run(s, more).db) && RequestRow(Run(s, more).db, o, request, m)
  {
    AnswersForever(s, more, o, request, m);
  }

  // ---------- Uploads ----------

  /** Through `upload_attachment` at most one ingest is ever started for an attachment. */
  lemma OneIngestPerAttachment(events: seq<Event>, u: Id, v: Id)
    requires var s := Run(EMPTY, events);
             At(s, u, {Started}) && At(s, v, {Started}) && s.uploads[u].attachment == s.uploads[v].attachment
    ensures u == v
  {
    var s := Run(EMPTY, events);
    ReachableInv(events);
    assert UploadOk(s, u) && UploadOk(s, v);
  }

  /** An upload that loses the race reports the document that won; it fails with a conflict only when the
      attachment itself no longer exists. */
  lemma LosersReportTheWinner(events: seq<Event>, u: Id)
    requires u in Run(EMPTY, events).uploads
    ensures var s := Run(EMPTY, events);
            var up := s.uploads[u];
            && (up.phase.Reported? && up.attachment in s.db.attachments ==>
                  s.db.attachments[up.attachment].document == Some(up.phase.document))
            && (up.phase == Started && up.attachment in s.db.attachments ==>
                  s.db.attachments[up.attachment].document == Some(up.document))
            && (up.phase == Conflict ==> up.attachment !in s.db.attachments)
  {
    var s := Run(EMPTY, events);
    ReachableInv(events);
    assert UploadOk(s, u);
  }

  lemma LinksAreFinal(s: System, e: Event)
    requires Inv(s)
    ensures forall a <- s.linked :: a in Apply(s, e).linked && Apply(s, e).linked[a] == s.linked[a]
  {
    if Keys(e) !! s.issued && KeysDistinct(e) {
      if UploadEvent(e) {
        UploadEventBeside(s, e, s.issued + Keys(e));
      } else if PlainEvent(e) {
        PlainStep(s, e);
      }
    }
  }

  /** The document of an attachment is set once: no interleaving of links and failures changes or clears it. */
  lemma {:induction false} DocumentIsSetOnce(s: System, more: seq<Event>, a: Id)
    requires Inv(s) && a in s.linked
    ensures var s' := Run(s, more);
            a in s'.db.attachments ==>
              s'.db.attachments[a].document == Some(s.linked[a]) && s'.db.attachments[a].upload == Uploaded
    decreases |more|
  {
    if more == [] {
      assert a in s.db.attachments ==> AttachmentOk(s.db, a);
    } else {
      ApplyKeepsInv(s, more[0]);
      LinksAreFinal(s, more[0]);
      DocumentIsSetOnce(Apply(s, more[0]), more[1..], a);
    }
  }
}
