/** What the steps of the protocol achieve: a ready turn can be answered, a failed one answered again, a blocked
    one released, and an upload ends as its caller is told. */
module TurnProgress {
  import opened Common
  import opened Turns
  import opened TurnInvariants
  import opened TurnMeanings
  import opened Retrieval
  import opened TurnProtocol
  import opened TurnSteps
  import opened TurnTheorems

  // ---------- Answers ----------

  ghost predicate Claimable(s: System, turn: Id, o: Owner) {
    && Owned(s.db, turn, o) && ClaimGuard(s.db, turn)
    && s.db.messages[turn].status in {Some(WaitingFiles), Some(AnswerFailed)}
  }

  /** A claim succeeds exactly when the turn is ready and waits or failed; the worker is handed the documents of
      its usable attachments. */
  lemma ClaimStep(s: System, w: Id, turn: Id, o: Owner)
    requires RowsInv(s.db) && w !in s.issued && w !in s.claims
    ensures var s' := Apply(s, Claim(w, turn, o));
            && (w in s'.claims <==> Claimable(s, turn, o))
            && (w !in s'.claims ==> s' == s.(issued := s.issued + {w}))
            && (w in s'.claims ==>
                  && s' == s.(issued := s.issued + {w}, claims := s.claims[w := s'.claims[w]], db := s'.db)
                  && s'.db == s.db.(messages := s.db.messages[turn := s.db.messages[turn].(status := Some(Answering))])
                  && s'.claims[w].turn == turn && s'.claims[w].owner == o
                  && s'.claims[w].session == s.db.messages[turn].session
                  && forall d :: d in s'.claims[w].documents <==> ReadyDocument(s.db, turn, d))
  {
    ClaimRows(s.db, turn, o);
    assert Keys(Claim(w, turn, o)) == {w};
    if Claimable(s, turn, o) {
      forall d ensures d in ClaimReadyAnswer(s.db, turn, o).1.value.documents <==> ReadyDocument(s.db, turn, d) {
      }
    }
  }

  /** What an answer of claim `c` cites of `found`: the hits of hydrated chunks inside the scope, in the order in
      which they were found, with ranks 1, 2, ... */
  ghost predicate Cites(db: Tables, id: Id, c: AnswerClaim, found: seq<Hit>, hydrated: set<Id>, at: seq<nat>) {
    && Increasing(at)
    && (forall k: nat :: k < |found| ==> (k in at <==> found[k].document in c.documents && found[k].chunk in hydrated))
    && (id in db.citations <==> at != [])
    && (at != [] ==>
          && |db.citations[id]| == |at|
          && forall i :: 0 <= i < |at| ==>
               at[i] < |found| && db.citations[id][i] == Citation(found[at[i]].document, found[at[i]].chunk, i + 1))
  }

  lemma CitedHits(c: AnswerClaim, found: seq<Hit>, hydrated: set<Id>) returns (at: seq<nat>)
    requires c.documents != {}
    ensures Increasing(at) && |at| == |Cited(c, found, hydrated)|
    ensures forall i :: 0 <= i < |at| ==>
              at[i] < |found| && Cited(c, found, hydrated)[i] == (found[at[i]].document, found[at[i]].chunk)
    ensures forall k: nat :: k < |found| ==>
              (k in at <==> found[k].document in c.documents && found[k].chunk in hydrated)
  {
    at := RetrieveKeepsOrder(c.documents, found, hydrated);
    CitationsFollowHits(c.documents, found, hydrated);
  }

  /** A worker whose turn is being answered completes it: the answer is saved with its citations in the order of
      the hits. */
  lemma PersistStep(s: System, w: Id, id: Id, found: seq<Hit>, hydrated: set<Id>) returns (at: seq<nat>)
    requires RowsInv(s.db) && w in s.claims && s.claims[w].documents != {} && CanComplete(s, w)
    requires id !in s.issued && id !in s.db.messages && id !in s.db.citations && id !in s.answers
    ensures Persisted(s, Apply(s, Persist(w, id, found, hydrated)), w, id)
    ensures Cites(Apply(s, Persist(w, id, found, hydrated)).db, id, s.claims[w], found, hydrated, at)
  {
    var c := s.claims[w];
    at := CitedHits(c, found, hydrated);
    var cited := Cited(c, found, hydrated);
    SaveAssistantRows(s.db, Some(c.turn), c.session, c.owner, id, cited);
    var t' := SaveAssistant(s.db, Some(c.turn), c.session, c.owner, id, cited).value;
    SavedRows(s.db, Some(c.turn), c.session, c.owner, id, cited, t');
    PersistedShape(s, w, id, found, hydrated, t');
    RankedCites(t', id, c, found, hydrated, cited, at);
  }

  /** One answer more, and its turn completed; all citations there were remain. */
  ghost predicate Persisted(s: System, s': System, w: Id, id: Id)
    requires w in s.claims
  {
    var c := s.claims[w];
    && s'.answers == s.answers[id := w] && s'.claims == s.claims && c.turn in s.db.messages
    && s'.db.messages == s.db.messages[id := Message(c.session, c.owner, Assistant, None, None)]
                                      [c.turn := s.db.messages[c.turn].(status := Some(Completed))]
    && forall m <- s.db.citations :: m in s'.db.citations && s'.db.citations[m] == s.db.citations[m]
  }

  lemma PersistedShape(s: System, w: Id, id: Id, found: seq<Hit>, hydrated: set<Id>, t': Tables)
    requires w in s.claims && id !in s.issued && id !in s.db.messages && id !in s.db.citations
    requires var c := s.claims[w];
             && SaveAssistant(s.db, Some(c.turn), c.session, c.owner, id, Cited(c, found, hydrated)) == Ok(t')
    ensures Persisted(s, Apply(s, Persist(w, id, found, hydrated)), w, id)
    ensures Apply(s, Persist(w, id, found, hydrated)).db == t'
  {
    assert Keys(Persist(w, id, found, hydrated)) == {id};
    assert Apply(s, Persist(w, id, found, hydrated))
           == DoPersist(s, w, id, found, hydrated).(issued := s.issued + {id});
    PersistShape(s.db, s.claims[w].turn, s.claims[w].session, s.claims[w].owner, id,
                 Cited(s.claims[w], found, hydrated));
  }

  lemma RankedCites(db: Tables, id: Id, c: AnswerClaim, found: seq<Hit>, hydrated: set<Id>, cited: seq<(Id, Id)>,
                    at: seq<nat>)
    requires Increasing(at) && |at| == |cited| && (id in db.citations <==> cited != [])
    requires forall i :: 0 <= i < |at| ==>
               at[i] < |found| && cited[i] == (found[at[i]].document, found[at[i]].chunk)
    requires forall k: nat :: k < |found| ==>
               (k in at <==> found[k].document in c.documents && found[k].chunk in hydrated)
    requires cited != [] ==>
               && |db.citations[id]| == |cited|
               && forall i :: 0 <= i < |cited| ==> db.citations[id][i] == Citation(cited[i].0, cited[i].1, i + 1)
    ensures Cites(db, id, c, found, hydrated, at)
  {
  }

  lemma FailStep(s: System, w: Id)
    requires w in s.claims
    ensures var c := s.claims[w];
            Apply(s, Fail(w))
            == if Owned(s.db, c.turn, c.owner) && s.db.messages[c.turn].status == Some(Answering) then
                 var row := s.db.messages[c.turn].(status := Some(AnswerFailed));
                 s.(db := s.db.(messages := s.db.messages[c.turn := row]))
               else s
  {
    StatusRows(s.db, s.claims[w].turn, s.claims[w].owner);
    assert Keys(Fail(w)) == {} && s.issued + {} == s.issued;
  }

  lemma CancelStep(s: System, turn: Id, o: Owner)
    ensures Apply(s, Cancel(turn, o))
            == if Owned(s.db, turn, o) && s.db.messages[turn].status in {Some(WaitingFiles), Some(AnswerFailed)} then
                 s.(db := s.db.(messages := s.db.messages[turn := s.db.messages[turn].(status := Some(Cancelled))]))
               else s
  {
    StatusRows(s.db, turn, o);
    assert Keys(Cancel(turn, o)) == {} && s.issued + {} == s.issued;
  }

  lemma IgnoreStep(s: System, turn: Id, a: Id, o: Owner, flag: bool)
    ensures Apply(s, Ignore(turn, a, o, flag))
            == if OwnedAttachment(s.db, turn, a, o) then
                 s.(db := s.db.(attachments := s.db.attachments[a := s.db.attachments[a].(ignored := flag)]))
               else s
  {
    SetIgnoredRows(s.db, turn, a, o, flag);
    assert Keys(Ignore(turn, a, o, flag)) == {} && s.issued + {} == s.issued;
  }

  /** A ready turn that waits is answered by one claim and one save. */
  lemma ReadyTurnIsAnswered(s: System, turn: Id, o: Owner, w: Id, id: Id, found: seq<Hit>, hydrated: set<Id>)
    returns (at: seq<nat>)
    requires Inv(s) && Claimable(s, turn, o) && w !in s.issued && id !in s.issued && w != id
    ensures AnsweredBy(s, turn, o, w, id, found, hydrated, at)
  {
    NewKeys(s, w);
    NewKeys(s, id);
    at := ClaimAndPersist(s, turn, o, w, id, found, hydrated);
  }

  /** The claim hands out the ready documents, and the save completes the turn with its citations. */
  ghost predicate AnsweredBy(s: System, turn: Id, o: Owner, w: Id, id: Id, found: seq<Hit>, hydrated: set<Id>,
                             at: seq<nat>)
  {
    var s1 := Apply(s, Claim(w, turn, o));
    var s2 := Apply(s1, Persist(w, id, found, hydrated));
    && w in s1.claims && s1.claims[w].turn == turn && Persisted(s1, s2, w, id)
    && Cites(s2.db, id, s1.claims[w], found, hydrated, at)
    && forall d :: d in s1.claims[w].documents <==> ReadyDocument(s.db, turn, d)
  }

  lemma ClaimAndPersist(s: System, turn: Id, o: Owner, w: Id, id: Id, found: seq<Hit>, hydrated: set<Id>)
    returns (at: seq<nat>)
    requires RowsInv(s.db) && Claimable(s, turn, o) && w !in s.issued && w !in s.claims && w != id
    requires id !in s.issued && id !in s.db.messages && id !in s.db.citations && id !in s.answers
    ensures AnsweredBy(s, turn, o, w, id, found, hydrated, at)
  {
    ClaimStep(s, w, turn, o);
    ClaimedCanComplete(s, turn, o, w);
    at := PersistStep(Apply(s, Claim(w, turn, o)), w, id, found, hydrated);
  }

  lemma ClaimedCanComplete(s: System, turn: Id, o: Owner, w: Id)
    requires RowsInv(s.db) && Claimable(s, turn, o) && w !in s.issued && w !in s.claims
    ensures var s1 := Apply(s, Claim(w, turn, o));
            && RowsInv(s1.db) && w in s1.claims && s1.claims[w].documents != {} && CanComplete(s1, w)
            && s1.db.messages.Keys == s.db.messages.Keys && s1.db.citations == s.db.citations && s1.answers == s.answers
  {
    ClaimStep(s, w, turn, o);
    ClaimedScope(s.db, turn);
    ClaimedRows(s, Apply(s, Claim(w, turn, o)), turn);
  }

  lemma NewKeys(s: System, k: Id)
    requires Inv(s) && k !in s.issued
    ensures RowsInv(s.db) && k !in s.claims && k !in s.db.messages && k !in s.db.citations && k !in s.answers
  {
  }

  lemma ClaimedScope(t: Tables, turn: Id)
    requires ClaimGuard(t, turn)
    ensures exists d :: ReadyDocument(t, turn, d)
  {
    var a :| a in t.attachments && Usable(t, turn, a);
    assert ReadyDocument(t, turn, t.attachments[a].document.value);
  }

  lemma ClaimedRows(s: System, s1: System, turn: Id)
    requires RowsInv(s.db) && turn in s.db.messages && s.db.messages[turn].status.Some?
    requires s1.db == s.db.(messages := s.db.messages[turn := s.db.messages[turn].(status := Some(Answering))])
    ensures RowsInv(s1.db) && s1.db.messages[turn].role == User
  {
    assert MessageOk(s.db, turn);
    SameRowsKeepRows(s.db, s1.db);
  }

  /** An answer that failed is answered anew: the next worker gets the turn while its attachments are ready. */
  lemma FailedTurnIsReclaimed(s: System, w: Id, w2: Id)
    requires Inv(s) && w in s.claims && CanComplete(s, w) && ClaimGuard(s.db, s.claims[w].turn) && w2 !in s.issued
    ensures var c := s.claims[w];
            var s2 := Apply(Apply(s, Fail(w)), Claim(w2, c.turn, c.owner));
            w2 in s2.claims && s2.claims[w2].turn == c.turn && StatusIs(s2.db, c.turn, {Answering})
  {
    var c := s.claims[w];
    var s1 := Apply(s, Fail(w));
    NewKeys(s, w2);
    FailStep(s, w);
    FailedRows(s, w);
    ClaimStep(s1, w2, c.turn, c.owner);
  }

  lemma FailedRows(s: System, w: Id)
    requires RowsInv(s.db) && w in s.claims && CanComplete(s, w) && ClaimGuard(s.db, s.claims[w].turn)
    ensures var c := s.claims[w];
            var s1 := Apply(s, Fail(w));
            RowsInv(s1.db) && Claimable(s1, c.turn, c.owner) && s1.claims == s.claims && s1.issued == s.issued
  {
    var c := s.claims[w];
    var s1 := Apply(s, Fail(w));
    FailStep(s, w);
    SameRowsKeepRows(s.db, s1.db);
    GuardFrame(s.db, s1.db, c.turn);
  }

  /** Ignoring the one attachment that blocks a turn releases it. */
  lemma IgnoringReleasesTurn(s: System, turn: Id, a: Id, o: Owner, w: Id)
    requires Inv(s) && OwnedAttachment(s.db, turn, a, o) && OthersReady(s.db, turn, a) && w !in s.issued
    requires s.db.messages[turn].status in {Some(WaitingFiles), Some(AnswerFailed)}
    ensures w in Apply(Apply(s, Ignore(turn, a, o, true)), Claim(w, turn, o)).claims
  {
    var s1 := Apply(s, Ignore(turn, a, o, true));
    NewKeys(s, w);
    IgnoredRows(s, turn, a, o);
    ClaimStep(s1, w, turn, o);
  }

  lemma IgnoredTables(t: Tables, t': Tables, turn: Id, a: Id, o: Owner)
    requires TableInv(t) && OwnedAttachment(t, turn, a, o) && OthersReady(t, turn, a)
    requires t' == t.(attachments := t.attachments[a := t.attachments[a].(ignored := true)])
    ensures RowsInv(t') && ClaimGuard(t', turn)
  {
    SetIgnoredRows(t, turn, a, o, true);
    IgnoringReleases(t, turn, a, o);
    IgnoreKeepsTables(t, turn, a, o, true);
    assert SetIgnored(t, turn, a, o, true) == (t', true);
  }

  lemma IgnoredRows(s: System, turn: Id, a: Id, o: Owner)
    requires TableInv(s.db) && OwnedAttachment(s.db, turn, a, o) && OthersReady(s.db, turn, a)
    requires s.db.messages[turn].status in {Some(WaitingFiles), Some(AnswerFailed)}
    ensures var s1 := Apply(s, Ignore(turn, a, o, true));
            RowsInv(s1.db) && Claimable(s1, turn, o) && s1.claims == s.claims && s1.issued == s.issued
  {
    IgnoreStep(s, turn, a, o, true);
    IgnoredTables(s.db, Apply(s, Ignore(turn, a, o, true)).db, turn, a, o);
  }

  // ---------- Uploads ----------

  /** The attachment waits for its file. */
  predicate Waits(t: Tables, turn: Id, a: Id, o: Owner) {
    OwnedAttachment(t, turn, a, o) && t.attachments[a].document.None? && StatusIs(t, turn, {WaitingFiles})
  }

  /** What a call finds when it starts decides whether it goes on. */
  lemma StartStep(s: System, u: Id, turn: Id, a: Id, o: Owner, d: Id)
    requires RowsInv(s.db) && {u, d} !! s.issued && u != d && u !in s.uploads
    ensures var s' := Apply(s, StartUpload(u, turn, a, o, d));
            && s'.db == s.db && s'.linked == s.linked
            && (u in s'.uploads <==> OwnedAttachment(s.db, turn, a, o))
            && (OwnedAttachment(s.db, turn, a, o) ==>
                  s'.uploads[u] == Upload(turn, a, o, s.db.attachments[a].space, d,
                                          if s.db.attachments[a].document.Some?
                                              then Reported(s.db.attachments[a].document.value)
                                          else if StatusIs(s.db, turn, {WaitingFiles}) then Prepared
                                          else Refused))
  {
    if OwnedAttachment(s.db, turn, a, o) {
      assert AttachmentOk(s.db, a) && MessageOk(s.db, turn);
    }
    assert Keys(StartUpload(u, turn, a, o, d)) == {u, d};
    var e := StartUpload(u, turn, a, o, d);
    assert Apply(s, e) == DoStart(s, u, turn, a, o, d).(issued := s.issued + {u, d});
  }

  lemma RegisterStep(s: System, u: Id)
    requires At(s, u, {Prepared}) && s.uploads[u].document !in s.db.documents
    ensures var up := s.uploads[u];
            Apply(s, RegisterDocument(u))
            == s.(db := s.db.(documents := s.db.documents[up.document := Document(up.owner.tenant, up.space,
                                                                                  DocPending)]),
                  uploads := s.uploads[u := up.(phase := Registered)])
  {
    var e := RegisterDocument(u);
    assert Keys(e) == {} && s.issued + {} == s.issued;
    assert Apply(s, e) == DoRegister(s, u).(issued := s.issued + {});
  }

  /** The link succeeds for the first document and for it again; otherwise the call has lost. */
  lemma LinkStep(s: System, u: Id)
    requires At(s, u, {Registered})
    ensures var up := s.uploads[u];
            var s' := Apply(s, LinkUpload(u));
            if CanLink(s.db, up.turn, up.attachment, up.document, up.owner) then
              var row := s.db.attachments[up.attachment].(document := Some(up.document), upload := Uploaded);
              && s'.db == s.db.(attachments := s.db.attachments[up.attachment := row])
              && s'.uploads == s.uploads[u := up.(phase := Linked)]
              && s'.linked == s.linked[up.attachment := up.document]
            else s'.db == s.db && s'.uploads == s.uploads[u := up.(phase := Lost)] && s'.linked == s.linked
  {
    var e := LinkUpload(u);
    assert Keys(e) == {};
    assert Apply(s, e) == DoLink(s, u, Linked).(issued := s.issued + {});
  }

  lemma FinishSteps(s: System, u: Id)
    ensures At(s, u, {Linked}) ==>
              Apply(s, StartIngest(u)) == s.(uploads := s.uploads[u := s.uploads[u].(phase := Started)])
    ensures At(s, u, {Lost}) ==>
              var up := s.uploads[u];
              var found := OwnedAttachment(s.db, up.turn, up.attachment, up.owner)
                           && s.db.attachments[up.attachment].document.Some?;
              Apply(s, Report(u))
              == s.(uploads := s.uploads[u := up.(phase := if found
                                                  then Reported(s.db.attachments[up.attachment].document.value)
                                                             else Conflict)])
  {
    assert s.issued + {} == s.issued && Keys(StartIngest(u)) == {} && Keys(Report(u)) == {};
    assert Apply(s, StartIngest(u)) == DoIngest(s, u).(issued := s.issued + {});
    assert Apply(s, Report(u)) == DoReport(s, u).(issued := s.issued + {});
  }

  /** A call whose link was committed while its caller saw an exception leaves the link as it is. */
  lemma LinkThenBreakStep(s: System, u: Id)
    requires RowsInv(s.db) && At(s, u, {Registered})
    ensures var up := s.uploads[u];
            var s' := Apply(s, LinkThenBreak(u));
            && s'.uploads == s.uploads[u := up.(phase := Broken)]
            && if CanLink(s.db, up.turn, up.attachment, up.document, up.owner) then
                 var row := s.db.attachments[up.attachment].(document := Some(up.document), upload := Uploaded);
                 s'.db == s.db.(attachments := s.db.attachments[up.attachment := row])
               else if OwnedAttachment(s.db, up.turn, up.attachment, up.owner)
                       && s.db.attachments[up.attachment].document.None? then
                 var row := s.db.attachments[up.attachment].(upload := Failed);
                 s'.db == s.db.(attachments := s.db.attachments[up.attachment := row])
               else s'.db == s.db
  {
    var up := s.uploads[u];
    var e := LinkThenBreak(u);
    assert Keys(e) == {};
    assert Apply(s, e) == DoLinkThenBreak(s, u).(issued := s.issued + {});
    if up.attachment in s.db.attachments {
      assert AttachmentOk(s.db, up.attachment);
    }
  }

  /** A call that breaks before its link marks the attachment as failed unless another call has linked it. */
  lemma BreakStep(s: System, u: Id)
    requires RowsInv(s.db) && At(s, u, {Prepared, Registered, Lost})
    ensures var up := s.uploads[u];
            var s' := Apply(s, Break(u));
            && s'.uploads == s.uploads[u := up.(phase := Broken)]
            && if OwnedAttachment(s.db, up.turn, up.attachment, up.owner)
                  && s.db.attachments[up.attachment].document.None?
               then s'.db == s.db.(attachments := s.db.attachments[up.attachment :=
                                                     s.db.attachments[up.attachment].(upload := Failed)])
               else s'.db == s.db
  {
    var up := s.uploads[u];
    MarkUploadFailedRows(s.db, up.turn, up.attachment, up.owner);
    var e := Break(u);
    assert Keys(e) == {};
    assert Apply(s, e) == DoBreak(s, u).(issued := s.issued + {});
  }

  ghost predicate UploadedBy(s: System, u: Id, turn: Id, a: Id, o: Owner, d: Id)
    requires a in s.db.attachments
  {
    var s1 := Apply(s, StartUpload(u, turn, a, o, d));
    var s4 := Apply(Apply(Apply(s1, RegisterDocument(u)), LinkUpload(u)), StartIngest(u));
    && At(s4, u, {Started}) && s4.uploads[u].document == d
    && s4.db == s.db.(documents := s.db.documents[d := Document(o.tenant, s.db.attachments[a].space, DocPending)],
                      attachments := s.db.attachments[a :=
                                       s.db.attachments[a].(document := Some(d), upload := Uploaded)])
  }

  /** An upload that nothing comes in between links a new document of the attachment's space and starts one
      ingest. */
  lemma UploadSucceeds(s: System, u: Id, turn: Id, a: Id, o: Owner, d: Id)
    requires Inv(s) && Waits(s.db, turn, a, o) && {u, d} !! s.issued && u != d
    ensures UploadedBy(s, u, turn, a, o, d)
  {
    FreshUpload(s, u, d);
    UploadRuns(s, u, turn, a, o, d);
  }

  lemma UploadRuns(s: System, u: Id, turn: Id, a: Id, o: Owner, d: Id)
    requires RowsInv(s.db) && Waits(s.db, turn, a, o) && {u, d} !! s.issued && u != d
    requires u !in s.uploads && d !in s.db.documents
    ensures UploadedBy(s, u, turn, a, o, d)
  {
    StartStep(s, u, turn, a, o, d);
    var s1 := Apply(s, StartUpload(u, turn, a, o, d));
    RegisterStep(s1, u);
    var s2 := Apply(s1, RegisterDocument(u));
    LinkStep(s2, u);
    FinishSteps(Apply(s2, LinkUpload(u)), u);
  }

  lemma FreshUpload(s: System, u: Id, d: Id)
    requires Inv(s) && {u, d} !! s.issued
    ensures RowsInv(s.db) && u !in s.uploads && d !in s.db.documents
  {
    assert u !in s.issued && d !in s.issued;
  }

  // ---------- Rows ----------

  /** A client request creates its turn once, with attachments that wait. */
  lemma NewTurnStep(s: System, o: Owner, session: Id, space: Id, request: Id, turn: Id, ds: seq<Declared>)
    requires Keys(NewTurn(o, session, space, request, turn, ds)) !! s.issued
    requires KeysDistinct(NewTurn(o, session, space, request, turn, ds)) && IssuedInv(s)
    ensures var db := Apply(s, NewTurn(o, session, space, request, turn, ds)).db;
            if SessionOwned(s.db, session, o) && s.db.sessions[session].space == space && !Requested(s.db, o, request)
               && DistinctDeclarations(ds) && 1 <= |ds| <= MAX_ATTACHMENTS
            then TurnAdded(s.db, db, o, session, space, request, turn, ds)
            else db == s.db
  {
    var e := NewTurn(o, session, space, request, turn, ds);
    assert turn in Keys(e) && forall d <- ds :: d.attachment in Keys(e);
    assert forall i :: 0 <= i < |ds| ==> ds[i] in ds;
    CreateTurnRows(s.db, o, session, space, request, turn, ds);
    var r := CreateTurn(s.db, o, session, space, request, turn, ds);
    if r.Ok? && !Requested(s.db, o, request) {
      AddedTurnRows(s.db, o, session, space, request, turn, ds, r.value);
    }
    assert Apply(s, e).db == DoNewTurn(s, o, session, space, request, turn, ds).db;
  }

  lemma RowSteps(s: System, session: Id, o: Owner, role: MessageRole, id: Id, cited: seq<(Id, Id)>)
    requires id !in s.issued && id !in s.db.messages
    ensures var db := Apply(s, Say(session, o, role, id)).db;
            if SessionOwned(s.db, session, o) then
              db == AddRow(s.db, id, Message(session, o, role, None, None))
            else db == s.db
    ensures var db := Apply(s, PlainAnswer(session, o, id, cited)).db;
            if SessionOwned(s.db, session, o) then
              && db.messages == s.db.messages[id := Message(session, o, Assistant, None, None)]
              && db.sessions == AddRow(s.db, id, Message(session, o, Assistant, None, None)).sessions
              && (cited != [] ==>
                    && id in db.citations && |db.citations[id]| == |cited|
                    && forall i :: 0 <= i < |cited| ==> db.citations[id][i] == Citation(cited[i].0, cited[i].1, i + 1))
            else db == s.db
  {
    assert Keys(Say(session, o, role, id)) == {id} && Keys(PlainAnswer(session, o, id, cited)) == {id};
    assert Apply(s, Say(session, o, role, id)).db == DoSay(s, session, o, role, id).db;
    assert Apply(s, PlainAnswer(session, o, id, cited)).db == DoPlainAnswer(s, session, o, id, cited).db;
  }

  /** A document that becomes indexed makes its attachment usable. */
  lemma IndexedBecomesUsable(s: System, turn: Id, a: Id, d: Id)
    requires RowsInv(s.db) && a in s.db.attachments && s.db.attachments[a].turn == turn
    requires s.db.attachments[a].document == Some(d) && !s.db.attachments[a].ignored
    ensures Usable(Apply(s, DocumentMoves(d, DocIndexed)).db, turn, a)
  {
    assert AttachmentOk(s.db, a);
    assert Keys(DocumentMoves(d, DocIndexed)) == {};
    assert Apply(s, DocumentMoves(d, DocIndexed)).db == SetDocumentStatus(s.db, d, DocIndexed);
  }

  lemma SessionSteps(s: System, session: Id, o: Owner, space: Id)
    ensures session !in s.issued && session !in s.db.sessions ==>
              Apply(s, OpenSession(session, o, space)).db
                  == s.db.(sessions := s.db.sessions[session := Session(o, space, 0)])
    ensures var db := Apply(s, DropSession(session, o)).db;
            if SessionOwned(s.db, session, o) then
              && session !in db.sessions && (forall m <- db.messages :: db.messages[m].session != session)
              && forall m <- s.db.messages :: s.db.messages[m].session != session ==>
                   m in db.messages && db.messages[m] == s.db.messages[m]
            else db == s.db
  {
    DeletedSessionRows(s.db, session, o);
    assert Keys(OpenSession(session, o, space)) == {session} && Keys(DropSession(session, o)) == {};
    assert Apply(s, DropSession(session, o)).db == DeleteSession(s.db, session, o);
  }

  lemma NewAttachmentStep(s: System, turn: Id, o: Owner, a: Id, client: Id)
    requires a !in s.issued && a !in s.db.attachments
    ensures var db := Apply(s, NewAttachment(turn, o, a, client)).db;
            if Open(s.db, turn, o) && !HasClient(s.db, turn, client)
                && |AttachmentsOf(s.db, turn)| < MAX_ATTACHMENTS then
              var space := s.db.sessions[s.db.messages[turn].session].space;
              var row := Attachment(turn, o.tenant, space, client, None, Pending, false);
              db == s.db.(attachments := s.db.attachments[a := row])
            else db == s.db
  {
    AddAttachmentRows(s.db, turn, o, a, client, MAX_ATTACHMENTS);
    assert Keys(NewAttachment(turn, o, a, client)) == {a};
    assert Apply(s, NewAttachment(turn, o, a, client)).db == DoNewAttachment(s, turn, o, a, client).db;
  }

  // ---------- Where the citations of an answer come from ----------

  ghost predicate SameCitations(t: Tables, t': Tables, a: Id) {
    (a in t'.citations <==> a in t.citations) && (a in t.citations ==> t'.citations[a] == t.citations[a])
  }

  lemma DropKeepsAnswer(s: System, id: Id, o: Owner, a: Id)
    requires a in s.answers && a in s.db.messages && a in DoDrop(s, id, o).answers
    ensures var s' := DoDrop(s, id, o);
            s'.answers[a] == s.answers[a] && s'.claims == s.claims && SameCitations(s.db, s'.db, a)
  {
    DeletedSessionRows(s.db, id, o);
  }

  lemma PersistKeepsAnswer(s: System, w: Id, id: Id, found: seq<Hit>, hydrated: set<Id>, a: Id)
    requires a in s.answers && a != id
    ensures var s' := DoPersist(s, w, id, found, hydrated);
            a in s'.answers && s'.answers[a] == s.answers[a] && s'.claims == s.claims && SameCitations(s.db, s'.db, a)
  {
    if DoPersist(s, w, id, found, hydrated) != s {
      var c := s.claims[w];
      PersistShape(s.db, c.turn, c.session, c.owner, id, Cited(c, found, hydrated));
    }
  }

  /** The claim behind an answer and the answer's citations never change. */
  lemma AnswerStays(s: System, e: Event, a: Id)
    requires Inv(s) && a in s.answers && a in Apply(s, e).answers
    ensures var s' := Apply(s, e);
            && s'.answers[a] == s.answers[a] && s.answers[a] in s.claims && s.answers[a] in s'.claims
            && s'.claims[s.answers[a]] == s.claims[s.answers[a]] && SameCitations(s.db, s'.db, a)
  {
    assert AnswerOk(s, a) && a in s.issued;
    if Keys(e) !! s.issued && KeysDistinct(e) {
      if e.Persist? {
        assert e.id in Keys(e);
        PersistKeepsAnswer(s, e.worker, e.id, e.found, e.hydrated, a);
      } else if e.DropSession? {
        DropKeepsAnswer(s, e.id, e.owner, a);
      } else {
        OtherStepKeepsAnswer(s, e, a);
      }
    }
  }

  lemma OtherStepKeepsAnswer(s: System, e: Event, a: Id)
    requires Inv(s) && a in s.answers && Keys(e) !! s.issued && !e.Persist? && !e.DropSession?
    ensures var s' := Effect(s, e);
            && a in s'.answers && s'.answers[a] == s.answers[a] && s.answers[a] in s.claims && s.answers[a] in s'.claims
            && s'.claims[s.answers[a]] == s.claims[s.answers[a]] && SameCitations(s.db, s'.db, a)
  {
    assert AnswerOk(s, a) && a in s.issued;
    if UploadEvent(e) {
      UploadEventBeside(s, e, s.issued + Keys(e));
    } else {
      PlainStep(s, e);
    }
  }

  lemma OthersAddNoAnswer(s: System, e: Event)
    requires Inv(s) && !e.Persist?
    ensures Apply(s, e).answers.Keys <= s.answers.Keys
  {
    if Keys(e) !! s.issued && KeysDistinct(e) && !e.DropSession? {
      if UploadEvent(e) {
        UploadEventBeside(s, e, s.issued + Keys(e));
      } else {
        PlainStep(s, e);
      }
    }
  }

  lemma PersistAnswers(s: System, w: Id, id: Id, found: seq<Hit>, hydrated: set<Id>, a: Id)
    requires Inv(s) && a !in s.answers && a in Apply(s, Persist(w, id, found, hydrated)).answers
    ensures id == a && w in s.claims && a !in s.issued && CanComplete(s, w)
  {
    assert Keys(Persist(w, id, found, hydrated)) == {id};
    assert DoPersist(s, w, id, found, hydrated) != s;
    CompletionIffCanComplete(s, w, id, found, hydrated);
  }

  lemma OnlyPersistAnswers(s: System, e: Event, a: Id)
    requires Inv(s) && a !in s.answers && a in Apply(s, e).answers
    ensures e.Persist? && e.id == a && e.worker in s.claims && a !in s.issued && CanComplete(s, e.worker)
  {
    if e.Persist? {
      PersistAnswers(s, e.worker, e.id, e.found, e.hydrated, a);
    } else {
      OthersAddNoAnswer(s, e);
    }
  }

  /** Event `k` saved answer `a` for worker `w`, and what the search had found then is what `a` cites in `db`. */
  ghost predicate SavedAt(events: seq<Event>, k: nat, db: Tables, a: Id, w: Id, c: AnswerClaim) {
    && k < |events| && events[k].Persist? && events[k].worker == w && events[k].id == a
    && exists at: seq<nat> :: Cites(db, a, c, events[k].found, events[k].hydrated, at)
  }

  lemma CitesFrame(db: Tables, db': Tables, a: Id, c: AnswerClaim, found: seq<Hit>, hydrated: set<Id>, at: seq<nat>)
    requires Cites(db, a, c, found, hydrated, at) && SameCitations(db, db', a)
    ensures Cites(db', a, c, found, hydrated, at)
  {
  }

  lemma SavedStep(before: seq<Event>, e: Event, a: Id) returns (at: seq<nat>)
    requires var s := Run(EMPTY, before); a !in s.answers && a in Apply(s, e).answers
    ensures var s := Run(EMPTY, before);
            && e.Persist? && e.id == a && e.worker in s.claims && Apply(s, e).answers[a] == e.worker
            && e.worker in Apply(s, e).claims && Apply(s, e).claims[e.worker] == s.claims[e.worker]
            && Cites(Apply(s, e).db, a, s.claims[e.worker], e.found, e.hydrated, at)
  {
    var s := Run(EMPTY, before);
    ReachableInv(before);
    OnlyPersistAnswers(s, e, a);
    NewKeys(s, a);
    ClaimsHaveScope(s, e.worker);
    at := PersistStep(s, e.worker, e.id, e.found, e.hydrated);
  }

  lemma ClaimsHaveScope(s: System, w: Id)
    requires Inv(s) && w in s.claims
    ensures s.claims[w].documents != {}
  {
  }

  lemma StaysStep(before: seq<Event>, e: Event, a: Id)
    requires var s := Run(EMPTY, before); a in s.answers && a in Apply(s, e).answers
    ensures var s := Run(EMPTY, before);
            var s' := Apply(s, e);
            && s'.answers[a] == s.answers[a] && s.answers[a] in s.claims && s.answers[a] in s'.claims
            && s'.claims[s.answers[a]] == s.claims[s.answers[a]] && SameCitations(s.db, s'.db, a)
  {
    ReachableInv(before);
    AnswerStays(Run(EMPTY, before), e, a);
  }

  /** In every reachable state the citations of an answer are, rank by rank, the hits that its search had found
      within the scope of its claim: none left out, none added, none moved. */
  lemma {:induction false} CitationsFollowTheSearch(events: seq<Event>, a: Id)
    requires a in Run(EMPTY, events).answers
    ensures var s := Run(EMPTY, events);
            s.answers[a] in s.claims && exists k: nat ::
                SavedAt(events, k, s.db, a, s.answers[a], s.claims[s.answers[a]])
    decreases |events|
  {
    if events != [] {
      var n := |events| - 1;
      var before, e := events[..n], events[n];
      var s := Run(EMPTY, before);
      assert events == before + [e];
      RunSnoc(EMPTY, before, e);
      var s' := Run(EMPTY, events);
      if a in s.answers {
        CitationsFollowTheSearch(before, a);
        StaysStep(before, e, a);
        var c := s.claims[s.answers[a]];
        var k: nat :| SavedAt(before, k, s.db, a, s.answers[a], c);
        var at: seq<nat> :| Cites(s.db, a, c, before[k].found, before[k].hydrated, at);
        CitesFrame(s.db, s'.db, a, c, before[k].found, before[k].hydrated, at);
        assert SavedAt(events, k, s'.db, a, s'.answers[a], c);
      } else {
        var at := SavedStep(before, e, a);
        assert SavedAt(events, n, s'.db, a, e.worker, s.claims[e.worker]);
      }
    }
  }
}
