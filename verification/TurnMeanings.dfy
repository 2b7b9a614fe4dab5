/** What the caller of one transaction on the turn tables may rely on afterwards, on tables that meet their
    invariant: which turns can be claimed, which answers can still be saved, which documents stay linked. */
module TurnMeanings {
  import opened Common
  import opened Turns
  import opened TurnInvariants

  /** No worker can be given the turn. */
  ghost predicate Unclaimable(t: Tables, turn: Id) {
    forall o: Owner :: ClaimReadyAnswer(t, turn, o).1.None?
  }

  /** No worker that holds a claim of the turn can save an answer for it. */
  ghost predicate Unsaveable(t: Tables, turn: Id) {
    forall session: Id, o: Owner, id: Id, cited: seq<(Id, Id)> ::
      SaveAssistant(t, Some(turn), session, o, id, cited).Err?
  }

  /** Documents that are linked stay linked to their attachments. */
  ghost predicate LinksKept(t: Tables, t': Tables) {
    forall a <- t.attachments :: t.attachments[a].document.Some? ==>
      && a in t'.attachments
      && t'.attachments[a].(ignored := t.attachments[a].ignored) == t.attachments[a]
  }

  /** Every attachment but `a` counts as before. */
  ghost predicate OthersCountAsBefore(t: Tables, t': Tables, a: Id) {
    forall turn: Id, b: Id :: b != a ==> (Usable(t', turn, b) <==> Usable(t, turn, b))
  }

  /** The turn's attachments other than `a` that are not ignored are all usable, and there is one. */
  ghost predicate OthersReady(t: Tables, turn: Id, a: Id) {
    && (exists b: Id :: b != a && Usable(t, turn, b))
    && forall b <- AttachmentsOf(t, turn) :: b != a && !t.attachments[b].ignored ==> Usable(t, turn, b)
  }

  lemma OnlyAnsweringIsSaved(t: Tables, turn: Id)
    requires turn in t.messages && t.messages[turn].status != Some(Answering)
    ensures Unsaveable(t, turn)
  {
  }

  // ---------- When each transaction applies, and which rows it writes ----------

  /** The turn waits for files and is the owner's. */
  predicate Open(t: Tables, turn: Id, o: Owner) {
    Owned(t, turn, o) && StatusIs(t, turn, {WaitingFiles})
  }

  predicate HasClient(t: Tables, turn: Id, client: Id) {
    exists a <- AttachmentsOf(t, turn) :: t.attachments[a].client == client
  }

  lemma CreateTurnRows(t: Tables, o: Owner, session: Id, space: Id, request: Id, turn: Id, ds: seq<Declared>)
    ensures var r := CreateTurn(t, o, session, space, request, turn, ds);
            var found := session in t.sessions && t.sessions[session].owner == o && t.sessions[session].space == space;
            var again := exists m <- t.messages :: RequestRow(t, o, request, m);
            && (r == Err(NotFound) <==> !found)
            && (found && again ==> r == Ok(t))
            && (found && !again ==>
                  && (r.Ok? <==>
                        && turn !in t.messages && DistinctDeclarations(ds)
                        && forall i :: 0 <= i < |ds| ==> ds[i].attachment !in t.attachments)
                  && (r.Err? ==> r.error == Integrity))
  {
    assert forall i :: 0 <= i < |ds| ==> ds[i] in ds;
  }

  lemma PlaceholderAt(o: Owner, space: Id, turn: Id, ds: seq<Declared>, i: nat)
    requires DistinctDeclarations(ds) && i < |ds|
    ensures var added := Placeholders(o, space, turn, ds);
            && ds[i].attachment in added
            && added[ds[i].attachment] == Attachment(turn, o.tenant, space, ds[i].client, None, Pending, false)
  {
  }

  lemma NewTurnTables(t: Tables, o: Owner, session: Id, space: Id, request: Id, turn: Id, ds: seq<Declared>, t': Tables)
    requires CreateTurn(t, o, session, space, request, turn, ds) == Ok(t') && !Requested(t, o, request)
    ensures session in t.sessions && DistinctDeclarations(ds)
    ensures t' == t.(sessions := t.sessions[session := t.sessions[session].(count := t.sessions[session].count + 1)],
                     messages := t.messages[turn := Message(session, o, User, Some(WaitingFiles), Some(request))],
                     attachments := t.attachments + Placeholders(o, space, turn, ds))
    ensures forall d <- ds :: d.attachment !in t.attachments
  {
  }

  /** One new turn: its message, its waiting attachments as declared, and the count of its session. */
  ghost predicate TurnAdded(t: Tables, t': Tables, o: Owner, session: Id, space: Id, request: Id, turn: Id,
                            ds: seq<Declared>)
  {
    && session in t.sessions
    && t' == t.(sessions := t.sessions[session := t.sessions[session].(count := t.sessions[session].count + 1)],
                messages := t.messages[turn := Message(session, o, User, Some(WaitingFiles), Some(request))],
                attachments := t'.attachments)
    && t'.attachments.Keys == t.attachments.Keys + (set d <- ds :: d.attachment)
    && (forall a <- t.attachments :: t'.attachments[a] == t.attachments[a])
    && forall i :: 0 <= i < |ds| ==>
         && ds[i].attachment in t'.attachments
         && t'.attachments[ds[i].attachment] == Attachment(turn, o.tenant, space, ds[i].client, None, Pending, false)
  }

  lemma AddedTurnRows(t: Tables, o: Owner, session: Id, space: Id, request: Id, turn: Id, ds: seq<Declared>, t': Tables)
    requires CreateTurn(t, o, session, space, request, turn, ds) == Ok(t') && !Requested(t, o, request)
    ensures TurnAdded(t, t', o, session, space, request, turn, ds)
  {
    NewTurnTables(t, o, session, space, request, turn, ds, t');
    PlaceholderKeys(o, space, turn, ds);
    forall i | 0 <= i < |ds| {
      PlaceholderAt(o, space, turn, ds, i);
    }
  }

  lemma AddAttachmentRows(t: Tables, turn: Id, o: Owner, id: Id, client: Id, max: int)
    ensures var r := AddAttachment(t, turn, o, id, client, max);
            var room := |AttachmentsOf(t, turn)| < max;
            && (!Open(t, turn, o) || (!HasClient(t, turn, client) && !room) ==> r == Ok((t, false)))
            && (Open(t, turn, o) && HasClient(t, turn, client) ==> r == Ok((t, true)))
            && (Open(t, turn, o) && !HasClient(t, turn, client) && room ==>
                  if id in t.attachments then r == Err(Integrity)
                  else
                    var space := t.sessions[t.messages[turn].session].space;
                    var row := Attachment(turn, o.tenant, space, client, None, Pending, false);
                    r == Ok((t.(attachments := t.attachments[id := row]), true)))
  {
  }

  lemma LinkDocumentRows(t: Tables, turn: Id, a: Id, d: Id, o: Owner)
    ensures var (t', ok) := LinkDocument(t, turn, a, d, o);
            && (ok <==>
                  && OwnedAttachment(t, turn, a, o) && d in t.documents && t.documents[d].tenant == o.tenant
                  && t.documents[d].space == t.attachments[a].space
                  && (t.attachments[a].document.None? || t.attachments[a].document == Some(d)))
            && (!ok ==> t' == t)
            && (ok ==>
                  t' == t.(attachments := t.attachments[a := t.attachments[a].(document := Some(d),
                                                                               upload := Uploaded)]))
  {
  }

  lemma MarkUploadFailedRows(t: Tables, turn: Id, a: Id, o: Owner)
    requires RowsInv(t)
    ensures var (t', ok) := MarkUploadFailed(t, turn, a, o);
            && (ok <==> OwnedAttachment(t, turn, a, o) && t.attachments[a].document.None?)
            && (!ok ==> t' == t)
            && (ok ==> t' == t.(attachments := t.attachments[a := t.attachments[a].(upload := Failed)]))
  {
    if a in t.attachments {
      assert AttachmentOk(t, a);
    }
  }

  /** The flag of every attachment of an owned turn can be set, whatever its upload and the turn have come to. */
  lemma SetIgnoredRows(t: Tables, turn: Id, a: Id, o: Owner, flag: bool)
    ensures var (t', ok) := SetIgnored(t, turn, a, o, flag);
            && (ok <==> OwnedAttachment(t, turn, a, o))
            && (!ok ==> t' == t)
            && (ok ==> t' == t.(attachments := t.attachments[a := t.attachments[a].(ignored := flag)]))
  {
  }

  /** A turn that only one attachment blocks is released by ignoring it. */
  lemma IgnoringReleases(t: Tables, turn: Id, a: Id, o: Owner)
    requires TableInv(t) && OwnedAttachment(t, turn, a, o) && OthersReady(t, turn, a)
    ensures var (t', ok) := SetIgnored(t, turn, a, o, true);
            && ok && ClaimGuard(t', turn)
            && (StatusIs(t, turn, {WaitingFiles, AnswerFailed}) ==> ClaimReadyAnswer(t', turn, o).1.Some?)
  {
    SetIgnoredRows(t, turn, a, o, true);
    var t' := SetIgnored(t, turn, a, o, true).0;
    IgnoredMeans(t, t', turn, a, o, true);
    assert AttachmentOk(t, a) && MessageOk(t, turn);
  }

  lemma StatusRows(t: Tables, turn: Id, o: Owner)
    ensures var (t', ok) := CancelTurn(t, turn, o);
            && (ok <==> Owned(t, turn, o) && t.messages[turn].status in {Some(WaitingFiles), Some(AnswerFailed)})
            && (!ok ==> t' == t)
            && (ok ==> t' == t.(messages := t.messages[turn := t.messages[turn].(status := Some(Cancelled))]))
    ensures var (t', ok) := FailAnswer(t, turn, o);
            && (ok <==> Owned(t, turn, o) && t.messages[turn].status == Some(Answering))
            && (!ok ==> t' == t)
            && (ok ==> t' == t.(messages := t.messages[turn := t.messages[turn].(status := Some(AnswerFailed))]))
  {
  }

  lemma ClaimRows(t: Tables, turn: Id, o: Owner)
    requires RowsInv(t)
    ensures var (t', claim) := ClaimReadyAnswer(t, turn, o);
            && (claim.Some? <==>
                  && Owned(t, turn, o) && ClaimGuard(t, turn)
                  && t.messages[turn].status in {Some(WaitingFiles), Some(AnswerFailed)})
            && (claim.None? ==> t' == t)
            && (claim.Some? ==>
                  && t' == t.(messages := t.messages[turn := t.messages[turn].(status := Some(Answering))])
                  && claim.value.turn == turn && claim.value.owner == o
                  && claim.value.session == t.messages[turn].session
                  && claim.value.space == t.sessions[t.messages[turn].session].space
                  && forall d :: d in claim.value.documents <==>
                       exists b <- t.attachments :: Usable(t, turn, b) && t.attachments[b].document == Some(d))
  {
    if turn in t.messages {
      assert MessageOk(t, turn);
    }
    forall d, b | b in t.attachments && Usable(t, turn, b) && t.attachments[b].document == Some(d)
      ensures d in IndexedScope(t, turn)
    {
      assert t.attachments[b].document.value in IndexedScope(t, turn);
    }
  }

  lemma SaveAssistantRows(t: Tables, source: Option<Id>, session: Id, o: Owner, id: Id, cited: seq<(Id, Id)>)
    requires RowsInv(t)
    ensures var r := SaveAssistant(t, source, session, o, id, cited);
            var mine := session in t.sessions && t.sessions[session].owner == o;
            var completes := source.None? ||
              (Owned(t, source.value, o) && t.messages[source.value].session == session
               && t.messages[source.value].status == Some(Answering));
            && (r == Err(NotFound) <==> !mine)
            && (r == Err(Integrity) <==> mine && id in t.messages)
            && (r == Err(Rejected) <==> mine && id !in t.messages && !completes)
            && (r.Ok? <==> mine && id !in t.messages && completes)
  {
    if source.Some? && source.value in t.messages {
      assert MessageOk(t, source.value);
    }
  }

  lemma SavedRows(t: Tables, source: Option<Id>, session: Id, o: Owner, id: Id, cited: seq<(Id, Id)>, t': Tables)
    requires SaveAssistant(t, source, session, o, id, cited) == Ok(t')
    ensures session in t.sessions && (source.Some? ==> source.value in t.messages && source.value != id)
    ensures var s := t.sessions[session];
            t' == t.(sessions := t.sessions[session := s.(count := s.count + 1)],
                     messages := t'.messages, citations := t'.citations)
    ensures t'.messages.Keys == t.messages.Keys + {id}
    ensures t'.messages[id] == Message(session, o, Assistant, None, None)
    ensures forall m <- t.messages ::
              t'.messages[m] == if source == Some(m) then t.messages[m].(status := Some(Completed)) else t.messages[m]
    ensures t'.citations.Keys == t.citations.Keys + if cited == [] then {} else {id}
    ensures forall m <- t.citations :: m != id ==> t'.citations[m] == t.citations[m]
    ensures cited != [] ==>
              && |t'.citations[id]| == |cited|
              && forall i :: 0 <= i < |cited| ==> t'.citations[id][i] == Citation(cited[i].0, cited[i].1, i + 1)
  {
    var t2 := AnswerRows(t, session, o, id, cited);
    assert t2.messages == t.messages[id := Message(session, o, Assistant, None, None)];
    assert t'.citations == t2.citations && t'.sessions == t2.sessions;
  }

  lemma DeletedSessionRows(t: Tables, session: Id, o: Owner)
    ensures var t' := DeleteSession(t, session, o);
            var mine := session in t.sessions && t.sessions[session].owner == o;
            && (!mine ==> t' == t)
            && (mine ==>
                  && t'.sessions == t.sessions - {session} && t'.documents == t.documents
                  && (forall m :: m in t'.messages <==> m in t.messages && t.messages[m].session != session)
                  && (forall m <- t'.messages :: t'.messages[m] == t.messages[m])
                  && (forall a :: a in t'.attachments <==>
                        && a in t.attachments
                        && !(t.attachments[a].turn in t.messages
                             && t.messages[t.attachments[a].turn].session == session))
                  && (forall a <- t'.attachments :: t'.attachments[a] == t.attachments[a])
                  && (forall m :: m in t'.citations <==>
                        m in t.citations && !(m in t.messages && t.messages[m].session == session))
                  && (forall m <- t'.citations :: t'.citations[m] == t.citations[m]))
  {
  }

  // ---------- What is possible afterwards ----------

  /** A refused attachment means a closed or a full turn; an accepted one is there, once, and asking again
      changes nothing. */
  lemma AddedMeans(t: Tables, turn: Id, o: Owner, id: Id, client: Id, max: int)
    requires AddAttachment(t, turn, o, id, client, max).Ok?
    ensures var (t', ok) := AddAttachment(t, turn, o, id, client, max).value;
            && LinksKept(t, t')
            && (ok ==> exists a <- AttachmentsOf(t', turn) :: t'.attachments[a].client == client)
            && (ok ==> forall id2: Id :: AddAttachment(t', turn, o, id2, client, max) == Ok((t', true)))
            && (!ok ==> t' == t && (!Owned(t, turn, o) || !StatusIs(t, turn, {WaitingFiles})
                                    || |AttachmentsOf(t, turn)| >= max))
  {
    var (t', ok) := AddAttachment(t, turn, o, id, client, max).value;
    if ok && t' != t {
      assert id in AttachmentsOf(t', turn) && t'.attachments[id].client == client;
    }
  }

  /** A linked attachment counts exactly when its document is indexed and it is not ignored; no document that
      was linked before is replaced. */
  lemma LinkedMeans(t: Tables, turn: Id, a: Id, d: Id, o: Owner)
    requires RowsInv(t)
    ensures var (t', ok) := LinkDocument(t, turn, a, d, o);
            && LinksKept(t, t') && OthersCountAsBefore(t, t', a)
            && (ok ==> a in t'.attachments && t'.attachments[a].document == Some(d)
                       && (Usable(t', turn, a) <==> !t'.attachments[a].ignored && t'.documents[d].status == DocIndexed))
  {
    if CanLink(t, turn, a, d, o) {
      assert AttachmentOk(t, a);
    }
  }

  /** A failed upload blocks its turn until the attachment is ignored; an attachment with a document is never
      marked. */
  lemma MarkedMeans(t: Tables, turn: Id, a: Id, o: Owner)
    requires RowsInv(t)
    ensures var (t', ok) := MarkUploadFailed(t, turn, a, o);
            && LinksKept(t, t') && OthersCountAsBefore(t, t', a)
            && (ok ==> a in t'.attachments
                       && ToView(t', t'.attachments[a]).status
                          == (if t'.attachments[a].ignored then Ignored else ViewFailed)
                       && (!t'.attachments[a].ignored ==> !ClaimGuard(t', turn) && Unclaimable(t', turn)))
  {
    if MarkUploadFailed(t, turn, a, o).1 {
      assert AttachmentOk(t, a);
    }
  }

  lemma IgnoredLeavesOthers(t: Tables, t': Tables, turn: Id, a: Id, o: Owner, flag: bool)
    requires SetIgnored(t, turn, a, o, flag) == (t', true)
    ensures LinksKept(t, t') && OthersCountAsBefore(t, t', a)
  {
  }

  lemma UnignoredCounts(t: Tables, t': Tables, turn: Id, a: Id, o: Owner)
    requires RowsInv(t') && SetIgnored(t, turn, a, o, false) == (t', true)
    ensures a in t'.attachments && (Usable(t', turn, a) <==> ToView(t', t'.attachments[a]).status == Indexed)
  {
    assert AttachmentOk(t', a);
  }

  /** An ignored attachment neither blocks a turn nor helps it: the guard is decided by the others. One that is
      no longer ignored counts by its upload and its document again. */
  lemma IgnoredMeans(t: Tables, t': Tables, turn: Id, a: Id, o: Owner, flag: bool)
    requires TableInv(t) && SetIgnored(t, turn, a, o, flag) == (t', true)
    ensures TableInv(t') && LinksKept(t, t') && OthersCountAsBefore(t, t', a)
    ensures flag ==> (ClaimGuard(t', turn) <==> OthersReady(t, turn, a))
    ensures !flag ==> a in t'.attachments && (Usable(t', turn, a) <==> ToView(t', t'.attachments[a]).status == Indexed)
  {
    IgnoreKeepsTables(t, turn, a, o, flag);
    IgnoredLeavesOthers(t, t', turn, a, o, flag);
    if flag {
      IgnoredGuard(t, t', turn, a);
    } else {
      UnignoredCounts(t, t', turn, a, o);
    }
  }

  lemma IgnoredRow(t: Tables, t': Tables, turn: Id, a: Id, b: Id)
    requires RowsInv(t) && a in t.attachments && b in AttachmentsOf(t, turn)
    requires t' == t.(attachments := t.attachments[a := t.attachments[a].(ignored := true)])
    ensures Usable(t', turn, b) <==> b != a && Usable(t, turn, b)
    ensures t.attachments[b].tenant == t.messages[turn].owner.tenant
    ensures b != a ==> (JoinsIndexed(t', t'.attachments[b]) <==> JoinsIndexed(t, t.attachments[b]))
  {
    assert AttachmentOk(t, b);
  }

  lemma IgnoredGuard(t: Tables, t': Tables, turn: Id, a: Id)
    requires RowsInv(t) && a in t.attachments && turn in t.messages
    requires t' == t.(attachments := t.attachments[a := t.attachments[a].(ignored := true)])
    ensures ClaimGuard(t', turn) <==> OthersReady(t, turn, a)
  {
    forall b <- AttachmentsOf(t, turn) {
      IgnoredRow(t, t', turn, a, b);
    }
    assert AttachmentsOf(t', turn) == AttachmentsOf(t, turn);
    assert (exists b <- t'.attachments :: Usable(t', turn, b)) <==> exists b: Id :: b != a && Usable(t, turn, b);
  }

  /** A claimed turn is given to nobody else, and the answer for the claim can be saved, or failed. */
  lemma ClaimedMeans(t: Tables, turn: Id, o: Owner)
    ensures var (t', claim) := ClaimReadyAnswer(t, turn, o);
            claim.Some? ==>
              && claim.value.documents != {} && Unclaimable(t', turn) && FailAnswer(t', turn, o).1
              && forall id: Id, cited: seq<(Id, Id)> ::
                   id !in t.messages ==> SaveAssistant(t', Some(turn), claim.value.session, o, id, cited).Ok?
  {
    var (t', claim) := ClaimReadyAnswer(t, turn, o);
    if claim.Some? {
      var a :| a in t.attachments && Usable(t, turn, a);
      assert t.attachments[a].document.value in IndexedScope(t, turn);
      forall id, cited | id !in t.messages
        ensures SaveAssistant(t', Some(turn), claim.value.session, o, id, cited).Ok?
      {
        AnsweringIsSaved(t', turn, o, id, cited);
      }
    }
  }

  lemma AnsweringIsSaved(t: Tables, turn: Id, o: Owner, id: Id, cited: seq<(Id, Id)>)
    requires Owned(t, turn, o) && t.messages[turn].role == User && StatusIs(t, turn, {Answering}) && id !in t.messages
    ensures SaveAssistant(t, Some(turn), t.messages[turn].session, o, id, cited).Ok?
  {
  }

  /** A cancelled turn is given to nobody, and no answer is saved for it. */
  lemma CancelledMeans(t: Tables, turn: Id, o: Owner)
    requires CancelTurn(t, turn, o).1
    ensures Unclaimable(CancelTurn(t, turn, o).0, turn) && Unsaveable(CancelTurn(t, turn, o).0, turn)
  {
    OnlyAnsweringIsSaved(CancelTurn(t, turn, o).0, turn);
  }

  /** Once a turn failed, a stale worker cannot save its answer, and the turn can be claimed again exactly when
      its attachments are ready, with the scope they give now. */
  lemma FailedMeans(t: Tables, turn: Id, o: Owner)
    requires RowsInv(t) && FailAnswer(t, turn, o).1
    ensures var t' := FailAnswer(t, turn, o).0;
            && Unsaveable(t', turn)
            && (ClaimReadyAnswer(t', turn, o).1.Some? <==> ClaimGuard(t, turn))
            && (ClaimGuard(t, turn) ==> ClaimReadyAnswer(t', turn, o).1.value.documents == IndexedScope(t, turn))
  {
    var t' := FailAnswer(t, turn, o).0;
    OnlyAnsweringIsSaved(t', turn);
    assert MessageOk(t, turn);
    assert forall a :: Usable(t', turn, a) <==> Usable(t, turn, a);
  }

  lemma SavedRow(t: Tables, turn: Id, session: Id, o: Owner, id: Id, cited: seq<(Id, Id)>)
    requires SaveAssistant(t, Some(turn), session, o, id, cited).Ok?
    ensures var t' := SaveAssistant(t, Some(turn), session, o, id, cited).value;
            && RowsOf(t', session) == RowsOf(t, session) + {id} && id !in RowsOf(t, session)
            && turn in t'.messages && t'.messages[turn].status == Some(Completed)
  {
    RowsAfterAddRow(t, id, Message(session, o, Assistant, None, None), session);
  }

  /** An answered turn is given to nobody and takes no second answer; the session has one message more. */
  lemma SavedMeans(t: Tables, turn: Id, session: Id, o: Owner, id: Id, cited: seq<(Id, Id)>)
    requires SaveAssistant(t, Some(turn), session, o, id, cited).Ok?
    ensures var t' := SaveAssistant(t, Some(turn), session, o, id, cited).value;
            && Unclaimable(t', turn) && Unsaveable(t', turn)
            && RowsOf(t', session) == RowsOf(t, session) + {id} && id !in RowsOf(t, session)
  {
    SavedRow(t, turn, session, o, id, cited);
    OnlyAnsweringIsSaved(SaveAssistant(t, Some(turn), session, o, id, cited).value, turn);
  }

  lemma GuardFrame(t: Tables, t': Tables, turn: Id)
    requires t'.attachments == t.attachments && t'.documents == t.documents
    requires turn in t.messages && turn in t'.messages && t'.messages[turn].owner == t.messages[turn].owner
    ensures ClaimGuard(t', turn) <==> ClaimGuard(t, turn)
  {
    assert forall a <- t.attachments :: Usable(t', turn, a) <==> Usable(t, turn, a);
    assert forall a <- t.attachments :: JoinsIndexed(t', t.attachments[a]) <==> JoinsIndexed(t, t.attachments[a]);
  }

  /** A plain message is one row more in its session and leaves every turn and its guard as they were. */
  lemma SaidMeans(t: Tables, session: Id, o: Owner, role: MessageRole, id: Id)
    requires AddMessage(t, session, o, role, id).Ok?
    ensures var t' := AddMessage(t, session, o, role, id).value;
            && (forall s: Id :: RowsOf(t', s) == RowsOf(t, s) + if s == session then {id} else {})
            && (forall turn <- t.messages ::
                  t'.messages[turn] == t.messages[turn] && (ClaimGuard(t', turn) <==> ClaimGuard(t, turn)))
  {
    var t' := AddMessage(t, session, o, role, id).value;
    forall s ensures RowsOf(t', s) == RowsOf(t, s) + if s == session then {id} else {} {
      RowsAfterAddRow(t, id, Message(session, o, role, None, None), s);
    }
    forall turn <- t.messages ensures ClaimGuard(t', turn) <==> ClaimGuard(t, turn) {
      GuardFrame(t, t', turn);
    }
  }

  // ---------- What the client is shown ----------

  /** The four values of the readiness, from the views that are not ignored. */
  lemma ReadinessIff(views: seq<View>)
    ensures var r := ComputeReadiness(views);
            var live := set i | 0 <= i < |views| && !views[i].ignored && views[i].status != Ignored;
            && (r == Empty <==> live == {})
            && (r == Blocked <==> exists i <- live :: views[i].status == ViewFailed)
            && (r == Ready <==> live != {} && forall i <- live :: views[i].status == Indexed)
            && (r == NotYet <==>
                  && (forall i <- live :: views[i].status != ViewFailed)
                  && exists i <- live :: views[i].status != Indexed)
  {
    var live := set i | 0 <= i < |views| && !views[i].ignored && views[i].status != Ignored;
    assert live == set i | 0 <= i < |views| && !views[i].ignored && views[i].status != Ignored;
    if live != {} {
      var i :| i in live;
      assert views[i].status == ViewFailed || views[i].status == Indexed || views[i].status !in {ViewFailed, Indexed};
    }
  }

  /** What each status of an attachment means: in intact rows an uploaded one has its document. */
  lemma ViewIff(t: Tables, a: Id)
    requires RowsInv(t) && a in t.attachments
    ensures var row := t.attachments[a];
            var view := ToView(t, row);
            && view.ignored == row.ignored && (view.status == Ignored <==> row.ignored)
            && (view.status == PendingUpload <==> !row.ignored && row.upload == Pending)
            && (row.upload == Uploaded ==> row.document.Some? && row.document.value in t.documents)
            && (view.status == ViewFailed <==>
                  !row.ignored && (row.upload == Failed
                                   || (row.upload == Uploaded && t.documents[row.document.value].status == DocFailed)))
            && (view.status == Indexed <==>
                  !row.ignored && row.upload == Uploaded && t.documents[row.document.value].status == DocIndexed)
            && (view.status == Ingesting <==>
                  !row.ignored && row.upload == Uploaded
                  && t.documents[row.document.value].status !in {DocIndexed, DocFailed})
  {
    assert AttachmentOk(t, a);
  }
}
