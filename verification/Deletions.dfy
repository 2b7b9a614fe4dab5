/** When a deletion is final, when it can be repeated, and when it leaves something behind. An ingestion is running
    in the wide sense of `Ingest`: until it is over it may cut and write again. */
module Deletions {
  import opened Common
  import opened Documents

  // ---------- Owners are documents ----------

  /** Whatever refers to a document refers to one that exists, and chunk rows obey their unique key. */
  ghost predicate OwnersExist(s: Store) {
    && (forall c <- s.minted :: Exists(s.docs, s.minted[c].owner))
    && (forall i <- s.ingests :: Exists(s.docs, s.ingests[i].owner))
    && (forall c <- s.cleanups :: Exists(s.docs, s.cleanups[c].owner))
    && OneRowPerIndex(s.rows)
  }

  lemma WritesKeepOwners(s: Store, e: Event)
    requires OwnersExist(s) && !CleanupEvent(e)
    ensures OwnersExist(Apply(s, e))
  {
  }

  lemma ClearKeepsOwners(s: Store, c: Id)
    requires OwnersExist(s)
    ensures OwnersExist(DoClear(s, c))
  {
  }

  lemma ConcludeKeepsOwners(s: Store, c: Id, i: Id)
    requires OwnersExist(s)
    ensures OwnersExist(DoConclude(s, c, i))
  {
  }

  lemma BeginKeepsOwners(s: Store, c: Id, retry: bool, o: Owner)
    requires OwnersExist(s)
    ensures OwnersExist(DoBegin(s, c, retry, o))
  {
  }

  lemma CheckKeepsOwners(s: Store, c: Id)
    requires OwnersExist(s)
    ensures OwnersExist(DoCheck(s, c))
  {
  }

  lemma ClaimKeepsOwners(s: Store, c: Id)
    requires OwnersExist(s)
    ensures OwnersExist(DoClaim(s, c))
  {
  }

  lemma AbortKeepsOwners(s: Store, c: Id)
    requires OwnersExist(s)
    ensures OwnersExist(DoAbort(s, c))
  {
  }

  lemma CleanupsKeepOwners(s: Store, e: Event)
    requires OwnersExist(s) && CleanupEvent(e)
    ensures OwnersExist(Apply(s, e))
  {
    match e
    case Begin(c, retry, o) => BeginKeepsOwners(s, c, retry, o);
    case Check(c) => CheckKeepsOwners(s, c);
    case Claim(c) => ClaimKeepsOwners(s, c);
    case Clear(c) => ClearKeepsOwners(s, c);
    case Conclude(c, i) => ConcludeKeepsOwners(s, c, i);
    case Abort(c) => AbortKeepsOwners(s, c);
  }

  lemma {:induction false} RunKeepsOwners(s: Store, events: seq<Event>)
    requires OwnersExist(s)
    ensures OwnersExist(Run(s, events))
    decreases |events|
  {
    if events != [] {
      if CleanupEvent(events[0]) { CleanupsKeepOwners(s, events[0]); } else { WritesKeepOwners(s, events[0]); }
      RunKeepsOwners(Apply(s, events[0]), events[1..]);
    }
  }

  // ---------- Disturbance ----------

  /** An ingestion of the document may still write. */
  ghost predicate Attempted(s: Store, o: Owner) {
    exists i <- s.ingests :: s.ingests[i].owner == o && !s.ingests[i].over
  }

  predicate Holding(p: Phase) {
    p in {Claimed, NoVectors, NoKeywords, NoRows}
  }

  /** A retry has taken over the document and not yet concluded. */
  ghost predicate Held(s: Store, o: Owner) {
    exists c <- s.cleanups :: s.cleanups[c].owner == o && s.cleanups[c].retry && Holding(s.cleanups[c].phase)
  }

  ghost predicate Disturbed(s: Store, o: Owner) {
    Attempted(s, o) || Held(s, o)
  }

  /** The document is being deleted or deleted, no ingestion of it is running, and no retry holds it. */
  ghost predicate Undisturbed(s: Store, o: Owner) {
    Exists(s.docs, o) && s.docs[o.document].status in {Deleting, Deleted} && !Disturbed(s, o)
  }

  lemma IngestsStayQuiet(s: Store, e: Event, o: Owner)
    requires Undisturbed(s, o) && !CleanupEvent(e)
    ensures Undisturbed(Apply(s, e), o)
  {
    assert Apply(s, e).cleanups == s.cleanups;
  }

  lemma ClaimStaysQuiet(s: Store, c: Id, o: Owner)
    requires Undisturbed(s, o)
    ensures Undisturbed(DoClaim(s, c), o)
  {
    assert DoClaim(s, c).ingests == s.ingests;
  }

  lemma ConcludeStaysQuiet(s: Store, c: Id, i: Id, o: Owner)
    requires Undisturbed(s, o)
    ensures Undisturbed(DoConclude(s, c, i), o)
  {
  }

  lemma ClearStaysQuiet(s: Store, c: Id, o: Owner)
    requires Undisturbed(s, o)
    ensures Undisturbed(DoClear(s, c), o)
  {
    assert DoClear(s, c).docs == s.docs && DoClear(s, c).ingests == s.ingests;
  }

  lemma OtherStatus(docs: map<Id, Document>, x: Owner, o: Owner, st: Status)
    requires Exists(docs, o) && x != o
    ensures Exists(UpdateStatus(docs, x, st), o) && UpdateStatus(docs, x, st)[o.document] == docs[o.document]
  {
  }

  lemma AbortKeepsStatus(s: Store, c: Id, o: Owner)
    requires Undisturbed(s, o)
    ensures var docs := DoAbort(s, c).docs; Exists(docs, o) && docs[o.document] == s.docs[o.document]
  {
    if c in s.cleanups {
      var x := s.cleanups[c];
      if x.owner != o {
        OtherStatus(s.docs, x.owner, o, Failed);
      } else if x.retry {
        assert x.phase !in {Claimed, NoVectors, NoKeywords, NoRows} by {
          assert !Holding(x.phase);
        }
        assert x.phase.Authorized? || x.phase.Checked? || x.phase.Finished? || x.phase.Aborted?;
      }
    }
  }

  lemma AbortStaysQuiet(s: Store, c: Id, o: Owner)
    requires Undisturbed(s, o)
    ensures Undisturbed(DoAbort(s, c), o)
  {
    AbortKeepsStatus(s, c, o);
    assert DoAbort(s, c).ingests == s.ingests;
  }

  lemma BeginStaysQuiet(s: Store, c: Id, retry: bool, x: Owner, o: Owner)
    requires Undisturbed(s, o)
    ensures Undisturbed(DoBegin(s, c, retry, x), o)
  {
    assert DoBegin(s, c, retry, x).docs == s.docs && DoBegin(s, c, retry, x).ingests == s.ingests;
  }

  lemma CheckStaysQuiet(s: Store, c: Id, o: Owner)
    requires Undisturbed(s, o)
    ensures Undisturbed(DoCheck(s, c), o)
  {
    assert DoCheck(s, c).docs == s.docs && DoCheck(s, c).ingests == s.ingests;
  }

  lemma StaysQuiet(s: Store, e: Event, o: Owner)
    requires Undisturbed(s, o)
    ensures Undisturbed(Apply(s, e), o)
  {
    match e
    case Claim(c) => ClaimStaysQuiet(s, c, o);
    case Conclude(c, i) => ConcludeStaysQuiet(s, c, i, o);
    case Clear(c) => ClearStaysQuiet(s, c, o);
    case Abort(c) => AbortStaysQuiet(s, c, o);
    case Begin(c, retry, x) => BeginStaysQuiet(s, c, retry, x, o);
    case Check(c) => CheckStaysQuiet(s, c, o);
    case _ => IngestsStayQuiet(s, e, o);
  }

  lemma {:induction false} QuietForever(s: Store, more: seq<Event>, o: Owner)
    requires Undisturbed(s, o)
    ensures Undisturbed(Run(s, more), o)
    decreases |more|
  {
    if more != [] {
      StaysQuiet(s, more[0], o);
      QuietForever(Apply(s, more[0]), more[1..], o);
    }
  }

  // ---------- Deletions that nothing disturbs ----------

  ghost predicate NoEntries(es: set<Entry>, o: Owner) {
    forall e <- es :: e.owner != o
  }

  ghost predicate NoChunkRows(s: Store, o: Owner) {
    forall c <- s.rows :: s.rows[c].owner != o
  }

  /** What a finished deletion is meant to leave: nothing but a document that is deleted. */
  ghost predicate Clean(s: Store, o: Owner) {
    && NoEntries(s.vectors, o) && NoEntries(s.keywords, o) && NoChunkRows(s, o)
    && Tombstone(s, o.document) && s.docs[o.document].status in {Deleting, Deleted}
  }

  /** How far deletion `c` has come. */
  ghost predicate Progress(s: Store, c: Id, o: Owner) {
    && c in s.cleanups && s.cleanups[c].owner == o && !s.cleanups[c].retry
    && (s.cleanups[c].phase in {NoVectors, NoKeywords, NoRows, Finished} ==> NoEntries(s.vectors, o))
    && (s.cleanups[c].phase in {NoKeywords, NoRows, Finished} ==> NoEntries(s.keywords, o))
    && (s.cleanups[c].phase in {NoRows, Finished} ==> NoChunkRows(s, o))
    && (s.cleanups[c].phase == Finished ==> Tombstone(s, o.document))
  }

  lemma ProgressByIngests(s: Store, e: Event, c: Id, o: Owner)
    requires Undisturbed(s, o) && Progress(s, c, o) && !CleanupEvent(e)
    ensures Progress(Apply(s, e), c, o)
  {
    TombstoneStepIf(s, e, o.document);
  }

  lemma ProgressByOwnClear(s: Store, c: Id, o: Owner)
    requires Progress(s, c, o)
    ensures Progress(DoClear(s, c), c, o)
  {
  }

  lemma ProgressByClear(s: Store, x: Id, c: Id, o: Owner)
    requires Progress(s, c, o)
    ensures Progress(DoClear(s, x), c, o)
  {
    if x == c {
      ProgressByOwnClear(s, c, o);
    }
  }

  lemma ProgressByClaim(s: Store, x: Id, c: Id, o: Owner)
    requires Undisturbed(s, o) && Progress(s, c, o)
    ensures Progress(DoClaim(s, x), c, o)
  {
    TombstoneStepIf(s, Claim(x), o.document);
  }

  lemma ProgressByAbort(s: Store, x: Id, c: Id, o: Owner)
    requires Undisturbed(s, o) && Progress(s, c, o)
    ensures Progress(DoAbort(s, x), c, o)
  {
    TombstoneStepIf(s, Abort(x), o.document);
  }

  lemma ProgressByConclude(s: Store, x: Id, i: Id, c: Id, o: Owner)
    requires Undisturbed(s, o) && Progress(s, c, o)
    ensures Progress(DoConclude(s, x, i), c, o)
  {
    TombstoneStepIf(s, Conclude(x, i), o.document);
  }

  lemma ProgressByBegin(s: Store, x: Id, retry: bool, y: Owner, c: Id, o: Owner)
    requires Progress(s, c, o)
    ensures Progress(DoBegin(s, x, retry, y), c, o)
  {
  }

  lemma ProgressByCheck(s: Store, x: Id, c: Id, o: Owner)
    requires Progress(s, c, o)
    ensures Progress(DoCheck(s, x), c, o)
  {
  }

  lemma ProgressStep(s: Store, e: Event, c: Id, o: Owner)
    requires Undisturbed(s, o) && Progress(s, c, o)
    ensures Progress(Apply(s, e), c, o)
  {
    match e
    case Claim(x) => ProgressByClaim(s, x, c, o);
    case Conclude(x, i) => ProgressByConclude(s, x, i, c, o);
    case Clear(x) => ProgressByClear(s, x, c, o);
    case Abort(x) => ProgressByAbort(s, x, c, o);
    case Begin(x, retry, y) => ProgressByBegin(s, x, retry, y, c, o);
    case Check(x) => ProgressByCheck(s, x, c, o);
    case _ => ProgressByIngests(s, e, c, o);
  }

  lemma TombstoneStepIf(s: Store, e: Event, d: Id)
    ensures Tombstone(s, d) ==> Tombstone(Apply(s, e), d)
  {
    if Tombstone(s, d) {
      TombstoneStep(s, e, d);
    }
  }

  lemma {:induction false} ProgressForever(s: Store, more: seq<Event>, c: Id, o: Owner)
    requires Undisturbed(s, o) && Progress(s, c, o)
    ensures Undisturbed(Run(s, more), o) && Progress(Run(s, more), c, o)
    decreases |more|
  {
    if more != [] {
      StaysQuiet(s, more[0], o);
      ProgressStep(s, more[0], c, o);
      ProgressForever(Apply(s, more[0]), more[1..], c, o);
    }
  }

  /** A deletion that marked the document while no ingestion was running and no retry held it hides the document
      at once, and when it ends it leaves no row and no entry behind, for good. */
  lemma QuietDeleteIsComplete(s: Store, more: seq<Event>, c: Id, o: Owner, space: Id)
    requires Undisturbed(s, o) && c in s.cleanups && s.cleanups[c] == Cleanup(o, false, Claimed)
    ensures var s' := Run(s, more); !Live(s'.docs, o, space) && (InPhase(s', c, Finished) ==> Clean(s', o))
  {
    ProgressForever(s, more, c, o);
  }

  // ---------- Deletions that are disturbed ----------

  lemma {:induction false} NewKey(used: set<Id>) returns (k: Id)
    ensures forall x <- used :: x < k
    decreases |used|
  {
    k := 0;
    if used != {} {
      var x :| x in used;
      var l := NewKey(used - {x});
      k := if l > x then l else x + 1;
      assert used == (used - {x}) + {x};
    }
  }

  lemma CutOne(s: Store, i: Id, o: Owner, k: Id)
    requires i in s.ingests && s.ingests[i].owner == o && !s.ingests[i].over && k !in s.minted
    ensures var s' := DoCut(s, i, map[k := 0]);
            && s' == s.(minted := s'.minted, ingests := s'.ingests)
            && CanWrite(s', i, {k}) && s'.ingests[i].owner == o && s'.minted[k] == Row(o, 0)
  {
  }

  lemma ClearThree(s: Store, c: Id, o: Owner)
    requires c in s.cleanups && s.cleanups[c] == Cleanup(o, false, Claimed)
    ensures var s' := DoClear(DoClear(DoClear(s, c), c), c);
            && s' == s.(rows := RowsWithout(s.rows, o), vectors := s'.vectors, keywords := s'.keywords,
                        cleanups := s.cleanups[c := Cleanup(o, false, NoRows)])
  {
  }

  lemma SaveOne(s: Store, i: Id, o: Owner, k: Id)
    requires CanWrite(s, i, {k}) && s.ingests[i].owner == o && k !in s.rows && OneRowPerIndex(s.rows)
    requires s.minted[k] == Row(o, 0) && forall x <- s.rows :: s.rows[x].owner.document != o.document
    ensures DoSaveRows(s, i, {k}) == s.(rows := s.rows[k := Row(o, 0)])
  {
    assert Upsert(s.rows, Batch(s, i, {k})) == s.rows[k := Row(o, 0)];
  }

  /** The late writes of a run, after the deletion has finished. */
  lemma WriteLate(s: Store, i: Id, o: Owner, k: Id) returns (late: seq<Event>)
    requires CanWrite(s, i, {k}) && s.ingests[i].owner == o && k !in s.rows && OneRowPerIndex(s.rows)
             && Exists(s.docs, o)
    requires s.minted[k] == Row(o, 0) && forall x <- s.rows :: s.rows[x].owner.document != o.document
    ensures var s' := Run(s, late);
            && k in s'.rows && s'.rows[k].owner == o && Entry(k, o) in s'.vectors && s'.cleanups == s.cleanups
            && Exists(s'.docs, o) && s'.docs[o.document].status == Indexed
  {
    SaveOne(s, i, o, k);
    var s1 := DoSaveRows(s, i, {k});
    var s2 := DoWriteVectors(s1, i, {k});
    assert Entry(k, o) in Entries({k}, o);
    late := [SaveRows(i, {k})] + [WriteVectors(i, {k})] + [SetIndexed(i)];
    RunSnoc(s, [SaveRows(i, {k})] + [WriteVectors(i, {k})], SetIndexed(i));
    RunSnoc(s, [SaveRows(i, {k})], WriteVectors(i, {k}));
    assert Run(s, [SaveRows(i, {k})]) == s1;
  }

  lemma FinishSteps(s: Store, c: Id, i: Id, o: Owner) returns (events: seq<Event>)
    requires Exists(s.docs, o) && c in s.cleanups && s.cleanups[c] == Cleanup(o, false, Claimed)
    ensures var s' := Run(s, events);
            && InPhase(s', c, Finished) && Tombstone(s', o.document) && Exists(s'.docs, o)
            && s'.rows == RowsWithout(s.rows, o) && s'.minted == s.minted && s'.ingests == s.ingests
            && s'.cleanups == s.cleanups[c := Cleanup(o, false, Finished)]
  {
    ClearThree(s, c, o);
    events := [Clear(c), Clear(c), Clear(c)] + [Conclude(c, i)];
    RunSnoc(s, [Clear(c), Clear(c), Clear(c)], Conclude(c, i));
    RunThree(s, Clear(c));
  }

  lemma RunThree(s: Store, e: Event)
    ensures Run(s, [e, e, e]) == Apply(Apply(Apply(s, e), e), e)
  {
    assert [e, e, e] == [e] + [e] + [e];
    RunSnoc(s, [e] + [e], e);
    RunSnoc(s, [e], e);
  }

  lemma FinishWhileRunning(s: Store, c: Id, i: Id, o: Owner, k: Id) returns (more: seq<Event>)
    requires Exists(s.docs, o) && c in s.cleanups && s.cleanups[c] == Cleanup(o, false, Claimed)
    requires i in s.ingests && s.ingests[i].owner == o && !s.ingests[i].over && k !in s.minted
    ensures var s' := Run(s, more);
            && InPhase(s', c, Finished) && Tombstone(s', o.document) && s'.rows == RowsWithout(s.rows, o)
            && CanWrite(s', i, {k}) && s'.ingests[i].owner == o && s'.minted[k] == Row(o, 0) && Exists(s'.docs, o)
  {
    CutOne(s, i, o, k);
    var s1 := DoCut(s, i, map[k := 0]);
    assert Run(s, [Cut(i, map[k := 0])]) == s1;
    var events := FinishSteps(s1, c, i, o);
    RunAppend(s, [Cut(i, map[k := 0])], events);
    more := [Cut(i, map[k := 0])] + events;
  }

  /** An ingestion that is running when a deletion has marked the document can leave a row, an entry and the
      status 'indexed' behind a deletion that finished. */
  lemma LateWritesSurvive(s: Store, c: Id, i: Id, o: Owner) returns (finish: seq<Event>, late: seq<Event>, k: Id)
    requires OwnersExist(s) && Consistent(s) && Exists(s.docs, o)
    requires c in s.cleanups && s.cleanups[c] == Cleanup(o, false, Claimed)
    requires i in s.ingests && s.ingests[i].owner == o && !s.ingests[i].over
    ensures Tombstone(Run(s, finish), o.document) && InPhase(Run(s, finish), c, Finished)
    ensures var s' := Run(Run(s, finish), late);
            && InPhase(s', c, Finished) && k in s'.rows && s'.rows[k].owner == o && Entry(k, o) in s'.vectors
            && Exists(s'.docs, o) && s'.docs[o.document].status == Indexed
  {
    k := NewKey(s.minted.Keys);
    finish := FinishWhileRunning(s, c, i, o, k);
    RunKeepsOwners(s, finish);
    forall x <- RowsWithout(s.rows, o) ensures s.rows[x].owner.document != o.document {
      assert Exists(s.docs, s.minted[x].owner);
    }
    late := WriteLate(Run(s, finish), i, o, k);
  }

  /** A retry that holds the document can start a run and change nothing else that a deletion looks at. */
  lemma {:induction false} HeldStartsRun(s: Store, x: Id, c: Id, o: Owner) returns (more: seq<Event>, i: Id)
    requires x in s.cleanups && s.cleanups[x].owner == o && s.cleanups[x].retry && Holding(s.cleanups[x].phase)
    requires c in s.cleanups && c != x
    ensures var s' := Run(s, more);
            && s'.docs == s.docs && c in s'.cleanups && s'.cleanups[c] == s.cleanups[c]
            && i in s'.ingests && s'.ingests[i].owner == o && !s'.ingests[i].over
    decreases match s.cleanups[x].phase case Claimed => 3 case NoVectors => 2 case NoKeywords => 1 case _ => 0
  {
    if s.cleanups[x].phase == NoRows {
      i := NewKey(s.ingests.Keys);
      more := [Conclude(x, i)];
      assert Run(s, more) == DoConclude(s, x, i);
    } else {
      var s1 := DoClear(s, x);
      var rest;
      rest, i := HeldStartsRun(s1, x, c, o);
      more := [Clear(x)] + rest;
      RunAppend(s, [Clear(x)], rest);
      assert Run(s, [Clear(x)]) == s1;
    }
  }

  lemma DisturbedLeavesMore(s: Store, c: Id, o: Owner) returns (more: seq<Event>)
    requires OwnersExist(s) && Consistent(s) && Exists(s.docs, o) && Disturbed(s, o)
    requires c in s.cleanups && s.cleanups[c] == Cleanup(o, false, Claimed)
    ensures InPhase(Run(s, more), c, Finished) && !Clean(Run(s, more), o)
  {
    var start: seq<Event>, i: Id := [], 0;
    if Attempted(s, o) {
      i :| i in s.ingests && s.ingests[i].owner == o && !s.ingests[i].over;
    } else {
      var x :| x in s.cleanups && s.cleanups[x].owner == o && s.cleanups[x].retry && Holding(s.cleanups[x].phase);
      start, i := HeldStartsRun(s, x, c, o);
    }
    var s1 := Run(s, start);
    RunKeepsOwners(s, start);
    RunKeepsConsistent(s, start);
    var finish, late, k := LateWritesSurvive(s1, c, i, o);
    RunAppend(s1, finish, late);
    RunAppend(s, start, finish + late);
    more := start + (finish + late);
  }

  /** When a deletion has marked the document, every way of finishing it leaves no row, no entry and the status
      'deleted' exactly when no ingestion of the document is running and no retry holds it. */
  lemma DeletionIsCleanIff(before: seq<Event>, c: Id, o: Owner)
    requires var s := Run(NOTHING, before);
             Exists(s.docs, o) && s.docs[o.document].status == Deleting
             && c in s.cleanups && s.cleanups[c] == Cleanup(o, false, Claimed)
    ensures var s := Run(NOTHING, before);
            (forall more: seq<Event> :: InPhase(Run(s, more), c, Finished) ==> Clean(Run(s, more), o))
            <==> !Disturbed(s, o)
  {
    var s := Run(NOTHING, before);
    RunKeepsOwners(NOTHING, before);
    RunKeepsConsistent(NOTHING, before);
    if Disturbed(s, o) {
      var more := DisturbedLeavesMore(s, c, o);
      assert InPhase(Run(s, more), c, Finished) && !Clean(Run(s, more), o);
    } else {
      forall more: seq<Event> | InPhase(Run(s, more), c, Finished) ensures Clean(Run(s, more), o) {
        QuietDeleteIsComplete(s, more, c, o, 0);
      }
    }
  }

  lemma CreatedRun(o: Owner, space: Id, i: Id, ended: bool) returns (events: seq<Event>)
    ensures Run(NOTHING, events)
            == NOTHING.(docs := map[o.document := Document(o.tenant, space, Pending, false, 0, 0)],
                        ingests := map[i := Ingest(o, {}, ended)])
  {
    var s := DoCreate(NOTHING, o.document, o.tenant, space, i);
    var create := Create(o.document, o.tenant, space, i);
    assert s.docs == map[o.document := Document(o.tenant, space, Pending, false, 0, 0)];
    assert s.ingests == map[i := Ingest(o, {}, false)];
    assert Run(NOTHING, [create]) == s;
    if ended {
      assert DoEnd(s, i).ingests == map[i := Ingest(o, {}, true)];
      RunSnoc(NOTHING, [create], End(i));
      events := [create] + [End(i)];
    } else {
      events := [create];
    }
  }

  lemma AcceptedRun(s: Store, c: Id, o: Owner)
    requires Visible(s.docs, o) && c !in s.cleanups
    ensures Run(s, [Begin(c, false, o)] + [Check(c)]) == s.(cleanups := s.cleanups[c := Cleanup(o, false, Checked)])
  {
    var s1 := DoBegin(s, c, false, o);
    RunSnoc(s, [Begin(c, false, o)], Check(c));
    assert Run(s, [Begin(c, false, o)]) == s1;
    assert DoCheck(s1, c).cleanups == s.cleanups[c := Cleanup(o, false, Checked)];
  }

  lemma ClaimOne(s: Store, c: Id, o: Owner)
    requires c in s.cleanups && s.cleanups[c] == Cleanup(o, false, Checked)
    ensures Apply(s, Claim(c)) == s.(docs := UpdateStatus(s.docs, o, Deleting),
                                     cleanups := s.cleanups[c := Cleanup(o, false, Claimed)])
  {
  }

  lemma MarkSteps(s: Store, c: Id, o: Owner) returns (events: seq<Event>)
    requires Visible(s.docs, o) && c !in s.cleanups
    ensures Run(s, events) == s.(docs := UpdateStatus(s.docs, o, Deleting),
                                 cleanups := s.cleanups[c := Cleanup(o, false, Claimed)])
  {
    var accept := [Begin(c, false, o)] + [Check(c)];
    AcceptedRun(s, c, o);
    var s1 := Run(s, accept);
    ClaimOne(s1, c, o);
    assert s1.cleanups[c := Cleanup(o, false, Claimed)] == s.cleanups[c := Cleanup(o, false, Claimed)];
    RunSnoc(s, accept, Claim(c));
    events := accept + [Claim(c)];
  }

  lemma MarkedRun(o: Owner, space: Id, i: Id, c: Id, ended: bool) returns (events: seq<Event>)
    ensures var s := Run(NOTHING, events);
            && Exists(s.docs, o) && s.docs[o.document].status == Deleting && !s.docs[o.document].deletedAt
            && s.ingests == map[i := Ingest(o, {}, ended)] && s.cleanups == map[c := Cleanup(o, false, Claimed)]
  {
    var create := CreatedRun(o, space, i, ended);
    var mark := MarkSteps(Run(NOTHING, create), c, o);
    RunAppend(NOTHING, create, mark);
    events := create + mark;
  }

  /** From nothing: a document is created and deleted while its first ingestion runs; the deletion finishes, and
      then the row, the entry and the status 'indexed' come back. */
  lemma LateWritesComeBack(o: Owner, space: Id, i: Id, c: Id) returns (before: seq<Event>, later: seq<Event>, k: Id)
    ensures Tombstone(Run(NOTHING, before), o.document) && InPhase(Run(NOTHING, before), c, Finished)
    ensures var s := Run(Run(NOTHING, before), later);
            && Exists(s.docs, o) && s.docs[o.document].status == Indexed
            && k in s.rows && s.rows[k].owner == o && Entry(k, o) in s.vectors
  {
    var marked := MarkedRun(o, space, i, c, false);
    var s := Run(NOTHING, marked);
    RunKeepsOwners(NOTHING, marked);
    RunKeepsConsistent(NOTHING, marked);
    var finish;
    finish, later, k := LateWritesSurvive(s, c, i, o);
    RunAppend(NOTHING, marked, finish);
    before := marked + finish;
  }

  // ---------- Deletions that fail ----------

  /** Every deletion of the document has ended, none of them completed it, and nothing else is at work. */
  ghost predicate Abandoned(s: Store, o: Owner) {
    && Undisturbed(s, o) && s.docs[o.document].status == Deleting && !s.docs[o.document].deletedAt
    && (forall c <- s.cleanups ::
          s.cleanups[c].owner == o && !s.cleanups[c].retry ==> s.cleanups[c].phase in {Finished, Aborted})
  }

  /** A new call of `delete` is authorized. */
  ghost predicate Accepts(s: Store, c: Id, o: Owner) {
    c !in s.cleanups && c in DoBegin(s, c, false, o).cleanups
  }

  /** Call `x` is the same call in both, and no new one; when it had ended, it is unchanged. */
  ghost predicate SameCall(s: Store, s': Store, x: Id) {
    && (x in s'.cleanups <==> x in s.cleanups)
    && (x in s.cleanups ==>
          && s'.cleanups[x].owner == s.cleanups[x].owner && s'.cleanups[x].retry == s.cleanups[x].retry
          && (s.cleanups[x].phase in {Finished, Aborted} ==> s'.cleanups[x] == s.cleanups[x]))
  }

  lemma SameCallByClear(s: Store, c: Id, x: Id)
    ensures SameCall(s, DoClear(s, c), x)
  {
  }

  lemma SameCallByConclude(s: Store, c: Id, i: Id, x: Id)
    ensures SameCall(s, DoConclude(s, c, i), x)
  {
  }

  lemma SameCallByClaim(s: Store, c: Id, x: Id)
    ensures SameCall(s, DoClaim(s, c), x)
  {
  }

  lemma SameCallByAbort(s: Store, c: Id, x: Id)
    ensures SameCall(s, DoAbort(s, c), x)
  {
  }

  lemma NoNewCall(s: Store, e: Event, x: Id)
    requires CleanupEvent(e) && !e.Begin?
    ensures SameCall(s, Apply(s, e), x)
  {
    match e
    case Check(c) =>
    case Claim(c) => SameCallByClaim(s, c, x);
    case Clear(c) => SameCallByClear(s, c, x);
    case Conclude(c, i) => SameCallByConclude(s, c, i, x);
    case Abort(c) => SameCallByAbort(s, c, x);
  }

  lemma WritesLeaveCleanups(s: Store, e: Event)
    requires !CleanupEvent(e)
    ensures Apply(s, e).cleanups == s.cleanups
  {
  }

  /** A deletion that has ended, or is about another document, stays so while the document cannot be seen. */
  lemma EndedStays(s: Store, e: Event, o: Owner, x: Id)
    requires !Visible(s.docs, o) && x in Apply(s, e).cleanups
    requires forall c <- s.cleanups ::
               s.cleanups[c].owner == o && !s.cleanups[c].retry ==> s.cleanups[c].phase in {Finished, Aborted}
    ensures var c := Apply(s, e).cleanups[x]; c.owner == o && !c.retry ==> c.phase in {Finished, Aborted}
  {
    if !CleanupEvent(e) {
      WritesLeaveCleanups(s, e);
    } else if !e.Begin? {
      NoNewCall(s, e, x);
    }
  }

  lemma StatusByClaim(s: Store, c: Id, o: Owner)
    requires Abandoned(s, o)
    ensures var docs := DoClaim(s, c).docs; Exists(docs, o) && docs[o.document] == s.docs[o.document]
  {
    if c in s.cleanups && s.cleanups[c].owner != o {
      OtherStatus(s.docs, s.cleanups[c].owner, o, Deleting);
    }
  }

  lemma StatusByConclude(s: Store, c: Id, i: Id, o: Owner)
    requires Abandoned(s, o)
    ensures var docs := DoConclude(s, c, i).docs; Exists(docs, o) && docs[o.document] == s.docs[o.document]
  {
    if c in s.cleanups && s.cleanups[c].owner != o {
      OtherStatus(s.docs, s.cleanups[c].owner, o, Deleted);
    }
  }

  lemma AbandonedDocument(s: Store, e: Event, o: Owner)
    requires Abandoned(s, o)
    ensures var docs := Apply(s, e).docs;
            Exists(docs, o) && docs[o.document].status == Deleting && !docs[o.document].deletedAt
  {
    match e
    case Claim(c) => StatusByClaim(s, c, o);
    case Conclude(c, i) => StatusByConclude(s, c, i, o);
    case Abort(c) => AbortKeepsStatus(s, c, o);
    case _ =>
  }

  lemma AbandonedStep(s: Store, e: Event, o: Owner)
    requires Abandoned(s, o)
    ensures Abandoned(Apply(s, e), o)
  {
    StaysQuiet(s, e, o);
    AbandonedDocument(s, e, o);
    forall x <- Apply(s, e).cleanups {
      EndedStays(s, e, o, x);
    }
  }

  /** A document that was abandoned stays so: it is 'deleting', and every further `delete` is refused. */
  lemma {:induction false} AbandonedForever(s: Store, more: seq<Event>, o: Owner)
    requires Abandoned(s, o)
    ensures Abandoned(Run(s, more), o)
    ensures forall c :: !Accepts(Run(s, more), c, o)
    decreases |more|
  {
    if more != [] {
      AbandonedStep(s, more[0], o);
      AbandonedForever(Apply(s, more[0]), more[1..], o);
    }
  }

  /** From nothing: a document is created, its ingestion ends, and a deletion fails after marking it. */
  lemma AbandonedIsReached(o: Owner, space: Id, i: Id, c: Id) returns (events: seq<Event>)
    ensures Abandoned(Run(NOTHING, events), o)
  {
    var marked := MarkedRun(o, space, i, c, true);
    RunSnoc(NOTHING, marked, Abort(c));
    events := marked + [Abort(c)];
  }

  /** A disturbance can turn the status to 'failed', by a failing run or by a retry that gives up. */
  lemma DisturbedCanFail(s: Store, o: Owner) returns (more: seq<Event>)
    requires Exists(s.docs, o) && Disturbed(s, o)
    ensures Run(s, more).docs == UpdateStatus(s.docs, o, Failed)
  {
    if Attempted(s, o) {
      var i :| i in s.ingests && s.ingests[i].owner == o && !s.ingests[i].over;
      more := [SetFailed(i)];
      assert Run(s, more) == DoSetStatus(s, i, Failed);
    } else {
      var x :| x in s.cleanups && s.cleanups[x].owner == o && s.cleanups[x].retry && Holding(s.cleanups[x].phase);
      more := [Abort(x)];
      assert Run(s, more) == DoAbort(s, x);
    }
  }

  lemma AbortKeepsDisturbance(s: Store, c: Id, o: Owner)
    requires c in s.cleanups && s.cleanups[c].owner == o && !s.cleanups[c].retry
    ensures DoAbort(s, c).docs == s.docs
    ensures Disturbed(DoAbort(s, c), o) <==> Disturbed(s, o)
  {
    var s' := DoAbort(s, c);
    assert s'.ingests == s.ingests;
    if x :| x in s.cleanups && s.cleanups[x].owner == o && s.cleanups[x].retry && Holding(s.cleanups[x].phase) {
      assert s'.cleanups[x] == s.cleanups[x];
    }
    if x :| x in s'.cleanups && s'.cleanups[x].owner == o && s'.cleanups[x].retry && Holding(s'.cleanups[x].phase) {
      assert s.cleanups[x] == s'.cleanups[x];
    }
  }

  /** A call of `delete` for the document that was not there in `s` has passed its checks after these events. */
  ghost predicate Repeated(s: Store, more: seq<Event>, c: Id, o: Owner) {
    var s' := Run(s, more);
    c !in s.cleanups && c in s'.cleanups && s'.cleanups[c] == Cleanup(o, false, Checked)
  }

  /** The document is out of sight for good. */
  ghost predicate Hidden(s: Store, o: Owner) {
    Undisturbed(s, o) || Tombstone(s, o.document)
  }

  ghost predicate NotBegun(s: Store, c: Id, o: Owner) {
    c in s.cleanups ==> s.cleanups[c].owner != o || s.cleanups[c].retry
  }

  lemma HiddenStep(s: Store, e: Event, o: Owner)
    requires Hidden(s, o)
    ensures Hidden(Apply(s, e), o)
  {
    if Undisturbed(s, o) {
      StaysQuiet(s, e, o);
    } else {
      TombstoneStep(s, e, o.document);
    }
  }

  lemma NotBegunStep(s: Store, e: Event, c: Id, o: Owner)
    requires Hidden(s, o) && NotBegun(s, c, o)
    ensures NotBegun(Apply(s, e), c, o)
  {
    if !CleanupEvent(e) {
      WritesLeaveCleanups(s, e);
    } else if !e.Begin? {
      NoNewCall(s, e, c);
    }
  }

  lemma {:induction false} HiddenForever(s: Store, more: seq<Event>, c: Id, o: Owner)
    requires Hidden(s, o) && NotBegun(s, c, o)
    ensures Hidden(Run(s, more), o) && NotBegun(Run(s, more), c, o)
    decreases |more|
  {
    if more != [] {
      HiddenStep(s, more[0], o);
      NotBegunStep(s, more[0], c, o);
      HiddenForever(Apply(s, more[0]), more[1..], c, o);
    }
  }

  lemma DisturbedIsRepeated(s: Store, o: Owner) returns (more: seq<Event>, c: Id)
    requires Exists(s.docs, o) && Disturbed(s, o) && !s.docs[o.document].deletedAt
    ensures Repeated(s, more, c, o)
  {
    var fail := DisturbedCanFail(s, o);
    c := NewKey(s.cleanups.Keys + Run(s, fail).cleanups.Keys);
    AcceptedRun(Run(s, fail), c, o);
    RunAppend(s, fail, [Begin(c, false, o)] + [Check(c)]);
    more := fail + ([Begin(c, false, o)] + [Check(c)]);
  }

  /** A deletion that fails after marking the document can ever be repeated exactly when, at that moment,
      `deleted_at` is not set, and an ingestion of the document is running or a retry holds it. */
  lemma DeleteCanBeRepeatedIff(s: Store, c: Id, o: Owner)
    requires Exists(s.docs, o) && s.docs[o.document].status == Deleting
    requires c in s.cleanups && s.cleanups[c].owner == o && !s.cleanups[c].retry && Holding(s.cleanups[c].phase)
    ensures (exists more: seq<Event>, c2: Id :: Repeated(Apply(s, Abort(c)), more, c2, o))
            <==> Disturbed(s, o) && !s.docs[o.document].deletedAt
  {
    var t := Apply(s, Abort(c));
    assert t == DoAbort(s, c);
    AbortKeepsDisturbance(s, c, o);
    if Disturbed(s, o) && !s.docs[o.document].deletedAt {
      var more, c2 := DisturbedIsRepeated(t, o);
    } else {
      forall more: seq<Event>, c2: Id ensures !Repeated(t, more, c2, o) {
        if c2 !in t.cleanups {
          HiddenForever(t, more, c2, o);
        }
      }
    }
  }

  /** Why `deleted_at` matters. From nothing, two deletions of a document pass their checks while its ingestion
      runs; the first one finishes, the second one marks the document again. The ingestion is still running, and
      yet, once the second deletion has failed, none can ever be repeated. */
  lemma TombstoneIsNeverRepeated(o: Owner, space: Id, i: Id, c1: Id, c2: Id) returns (events: seq<Event>)
    requires c1 != c2
    ensures var s := Run(NOTHING, events);
            && Exists(s.docs, o) && s.docs[o.document].status == Deleting && Disturbed(s, o)
            && c2 in s.cleanups && s.cleanups[c2] == Cleanup(o, false, Claimed)
            && forall more: seq<Event>, c3: Id :: !Repeated(Apply(s, Abort(c2)), more, c3, o)
  {
    var start := CreatedRun(o, space, i, false);
    var s0 := Run(NOTHING, start);
    var accept := [Begin(c2, false, o)] + [Check(c2)];
    AcceptedRun(s0, c2, o);
    var s1 := Run(s0, accept);
    var mark := MarkSteps(s1, c1, o);
    var s2 := Run(s1, mark);
    var finish := FinishSteps(s2, c1, i, o);
    var s3 := Run(s2, finish);
    ClaimOne(s3, c2, o);
    RunAppend(NOTHING, start, accept);
    RunAppend(NOTHING, start + accept, mark);
    RunAppend(NOTHING, start + accept + mark, finish);
    events := start + accept + mark + finish + [Claim(c2)];
    RunSnoc(NOTHING, start + accept + mark + finish, Claim(c2));
    var s := Run(NOTHING, events);
    assert i in s.ingests && s.ingests[i] == Ingest(o, {}, false);
    DeleteCanBeRepeatedIff(s, c2, o);
  }
}
