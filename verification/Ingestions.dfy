/** What ingestions, retries and deletions do when they get through, and that they leave other documents alone. */
module Ingestions {
  import opened Common
  import opened Retrieval
  import opened Documents
  import opened Deletions

  // ---------- Other documents ----------

  /** No entry and no row of the document is gone. */
  ghost predicate KeptOf(s: Store, s': Store, o: Owner) {
    && (forall e <- s.vectors :: e.owner == o ==> e in s'.vectors)
    && (forall e <- s.keywords :: e.owner == o ==> e in s'.keywords)
    && forall c <- s.rows :: s.rows[c].owner == o ==> c in s'.rows && s'.rows[c].owner == o
  }

  /** A step of a deletion or a retry removes nothing but what belongs to its own document, and adds nothing. */
  lemma CleanupsSpareOthers(s: Store, e: Event)
    requires CleanupEvent(e)
    ensures var s' := Apply(s, e);
            && s'.vectors <= s.vectors && s'.keywords <= s.keywords
            && (forall c <- s'.rows :: c in s.rows && s'.rows[c] == s.rows[c])
            && forall o: Owner :: (e.cleanup in s.cleanups ==> s.cleanups[e.cleanup].owner != o) ==> KeptOf(s, s', o)
  {
    if e.Clear? && e.cleanup in s.cleanups {
      ClearSparesOthers(s, e.cleanup);
    }
  }

  /** Each clearing step empties one store of the document, and of nothing else. */
  lemma ClearSparesOthers(s: Store, c: Id)
    requires c in s.cleanups
    ensures var s' := DoClear(s, c);
            var o := s.cleanups[c].owner;
            var p := s.cleanups[c].phase;
            && (forall e: Entry :: e in s'.vectors <==> e in s.vectors && (p == Claimed ==> e.owner != o))
            && (forall e: Entry :: e in s'.keywords <==> e in s.keywords && (p == NoVectors ==> e.owner != o))
            && (forall x: Id :: x in s'.rows <==> x in s.rows && (p == NoKeywords ==> s.rows[x].owner != o))
            && (forall x <- s'.rows :: s'.rows[x] == s.rows[x])
            && s'.docs == s.docs && s'.ingests == s.ingests
            && (p in {Claimed, NoVectors, NoKeywords} ==>
                  s'.cleanups == s.cleanups[c := s.cleanups[c].(phase := if p == Claimed then NoVectors
                                                                         else if p == NoVectors then NoKeywords
                                                                         else NoRows)])
  {
  }

  /** Writes of an ingestion remove nothing, whosever it is. */
  lemma WritesRemoveNothing(s: Store, e: Event, o: Owner)
    requires !CleanupEvent(e)
    ensures KeptOf(s, Apply(s, e), o)
  {
    if e.SaveRows? {
      SavesRemoveNothing(s, e.ingest, e.chunks, o);
    }
  }

  lemma SavesRemoveNothing(s: Store, i: Id, chunks: set<Id>, o: Owner)
    ensures KeptOf(s, DoSaveRows(s, i, chunks), o)
  {
    if CanWrite(s, i, chunks) {
      UpsertMeans(s.rows, Batch(s, i, chunks));
    }
  }

  /** A row that is saved again keeps its document and takes the new index; a new one is as given. */
  lemma UpsertMeans(rows: map<Id, Row>, batch: map<Id, Row>)
    ensures var r := Upsert(rows, batch);
            && r.Keys == rows.Keys + batch.Keys
            && (forall c <- rows :: r[c].owner == rows[c].owner && (c !in batch ==> r[c] == rows[c]))
            && (forall c <- batch :: r[c].index == batch[c].index && (c !in rows ==> r[c] == batch[c]))
  {
  }

  lemma KeptTransitive(s: Store, s1: Store, s2: Store, o: Owner)
    requires KeptOf(s, s1, o) && KeptOf(s1, s2, o)
    ensures KeptOf(s, s2, o)
  {
  }

  lemma CallsStay(s: Store, e: Event, c: Id)
    requires c in s.cleanups
    ensures c in Apply(s, e).cleanups && Apply(s, e).cleanups[c].owner == s.cleanups[c].owner
  {
    if !CleanupEvent(e) {
      WritesLeaveCleanups(s, e);
    } else if !e.Begin? {
      NoNewCall(s, e, c);
    }
  }

  lemma {:induction false} CallsStayForever(s: Store, more: seq<Event>, c: Id)
    requires c in s.cleanups
    ensures c in Run(s, more).cleanups && Run(s, more).cleanups[c].owner == s.cleanups[c].owner
    decreases |more|
  {
    if more != [] {
      CallsStay(s, more[0], c);
      CallsStayForever(Apply(s, more[0]), more[1..], c);
    }
  }

  /** As long as nobody deletes or retries a document, nothing of it is lost, whatever happens to others. */
  lemma {:induction false} OthersSurvive(s: Store, more: seq<Event>, o: Owner)
    requires forall c <- Run(s, more).cleanups :: Run(s, more).cleanups[c].owner != o
    ensures KeptOf(s, Run(s, more), o)
    decreases |more|
  {
    if more != [] {
      var e, s1 := more[0], Apply(s, more[0]);
      if CleanupEvent(e) {
        if e.cleanup in s.cleanups {
          CallsStayForever(s, more, e.cleanup);
        }
        CleanupsSpareOthers(s, e);
      } else {
        WritesRemoveNothing(s, e, o);
      }
      assert Run(s, more) == Run(s1, more[1..]);
      OthersSurvive(s1, more[1..], o);
      KeptTransitive(s, s1, Run(s1, more[1..]), o);
    }
  }

  // ---------- One ingestion from its start to its end ----------

  lemma CreateStep(s: Store, d: Id, tenant: Id, space: Id, i: Id)
    ensures Apply(s, Create(d, tenant, space, i))
            == if d in s.docs || i in s.ingests then s
               else s.(docs := s.docs[d := Document(tenant, space, Pending, false, 0, 0)],
                       ingests := s.ingests[i := Ingest(Owner(d, tenant), {}, false)])
  {
  }

  /** A run that has just been started, and chunks it may cut: new keys, distinct indexes, no rows in the way. */
  ghost predicate ReadyToIngest(s: Store, i: Id, o: Owner, cut: map<Id, nat>) {
    && Running(s, i) && s.ingests[i] == Ingest(o, {}, false) && Exists(s.docs, o)
    && OneRowPerIndex(s.rows) && cut.Keys !! s.minted.Keys && cut.Keys !! s.rows.Keys
    && (forall x <- s.rows :: s.rows[x].owner.document != o.document)
    && forall c <- cut, d <- cut :: cut[c] == cut[d] ==> c == d
  }

  function Cutting(s: Store, i: Id, o: Owner, cut: map<Id, nat>): Store
    requires i in s.ingests
  {
    s.(minted := s.minted + map c <- cut :: Row(o, cut[c]), ingests := s.ingests[i := Ingest(o, cut.Keys, false)])
  }

  lemma CutStep(s: Store, i: Id, o: Owner, cut: map<Id, nat>)
    requires ReadyToIngest(s, i, o, cut)
    ensures Apply(s, Cut(i, cut)) == Cutting(s, i, o, cut)
    ensures CanWrite(Cutting(s, i, o, cut), i, cut.Keys)
  {
    assert {} + cut.Keys == cut.Keys;
  }

  lemma IndexSteps(s: Store, i: Id, chunks: set<Id>, o: Owner)
    requires CanWrite(s, i, chunks) && s.ingests[i].owner == o
    ensures var s' := Apply(s, WriteVectors(i, chunks));
            && s' == s.(vectors := s'.vectors, indexed := s'.indexed)
            && (forall e: Entry :: e in s'.vectors <==> e in s.vectors || (e.chunk in chunks && e.owner == o))
            && (forall e: Entry :: e in s'.indexed <==> e in s.indexed || (e.chunk in chunks && e.owner == o))
    ensures var s' := Apply(s, WriteKeywords(i, chunks));
            && s' == s.(keywords := s'.keywords, indexed := s'.indexed)
            && (forall e: Entry :: e in s'.keywords <==> e in s.keywords || (e.chunk in chunks && e.owner == o))
            && (forall e: Entry :: e in s'.indexed <==> e in s.indexed || (e.chunk in chunks && e.owner == o))
  {
    forall e: Entry ensures e in Entries(chunks, o) <==> e.chunk in chunks && e.owner == o {
    }
  }

  lemma SaveStep(s: Store, i: Id, o: Owner, cut: map<Id, nat>)
    requires CanWrite(s, i, cut.Keys) && s.ingests[i].owner == o && OneRowPerIndex(s.rows) && cut.Keys !! s.rows.Keys
    requires forall c <- cut :: s.minted[c] == Row(o, cut[c])
    requires forall x <- s.rows :: s.rows[x].owner.document != o.document
    requires forall c <- cut, d <- cut :: cut[c] == cut[d] ==> c == d
    ensures Apply(s, SaveRows(i, cut.Keys)) == s.(rows := s.rows + map c <- cut :: Row(o, cut[c]))
  {
    var added := map c <- cut :: Row(o, cut[c]);
    assert Batch(s, i, cut.Keys) == added;
    assert Upsert(s.rows, added) == s.rows + added;
    assert OneRowPerIndex(s.rows + added);
  }

  lemma EndSteps(s: Store, i: Id, o: Owner)
    requires Running(s, i) && s.ingests[i].owner == o && Exists(s.docs, o)
    ensures var s' := Apply(s, SetIndexed(i));
            && s' == s.(docs := s'.docs) && o.document in s'.docs
            && s'.docs == s.docs[o.document := s.docs[o.document].(status := Indexed)]
    ensures Apply(s, End(i)) == s.(ingests := s.ingests[i := s.ingests[i].(over := true)])
    ensures var s' := Apply(s, SetFailed(i));
            && s' == s.(docs := s'.docs) && o.document in s'.docs && s'.docs[o.document].status == Failed
            && s'.docs[o.document].deletedAt == s.docs[o.document].deletedAt
            && s'.docs == s.docs[o.document := s'.docs[o.document]]
  {
  }

  /** What a whole ingestion leaves: all its chunks in both indexes and as rows, and the document indexed. */
  ghost predicate Ingested(s: Store, s': Store, i: Id, o: Owner, cut: map<Id, nat>)
    requires Exists(s.docs, o)
  {
    && s'.docs == s.docs[o.document := s.docs[o.document].(status := Indexed)]
    && s'.rows == s.rows + (map c <- cut :: Row(o, cut[c]))
    && (forall e: Entry :: e in s'.vectors <==> e in s.vectors || (e.chunk in cut && e.owner == o))
    && (forall e: Entry :: e in s'.keywords <==> e in s.keywords || (e.chunk in cut && e.owner == o))
    && i in s'.ingests && s'.ingests[i].over && s'.cleanups == s.cleanups
  }

  /** An ingestion that nothing comes in between puts all its chunks into both indexes and the database. */
  lemma IngestionCompletes(s: Store, i: Id, o: Owner, cut: map<Id, nat>)
    requires ReadyToIngest(s, i, o, cut)
    ensures var s3 := Apply(Apply(Apply(s, Cut(i, cut)), WriteVectors(i, cut.Keys)), WriteKeywords(i, cut.Keys));
            var s6 := Apply(Apply(Apply(s3, SaveRows(i, cut.Keys)), SetIndexed(i)), End(i));
            Ingested(s, s6, i, o, cut)
  {
    CutStep(s, i, o, cut);
    var s1 := Cutting(s, i, o, cut);
    IndexSteps(s1, i, cut.Keys, o);
    var s2 := Apply(s1, WriteVectors(i, cut.Keys));
    IndexSteps(s2, i, cut.Keys, o);
    var s3 := Apply(s2, WriteKeywords(i, cut.Keys));
    SaveStep(s3, i, o, cut);
    var s4 := Apply(s3, SaveRows(i, cut.Keys));
    EndSteps(s4, i, o);
    EndSteps(Apply(s4, SetIndexed(i)), i, o);
  }

  /** After that every hit on one of the chunks is returned to a search in the space. */
  lemma IngestedIsFound(s: Store, s': Store, i: Id, o: Owner, cut: map<Id, nat>, space: Id, h: Hit, found: seq<Hit>)
    requires Exists(s.docs, o) && Ingested(s, s', i, o, cut) && s.docs[o.document].space == space
    requires !s.docs[o.document].deletedAt && h.chunk in cut && h.document == o.document && h in found
    ensures h in Documents.Result(s', {}, found, o.tenant, space)
            && h in Documents.Result(s', {o.document}, found, o.tenant, space)
  {
    assert h in InScope({}, found) && h in InScope({o.document}, found);
    assert h.chunk in ChunkKeys(InScope({}, found)) && h.chunk in ChunkKeys(InScope({o.document}, found));
  }

  // ---------- Retries and deletions from start to end ----------

  /** What both leave of the document in the three stores, and of the others. */
  ghost predicate ClearedOf(s: Store, s': Store, o: Owner) {
    && (forall e: Entry :: e in s'.vectors <==> e in s.vectors && e.owner != o)
    && (forall e: Entry :: e in s'.keywords <==> e in s.keywords && e.owner != o)
    && (forall c: Id :: c in s'.rows <==> c in s.rows && s.rows[c].owner != o)
    && forall c <- s'.rows :: s'.rows[c] == s.rows[c]
  }

  function Cleared(s: Store, c: Id): Store {
    Apply(Apply(Apply(s, Clear(c)), Clear(c)), Clear(c))
  }

  lemma ClearAll(s: Store, c: Id)
    requires InPhase(s, c, Claimed)
    ensures var s' := Cleared(s, c);
            && ClearedOf(s, s', s.cleanups[c].owner) && s'.docs == s.docs && s'.ingests == s.ingests
            && s'.cleanups == s.cleanups[c := s.cleanups[c].(phase := NoRows)]
  {
    ClearSparesOthers(s, c);
    var s1 := Apply(s, Clear(c));
    assert s1 == DoClear(s, c) && InPhase(s1, c, NoVectors);
    ClearSparesOthers(s1, c);
    var s2 := Apply(s1, Clear(c));
    assert s2 == DoClear(s1, c) && InPhase(s2, c, NoKeywords);
    ClearSparesOthers(s2, c);
    assert Cleared(s, c) == DoClear(s2, c);
  }

  /** A call's authorization and status check. */
  lemma HeadSteps(s: Store, c: Id, retry: bool, o: Owner)
    requires c !in s.cleanups
    ensures var s1 := Apply(s, Begin(c, retry, o));
            var open := o.document in s.docs && s.docs[o.document].tenant == o.tenant
                        && !s.docs[o.document].deletedAt && s.docs[o.document].status !in {Deleting, Deleted};
            && s1 == (if open then s.(cleanups := s.cleanups[c := Cleanup(o, retry, Authorized)]) else s)
            && (open ==>
                  Apply(s1, Check(c))
                  == s.(cleanups := s.cleanups[c := Cleanup(o, retry, if retry && s.docs[o.document].status != Failed
                                                            then Aborted
                                                                     else Checked)]))
  {
  }

  /** The claim of a retry: only while the document is still failed. */
  lemma ClaimRetry(s: Store, c: Id)
    requires InPhase(s, c, Checked) && s.cleanups[c].retry && Exists(s.docs, s.cleanups[c].owner)
    ensures var o := s.cleanups[c].owner;
            var row := s.docs[o.document];
            Apply(s, Claim(c))
            == if row.status == Failed then
                 s.(docs := s.docs[o.document := row.(status := Pending, retries := row.retries + 1)],
                    cleanups := s.cleanups[c := s.cleanups[c].(phase := Claimed)])
               else s.(cleanups := s.cleanups[c := s.cleanups[c].(phase := Aborted)])
  {
  }

  lemma ClaimDeletion(s: Store, c: Id)
    requires InPhase(s, c, Checked) && !s.cleanups[c].retry && Exists(s.docs, s.cleanups[c].owner)
    ensures var o := s.cleanups[c].owner;
            Apply(s, Claim(c))
            == s.(docs := s.docs[o.document := s.docs[o.document].(status := Deleting)],
                  cleanups := s.cleanups[c := s.cleanups[c].(phase := Claimed)])
  {
  }

  lemma ConcludeSteps(s: Store, c: Id, i: Id)
    requires InPhase(s, c, NoRows) && i !in s.ingests && Exists(s.docs, s.cleanups[c].owner)
    ensures var o := s.cleanups[c].owner;
            var s' := Apply(s, Conclude(c, i));
            if s.cleanups[c].retry then
              s' == s.(ingests := s.ingests[i := Ingest(o, {}, false)],
                       cleanups := s.cleanups[c := s.cleanups[c].(phase := Finished)])
            else
              s' == s.(docs := s.docs[o.document := s.docs[o.document].(status := Deleted, deletedAt := true)],
                       cleanups := s.cleanups[c := s.cleanups[c].(phase := Finished)])
  {
  }

  /** A retry that breaks off after it took the document over gives it back as failed; nothing else does. */
  lemma AbortSteps(s: Store, c: Id)
    requires c in s.cleanups && s.cleanups[c].phase !in {Finished, Aborted} && Exists(s.docs, s.cleanups[c].owner)
    ensures var o := s.cleanups[c].owner;
            var s' := Apply(s, Abort(c));
            && s' == s.(docs := s'.docs, cleanups := s.cleanups[c := s.cleanups[c].(phase := Aborted)])
            && (if s.cleanups[c].retry && Holding(s.cleanups[c].phase)
                then o.document in s'.docs && s'.docs[o.document].status == Failed
                     && s'.docs == s.docs[o.document := s'.docs[o.document]]
                else s'.docs == s.docs)
  {
    var x := s.cleanups[c];
    assert x.phase.Authorized? || x.phase.Checked? || Holding(x.phase);
  }

  function Accepted(s: Store, c: Id, retry: bool, o: Owner): Store {
    Apply(Apply(Apply(s, Begin(c, retry, o)), Check(c)), Claim(c))
  }

  lemma AcceptedRetry(s: Store, c: Id, o: Owner)
    requires c !in s.cleanups && Exists(s.docs, o) && s.docs[o.document].status == Failed
             && !s.docs[o.document].deletedAt
    ensures var row := s.docs[o.document];
            Accepted(s, c, true, o)
            == s.(docs := s.docs[o.document := row.(status := Pending, retries := row.retries + 1)],
                  cleanups := s.cleanups[c := Cleanup(o, true, Claimed)])
  {
    HeadSteps(s, c, true, o);
    var s2 := Apply(Apply(s, Begin(c, true, o)), Check(c));
    ClaimRetry(s2, c);
    assert s2.cleanups[c := Cleanup(o, true, Claimed)] == s.cleanups[c := Cleanup(o, true, Claimed)];
  }

  /** A retry of a failed document that nothing comes in between clears the document's stores, resets it, and
      starts one new run. */
  lemma RetryRestarts(s: Store, c: Id, o: Owner, i: Id)
    requires c !in s.cleanups && i !in s.ingests
    requires Exists(s.docs, o) && s.docs[o.document].status == Failed && !s.docs[o.document].deletedAt
    ensures var s' := Apply(Cleared(Accepted(s, c, true, o), c), Conclude(c, i));
            && ClearedOf(s, s', o) && Running(s', i) && s'.ingests == s.ingests[i := Ingest(o, {}, false)]
            && o.document in s'.docs && s'.docs == s.docs[o.document := s'.docs[o.document]]
            && s'.docs[o.document].status == Pending && !s'.docs[o.document].deletedAt && InPhase(s', c, Finished)
  {
    AcceptedRetry(s, c, o);
    var s1 := Accepted(s, c, true, o);
    ClearAll(s1, c);
    ConcludeSteps(Cleared(s1, c), c, i);
  }

  lemma AcceptedDeletion(s: Store, c: Id, o: Owner)
    requires c !in s.cleanups && Visible(s.docs, o)
    ensures Accepted(s, c, false, o)
            == s.(docs := s.docs[o.document := s.docs[o.document].(status := Deleting)],
                  cleanups := s.cleanups[c := Cleanup(o, false, Claimed)])
  {
    HeadSteps(s, c, false, o);
    var s2 := Apply(Apply(s, Begin(c, false, o)), Check(c));
    ClaimDeletion(s2, c);
    assert s2.cleanups[c := Cleanup(o, false, Claimed)] == s.cleanups[c := Cleanup(o, false, Claimed)];
  }

  /** A deletion that nothing comes in between clears the document's stores, marks it, and touches nothing else. */
  lemma DeletionCompletes(s: Store, c: Id, o: Owner, i: Id)
    requires c !in s.cleanups && i !in s.ingests && Visible(s.docs, o)
    ensures var s' := Apply(Cleared(Accepted(s, c, false, o), c), Conclude(c, i));
            && ClearedOf(s, s', o) && s'.ingests == s.ingests && InPhase(s', c, Finished)
            && s'.docs == s.docs[o.document := s.docs[o.document].(status := Deleted, deletedAt := true)]
  {
    AcceptedDeletion(s, c, o);
    var s1 := Accepted(s, c, false, o);
    ClearAll(s1, c);
    ConcludeSteps(Cleared(s1, c), c, i);
  }
}
