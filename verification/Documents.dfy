/** The life of documents, their chunk rows and their index entries, under any interleaving of ingestion
    attempts, deletions, retries and searches. */
module Documents {
  import opened Common
  import opened Retrieval

  datatype Status = Pending | Indexed | Failed | Deleting | Deleted

  /** `failures` and `retries` are history: how often the status became 'failed', how often a retry took over. */
  datatype Document = Document(tenant: Id, space: Id, status: Status, deletedAt: bool, failures: nat, retries: nat)

  /** The pair every write and every DELETE of an ingestion is keyed by. */
  datatype Owner = Owner(document: Id, tenant: Id)

  datatype Entry = Entry(chunk: Id, owner: Owner)

  /** A row of `document_chunks`. */
  datatype Row = Row(owner: Owner, index: nat)

  /** One workflow run. Activities may run again while older attempts still write, so a run that is not over
      may perform any of its writes, in any order and any number of times. The workflow allows each activity a few
      attempts only, and a run may have some of its writes behind it: "running" over-approximates there. */
  datatype Ingest = Ingest(owner: Owner, chunks: set<Id>, over: bool)

  datatype Phase = Authorized | Checked | Claimed | NoVectors | NoKeywords | NoRows | Finished | Aborted

  /** `delete` or `retry_ingestion`: both are authorized, check the status, claim the document, clear three stores,
      and conclude. */
  datatype Cleanup = Cleanup(owner: Owner, retry: bool, phase: Phase)

  datatype Store = Store(
    docs: map<Id, Document>,
    rows: map<Id, Row>,            // document_chunks
    vectors: set<Entry>,
    keywords: set<Entry>,
    indexed: set<Entry>,           // every entry that was ever in an index
    minted: map<Id, Row>,          // every chunk key ever generated
    ingests: map<Id, Ingest>,
    cleanups: map<Id, Cleanup>)

  const NOTHING := Store(map[], map[], {}, {}, {}, map[], map[], map[])

  datatype Event =
    | Create(document: Id, tenant: Id, space: Id, ingest: Id)
    | Cut(ingest: Id, cut: map<Id, nat>)
    | WriteVectors(ingest: Id, chunks: set<Id>)
    | WriteKeywords(ingest: Id, chunks: set<Id>)
    | SaveRows(ingest: Id, chunks: set<Id>)
    | SetIndexed(ingest: Id)
    | SetFailed(ingest: Id)
    | End(ingest: Id)
    | Begin(cleanup: Id, retry: bool, owner: Owner)
    | Check(cleanup: Id)
    | Claim(cleanup: Id)
    | Clear(cleanup: Id)
    | Conclude(cleanup: Id, ingest: Id)
    | Abort(cleanup: Id)

  // ---------- Statements ----------

  predicate Exists(docs: map<Id, Document>, o: Owner) {
    o.document in docs && docs[o.document].tenant == o.tenant
  }

  /** `update_document_status`: unconditional, and only 'deleted' touches `deleted_at`. */
  function UpdateStatus(docs: map<Id, Document>, o: Owner, st: Status): map<Id, Document> {
    if !Exists(docs, o) then docs
    else
      var d := docs[o.document];
      docs[o.document := d.(status := st, deletedAt := d.deletedAt || st == Deleted,
                            failures := if st == Failed && d.status != Failed then d.failures + 1 else d.failures)]
  }

  predicate CanReset(docs: map<Id, Document>, o: Owner) {
    Exists(docs, o) && docs[o.document].status == Failed
  }

  /** `reset_failed_document`. */
  function ResetFailed(docs: map<Id, Document>, o: Owner): map<Id, Document> {
    if CanReset(docs, o) then
      docs[o.document := docs[o.document].(status := Pending, retries := docs[o.document].retries + 1)]
    else docs
  }

  /** `save_chunks`: on a conflict of keys the row keeps its document and takes the new index. */
  function Upsert(rows: map<Id, Row>, batch: map<Id, Row>): map<Id, Row> {
    rows + map c <- batch :: if c in rows then rows[c].(index := batch[c].index) else batch[c]
  }

  /** UNIQUE (document_id, chunk_index) */
  predicate OneRowPerIndex(rows: map<Id, Row>) {
    forall a <- rows, b <- rows ::
      rows[a].owner.document == rows[b].owner.document && rows[a].index == rows[b].index ==> a == b
  }

  function Entries(chunks: set<Id>, o: Owner): set<Entry> {
    set c <- chunks :: Entry(c, o)
  }

  function EntriesWithout(es: set<Entry>, o: Owner): set<Entry> {
    set e <- es | e.owner != o
  }

  /** `delete_chunks_by_document`. */
  function RowsWithout(rows: map<Id, Row>, o: Owner): map<Id, Row> {
    map c <- rows | rows[c].owner != o :: rows[c]
  }

  /** The row `document_scope` returns to `authorize_document`. */
  predicate Visible(docs: map<Id, Document>, o: Owner) {
    Exists(docs, o) && !docs[o.document].deletedAt && docs[o.document].status !in {Deleting, Deleted}
  }

  predicate Live(docs: map<Id, Document>, o: Owner, space: Id) {
    Visible(docs, o) && docs[o.document].space == space
  }

  /** The keys `get_chunks_by_ids` returns. */
  function GetChunks(docs: map<Id, Document>, rows: map<Id, Row>, keys: set<Id>, tenant: Id, space: Id): set<Id> {
    set c <- keys | c in rows && rows[c].owner.tenant == tenant && Live(docs, rows[c].owner, space)
  }

  // ---------- Steps ----------

  predicate Running(s: Store, i: Id) {
    i in s.ingests && !s.ingests[i].over
  }

  predicate InPhase(s: Store, c: Id, p: Phase) {
    c in s.cleanups && s.cleanups[c].phase == p
  }

  function SetPhase(s: Store, c: Id, p: Phase): Store
    requires c in s.cleanups
  {
    s.(cleanups := s.cleanups[c := s.cleanups[c].(phase := p)])
  }

  function DoCreate(s: Store, d: Id, tenant: Id, space: Id, i: Id): Store {
    if d in s.docs || i in s.ingests then s
    else s.(docs := s.docs[d := Document(tenant, space, Pending, false, 0, 0)],
            ingests := s.ingests[i := Ingest(Owner(d, tenant), {}, false)])
  }

  function DoCut(s: Store, i: Id, chunks: map<Id, nat>): Store {
    if !Running(s, i) || !(chunks.Keys !! s.minted.Keys) then s
    else s.(minted := s.minted + map c <- chunks :: Row(s.ingests[i].owner, chunks[c]),
            ingests := s.ingests[i := s.ingests[i].(chunks := s.ingests[i].chunks + chunks.Keys)])
  }

  predicate CanWrite(s: Store, i: Id, chunks: set<Id>) {
    Running(s, i) && chunks <= s.ingests[i].chunks && chunks <= s.minted.Keys
  }

  function DoWriteVectors(s: Store, i: Id, chunks: set<Id>): Store {
    if !CanWrite(s, i, chunks) then s
    else
      var es := Entries(chunks, s.ingests[i].owner);
      s.(vectors := s.vectors + es, indexed := s.indexed + es)
  }

  function DoWriteKeywords(s: Store, i: Id, chunks: set<Id>): Store {
    if !CanWrite(s, i, chunks) then s
    else
      var es := Entries(chunks, s.ingests[i].owner);
      s.(keywords := s.keywords + es, indexed := s.indexed + es)
  }

  /** The rows a run saves for these chunks. */
  function Batch(s: Store, i: Id, chunks: set<Id>): map<Id, Row>
    requires CanWrite(s, i, chunks)
  {
    map c <- chunks :: Row(s.ingests[i].owner, s.minted[c].index)
  }

  /** A batch that breaks the unique key is rolled back. */
  function DoSaveRows(s: Store, i: Id, chunks: set<Id>): Store {
    if CanWrite(s, i, chunks) && OneRowPerIndex(Upsert(s.rows, Batch(s, i, chunks)))
    then s.(rows := Upsert(s.rows, Batch(s, i, chunks)))
    else s
  }

  function DoSetStatus(s: Store, i: Id, st: Status): Store {
    if Running(s, i) then s.(docs := UpdateStatus(s.docs, s.ingests[i].owner, st)) else s
  }

  function DoEnd(s: Store, i: Id): Store {
    if i in s.ingests then s.(ingests := s.ingests[i := s.ingests[i].(over := true)]) else s
  }

  /** A call of `delete` or `retry_ingestion` starts by authorizing its caller for a document it can see. */
  function DoBegin(s: Store, c: Id, retry: bool, o: Owner): Store {
    if c in s.cleanups || !Visible(s.docs, o) then s
    else s.(cleanups := s.cleanups[c := Cleanup(o, retry, Authorized)])
  }

  /** The status check on the row of `get_document_meta`, which is read separately and whatever `deleted_at` says. */
  predicate Passes(docs: map<Id, Document>, o: Owner, retry: bool) {
    && Exists(docs, o)
    && if retry then docs[o.document].status == Failed else docs[o.document].status !in {Deleting, Deleted}
  }

  function DoCheck(s: Store, c: Id): Store {
    if !InPhase(s, c, Authorized) then s
    else SetPhase(s, c, if Passes(s.docs, s.cleanups[c].owner, s.cleanups[c].retry) then Checked else Aborted)
  }

  function DoClaim(s: Store, c: Id): Store {
    if !InPhase(s, c, Checked) then s
    else
      var o := s.cleanups[c].owner;
      if !s.cleanups[c].retry then SetPhase(s.(docs := UpdateStatus(s.docs, o, Deleting)), c, Claimed)
      else if CanReset(s.docs, o) then SetPhase(s.(docs := ResetFailed(s.docs, o)), c, Claimed)
      else SetPhase(s, c, Aborted)
  }

  function DoClear(s: Store, c: Id): Store {
    if c !in s.cleanups then s
    else
      var o := s.cleanups[c].owner;
      match s.cleanups[c].phase
      case Claimed => SetPhase(s.(vectors := EntriesWithout(s.vectors, o)), c, NoVectors)
      case NoVectors => SetPhase(s.(keywords := EntriesWithout(s.keywords, o)), c, NoKeywords)
      case NoKeywords => SetPhase(s.(rows := RowsWithout(s.rows, o)), c, NoRows)
      case _ => s
  }

  /** A deletion sets 'deleted'; a retry starts a new run. */
  function DoConclude(s: Store, c: Id, i: Id): Store {
    if !InPhase(s, c, NoRows) then s
    else
      var o := s.cleanups[c].owner;
      if !s.cleanups[c].retry then SetPhase(s.(docs := UpdateStatus(s.docs, o, Deleted)), c, Finished)
      else if i in s.ingests then s
      else SetPhase(s.(ingests := s.ingests[i := Ingest(o, {}, false)]), c, Finished)
  }

  /** An exception on the way. A retry that holds the document gives it back as 'failed'. */
  function DoAbort(s: Store, c: Id): Store {
    if c !in s.cleanups || s.cleanups[c].phase in {Finished, Aborted} then s
    else if s.cleanups[c].retry && s.cleanups[c].phase !in {Authorized, Checked} then
      SetPhase(s.(docs := UpdateStatus(s.docs, s.cleanups[c].owner, Failed)), c, Aborted)
    else SetPhase(s, c, Aborted)
  }

  function Apply(s: Store, e: Event): Store {
    match e
    case Create(d, tenant, space, i) => DoCreate(s, d, tenant, space, i)
    case Cut(i, chunks) => DoCut(s, i, chunks)
    case WriteVectors(i, chunks) => DoWriteVectors(s, i, chunks)
    case WriteKeywords(i, chunks) => DoWriteKeywords(s, i, chunks)
    case SaveRows(i, chunks) => DoSaveRows(s, i, chunks)
    case SetIndexed(i) => DoSetStatus(s, i, Indexed)
    case SetFailed(i) => DoSetStatus(s, i, Failed)
    case End(i) => DoEnd(s, i)
    case Begin(c, retry, o) => DoBegin(s, c, retry, o)
    case Check(c) => DoCheck(s, c)
    case Claim(c) => DoClaim(s, c)
    case Clear(c) => DoClear(s, c)
    case Conclude(c, i) => DoConclude(s, c, i)
    case Abort(c) => DoAbort(s, c)
  }

  function Run(s: Store, events: seq<Event>): Store
    decreases |events|
  {
    if events == [] then s else Run(Apply(s, events[0]), events[1..])
  }

  // ---------- Chunk keys lead to one document ----------

  ghost predicate EntriesMinted(s: Store, es: set<Entry>) {
    forall e <- es :: e.chunk in s.minted && s.minted[e.chunk].owner == e.owner
  }

  ghost predicate ChunksMinted(s: Store) {
    forall i <- s.ingests, c <- s.ingests[i].chunks :: c in s.minted && s.minted[c].owner == s.ingests[i].owner
  }

  /** Rows and entries, present and past, belong to the document their chunk was cut from. */
  ghost predicate Consistent(s: Store) {
    && (forall c <- s.rows :: c in s.minted && s.minted[c] == s.rows[c])
    && EntriesMinted(s, s.indexed) && ChunksMinted(s)
  }

  predicate CleanupEvent(e: Event) {
    e.Begin? || e.Check? || e.Claim? || e.Clear? || e.Conclude? || e.Abort?
  }

  lemma ApplyKeepsConsistent(s: Store, e: Event)
    requires Consistent(s)
    ensures Consistent(Apply(s, e))
  {
    if CleanupEvent(e) {
      CleanupKeepsConsistent(s, e);
    } else if e.Cut? {
      CutKeepsConsistent(s, e.ingest, e.cut);
    } else {
      WriteKeepsConsistent(s, e);
    }
  }

  lemma ClearKeepsConsistent(s: Store, c: Id)
    requires Consistent(s)
    ensures Consistent(DoClear(s, c))
  {
  }

  lemma ConcludeKeepsConsistent(s: Store, c: Id, i: Id)
    requires Consistent(s)
    ensures Consistent(DoConclude(s, c, i))
  {
  }

  lemma CleanupKeepsConsistent(s: Store, e: Event)
    requires Consistent(s) && CleanupEvent(e)
    ensures Consistent(Apply(s, e))
  {
    if e.Clear? {
      ClearKeepsConsistent(s, e.cleanup);
    } else if e.Conclude? {
      ConcludeKeepsConsistent(s, e.cleanup, e.ingest);
    } else {
      var s' := Apply(s, e);
      assert s' == s.(docs := s'.docs, cleanups := s'.cleanups);
    }
  }

  lemma WriteKeepsConsistent(s: Store, e: Event)
    requires Consistent(s) && !CleanupEvent(e) && !e.Cut?
    ensures Consistent(Apply(s, e))
  {
  }

  lemma CutKeepsConsistent(s: Store, i: Id, chunks: map<Id, nat>)
    requires Consistent(s)
    ensures Consistent(DoCut(s, i, chunks))
  {
  }

  lemma {:induction false} RunKeepsConsistent(s: Store, events: seq<Event>)
    requires Consistent(s)
    ensures Consistent(Run(s, events))
    decreases |events|
  {
    if events != [] {
      ApplyKeepsConsistent(s, events[0]);
      RunKeepsConsistent(Apply(s, events[0]), events[1..]);
    }
  }

  // ---------- Deleted documents ----------

  ghost predicate Tombstone(s: Store, d: Id) {
    d in s.docs && s.docs[d].deletedAt
  }

  lemma TombstoneStep(s: Store, e: Event, d: Id)
    requires Tombstone(s, d)
    ensures Tombstone(Apply(s, e), d)
  {
  }

  lemma {:induction false} TombstoneForever(s: Store, events: seq<Event>, d: Id)
    requires Tombstone(s, d)
    ensures Tombstone(Run(s, events), d)
    decreases |events|
  {
    if events != [] {
      TombstoneStep(s, events[0], d);
      TombstoneForever(Apply(s, events[0]), events[1..], d);
    }
  }

  /** What an index may answer: entries it holds or once held, in any order. */
  ghost predicate FromIndexes(s: Store, found: seq<Hit>) {
    forall h <- found :: exists tenant: Id :: Entry(h.chunk, Owner(h.document, tenant)) in s.indexed
  }

  function ChunkKeys(found: seq<Hit>): set<Id> {
    set h <- found :: h.chunk
  }

  /** `retrieve` when its last query runs in state `s`. */
  function Result(s: Store, scope: set<Id>, found: seq<Hit>, tenant: Id, space: Id): seq<Hit> {
    Retrieve(scope, found, GetChunks(s.docs, s.rows, ChunkKeys(InScope(scope, found)), tenant, space))
  }

  /** Exactly the hits in scope whose chunk row exists and whose document is live in the space are returned. */
  lemma ResultIff(events: seq<Event>, scope: set<Id>, found: seq<Hit>, tenant: Id, space: Id, h: Hit)
    requires FromIndexes(Run(NOTHING, events), found)
    ensures var s := Run(NOTHING, events);
            h in Result(s, scope, found, tenant, space) <==>
              && h in found && (scope == {} || h.document in scope)
              && h.chunk in s.rows && s.rows[h.chunk].owner == Owner(h.document, tenant)
              && Live(s.docs, Owner(h.document, tenant), space)
  {
    var s := Run(NOTHING, events);
    RunKeepsConsistent(NOTHING, events);
    if h in found && h.chunk in s.rows {
      var t :| Entry(h.chunk, Owner(h.document, t)) in s.indexed;
      assert s.rows[h.chunk].owner == Owner(h.document, t);
    }
  }

  /** The result keeps the order of the search: its hits stand at increasing positions, which are exactly those
      of the hits in scope whose chunk row exists and whose document is live in the space. */
  lemma ResultKeepsOrder(events: seq<Event>, scope: set<Id>, found: seq<Hit>, tenant: Id, space: Id)
    returns (at: seq<nat>)
    requires FromIndexes(Run(NOTHING, events), found)
    ensures var s := Run(NOTHING, events);
            var result := Result(s, scope, found, tenant, space);
            && Increasing(at) && |at| == |result|
            && (forall i :: 0 <= i < |at| ==> at[i] < |found| && result[i] == found[at[i]])
            && forall k: nat :: k < |found| ==>
                 (k in at <==>
                    && (scope == {} || found[k].document in scope)
                    && found[k].chunk in s.rows && s.rows[found[k].chunk].owner == Owner(found[k].document, tenant)
                    && Live(s.docs, Owner(found[k].document, tenant), space))
  {
    var s := Run(NOTHING, events);
    var chunks := GetChunks(s.docs, s.rows, ChunkKeys(InScope(scope, found)), tenant, space);
    at := RetrieveKeepsOrder(scope, found, chunks);
    forall k: nat | k < |found|
      ensures k in at <==>
                && (scope == {} || found[k].document in scope)
                && found[k].chunk in s.rows && s.rows[found[k].chunk].owner == Owner(found[k].document, tenant)
                && Live(s.docs, Owner(found[k].document, tenant), space)
    {
      assert found[k] in found;
      ResultIff(events, scope, found, tenant, space, found[k]);
      if k in at {
        var i :| 0 <= i < |at| && at[i] == k;
        assert found[k] == Retrieve(scope, found, chunks)[i];
      }
    }
  }

  /** Once `deleted_at` is set, no retrieval that reads its chunks later returns a hit of the document: whatever
      in-flight ingestions, retries and further deletions do, and whatever the indexes still answer. */
  lemma DeletedIsNeverRetrieved(before: seq<Event>, later: seq<Event>, d: Id,
                                scope: set<Id>, found: seq<Hit>, tenant: Id, space: Id)
    requires Tombstone(Run(NOTHING, before), d)
    requires FromIndexes(Run(NOTHING, before + later), found)
    ensures forall h <- Result(Run(NOTHING, before + later), scope, found, tenant, space) :: h.document != d
  {
    RunAppend(NOTHING, before, later);
    TombstoneForever(Run(NOTHING, before), later, d);
    forall h <- Result(Run(NOTHING, before + later), scope, found, tenant, space) ensures h.document != d {
      ResultIff(before + later, scope, found, tenant, space, h);
    }
  }

  lemma {:induction false} RunAppend(s: Store, xs: seq<Event>, ys: seq<Event>)
    ensures Run(s, xs + ys) == Run(Run(s, xs), ys)
    decreases |xs|
  {
    if xs == [] {
      assert xs + ys == ys;
    } else {
      assert (xs + ys)[0] == xs[0] && (xs + ys)[1..] == xs[1..] + ys;
      RunAppend(Apply(s, xs[0]), xs[1..], ys);
    }
  }

  lemma RunSnoc(s: Store, events: seq<Event>, e: Event)
    ensures Run(s, events + [e]) == Apply(Run(s, events), e)
  {
    RunAppend(s, events, [e]);
  }

  // ---------- Retries ----------

  ghost predicate PaidFor(d: Document) {
    d.retries + (if d.status == Failed then 1 else 0) <= d.failures
  }

  ghost predicate RetriesPaidFor(s: Store) {
    forall d <- s.docs :: PaidFor(s.docs[d])
  }

  lemma DocumentStaysPaidFor(docs: map<Id, Document>, o: Owner, st: Status)
    requires forall d <- docs :: PaidFor(docs[d])
    ensures forall d <- UpdateStatus(docs, o, st) :: PaidFor(UpdateStatus(docs, o, st)[d])
    ensures forall d <- ResetFailed(docs, o) :: PaidFor(ResetFailed(docs, o)[d])
  {
  }

  lemma CleanupKeepsRetriesPaidFor(s: Store, e: Event)
    requires RetriesPaidFor(s) && CleanupEvent(e)
    ensures RetriesPaidFor(Apply(s, e))
  {
    if e.cleanup in s.cleanups {
      var o := s.cleanups[e.cleanup].owner;
      DocumentStaysPaidFor(s.docs, o, Deleting);
      DocumentStaysPaidFor(s.docs, o, Deleted);
      DocumentStaysPaidFor(s.docs, o, Failed);
    }
  }

  lemma ApplyKeepsRetriesPaidFor(s: Store, e: Event)
    requires RetriesPaidFor(s)
    ensures RetriesPaidFor(Apply(s, e))
  {
    if CleanupEvent(e) {
      CleanupKeepsRetriesPaidFor(s, e);
    } else if (e.SetIndexed? || e.SetFailed?) && e.ingest in s.ingests {
      DocumentStaysPaidFor(s.docs, s.ingests[e.ingest].owner, if e.SetFailed? then Failed else Indexed);
    }
  }

  lemma {:induction false} RunKeepsRetriesPaidFor(s: Store, events: seq<Event>)
    requires RetriesPaidFor(s)
    ensures RetriesPaidFor(Run(s, events))
    decreases |events|
  {
    if events != [] {
      ApplyKeepsRetriesPaidFor(s, events[0]);
      RunKeepsRetriesPaidFor(Apply(s, events[0]), events[1..]);
    }
  }

  /** However many retries race, each one that takes over the document used up a failure of its own, and a
      document that waits as 'failed' has one to spare. */
  lemma OneRetryPerFailure(events: seq<Event>, d: Id)
    requires d in Run(NOTHING, events).docs
    ensures var doc := Run(NOTHING, events).docs[d];
            doc.retries <= doc.failures && (doc.status == Failed ==> doc.retries < doc.failures)
  {
    RunKeepsRetriesPaidFor(NOTHING, events);
    assert PaidFor(Run(NOTHING, events).docs[d]);
  }
}
