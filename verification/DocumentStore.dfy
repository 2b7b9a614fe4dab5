/** The tables and indexes of documents, with the statements and the services that update them. */
module DocumentStore {
  import opened Common
  import opened Documents

  /** One parameter row of `save_chunks`. */
  datatype NewRow = NewRow(key: Id, row: Row)

  /** One upsert: a row that exists keeps its document and takes the new index. */
  function Put(rows: map<Id, Row>, r: NewRow): map<Id, Row> {
    rows[r.key := if r.key in rows then rows[r.key].(index := r.row.index) else r.row]
  }

  function PutAll(rows: map<Id, Row>, batch: seq<NewRow>): map<Id, Row> {
    if batch == [] then rows else Put(PutAll(rows, batch[..|batch| - 1]), batch[|batch| - 1])
  }

  predicate HasKey(batch: seq<NewRow>, c: Id) {
    exists i :: 0 <= i < |batch| && batch[i].key == c
  }

  /** Does the row collide with another one on (document_id, chunk_index)? */
  predicate Clashes(rows: map<Id, Row>, r: NewRow) {
    exists c <- rows :: c != r.key && rows[c].index == r.row.index
                        && rows[c].owner.document == (if r.key in rows then rows[r.key] else r.row).owner.document
  }

  class Stores {
    var docs: map<Id, Document>
    var rows: map<Id, Row>
    var vectors: set<Entry>
    var keywords: set<Entry>

    /** The unique key of the chunk table. */
    ghost predicate Valid()
      reads this
    {
      OneRowPerIndex(rows)
    }

    constructor ()
      ensures Valid() && docs == map[] && rows == map[] && vectors == keywords == {}
    {
      docs, rows, vectors, keywords := map[], map[], {}, {};
    }

    /** `create_document`: a key that is taken keeps its document as it is, deleted or not; otherwise exactly the
        new document becomes visible, in its space. */
    method CreateDocument(d: Id, tenant: Id, space: Id)
      modifies `docs
      ensures docs.Keys == old(docs).Keys + {d} && forall x <- old(docs) :: docs[x] == old(docs)[x]
      ensures d !in old(docs) ==> docs[d] == Document(tenant, space, Pending, false, 0, 0)
      ensures forall o: Owner, sp: Id ::
                Live(docs, o, sp)
                <==> Live(old(docs), o, sp) || (d !in old(docs) && o == Owner(d, tenant) && sp == space)
    {
      if d !in docs {
        docs := docs[d := Document(tenant, space, Pending, false, 0, 0)];
      }
    }

    /** `update_document_status`: whatever the status was before. Afterwards `reset_failed_document` takes the
        document over exactly when it was set to failed, and it is visible exactly when it was never deleted and is
        not being deleted; a deletion mark stays, and no other document changes. */
    method UpdateDocumentStatus(o: Owner, st: Status)
      modifies `docs
      ensures docs == UpdateStatus(old(docs), o, st)
      ensures forall x <- old(docs) :: x in docs && (old(docs)[x].deletedAt ==> docs[x].deletedAt)
                                       && (x != o.document ==> docs[x] == old(docs)[x])
      ensures !Exists(old(docs), o) ==> docs == old(docs)
      ensures Exists(old(docs), o) ==>
                && docs.Keys == old(docs).Keys && docs[o.document].status == st
                && docs[o.document].deletedAt == (old(docs)[o.document].deletedAt || st == Deleted)
                && docs[o.document].space == old(docs)[o.document].space
                && docs[o.document].retries == old(docs)[o.document].retries
                && docs[o.document].failures
                   == old(docs)[o.document].failures + if st == Failed && old(docs)[o.document].status != Failed
                       then 1 else 0
      ensures Exists(old(docs), o) ==> Exists(docs, o) && (CanReset(docs, o) <==> st == Failed)
      ensures Exists(old(docs), o) ==> forall sp: Id :: Live(docs, o, sp) <==>
                old(docs)[o.document].space == sp && !old(docs)[o.document].deletedAt && st !in {Deleting, Deleted}
    {
      if o.document in docs && docs[o.document].tenant == o.tenant {
        var row := docs[o.document];
        if st == Failed && row.status != Failed {
          row := row.(failures := row.failures + 1);
        }
        row := row.(status := st);
        if st == Deleted {
          row := row.(deletedAt := true);
        }
        docs := docs[o.document := row];
      }
    }

    /** `reset_failed_document`: only one of several concurrent retries takes over. */
    method ResetFailedDocument(o: Owner) returns (reset: bool)
      modifies `docs
      ensures docs == ResetFailed(old(docs), o)
      ensures reset <==>
                && o.document in old(docs) && old(docs)[o.document].tenant == o.tenant
                && old(docs)[o.document].status == Failed
      ensures !reset ==> docs == old(docs)
      ensures reset ==>
                var row := old(docs)[o.document];
                docs == old(docs)[o.document := row.(status := Pending, retries := row.retries + 1)]
      ensures !CanReset(docs, o)
    {
      reset := o.document in docs && docs[o.document].tenant == o.tenant && docs[o.document].status == Failed;
      if reset {
        var row := docs[o.document];
        docs := docs[o.document := row.(status := Pending, retries := row.retries + 1)];
      }
    }

    /** `save_chunks`: one upsert per chunk in one transaction. It is rolled back exactly when some row, after those
        before it, breaks the unique key. */
    method SaveChunks(batch: seq<NewRow>) returns (saved: bool)
      requires Valid()
      modifies `rows
      ensures Valid()
      ensures saved <==> forall n :: 0 <= n <= |batch| ==> OneRowPerIndex(PutAll(old(rows), batch[..n]))
      ensures rows == if saved then PutAll(old(rows), batch) else old(rows)
      ensures saved ==>
                && (forall c: Id :: c in rows <==> c in old(rows) || HasKey(batch, c))
                && (forall c <- old(rows) :: rows[c].owner == old(rows)[c].owner)
                && (forall c <- old(rows) :: !HasKey(batch, c) ==> rows[c] == old(rows)[c])
                && (forall i :: 0 <= i < |batch| && !HasKey(batch[i + 1..], batch[i].key) ==>
                      rows[batch[i].key].index == batch[i].row.index)
                && (forall i :: 0 <= i < |batch| && batch[i].key !in old(rows) && !HasKey(batch[..i], batch[i].key) ==>
                      rows[batch[i].key].owner == batch[i].row.owner)
    {
      var before := rows;
      assert batch[..0] == [];
      for i := 0 to |batch|
        invariant rows == PutAll(before, batch[..i])
        invariant forall n :: 0 <= n <= i ==> OneRowPerIndex(PutAll(before, batch[..n]))
      {
        PutAllSnoc(before, batch, i);
        ClashIffBroken(rows, batch[i]);
        if Clashes(rows, batch[i]) {
          rows := before;
          assert !OneRowPerIndex(PutAll(before, batch[..i + 1]));
          return false;
        }
        rows := Put(rows, batch[i]);
      }
      assert batch[..|batch|] == batch;
      PutAllMeans(before, batch);
      return true;
    }

    /** `delete_chunks_by_document`: the chunks of the document can no longer be read, all others as before. */
    method DeleteChunksByDocument(o: Owner)
      requires Valid()
      modifies `rows
      ensures Valid() && rows == RowsWithout(old(rows), o)
      ensures forall keys: set<Id>, tenant: Id, sp: Id ::
                GetChunks(docs, rows, keys, tenant, sp)
                == set c <- GetChunks(docs, old(rows), keys, tenant, sp) | old(rows)[c].owner != o
    {
      rows := map c <- rows | rows[c].owner != o :: rows[c];
    }

    /** What the three deletions leave: every entry and every row of other documents, and none of this one. */
    twostate predicate Cleared(o: Owner)
      reads this
    {
      && (forall e: Entry :: e in vectors <==> e in old(vectors) && e.owner != o)
      && (forall e: Entry :: e in keywords <==> e in old(keywords) && e.owner != o)
      && (forall c: Id :: c in rows <==> c in old(rows) && old(rows)[c].owner != o)
      && (forall c <- rows :: rows[c] == old(rows)[c])
    }

    /** The three deletions shared by `delete` and `retry_ingestion`. */
    method ClearStores(o: Owner)
      requires Valid()
      modifies `vectors, `keywords, `rows
      ensures Valid() && Cleared(o)
      ensures vectors == EntriesWithout(old(vectors), o) && keywords == EntriesWithout(old(keywords), o)
      ensures rows == RowsWithout(old(rows), o)
    {
      vectors := set e <- vectors | e.owner != o;
      keywords := set e <- keywords | e.owner != o;
      DeleteChunksByDocument(o);
    }

    /** `delete`, when nothing else runs: refused without a change for a document that cannot be seen, or complete. */
    method Delete(o: Owner) returns (deleted: bool)
      requires Valid()
      modifies this
      ensures Valid()
      ensures deleted <==> Visible(old(docs), o)
      ensures !deleted ==> unchanged(this)
      ensures deleted ==>
        && docs == old(docs)[o.document := old(docs)[o.document].(status := Deleted, deletedAt := true)]
        && Cleared(o)
        && rows == RowsWithout(old(rows), o)
        && vectors == EntriesWithout(old(vectors), o) && keywords == EntriesWithout(old(keywords), o)
    {
      if !Visible(docs, o) {
        return false;
      }
      if docs[o.document].status in {Deleting, Deleted} {
        assert false;
      }
      UpdateDocumentStatus(o, Deleting);
      ClearStores(o);
      UpdateDocumentStatus(o, Deleted);
      return true;
    }

    /** `retry_ingestion` up to the start of the new run, and its failure branch: only a failed document that can be
        seen is taken over. */
    method RetryIngestion(o: Owner, canStart: bool) returns (started: bool)
      requires Valid()
      modifies this
      ensures Valid()
      ensures started <==> Visible(old(docs), o) && CanReset(old(docs), o) && canStart
      ensures !(Visible(old(docs), o) && CanReset(old(docs), o)) ==> unchanged(this)
      ensures Visible(old(docs), o) && CanReset(old(docs), o) ==>
        && docs == (if canStart then ResetFailed(old(docs), o) else UpdateStatus(ResetFailed(old(docs), o), o, Failed))
        && o.document in docs && docs == old(docs)[o.document := docs[o.document]]
        && docs[o.document].status == (if canStart then Pending else Failed)
        && docs[o.document].deletedAt == old(docs)[o.document].deletedAt
        && docs[o.document].retries == old(docs)[o.document].retries + 1
        && docs[o.document].failures == old(docs)[o.document].failures + (if canStart then 0 else 1)
        && Cleared(o)
        && rows == RowsWithout(old(rows), o)
        && vectors == EntriesWithout(old(vectors), o) && keywords == EntriesWithout(old(keywords), o)
    {
      if !Visible(docs, o) || docs[o.document].status != Failed {
        return false;
      }
      var reset := ResetFailedDocument(o);
      if !reset {
        assert false;
      }
      ClearStores(o);
      if !canStart {
        UpdateDocumentStatus(o, Failed);
      }
      return canStart;
    }
  }

  lemma PutAllSnoc(rows: map<Id, Row>, batch: seq<NewRow>, i: nat)
    requires i < |batch|
    ensures PutAll(rows, batch[..i + 1]) == Put(PutAll(rows, batch[..i]), batch[i])
  {
    assert batch[..i + 1][..i] == batch[..i];
  }

  lemma HasKeySnoc(batch: seq<NewRow>, r: NewRow, c: Id)
    ensures HasKey(batch + [r], c) <==> HasKey(batch, c) || r.key == c
  {
    var more := batch + [r];
    assert more[|batch|] == r && forall i :: 0 <= i < |batch| ==> more[i] == batch[i];
  }

  lemma {:induction false} PutAllKeys(rows: map<Id, Row>, batch: seq<NewRow>)
    ensures var r := PutAll(rows, batch);
            && (forall c: Id :: c in r <==> c in rows || HasKey(batch, c))
            && (forall c <- rows :: r[c].owner == rows[c].owner)
            && (forall c <- rows :: !HasKey(batch, c) ==> r[c] == rows[c])
  {
    if batch != [] {
      var n := |batch| - 1;
      PutAllKeys(rows, batch[..n]);
      assert batch == batch[..n] + [batch[n]];
      forall c: Id {
        HasKeySnoc(batch[..n], batch[n], c);
      }
    }
  }

  lemma {:induction false} PutAllLast(rows: map<Id, Row>, batch: seq<NewRow>, i: nat)
    requires i < |batch| && !HasKey(batch[i + 1..], batch[i].key)
    ensures var r := PutAll(rows, batch); batch[i].key in r && r[batch[i].key].index == batch[i].row.index
  {
    var n := |batch| - 1;
    if i < n {
      assert batch[i + 1..] == batch[..n][i + 1..] + [batch[n]];
      HasKeySnoc(batch[..n][i + 1..], batch[n], batch[i].key);
      PutAllLast(rows, batch[..n], i);
    }
  }

  lemma {:induction false} PutAllFirst(rows: map<Id, Row>, batch: seq<NewRow>, i: nat)
    requires i < |batch| && batch[i].key !in rows && !HasKey(batch[..i], batch[i].key)
    ensures var r := PutAll(rows, batch); batch[i].key in r && r[batch[i].key].owner == batch[i].row.owner
  {
    var n := |batch| - 1;
    PutAllKeys(rows, batch[..n]);
    if i < n {
      assert batch[..n][..i] == batch[..i];
      PutAllFirst(rows, batch[..n], i);
    }
  }

  /** The upserts one by one: a row keeps its document, the last index that was given for it counts. */
  lemma PutAllMeans(rows: map<Id, Row>, batch: seq<NewRow>)
    ensures var r := PutAll(rows, batch);
            && (forall c: Id :: c in r <==> c in rows || HasKey(batch, c))
            && (forall c <- rows :: r[c].owner == rows[c].owner)
            && (forall c <- rows :: !HasKey(batch, c) ==> r[c] == rows[c])
            && (forall i :: 0 <= i < |batch| && !HasKey(batch[i + 1..], batch[i].key) ==>
                  batch[i].key in r && r[batch[i].key].index == batch[i].row.index)
            && (forall i :: 0 <= i < |batch| && batch[i].key !in rows && !HasKey(batch[..i], batch[i].key) ==>
                  batch[i].key in r && r[batch[i].key].owner == batch[i].row.owner)
  {
    PutAllKeys(rows, batch);
    forall i | 0 <= i < |batch| && !HasKey(batch[i + 1..], batch[i].key) {
      PutAllLast(rows, batch, i);
    }
    forall i | 0 <= i < |batch| && batch[i].key !in rows && !HasKey(batch[..i], batch[i].key) {
      PutAllFirst(rows, batch, i);
    }
  }

  lemma ClashIffBroken(rows: map<Id, Row>, r: NewRow)
    requires OneRowPerIndex(rows)
    ensures Clashes(rows, r) <==> !OneRowPerIndex(Put(rows, r))
  {
    var rows' := Put(rows, r);
    if c :| c in rows && c != r.key && rows[c].index == r.row.index
            && rows[c].owner.document == (if r.key in rows then rows[r.key] else r.row).owner.document {
      assert rows'[c] == rows[c] && rows'[r.key].index == r.row.index;
    }
  }

  // ---------- The batches of an ingestion ----------

  ghost predicate DistinctKeys(batch: seq<NewRow>) {
    forall i, j :: 0 <= i < j < |batch| ==> batch[i].key != batch[j].key
  }

  function RowsOfBatch(batch: seq<NewRow>): map<Id, Row> {
    if batch == [] then map[] else RowsOfBatch(batch[..|batch| - 1])[batch[|batch| - 1].key := batch[|batch| - 1].row]
  }

  lemma {:induction false} BatchKeys(batch: seq<NewRow>)
    ensures forall k :: k in RowsOfBatch(batch) <==> exists i :: 0 <= i < |batch| && batch[i].key == k
  {
    if batch != [] {
      var n := |batch| - 1;
      BatchKeys(batch[..n]);
      forall k ensures k in RowsOfBatch(batch) <==> exists i :: 0 <= i < |batch| && batch[i].key == k {
        if i :| 0 <= i < |batch| && batch[i].key == k && i < n {
          assert batch[..n][i].key == k;
        }
        if i :| 0 <= i < |batch[..n]| && batch[..n][i].key == k {
          assert batch[i].key == k;
        }
      }
    }
  }

  lemma UpsertSnoc(rows: map<Id, Row>, m: map<Id, Row>, r: NewRow)
    requires r.key !in m
    ensures Put(Upsert(rows, m), r) == Upsert(rows, m[r.key := r.row])
  {
  }

  /** The upserts one by one are the one statement of the state machine. */
  lemma {:induction false} PutAllIsUpsert(rows: map<Id, Row>, batch: seq<NewRow>)
    requires DistinctKeys(batch)
    ensures PutAll(rows, batch) == Upsert(rows, RowsOfBatch(batch))
  {
    if batch != [] {
      var n := |batch| - 1;
      PutAllIsUpsert(rows, batch[..n]);
      BatchKeys(batch[..n]);
      assert forall i :: 0 <= i < n ==> batch[..n][i].key == batch[i].key;
      UpsertSnoc(rows, RowsOfBatch(batch[..n]), batch[n]);
    }
  }

  /** A chunk that is saved again has the index it had. */
  ghost predicate KeepsIndexes(rows: map<Id, Row>, batch: seq<NewRow>) {
    forall i :: 0 <= i < |batch| ==> batch[i].key in rows ==> rows[batch[i].key].index == batch[i].row.index
  }

  lemma {:induction false} PutAllGrows(rows: map<Id, Row>, batch: seq<NewRow>, n: nat)
    requires n <= |batch| && DistinctKeys(batch) && KeepsIndexes(rows, batch)
    ensures forall c <- PutAll(rows, batch[..n]) ::
              c in PutAll(rows, batch) && PutAll(rows, batch)[c] == PutAll(rows, batch[..n])[c]
    decreases |batch| - n
  {
    if n == |batch| {
      assert batch[..n] == batch;
    } else {
      PutAllGrows(rows, batch, n + 1);
      PutAllSnoc(rows, batch, n);
      SavedBefore(rows, batch, n);
    }
  }

  lemma {:induction false} SavedBefore(rows: map<Id, Row>, batch: seq<NewRow>, n: nat)
    requires n < |batch| && DistinctKeys(batch) && KeepsIndexes(rows, batch)
    ensures var key := batch[n].key;
            key in PutAll(rows, batch[..n]) ==> PutAll(rows, batch[..n])[key].index == batch[n].row.index
  {
    PutAllIsUpsert(rows, batch[..n]);
    BatchKeys(batch[..n]);
    assert forall i :: 0 <= i < n ==> batch[..n][i].key == batch[i].key;
  }

  /** For the batches of an ingestion, whose chunks never change their index, saving row by row succeeds exactly
      when the whole result obeys the unique key: the step of the state machine. */
  lemma SaveChunksIsOneStep(rows: map<Id, Row>, batch: seq<NewRow>)
    requires DistinctKeys(batch) && KeepsIndexes(rows, batch)
    ensures (forall n :: 0 <= n <= |batch| ==> OneRowPerIndex(PutAll(rows, batch[..n])))
            <==> OneRowPerIndex(Upsert(rows, RowsOfBatch(batch)))
    ensures PutAll(rows, batch) == Upsert(rows, RowsOfBatch(batch))
  {
    PutAllIsUpsert(rows, batch);
    assert batch[..|batch|] == batch;
    forall n | 0 <= n <= |batch| {
      PutAllGrows(rows, batch, n);
    }
  }
}
