/** The ordered readers of a session's messages, and the working memory built from them. */
module WorkingMemory {
  import opened Common
  import opened Turns
  import opened TurnProtocol
  import opened TurnTheorems

  // ---------- The readers of the session repository, over rows in order of creation ----------

  function Reverse<T>(s: seq<T>): (r: seq<T>)
    ensures |r| == |s| && forall i :: 0 <= i < |s| ==> r[i] == s[|s| - 1 - i]
  {
    if s == [] then [] else Reverse(s[1..]) + [s[0]]
  }

  /** ORDER BY created_at ASC LIMIT n */
  function GetFirst<T>(rows: seq<T>, n: nat): seq<T> {
    if n <= |rows| then rows[..n] else rows
  }

  /** ORDER BY created_at DESC LIMIT n, then reversed. */
  function GetLast<T>(rows: seq<T>, n: nat): seq<T> {
    Reverse(GetFirst(Reverse(rows), n))
  }

  /** ORDER BY created_at ASC OFFSET skipFirst, then a slice that drops the last rows. */
  function GetMiddle<T>(rows: seq<T>, skipFirst: nat, skipLast: nat): seq<T> {
    var tail := if skipFirst <= |rows| then rows[skipFirst..] else [];
    if skipLast == 0 then tail
    else if skipLast <= |tail| then tail[..|tail| - skipLast]
    else []
  }

  lemma GetLastIsSuffix<T>(rows: seq<T>, n: nat)
    ensures GetLast(rows, n) == if n <= |rows| then rows[|rows| - n..] else rows
  {
  }

  lemma Windows<T>(rows: seq<T>, first: nat, last: nat)
    requires first + last <= |rows|
    ensures GetFirst(rows, first) + GetMiddle(rows, first, last) + GetLast(rows, last) == rows
  {
    GetLastIsSuffix(rows, last);
    var n := |rows| - last;
    assert GetMiddle(rows, first, last) == rows[first..n];
    assert rows == rows[..first] + rows[first..n] + rows[n..];
  }

  /** First, middle and last together are the whole history exactly when the windows do not overlap. */
  lemma PartitionIff<T>(rows: seq<T>, first: nat, last: nat)
    ensures GetFirst(rows, first) + GetMiddle(rows, first, last) + GetLast(rows, last) == rows
            <==> rows == [] || first == 0 || last == 0 || first + last <= |rows|
  {
    GetLastIsSuffix(rows, last);
    if first + last <= |rows| {
      Windows(rows, first, last);
    } else if rows != [] && first > 0 && last > 0 {
      assert |GetFirst(rows, first)| + |GetLast(rows, last)| > |rows|;
    } else {
      assert GetMiddle(rows, first, last) == [];
    }
  }

  // ---------- load_working_memory ----------

  const ANCHOR := 2

  datatype Memory<T> = Memory(anchor: seq<T>, recent: seq<T>, count: nat)

  /** `load_working_memory`: the session row is read first, then the messages in one or two further
      transactions; the history may have grown in between. */
  function Load<T>(row: Option<Session>, history1: seq<T>, history2: seq<T>, lastN: nat): Memory<T> {
    match row
    case None => Memory([], [], 0)
    case Some(s) =>
      if s.count <= lastN + ANCHOR then Memory([], history1, s.count)
      else Memory(GetFirst(history1, ANCHOR), GetLast(history2, lastN), s.count)
  }

  /** A list of all message rows of the session, each once. */
  ghost predicate Lists(t: Tables, session: Id, rows: seq<Id>) {
    && (forall m :: m in rows <==> m in RowsOf(t, session))
    && (forall i, j :: 0 <= i < j < |rows| ==> rows[i] != rows[j])
  }

  lemma {:induction false} ListLength(rows: seq<Id>, all: set<Id>)
    requires forall m :: m in rows <==> m in all
    requires forall i, j :: 0 <= i < j < |rows| ==> rows[i] != rows[j]
    ensures |rows| == |all|
  {
    if rows != [] {
      var n := |rows| - 1;
      forall m ensures m in rows[..n] <==> m in all - {rows[n]} {
        assert m in rows ==> m in rows[..n] || m == rows[n];
      }
      ListLength(rows[..n], all - {rows[n]});
    } else {
      assert all == {};
    }
  }

  /** In any reachable state, with messages appended while the memory is loaded: either every message is
      loaded, or the anchor, the middle that is compressed, and the recent messages are exactly the whole
      history, in order, nothing lost and nothing twice. */
  lemma MemoryIsWhole(events: seq<Event>, session: Id, h0: seq<Id>, h1: seq<Id>, h2: seq<Id>, lastN: nat)
    requires var t := Run(EMPTY, events).db; session in t.sessions && Lists(t, session, h0)
    requires h0 <= h1 <= h2
    ensures var row := Run(EMPTY, events).db.sessions[session];
            var memory := Load(Some(row), h1, h2, lastN);
            if |h0| <= lastN + 2 then memory.anchor == [] && memory.recent == h1
            else
              && |memory.anchor| == 2 && |memory.recent| == lastN
              && memory.anchor + GetMiddle(h2, 2, lastN) + memory.recent == h2
  {
    var t := Run(EMPTY, events).db;
    MessageCountIsRows(events, session);
    ListLength(h0, RowsOf(t, session));
    if |h0| > lastN + ANCHOR {
      PartitionIff(h2, ANCHOR, lastN);
      GetLastIsSuffix(h2, lastN);
      assert GetFirst(h1, ANCHOR) == GetFirst(h2, ANCHOR);
    }
  }
}
