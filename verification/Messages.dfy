/**
 Transcript rows and their order (ios/DelightApp/BridgeModels.swift, SDKBridge.swift).

 A row's blocks enter every decision below only through blocksSignature, so a row carries that
 signature in their place. Swift's Int64 is an int: nothing below adds to or multiplies one.
 */
module Messages {
  import opened Common

  const INT64_MAX: int := 0x7fff_ffff_ffff_ffff
  const ECHO_WINDOW_MS := 5_000
  const LOCAL_PREFIX := "local-"

  datatype Role = User | Assistant | System | Tool | EventRole | UnknownRole

  datatype Row = Row(
    id: string, seqNo: Option<int>, localID: Option<string>, uuid: Option<string>,
    role: Role, signature: string, createdAt: Option<int>)
  {
    predicate IsLocal() { LOCAL_PREFIX <= id }

    /** The bubble shown before the server has echoed the user's message. */
    predicate IsOptimistic() { IsLocal() && role == User }

    predicate HasUUID() { uuid.GetOr("") != "" }
  }

  ghost predicate DistinctIds(rows: seq<Row>) {
    forall i, j | 0 <= i < j < |rows| :: rows[i].id != rows[j].id
  }

  // ----- Order -----

  predicate IdLess(a: string, b: string) {
    b != [] && (a == [] || a[0] < b[0] || (a[0] == b[0] && IdLess(a[1..], b[1..])))
  }

  /** messageSortKey: sequence number, then time, then id; a row without a number sorts last. */
  predicate SortsBefore(l: Row, r: Row) {
    var lSeq, rSeq := l.seqNo.GetOr(INT64_MAX), r.seqNo.GetOr(INT64_MAX);
    if lSeq != rSeq then lSeq < rSeq
    else
      var lTime, rTime := l.createdAt.GetOr(0), r.createdAt.GetOr(0);
      if lTime != rTime then lTime < rTime else IdLess(l.id, r.id)
  }

  lemma {:induction false} IdLessTotal(a: string, b: string)
    ensures !(IdLess(a, b) && IdLess(b, a))
    ensures IdLess(a, b) || IdLess(b, a) || a == b
    ensures a == b ==> !IdLess(a, b)
  {
    if a != [] && b != [] && a[0] == b[0] {
      IdLessTotal(a[1..], b[1..]);
      assert a == [a[0]] + a[1..] && b == [b[0]] + b[1..];
    }
  }

  lemma {:induction false} IdLessTransitive(a: string, b: string, c: string)
    requires IdLess(a, b) && IdLess(b, c)
    ensures IdLess(a, c)
  {
    if a != [] && a[0] == b[0] && b[0] == c[0] {
      IdLessTransitive(a[1..], b[1..], c[1..]);
    }
  }

  /** Where the two ids first differ, the first has the smaller character, or has ended. */
  ghost predicate ReadsBefore(a: string, b: string) {
    exists n :: DiffersAt(a, b, n)
  }

  ghost predicate DiffersAt(a: string, b: string, n: nat) {
    n <= |a| && n < |b| && a[..n] == b[..n] && (n == |a| || a[n] < b[n])
  }

  lemma DiffersInTails(c: char, a: string, b: string, n: nat)
    ensures DiffersAt([c] + a, [c] + b, n + 1) <==> DiffersAt(a, b, n)
  {
    if n <= |a| && n < |b| {
      assert ([c] + a)[..n + 1] == [c] + a[..n] && ([c] + b)[..n + 1] == [c] + b[..n];
      assert ([c] + a[..n])[1..] == a[..n] && ([c] + b[..n])[1..] == b[..n];
    }
  }

  lemma HeadsAgree(a: string, b: string, n: nat)
    requires DiffersAt(a, b, n)
    ensures n > 0 ==> a[0] == b[0]
  {
    if n > 0 {
      assert a[..n][0] == b[..n][0];
    }
  }

  lemma {:induction false} IdLessIsAlphabetical(a: string, b: string)
    ensures IdLess(a, b) <==> ReadsBefore(a, b)
  {
    if a != [] && b != [] && a[0] == b[0] {
      IdLessIsAlphabetical(a[1..], b[1..]);
      assert a == [a[0]] + a[1..] && b == [b[0]] + b[1..];
      if n: nat :| DiffersAt(a[1..], b[1..], n) {
        DiffersInTails(a[0], a[1..], b[1..], n);
        assert DiffersAt(a, b, n + 1);
      }
      if n: nat :| DiffersAt(a, b, n) {
        DiffersInTails(a[0], a[1..], b[1..], n - 1);
      }
    } else {
      assert DiffersAt(a, b, 0) <==> IdLess(a, b);
      forall n: nat | DiffersAt(a, b, n)
        ensures n == 0
      {
        HeadsAgree(a, b, n);
      }
    }
  }

  /**
   What a reader finds of two rows, one above the other: a row without a sequence number is above a
   numbered one only if that has the largest number there is, numbers do not fall, and rows of one
   number, or of none, go by time (0 for a row without one) and then by id.
   */
  ghost predicate ReadsInOrder(above: Row, below: Row) {
    && (above.seqNo.None? && below.seqNo.Some? ==> below.seqNo.value >= 9_223_372_036_854_775_807)
    && (above.seqNo.Some? && below.seqNo.Some? ==> above.seqNo.value <= below.seqNo.value)
    && (above.seqNo == below.seqNo ==>
      var t, u := if above.createdAt.Some? then above.createdAt.value else 0,
                  if below.createdAt.Some? then below.createdAt.value else 0;
      t < u || (t == u && ReadsBefore(above.id, below.id)))
  }

  lemma SortedReadsInOrder(rows: seq<Row>, i: nat, j: nat)
    requires Sorted(rows) && i < j < |rows|
    ensures ReadsInOrder(rows[i], rows[j])
  {
    assert SortsBefore(rows[i], rows[j]);
    IdLessIsAlphabetical(rows[i].id, rows[j].id);
  }

  /** messageSortKey is a strict total order on rows with distinct ids. */
  lemma SortsBeforeIsStrictTotalOrder(x: Row, y: Row, z: Row)
    ensures !SortsBefore(x, x)
    ensures !(SortsBefore(x, y) && SortsBefore(y, x))
    ensures x.id != y.id ==> SortsBefore(x, y) || SortsBefore(y, x)
    ensures SortsBefore(x, y) && SortsBefore(y, z) ==> SortsBefore(x, z)
  {
    IdLessTotal(x.id, x.id);
    IdLessTotal(x.id, y.id);
    if IdLess(x.id, y.id) && IdLess(y.id, z.id) {
      IdLessTransitive(x.id, y.id, z.id);
    }
  }

  ghost predicate Sorted(rows: seq<Row>) {
    forall i, j | 0 <= i < j < |rows| :: SortsBefore(rows[i], rows[j])
  }

  // ----- Sorting a set of rows -----

  function InsertRow(row: Row, rows: seq<Row>): seq<Row> {
    if rows == [] then [row]
    else if SortsBefore(row, rows[0]) then [row] + rows
    else [rows[0]] + InsertRow(row, rows[1..])
  }

  lemma {:induction false} InsertKeepsSorted(row: Row, rows: seq<Row>)
    requires Sorted(rows) && forall r <- rows :: r.id != row.id
    ensures Sorted(InsertRow(row, rows))
    ensures forall r :: r in InsertRow(row, rows) <==> r == row || r in rows
  {
    if rows != [] {
      SortsBeforeIsStrictTotalOrder(row, rows[0], row);
      if SortsBefore(row, rows[0]) {
        forall r | r in rows[1..]
          ensures SortsBefore(row, r)
        {
          SortsBeforeIsStrictTotalOrder(row, rows[0], r);
        }
      } else {
        InsertKeepsSorted(row, rows[1..]);
        var rest := InsertRow(row, rows[1..]);
        forall j | 0 <= j < |rest|
          ensures SortsBefore(rows[0], rest[j])
        {
          assert rest[j] in rest;
        }
      }
    }
  }

  ghost predicate IsSortOf(s: seq<Row>, rows: set<Row>) {
    Sorted(s) && forall r :: r in s <==> r in rows
  }

  ghost predicate Keyed(rows: set<Row>) {
    forall a, b | a in rows && b in rows && a.id == b.id :: a == b
  }

  ghost function SortedOf(rows: set<Row>): (s: seq<Row>)
    requires Keyed(rows)
    ensures IsSortOf(s, rows)
  {
    if rows == {} then []
    else
      var r :| r in rows;
      var rest := SortedOf(rows - {r});
      InsertKeepsSorted(r, rest);
      InsertRow(r, rest)
  }

  /** Whatever order the rows come in, sorting them gives one result. */
  lemma {:induction false} SortIsUnique(s: seq<Row>, t: seq<Row>, rows: set<Row>)
    requires IsSortOf(s, rows) && IsSortOf(t, rows)
    ensures s == t
  {
    assert (s != [] ==> s[0] in rows) && (t != [] ==> t[0] in rows);
    if s != [] && t != [] {
      assert s[0] in t && t[0] in s;
      SortsBeforeIsStrictTotalOrder(s[0], t[0], s[0]);
      assert s[0] == t[0];
      TailSorts(s, rows);
      TailSorts(t, rows);
      SortIsUnique(s[1..], t[1..], rows - {s[0]});
      assert s == [s[0]] + s[1..] && t == [t[0]] + t[1..];
    }
  }

  lemma TailSorts(s: seq<Row>, rows: set<Row>)
    requires s != [] && IsSortOf(s, rows)
    ensures IsSortOf(s[1..], rows - {s[0]})
  {
    SortsBeforeIsStrictTotalOrder(s[0], s[0], s[0]);
    forall r
      ensures r in s[1..] <==> r in rows - {s[0]}
    {
      if r in s[1..] {
        var k :| 0 <= k < |s[1..]| && s[1..][k] == r;
        assert r == s[k + 1] && SortsBefore(s[0], s[k + 1]);
      }
      if r in rows && r != s[0] {
        assert r in s;
      }
    }
  }

  /** In a sorted list of rows keyed by id no id comes twice. */
  lemma SortedIdsDistinct(s: seq<Row>, rows: set<Row>)
    requires Sorted(s) && Keyed(rows) && forall r <- s :: r in rows
    ensures DistinctIds(s)
  {
    forall i, j | 0 <= i < j < |s|
      ensures s[i].id != s[j].id
    {
      assert s[i] in rows && s[j] in rows && SortsBefore(s[i], s[j]);
      SortsBeforeIsStrictTotalOrder(s[i], s[i], s[i]);
    }
  }
}
