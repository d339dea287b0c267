/** Folding near-simultaneous duplicates of one user message (squashDuplicateUserMessages, preferUUIDMessage). */
module Squash {
  import opened Common
  import opened Messages

  predicate IsNearInTime(a: Option<int>, b: Option<int>) {
    && a.Some? && b.Some?
    && (if a.value > b.value then a.value - b.value else b.value - a.value) <= ECHO_WINDOW_MS
  }

  /** Two user rows with the same content, created within the echo window. */
  predicate Duplicates(a: Row, b: Row) {
    a.role == User && b.role == User && a.signature == b.signature && IsNearInTime(a.createdAt, b.createdAt)
  }

  lemma DuplicatesExactly(a: Row, b: Row)
    ensures Duplicates(a, b) <==>
      && a.role == b.role == User && a.signature == b.signature
      && a.createdAt.Some? && b.createdAt.Some? && -5_000 <= a.createdAt.value - b.createdAt.value <= 5_000
  {
  }

  function PreferUUIDMessage(lhs: Row, rhs: Row): Row {
    if lhs.HasUUID() != rhs.HasUUID() then
      if rhs.HasUUID() then rhs else lhs
    else if lhs.seqNo.Some? && rhs.seqNo.Some? && lhs.seqNo != rhs.seqNo then
      if rhs.seqNo.value > lhs.seqNo.value then rhs else lhs
    else if lhs.createdAt.Some? && rhs.createdAt.Some? && lhs.createdAt != rhs.createdAt then
      if rhs.createdAt.value > lhs.createdAt.value then rhs else lhs
    else rhs
  }

  /**
   Of two duplicates in sorted order the later one is kept, unless only the earlier one has a
   uuid, or they are alike in that, do not both have sequence numbers, and the earlier is newer.
   */
  lemma LaterRowIsKeptUnless(lhs: Row, rhs: Row)
    requires SortsBefore(lhs, rhs) && Duplicates(lhs, rhs)
    ensures PreferUUIDMessage(lhs, rhs) ==
      if lhs.HasUUID() && !rhs.HasUUID() then lhs
      else if lhs.HasUUID() == rhs.HasUUID() && (lhs.seqNo.None? || rhs.seqNo.None?)
        && lhs.createdAt.value > rhs.createdAt.value then lhs
      else rhs
  {
  }

  function Last(rows: seq<Row>): Row
    requires rows != []
  {
    rows[|rows| - 1]
  }

  function Init(rows: seq<Row>): seq<Row>
    requires rows != []
  {
    rows[..|rows| - 1]
  }

  function Absorb(result: seq<Row>, item: Row): seq<Row> {
    if result != [] && Duplicates(Last(result), item)
    then Init(result) + [PreferUUIDMessage(Last(result), item)]
    else result + [item]
  }

  function SquashDuplicates(sorted: seq<Row>): seq<Row> {
    if sorted == [] then [] else Absorb(SquashDuplicates(Init(sorted)), Last(sorted))
  }

  method SquashDuplicateUserMessages(sorted: seq<Row>) returns (result: seq<Row>)
    ensures result == SquashDuplicates(sorted)
  {
    if |sorted| < 2 {
      if |sorted| == 1 {
        assert Init(sorted) == [] && sorted == [Last(sorted)];
      }
      return sorted;
    }
    result := [];
    for i := 0 to |sorted|
      invariant result == SquashDuplicates(sorted[..i])
    {
      var item := sorted[i];
      assert Init(sorted[..i + 1]) == sorted[..i];
      if result != [] && Duplicates(result[|result| - 1], item) {
        var keep := PreferUUIDMessage(result[|result| - 1], item);
        result := result[|result| - 1 := keep];
        continue;
      }
      result := result + [item];
    }
    assert sorted[..|sorted|] == sorted;
  }

  // ----- The result is a subsequence of its input -----

  ghost predicate Subsequence(s: seq<Row>, t: seq<Row>) {
    if s == [] then true
    else if t == [] then false
    else if Last(s) == Last(t) then Subsequence(Init(s), Init(t))
    else Subsequence(s, Init(t))
  }

  lemma {:induction false} InitOfSubsequence(s: seq<Row>, t: seq<Row>)
    requires s != [] && Subsequence(s, t)
    ensures t != [] && Subsequence(Init(s), Init(t))
    decreases |t|, 0
  {
    if Last(s) != Last(t) {
      InitOfSubsequence(s, Init(t));
      SubsequenceGrows(Init(s), Init(Init(t)), Last(Init(t)));
      assert Init(t) == Init(Init(t)) + [Last(Init(t))];
    }
  }

  lemma {:induction false} SubsequenceGrows(s: seq<Row>, t: seq<Row>, item: Row)
    requires Subsequence(s, t)
    ensures Subsequence(s, t + [item])
    decreases |t|, 1
  {
    assert Init(t + [item]) == t;
    if s != [] && Last(s) == item {
      InitOfSubsequence(s, t);
      SubsequenceGrows(Init(s), Init(t), Last(t));
      assert t == Init(t) + [Last(t)];
    }
  }

  lemma {:induction false} SubsequenceMembers(s: seq<Row>, t: seq<Row>)
    requires Subsequence(s, t)
    ensures forall r <- s :: r in t
  {
    if s != [] {
      if Last(s) == Last(t) {
        SubsequenceMembers(Init(s), Init(t));
        assert s == Init(s) + [Last(s)];
      } else {
        SubsequenceMembers(s, Init(t));
      }
    }
  }

  lemma SubsequenceSnoc(s: seq<Row>, t: seq<Row>, item: Row)
    requires Subsequence(s, t)
    ensures Subsequence(s + [item], t + [item])
  {
    assert Init(s + [item]) == s && Init(t + [item]) == t;
  }

  lemma SubsequenceShrinks(s: seq<Row>, t: seq<Row>)
    requires s != [] && Subsequence(s, t)
    ensures Subsequence(Init(s), t)
  {
    InitOfSubsequence(s, t);
    SubsequenceGrows(Init(s), Init(t), Last(t));
    assert t == Init(t) + [Last(t)];
  }

  lemma AbsorbIsSubsequence(s: seq<Row>, t: seq<Row>, item: Row)
    requires Subsequence(s, t)
    ensures Subsequence(Absorb(s, item), t + [item])
  {
    var result := Absorb(s, item);
    if s != [] && Duplicates(Last(s), item) {
      assert s == Init(s) + [Last(s)];
      if Last(result) == item {
        SubsequenceShrinks(s, t);
        SubsequenceSnoc(Init(s), t, item);
        assert result == Init(s) + [item];
      } else {
        SubsequenceGrows(s, t, item);
        assert result == s;
      }
    } else {
      SubsequenceSnoc(s, t, item);
    }
  }

  lemma {:induction false} SquashIsSubsequence(rows: seq<Row>)
    ensures Subsequence(SquashDuplicates(rows), rows)
  {
    if rows != [] {
      SquashIsSubsequence(Init(rows));
      AbsorbIsSubsequence(SquashDuplicates(Init(rows)), Init(rows), Last(rows));
      assert rows == Init(rows) + [Last(rows)];
    }
  }

  lemma {:induction false} SubsequenceSorted(s: seq<Row>, t: seq<Row>)
    requires Subsequence(s, t) && Sorted(t)
    ensures Sorted(s)
  {
    if s != [] {
      if Last(s) == Last(t) {
        SubsequenceSorted(Init(s), Init(t));
        SubsequenceMembers(Init(s), Init(t));
        forall i | 0 <= i < |s| - 1
          ensures SortsBefore(s[i], Last(s))
        {
          assert s[i] == Init(s)[i] && s[i] in Init(t);
        }
      } else {
        SubsequenceSorted(s, Init(t));
      }
    }
  }

  // ----- A squashed row is linked to a survivor -----

  /** The row a gives way to b: a duplicate, which has a uuid if a has one. */
  ghost predicate GivesWay(a: Row, b: Row) {
    Duplicates(a, b) && (a.HasUUID() ==> b.HasUUID())
  }

  ghost predicate Chain(rows: seq<Row>, chain: seq<Row>) {
    && chain != []
    && (forall r <- chain :: r in rows)
    && (forall i | 0 <= i < |chain| - 1 :: GivesWay(chain[i], chain[i + 1]))
  }

  ghost predicate LinkedTo(rows: seq<Row>, from: Row, survivor: Row) {
    exists chain :: Chain(rows, chain) && chain[0] == from && Last(chain) == survivor
  }

  lemma LinkGrows(rows: seq<Row>, item: Row, from: Row, last: Row)
    requires LinkedTo(rows, from, last)
    ensures LinkedTo(rows + [item], from, last)
  {
    var chain :| Chain(rows, chain) && chain[0] == from && Last(chain) == last;
    assert Chain(rows + [item], chain);
  }

  lemma LinkExtends(rows: seq<Row>, from: Row, last: Row, keep: Row)
    requires LinkedTo(rows, from, last) && keep in rows && GivesWay(last, keep)
    ensures LinkedTo(rows, from, keep)
  {
    var chain :| Chain(rows, chain) && chain[0] == from && Last(chain) == last;
    var longer := chain + [keep];
    assert Chain(rows, longer);
    assert longer[0] == from && Last(longer) == keep;
  }

  /** What one step of the loop does to the rows it already holds and to the new one. */
  lemma AbsorbGivesWay(before: seq<Row>, item: Row)
    ensures var after := Absorb(before, item);
      && (forall r <- before :: r in after || GivesWay(r, Last(after)))
      && (item == Last(after) || GivesWay(item, Last(after)))
  {
    if before != [] {
      assert before == Init(before) + [Last(before)];
    }
  }

  /** Every row reaches a surviving row through rows that each gave way to the next. */
  lemma {:induction false} SquashLosesNothing(rows: seq<Row>, r: Row)
    requires r in rows
    ensures exists survivor :: survivor in SquashDuplicates(rows) && LinkedTo(rows, r, survivor)
  {
    var init, item := Init(rows), Last(rows);
    var before, after := SquashDuplicates(init), SquashDuplicates(rows);
    assert rows == init + [item];
    AbsorbGivesWay(before, item);
    SubsequenceKeeps(rows, Last(after));
    if r in init {
      SquashLosesNothing(init, r);
      var survivor :| survivor in before && LinkedTo(init, r, survivor);
      LinkGrows(init, item, r, survivor);
      if survivor !in after {
        LinkExtends(rows, r, survivor, Last(after));
      }
    } else {
      assert Chain(rows, [item]) && [item][0] == item && Last([item]) == item;
      if item !in after {
        LinkExtends(rows, item, item, Last(after));
      }
    }
  }

  lemma SubsequenceKeeps(rows: seq<Row>, keep: Row)
    requires keep in SquashDuplicates(rows)
    ensures keep in rows
  {
    SquashIsSubsequence(rows);
    SubsequenceMembers(SquashDuplicates(rows), rows);
  }

  lemma OnlyUsersGiveWay(rows: seq<Row>, r: Row)
    requires r in rows && r.role != User
    ensures r in SquashDuplicates(rows)
  {
    SquashLosesNothing(rows, r);
    var survivor :| survivor in SquashDuplicates(rows) && LinkedTo(rows, r, survivor);
    var chain :| Chain(rows, chain) && chain[0] == r && Last(chain) == survivor;
    assert |chain| > 1 ==> GivesWay(chain[0], chain[1]);
  }

  // ----- When no duplicates remain -----

  ghost predicate NoAdjacentDuplicates(rows: seq<Row>) {
    forall i | 0 <= i < |rows| - 1 :: !Duplicates(rows[i], rows[i + 1])
  }

  /**
   Whenever a row would take the place of a duplicate before it, an earlier duplicate of the one is a
   duplicate of the other. It fails only where creation times step back.
   */
  ghost predicate NoStepBack(rows: seq<Row>) {
    forall i, j, k | 0 <= i < j < k < |rows| :: Steady(rows[i], rows[j], rows[k])
  }

  ghost predicate Steady(a: Row, b: Row, c: Row) {
    Duplicates(a, c) && Duplicates(b, c) && PreferUUIDMessage(b, c) == c ==> Duplicates(a, b)
  }

  lemma {:induction false} EmbedOne(s: seq<Row>, t: seq<Row>, i: nat) returns (p: nat)
    requires Subsequence(s, t) && i < |s|
    ensures p < |t| && t[p] == s[i]
  {
    if Last(s) != Last(t) {
      p := EmbedOne(s, Init(t), i);
    } else if i == |s| - 1 {
      p := |t| - 1;
    } else {
      p := EmbedOne(Init(s), Init(t), i);
    }
  }

  lemma {:induction false} EmbedTwo(s: seq<Row>, t: seq<Row>, i: nat, j: nat) returns (p: nat, q: nat)
    requires Subsequence(s, t) && i < j < |s|
    ensures p < q < |t| && t[p] == s[i] && t[q] == s[j]
  {
    if Last(s) != Last(t) {
      p, q := EmbedTwo(s, Init(t), i, j);
    } else if j == |s| - 1 {
      p := EmbedOne(Init(s), Init(t), i);
      q := |t| - 1;
    } else {
      p, q := EmbedTwo(Init(s), Init(t), i, j);
    }
  }

  lemma {:induction false} EmbedThree(s: seq<Row>, t: seq<Row>, i: nat, j: nat, k: nat) returns (p: nat, q: nat, r: nat)
    requires Subsequence(s, t) && i < j < k < |s|
    ensures p < q < r < |t| && t[p] == s[i] && t[q] == s[j] && t[r] == s[k]
  {
    if Last(s) != Last(t) {
      p, q, r := EmbedThree(s, Init(t), i, j, k);
    } else if k == |s| - 1 {
      p, q := EmbedTwo(Init(s), Init(t), i, j);
      r := |t| - 1;
    } else {
      p, q, r := EmbedThree(Init(s), Init(t), i, j, k);
    }
  }

  lemma SubsequenceSteady(s: seq<Row>, t: seq<Row>)
    requires Subsequence(s, t) && NoStepBack(t)
    ensures NoStepBack(s)
  {
    forall i, j, k | 0 <= i < j < k < |s|
      ensures Steady(s[i], s[j], s[k])
    {
      var p, q, r := EmbedThree(s, t, i, j, k);
      assert Steady(t[p], t[q], t[r]);
    }
  }

  lemma AbsorbLeavesNoDuplicates(before: seq<Row>, item: Row)
    requires NoAdjacentDuplicates(before) && NoStepBack(before + [item])
    ensures NoAdjacentDuplicates(Absorb(before, item))
  {
    if |before| >= 2 {
      var rows, n := before + [item], |before|;
      assert !Duplicates(before[n - 2], before[n - 1]);
      assert rows[n - 2] == before[n - 2] && rows[n - 1] == before[n - 1] && rows[n] == item;
      assert Steady(rows[n - 2], rows[n - 1], rows[n]);
    }
  }

  lemma {:induction false} SquashLeavesNoDuplicates(rows: seq<Row>)
    requires NoStepBack(rows)
    ensures NoAdjacentDuplicates(SquashDuplicates(rows))
  {
    if rows != [] {
      var before := SquashDuplicates(Init(rows));
      assert rows == Init(rows) + [Last(rows)];
      SquashLeavesNoDuplicates(Init(rows));
      SquashIsSubsequence(Init(rows));
      SubsequenceSnoc(before, Init(rows), Last(rows));
      SubsequenceSteady(before + [Last(rows)], rows);
      AbsorbLeavesNoDuplicates(before, Last(rows));
    }
  }

  /** Squashing again changes nothing exactly when no adjacent duplicates are left. */
  lemma {:induction false} SquashFixpoint(rows: seq<Row>)
    ensures SquashDuplicates(rows) == rows <==> NoAdjacentDuplicates(rows)
    ensures |SquashDuplicates(rows)| <= |rows|
  {
    if rows != [] {
      var init, item := Init(rows), Last(rows);
      SquashFixpoint(init);
      assert rows == init + [item];
      if NoAdjacentDuplicates(rows) {
        assert forall i | 0 <= i < |init| - 1 :: !Duplicates(init[i], init[i + 1]);
        assert init != [] ==> !Duplicates(rows[|rows| - 2], rows[|rows| - 1]);
      }
      if SquashDuplicates(rows) == rows {
        assert |SquashDuplicates(init)| == |init|;
        assert SquashDuplicates(init) == Init(SquashDuplicates(rows)) == init;
      }
    }
  }

  ghost predicate SquashesOnce(rows: seq<Row>) {
    SquashDuplicates(SquashDuplicates(rows)) == SquashDuplicates(rows)
  }

  lemma SquashIdempotent(rows: seq<Row>)
    requires NoStepBack(rows)
    ensures SquashesOnce(rows)
  {
    SquashLeavesNoDuplicates(rows);
    SquashFixpoint(SquashDuplicates(rows));
  }

  /** Three rows that are not steady leave a pair of duplicates behind. */
  lemma UnsteadySquashesTwice(a: Row, b: Row, c: Row)
    requires !Steady(a, b, c)
    ensures SquashDuplicates([a, b, c]) == [a, c] && !NoAdjacentDuplicates([a, c]) && !SquashesOnce([a, b, c])
  {
    assert Init([a, b, c]) == [a, b] && Init([a, b]) == [a] && Init([a]) == [];
    assert SquashDuplicates([a]) == [a] && SquashDuplicates([a, b]) == [a, b];
    assert Duplicates([a, c][0], [a, c][1]);
    SquashFixpoint([a, c]);
  }

  lemma {:induction false} PickOne(rows: seq<Row>, i: nat)
    requires i < |rows|
    ensures Subsequence([rows[i]], rows)
  {
    assert Init([rows[i]]) == [];
    if i < |rows| - 1 && rows[i] != Last(rows) {
      PickOne(Init(rows), i);
    }
  }

  lemma {:induction false} PickTwo(rows: seq<Row>, i: nat, j: nat)
    requires i < j < |rows|
    ensures Subsequence([rows[i], rows[j]], rows)
  {
    if j == |rows| - 1 {
      PickOne(Init(rows), i);
      SubsequenceSnoc([rows[i]], Init(rows), rows[j]);
      assert rows == Init(rows) + [rows[j]] && [rows[i], rows[j]] == [rows[i]] + [rows[j]];
    } else {
      PickTwo(Init(rows), i, j);
      SubsequenceGrows([rows[i], rows[j]], Init(rows), Last(rows));
      assert rows == Init(rows) + [Last(rows)];
    }
  }

  lemma {:induction false} PickThree(rows: seq<Row>, i: nat, j: nat, k: nat)
    requires i < j < k < |rows|
    ensures Subsequence([rows[i], rows[j], rows[k]], rows)
  {
    if k == |rows| - 1 {
      PickTwo(Init(rows), i, j);
      SubsequenceSnoc([rows[i], rows[j]], Init(rows), rows[k]);
      assert rows == Init(rows) + [rows[k]] && [rows[i], rows[j], rows[k]] == [rows[i], rows[j]] + [rows[k]];
    } else {
      PickThree(Init(rows), i, j, k);
      SubsequenceGrows([rows[i], rows[j], rows[k]], Init(rows), Last(rows));
      assert rows == Init(rows) + [Last(rows)];
    }
  }

  /** Sorting goes by sequence number first, so sorted rows can step back in time, as these do. */
  lemma SortedAloneIsNotEnough() returns (rows: seq<Row>)
    ensures |rows| == 3 && Sorted(rows) && DistinctIds(rows) && forall r <- rows :: !r.IsLocal()
    ensures !Steady(rows[0], rows[1], rows[2]) && !NoStepBack(rows) && !SquashesOnce(rows)
  {
    var a := Row("a", Some(1), None, None, User, "hi", Some(0));
    var b := Row("b", Some(2), None, None, User, "hi", Some(6_000));
    var c := Row("c", Some(3), None, None, User, "hi", Some(4_000));
    rows := [a, b, c];
    assert !Steady(rows[0], rows[1], rows[2]);
    UnsteadySquashesTwice(a, b, c);
  }

  /** Rows squash once for all, and so does whatever may be left of them, exactly when no triple steps back. */
  lemma SquashesOnceExactly(rows: seq<Row>)
    ensures (forall s | Subsequence(s, rows) :: SquashesOnce(s)) <==> NoStepBack(rows)
  {
    if NoStepBack(rows) {
      forall s | Subsequence(s, rows)
        ensures SquashesOnce(s)
      {
        SubsequenceSteady(s, rows);
        SquashIdempotent(s);
      }
    } else {
      var i, j, k :| 0 <= i < j < k < |rows| && !Steady(rows[i], rows[j], rows[k]);
      PickThree(rows, i, j, k);
      UnsteadySquashesTwice(rows[i], rows[j], rows[k]);
    }
  }

  ghost predicate TimesNondecreasing(rows: seq<Row>) {
    forall i, j | 0 <= i < j < |rows| && rows[i].createdAt.Some? && rows[j].createdAt.Some? ::
      rows[i].createdAt.value <= rows[j].createdAt.value
  }

  /** Rows whose times never decrease squash once, and no adjacent duplicates are left. */
  lemma TimelyRowsSquashOnce(rows: seq<Row>)
    requires TimesNondecreasing(rows)
    ensures NoStepBack(rows)
    ensures NoAdjacentDuplicates(SquashDuplicates(rows)) && SquashesOnce(rows)
  {
    SquashLeavesNoDuplicates(rows);
    SquashIdempotent(rows);
  }

  /** The newest row is kept, if every row has a sequence number, and it has a uuid or no row has one. */
  lemma NewestRowIsKept(rows: seq<Row>)
    requires rows != [] && Sorted(rows) && forall r <- rows :: r.seqNo.Some?
    requires Last(rows).HasUUID() || forall r <- rows :: !r.HasUUID()
    ensures SquashDuplicates(rows) != [] && Last(SquashDuplicates(rows)) == Last(rows)
  {
    var before, item := SquashDuplicates(Init(rows)), Last(rows);
    if before != [] && Duplicates(Last(before), item) {
      SquashIsSubsequence(Init(rows));
      var p := EmbedOne(before, Init(rows), |before| - 1);
      assert rows[p] == Last(before) && SortsBefore(rows[p], rows[|rows| - 1]);
      LaterRowIsKeptUnless(Last(before), item);
    }
  }
}
