/** Merging a fetched page into the transcript (mergeMessages). */
module Merge {
  import opened Common
  import opened Messages
  import opened Squash

  /** The dictionary keyed by id: the last row wins. */
  function ByID(rows: seq<Row>): map<string, Row> {
    if rows == [] then map[] else ByID(Init(rows))[Last(rows).id := Last(rows)]
  }

  lemma {:induction false} ByIDHolds(rows: seq<Row>)
    ensures forall id <- ByID(rows) :: ByID(rows)[id].id == id && ByID(rows)[id] in rows
    ensures forall r <- rows :: r.id in ByID(rows)
  {
    if rows != [] {
      ByIDHolds(Init(rows));
      assert rows == Init(rows) + [Last(rows)];
    }
  }

  /** Incoming rows win over existing ones with the same id. */
  lemma {:induction false} IncomingWins(existing: seq<Row>, incoming: seq<Row>)
    ensures ByID(existing + incoming).Keys == ByID(existing).Keys + ByID(incoming).Keys
    ensures forall id <- ByID(incoming) :: ByID(existing + incoming)[id] == ByID(incoming)[id]
    ensures forall id <- ByID(existing) :: id !in ByID(incoming) ==> ByID(existing + incoming)[id] == ByID(existing)[id]
  {
    if incoming == [] {
      assert existing + incoming == existing;
    } else {
      IncomingWins(existing, Init(incoming));
      assert Init(existing + incoming) == existing + Init(incoming);
    }
  }

  predicate IsServerUserRow(r: Row) {
    r.role == User && !r.IsLocal() && r.createdAt.Some?
  }

  ghost predicate LocalIdEchoed(item: Row, incoming: seq<Row>) {
    item.localID.GetOr("") != "" && exists r <- incoming :: r.localID == item.localID
  }

  ghost predicate NearServerEcho(item: Row, incoming: seq<Row>) {
    exists r <- incoming ::
      IsServerUserRow(r) && r.signature == item.signature && IsNearInTime(item.createdAt, r.createdAt)
  }

  /** Only an optimistic bubble that the page has echoed is filtered out. */
  ghost predicate Survives(item: Row, incoming: seq<Row>) {
    item.IsOptimistic() ==> !LocalIdEchoed(item, incoming) && !NearServerEcho(item, incoming)
  }

  ghost function Retained(existing: seq<Row>, incoming: seq<Row>): (rows: set<Row>)
    ensures Keyed(rows)
  {
    ByIDHolds(existing + incoming);
    set r | r in ByID(existing + incoming).Values && Survives(r, incoming)
  }

  ghost function Merged(existing: seq<Row>, incoming: seq<Row>): seq<Row> {
    if existing == [] then incoming
    else if incoming == [] then existing
    else SquashDuplicates(SortedOf(Retained(existing, incoming)))
  }

  // ----- The imperative merge -----

  /** Creation times of the page's server-side user rows, by content. */
  ghost predicate IndexesEchoes(ats: map<string, seq<int>>, incoming: seq<Row>) {
    && (forall sig <- ats, at <- ats[sig] ::
      exists r <- incoming :: IsServerUserRow(r) && r.signature == sig && r.createdAt.value == at)
    && (forall r <- incoming | IsServerUserRow(r) :: r.signature in ats && r.createdAt.value in ats[r.signature])
  }

  method IndexServerEchoes(incoming: seq<Row>) returns (ats: map<string, seq<int>>)
    ensures IndexesEchoes(ats, incoming)
  {
    ats := map[];
    for i := 0 to |incoming|
      invariant IndexesEchoes(ats, incoming[..i])
    {
      var item := incoming[i];
      assert incoming[..i + 1] == incoming[..i] + [item];
      if item.role != User || item.IsLocal() || item.createdAt.None? {
        continue;
      }
      var before := if item.signature in ats then ats[item.signature] else [];
      ats := ats[item.signature := before + [item.createdAt.value]];
    }
    assert incoming[..|incoming|] == incoming;
  }

  method KeepsRow(item: Row, serverLocalIDs: set<string>, ats: map<string, seq<int>>, ghost incoming: seq<Row>)
    returns (keep: bool)
    requires IndexesEchoes(ats, incoming)
    requires forall id :: id in serverLocalIDs <==> id != "" && exists r <- incoming :: r.localID == Some(id)
    ensures keep <==> Survives(item, incoming)
  {
    if !item.IsLocal() || item.role != User {
      return true;
    }
    if item.localID.Some? && item.localID.value != "" && item.localID.value in serverLocalIDs {
      return false;
    }
    if item.createdAt.None? || item.signature !in ats {
      return true;
    }
    var times := ats[item.signature];
    for i := 0 to |times|
      invariant forall k | 0 <= k < i :: !IsNearInTime(item.createdAt, Some(times[k]))
    {
      if IsNearInTime(item.createdAt, Some(times[i])) {
        assert times[i] in ats[item.signature];
        return false;
      }
    }
    return true;
  }

  method SortMessages(rows: seq<Row>) returns (sorted: seq<Row>)
    requires DistinctIds(rows)
    ensures IsSortOf(sorted, set r | r in rows)
  {
    sorted := [];
    for i := 0 to |rows|
      invariant IsSortOf(sorted, set r | r in rows[..i])
    {
      forall r | r in sorted
        ensures r.id != rows[i].id
      {
        assert r in (set r | r in rows[..i]);
      }
      InsertKeepsSorted(rows[i], sorted);
      sorted := InsertRow(rows[i], sorted);
      assert rows[..i + 1] == rows[..i] + [rows[i]];
    }
    assert rows[..|rows|] == rows;
  }

  /** Dictionary entries come back in no particular order; the result does not depend on it. */
  method FilterValues(
    byID: map<string, Row>, serverLocalIDs: set<string>, ats: map<string, seq<int>>, ghost incoming: seq<Row>
  ) returns (kept: seq<Row>)
    requires forall id <- byID :: byID[id].id == id
    requires IndexesEchoes(ats, incoming)
    requires forall id :: id in serverLocalIDs <==> id != "" && exists r <- incoming :: r.localID == Some(id)
    ensures DistinctIds(kept)
    ensures forall r :: r in kept <==> r in byID.Values && Survives(r, incoming)
  {
    kept := [];
    var remaining := byID.Keys;
    while remaining != {}
      invariant remaining <= byID.Keys
      invariant DistinctIds(kept)
      invariant forall r :: r in kept <==> r.id in byID.Keys - remaining && r == byID[r.id] && Survives(r, incoming)
    {
      var id :| id in remaining;
      remaining := remaining - {id};
      var keep := KeepsRow(byID[id], serverLocalIDs, ats, incoming);
      if keep {
        kept := kept + [byID[id]];
      }
    }
  }

  method MergeMessages(existing: seq<Row>, incoming: seq<Row>) returns (merged: seq<Row>)
    ensures merged == Merged(existing, incoming)
  {
    if existing == [] { return incoming; }
    if incoming == [] { return existing; }

    var resultByID: map<string, Row> := map[];
    for i := 0 to |existing|
      invariant resultByID == ByID(existing[..i])
    {
      resultByID := resultByID[existing[i].id := existing[i]];
      assert Init(existing[..i + 1]) == existing[..i];
    }
    assert existing[..|existing|] == existing == existing + incoming[..0];
    for i := 0 to |incoming|
      invariant resultByID == ByID(existing + incoming[..i])
    {
      resultByID := resultByID[incoming[i].id := incoming[i]];
      assert Init(existing + incoming[..i + 1]) == existing + incoming[..i];
    }
    assert incoming[..|incoming|] == incoming;
    ByIDHolds(existing + incoming);

    var serverLocalIDs := set r | r in incoming && r.localID.Some? && r.localID.value != "" :: r.localID.value;
    var ats := IndexServerEchoes(incoming);
    var kept := FilterValues(resultByID, serverLocalIDs, ats, incoming);
    var sorted := SortMessages(kept);
    assert (set r | r in kept) == Retained(existing, incoming);
    SortIsUnique(sorted, SortedOf(Retained(existing, incoming)), Retained(existing, incoming));
    merged := SquashDuplicateUserMessages(sorted);
  }

  // ----- What a merge keeps -----

  lemma MergeIsOrdered(existing: seq<Row>, incoming: seq<Row>)
    requires existing != [] && incoming != []
    ensures Sorted(Merged(existing, incoming)) && DistinctIds(Merged(existing, incoming))
  {
    var rows := Retained(existing, incoming);
    var merged := Merged(existing, incoming);
    SquashIsSubsequence(SortedOf(rows));
    SubsequenceSorted(merged, SortedOf(rows));
    SubsequenceMembers(merged, SortedOf(rows));
    SortedIdsDistinct(merged, rows);
  }

  /** Pending bubbles come below all numbered rows, and the rest in order of number, time and id. */
  lemma MergeReadsInOrder(existing: seq<Row>, incoming: seq<Row>, i: nat, j: nat)
    requires existing != [] && incoming != [] && i < j < |Merged(existing, incoming)|
    ensures ReadsInOrder(Merged(existing, incoming)[i], Merged(existing, incoming)[j])
    ensures Merged(existing, incoming)[i].id != Merged(existing, incoming)[j].id
  {
    MergeIsOrdered(existing, incoming);
    SortedReadsInOrder(Merged(existing, incoming), i, j);
  }

  /** Nothing is invented: every row is the winning version of its id and survived the filter. */
  lemma MergeInventsNothing(existing: seq<Row>, incoming: seq<Row>, r: Row)
    requires r in Merged(existing, incoming)
    ensures r in existing || r in incoming
    ensures existing != [] && incoming != [] ==>
      r.id in ByID(existing + incoming) && r == ByID(existing + incoming)[r.id] && Survives(r, incoming)
  {
    if existing != [] && incoming != [] {
      SubsequenceKeeps(SortedOf(Retained(existing, incoming)), r);
      assert r in Retained(existing, incoming);
      ByIDHolds(existing + incoming);
      assert r in existing + incoming;
    }
  }

  /** The row is in the result, or gave way, duplicate by duplicate, to a row that is. */
  ghost predicate Represented(w: Row, existing: seq<Row>, incoming: seq<Row>) {
    exists survivor <- Merged(existing, incoming) :: LinkedTo(existing + incoming, w, survivor)
  }

  lemma LinkWidens(rows: seq<Row>, all: seq<Row>, w: Row, survivor: Row)
    requires LinkedTo(rows, w, survivor) && forall r <- rows :: r in all
    ensures LinkedTo(all, w, survivor)
  {
    var chain :| Chain(rows, chain) && chain[0] == w && Last(chain) == survivor;
    assert Chain(all, chain);
  }

  lemma LinkToSelf(rows: seq<Row>, w: Row)
    requires w in rows
    ensures LinkedTo(rows, w, w)
  {
    assert Chain(rows, [w]) && [w][0] == w == Last([w]);
  }

  /**
   Merging loses no message. The winning version of every id is in the result if it is not a user
   row, and is represented there if it is; except an optimistic bubble, which is dropped exactly
   when the page holds its echo.
   */
  lemma MergeLosesNothing(existing: seq<Row>, incoming: seq<Row>, id: string)
    requires id in ByID(existing + incoming)
    ensures var w := ByID(existing + incoming)[id];
      && (w.role != User ==> w in Merged(existing, incoming))
      && (!w.IsOptimistic() || existing == [] || incoming == [] ==> Represented(w, existing, incoming))
      && (w.IsOptimistic() && existing != [] && incoming != [] ==>
        if LocalIdEchoed(w, incoming) || NearServerEcho(w, incoming) then w !in Merged(existing, incoming)
        else Represented(w, existing, incoming))
  {
    var w, merged := ByID(existing + incoming)[id], Merged(existing, incoming);
    ByIDHolds(existing + incoming);
    LinkToSelf(existing + incoming, w);
    if existing == [] || incoming == [] {
      assert existing + incoming == merged;
    } else if Survives(w, incoming) {
      var rows := Retained(existing, incoming);
      assert w in rows;
      SquashLosesNothing(SortedOf(rows), w);
      var survivor :| survivor in merged && LinkedTo(SortedOf(rows), w, survivor);
      assert forall r <- SortedOf(rows) :: r in rows && r in existing + incoming;
      LinkWidens(SortedOf(rows), existing + incoming, w, survivor);
      if w.role != User {
        OnlyUsersGiveWay(SortedOf(rows), w);
      }
    } else if w in merged {
      MergeInventsNothing(existing, incoming, w);
    }
  }

  /** The page holds the echo of a bubble: its localID, or its content from the server at most 5 s away. */
  ghost predicate Echoes(incoming: seq<Row>, w: Row) {
    exists r <- incoming ::
      || (w.localID.Some? && w.localID.value != "" && r.localID == w.localID)
      || (r.role == User && !("local-" <= r.id) && r.signature == w.signature
        && w.createdAt.Some? && r.createdAt.Some? && -5_000 <= w.createdAt.value - r.createdAt.value <= 5_000)
  }

  /** A bubble that no page row replaces is dropped by an echo, and by nothing but an echo or a duplicate. */
  lemma BubbleIsDroppedExactly(existing: seq<Row>, incoming: seq<Row>, w: Row)
    requires existing != [] && incoming != []
    requires w.id in ByID(existing + incoming) && ByID(existing + incoming)[w.id] == w
    requires w.role == User && "local-" <= w.id
    ensures if Echoes(incoming, w) then w !in Merged(existing, incoming) else Represented(w, existing, incoming)
  {
    MergeLosesNothing(existing, incoming, w.id);
  }

  /** With distinct ids in the page, each page row that is no bubble is in the result or represented there. */
  lemma PageRowIsRepresented(existing: seq<Row>, incoming: seq<Row>, r: Row)
    requires existing != [] && DistinctIds(incoming) && r in incoming && !r.IsOptimistic()
    ensures Represented(r, existing, incoming)
  {
    ByIDHolds(incoming);
    IncomingWins(existing, incoming);
    assert ByID(incoming)[r.id] == r;
    MergeLosesNothing(existing, incoming, r.id);
  }

  /**
   A bubble that the page echoes is dropped, but never without its echo. The row that carries its
   localID is represented in the result; and a bubble without a uuid that is dropped for a row near it
   in time is represented there itself.
   */
  lemma DroppedBubbleIsRepresented(existing: seq<Row>, incoming: seq<Row>, w: Row)
    requires existing != [] && DistinctIds(incoming) && forall r <- incoming :: !r.IsLocal()
    requires w in existing && w.IsOptimistic()
    ensures LocalIdEchoed(w, incoming) ==>
      exists r <- incoming :: r.localID == w.localID && Represented(r, existing, incoming)
    ensures NearServerEcho(w, incoming) && !w.HasUUID() ==> Represented(w, existing, incoming)
  {
    if LocalIdEchoed(w, incoming) {
      var r :| r in incoming && r.localID == w.localID;
      PageRowIsRepresented(existing, incoming, r);
    }
    if NearServerEcho(w, incoming) && !w.HasUUID() {
      var r :| r in incoming
        && IsServerUserRow(r) && r.signature == w.signature && IsNearInTime(w.createdAt, r.createdAt);
      PageRowIsRepresented(existing, incoming, r);
      var survivor :| survivor in Merged(existing, incoming) && LinkedTo(existing + incoming, r, survivor);
      LinkPrepends(existing + incoming, w, r, survivor);
    }
  }

  lemma LinkPrepends(rows: seq<Row>, w: Row, r: Row, survivor: Row)
    requires w in rows && GivesWay(w, r) && LinkedTo(rows, r, survivor)
    ensures LinkedTo(rows, w, survivor)
  {
    var chain :| Chain(rows, chain) && chain[0] == r && Last(chain) == survivor;
    var longer := [w] + chain;
    assert forall i | 0 <= i < |longer| - 1 :: longer[i + 1] == chain[i] && (i > 0 ==> longer[i] == chain[i - 1]);
    assert Chain(rows, longer);
    assert longer[0] == w && Last(longer) == survivor;
  }

  /** The result has no adjacent duplicates when the rows that are sorted and squashed do not step back. */
  lemma MergeLeavesNoDuplicates(existing: seq<Row>, incoming: seq<Row>)
    requires existing != [] && incoming != [] && NoStepBack(SortedOf(Retained(existing, incoming)))
    ensures NoAdjacentDuplicates(Merged(existing, incoming))
    ensures SquashDuplicates(Merged(existing, incoming)) == Merged(existing, incoming)
  {
    SquashLeavesNoDuplicates(SortedOf(Retained(existing, incoming)));
    SquashFixpoint(Merged(existing, incoming));
  }

  /**
   Sorting goes by sequence number first, so a sorted transcript can step back in time. Here a merge
   returns a pair of duplicates that squashing again, or merging the same page again, would fold.
   */
  lemma MergeMayLeaveDuplicates() returns (existing: seq<Row>, incoming: seq<Row>)
    ensures DistinctIds(existing + incoming) && existing != [] && incoming != []
    ensures !NoStepBack(SortedOf(Retained(existing, incoming)))
    ensures var merged := Merged(existing, incoming);
      !NoAdjacentDuplicates(merged) && SquashDuplicates(merged) != merged && Merged(merged, incoming) != merged
  {
    var rows := SortedAloneIsNotEnough();
    existing, incoming := rows[..2], rows[2..];
    assert rows == existing + incoming;
    MergeOfSorted(existing, incoming, rows);
    UnsteadyRows(rows);
    UnsteadyMerge(rows);
  }

  lemma UnsteadyMerge(rows: seq<Row>)
    requires |rows| == 3 && Sorted(rows) && DistinctIds(rows) && !Steady(rows[0], rows[1], rows[2])
    requires forall r <- rows :: !r.IsLocal()
    ensures Merged(SquashDuplicates(rows), rows[2..]) != SquashDuplicates(rows)
  {
    var left, incoming := SquashDuplicates(rows), rows[2..];
    UnsteadyRows(rows);
    SquashIsSubsequence(rows);
    SubsequenceMembers(left, rows);
    assert incoming == [left[1]];
    MergeOfKnown(left, incoming);
  }

  lemma UnsteadyRows(rows: seq<Row>)
    requires |rows| == 3 && Sorted(rows) && DistinctIds(rows) && !Steady(rows[0], rows[1], rows[2])
    ensures var left := SquashDuplicates(rows);
      && |left| == 2 && left[0] == rows[0] && left[1] == rows[2]
      && Sorted(left) && DistinctIds(left) && !NoAdjacentDuplicates(left) && SquashDuplicates(left) != left
  {
    assert rows == [rows[0], rows[1], rows[2]];
    UnsteadySquashesTwice(rows[0], rows[1], rows[2]);
    assert SquashDuplicates(rows) == [rows[0], rows[2]];
    assert SortsBefore(rows[0], rows[2]);
  }

  /** Merging rows that are there already squashes once more, so it changes nothing only without duplicates. */
  lemma MergeOfKnown(rows: seq<Row>, incoming: seq<Row>)
    requires incoming != [] && Sorted(rows) && DistinctIds(rows)
    requires (forall r <- rows :: Survives(r, incoming)) && (forall r <- incoming :: r in rows)
    ensures Merged(rows, incoming) == SquashDuplicates(rows)
    ensures Merged(rows, incoming) == rows <==> NoAdjacentDuplicates(rows)
  {
    assert incoming[0] in rows;
    SquashFixpoint(rows);
    MergeOfSorted(rows, incoming, rows);
  }

  /** Rows that the page echoes no bubble of are all retained, and then sorted and squashed. */
  lemma MergeOfSorted(existing: seq<Row>, incoming: seq<Row>, sorted: seq<Row>)
    requires existing != [] && incoming != [] && forall r <- existing + incoming :: Survives(r, incoming)
    requires Sorted(sorted) && DistinctIds(sorted) && forall r :: r in sorted <==> r in existing + incoming
    ensures SortedOf(Retained(existing, incoming)) == sorted && Merged(existing, incoming) == SquashDuplicates(sorted)
  {
    var both := existing + incoming;
    ByIDHolds(both);
    forall r | r in both
      ensures ByID(both)[r.id] == r
    {
      var i :| 0 <= i < |sorted| && sorted[i] == r;
      var j :| 0 <= j < |sorted| && sorted[j] == ByID(both)[r.id];
    }
    assert Retained(existing, incoming) == set r | r in both;
    SortIsUnique(sorted, SortedOf(Retained(existing, incoming)), Retained(existing, incoming));
  }

  /** Following the links never trades a row with a uuid for one without. */
  lemma {:induction false} ChainKeepsUUID(rows: seq<Row>, chain: seq<Row>)
    requires Chain(rows, chain)
    ensures chain[0].HasUUID() ==> Last(chain).HasUUID()
    ensures |chain| > 1 ==> chain[0].role == Last(chain).role == User && chain[0].signature == Last(chain).signature
  {
    if |chain| > 1 {
      var tail := chain[1..];
      assert forall i | 0 <= i < |tail| - 1 :: tail[i] == chain[i + 1] && GivesWay(tail[i], tail[i + 1]);
      ChainKeepsUUID(rows, tail);
      assert GivesWay(chain[0], chain[1]);
    }
  }

  lemma SurvivorKeepsUUID(rows: seq<Row>, w: Row, survivor: Row)
    requires LinkedTo(rows, w, survivor) && w.HasUUID()
    ensures survivor.HasUUID()
  {
    var chain :| Chain(rows, chain) && chain[0] == w && Last(chain) == survivor;
    ChainKeepsUUID(rows, chain);
  }
}
