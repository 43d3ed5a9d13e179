/**
 * The pure layout of the leaderboard screen: the snapshot is split into the
 * top three (the podium) and the rest (the list); the podium shows the first
 * entry of rank 2, then rank 1, then rank 3, each with a rank-specific style
 * class.
 */
module Podium {
  import opened Types

  /**
   * Where `Array.prototype.slice` lands a relative index on a sequence of
   * length `len`: negative indices count from the end, and both ends clamp.
   */
  function ClampIndex(rel: int, len: nat): (k: nat)
    ensures k <= len
    ensures 0 <= rel ==> k == Min(rel, len)
    ensures rel < 0 ==> k == (if len + rel < 0 then 0 else len + rel)
  {
    if rel < 0 then (if len + rel < 0 then 0 else len + rel)
    else if rel > len then len
    else rel
  }

  /** `s.slice(start)` when `end` is None, `s.slice(start, end)` otherwise. */
  function Slice<T>(s: seq<T>, start: int, end: Option<int>): seq<T>
  {
    var from := ClampIndex(start, |s|);
    var to := if end.None? then |s| else ClampIndex(end.value, |s|);
    if from < to then s[from..to] else []
  }

  function Min(a: int, b: int): int
  {
    if a < b then a else b
  }

  /** `leaderboard.slice(0, 3)`: the first three entries, or all of them if fewer. */
  function TopThree(leaderboard: seq<Entry>): (r: seq<Entry>)
    ensures |r| == Min(3, |leaderboard|)
    ensures r == leaderboard[..|r|]
  {
    Slice(leaderboard, 0, Some(3))
  }

  /** `leaderboard.slice(3)`: what the podium leaves for the list, in order. */
  function RestOfLeaderboard(leaderboard: seq<Entry>): (r: seq<Entry>)
    ensures TopThree(leaderboard) + r == leaderboard
    ensures |leaderboard| <= 3 <==> r == []
  {
    Slice(leaderboard, 3, None)
  }

  /** Position `i` holds the first entry of `s` whose rank is `rank`. */
  ghost predicate IsFirstWithRank(s: seq<Entry>, rank: int, i: int)
  {
    && 0 <= i < |s|
    && s[i].rank == rank
    && forall k :: 0 <= k < i ==> s[k].rank != rank
  }

  /** Some entry of `s` has rank `rank`. */
  ghost predicate HasRank(s: seq<Entry>, rank: int)
  {
    exists k :: 0 <= k < |s| && s[k].rank == rank
  }

  /** `s.find(u => u.rank === rank)`: the first entry of that rank, if any. */
  function Find(s: seq<Entry>, rank: int): (r: Option<Entry>)
    ensures r.None? <==> !HasRank(s, rank)
    ensures r.Some? ==> r.value in s && r.value.rank == rank
    ensures r.Some? ==> exists i :: IsFirstWithRank(s, rank, i) && s[i] == r.value
  {
    if s == [] then None
    else if s[0].rank == rank then
      assert IsFirstWithRank(s, rank, 0);
      Some(s[0])
    else
      var r := Find(s[1..], rank);
      assert r.Some? ==> exists i :: IsFirstWithRank(s, rank, i) && s[i] == r.value by {
        if r.Some? {
          var i :| IsFirstWithRank(s[1..], rank, i) && s[1..][i] == r.value;
          assert IsFirstWithRank(s, rank, i + 1);
        }
      }
      assert HasRank(s, rank) ==> HasRank(s[1..], rank) by {
        if HasRank(s, rank) {
          var k :| 0 <= k < |s| && s[k].rank == rank;
          assert s[1..][k - 1].rank == rank;
        }
      }
      r
  }

  /** The values present in a sequence of optional entries, in order (`user && …` renders nothing for undefined). */
  function Present(slots: seq<Option<Entry>>): seq<Entry>
  {
    if slots == [] then [] else Listed(slots[0]) + Present(slots[1..])
  }

  /** An optional entry as a sequence of zero or one entries. */
  function Listed(o: Option<Entry>): seq<Entry>
  {
    if o.Some? then [o.value] else []
  }

  lemma PresentOfThree(x: Option<Entry>, y: Option<Entry>, z: Option<Entry>)
    ensures Present([x, y, z]) == Listed(x) + Listed(y) + Listed(z)
  {
    assert [z][1..] == [];
    assert Present([z]) == Listed(z);
    assert [y, z][1..] == [z];
    assert Present([y, z]) == Listed(y) + Listed(z);
    assert [x, y, z][1..] == [y, z];
  }

  /** The podium as rendered from `topThree`: the first rank-2, rank-1 and rank-3 entries that exist, in that order. */
  function PodiumRow(topThree: seq<Entry>): seq<Entry>
  {
    Present([Find(topThree, 2), Find(topThree, 1), Find(topThree, 3)])
  }

  /** The position a rank occupies on the podium, left to right: 2, then 1, then 3. */
  function PodiumSlot(rank: int): int
  {
    if rank == 2 then 0 else if rank == 1 then 1 else if rank == 3 then 2 else 3
  }

  /**
   * The podium holds at most three entries, each the first entry of its rank
   * in `topThree`.
   */
  lemma PodiumMembers(topThree: seq<Entry>)
    ensures |PodiumRow(topThree)| <= 3
    ensures forall e :: e in PodiumRow(topThree) ==>
      && e in topThree
      && 1 <= e.rank <= 3
      && Find(topThree, e.rank) == Some(e)
  {
    var a, b, c := Find(topThree, 2), Find(topThree, 1), Find(topThree, 3);
    var p := PodiumRow(topThree);
    PresentOfThree(a, b, c);
    forall e | e in p ensures e in topThree && 1 <= e.rank <= 3 && Find(topThree, e.rank) == Some(e) {
      assert e in Listed(a) || e in Listed(b) || e in Listed(c);
    }
  }

  /** The ranks on the podium read 2, 1, 3 from left to right, absent ones dropped. */
  lemma PodiumOrder(topThree: seq<Entry>)
    ensures forall i, j :: 0 <= i < j < |PodiumRow(topThree)| ==>
      PodiumSlot(PodiumRow(topThree)[i].rank) < PodiumSlot(PodiumRow(topThree)[j].rank)
  {
    var a, b, c := Find(topThree, 2), Find(topThree, 1), Find(topThree, 3);
    var p := PodiumRow(topThree);
    PresentOfThree(a, b, c);
    var slots := Listed(a) + Listed(b) + Listed(c);
    assert forall k :: 0 <= k < |slots| ==>
      PodiumSlot(slots[k].rank) == (if k < |Listed(a)| then 0 else if k < |Listed(a)| + |Listed(b)| then 1 else 2);
  }

  /** A rank among 1, 2 and 3 appears on the podium exactly when `topThree` has an entry of that rank. */
  lemma PodiumCoversRanks(topThree: seq<Entry>, rank: int)
    requires 1 <= rank <= 3
    ensures HasRank(topThree, rank) <==> HasRank(PodiumRow(topThree), rank)
  {
    var a, b, c := Find(topThree, 2), Find(topThree, 1), Find(topThree, 3);
    var p := PodiumRow(topThree);
    PresentOfThree(a, b, c);
    var o := Find(topThree, rank);
    if HasRank(topThree, rank) {
      assert o.value in p;
    }
    if HasRank(p, rank) {
      var k :| 0 <= k < |p| && p[k].rank == rank;
      assert p[k] in topThree;
    }
  }

  /** `getPodiumClass(rank)`: "rank-1", "rank-2" or "rank-3" for those ranks, "" for any other. */
  function PodiumClass(rank: int): (r: string)
    ensures r != "" <==> 1 <= rank <= 3
    ensures 1 <= rank <= 3 ==> r == "rank-" + [('0' as int + rank) as char]
  {
    if rank == 1 then "rank-1"
    else if rank == 2 then "rank-2"
    else if rank == 3 then "rank-3"
    else ""
  }

  /** Every podium entry gets a non-empty style class, and no two podium entries share one. */
  lemma PodiumClassesDistinct(topThree: seq<Entry>)
    ensures forall e :: e in PodiumRow(topThree) ==> PodiumClass(e.rank) != ""
    ensures forall i, j :: 0 <= i < j < |PodiumRow(topThree)| ==>
      PodiumClass(PodiumRow(topThree)[i].rank) != PodiumClass(PodiumRow(topThree)[j].rank)
  {
    PodiumMembers(topThree);
    PodiumOrder(topThree);
    var p := PodiumRow(topThree);
    forall i, j | 0 <= i < j < |p| ensures PodiumClass(p[i].rank) != PodiumClass(p[j].rank) {
      assert p[i] in p && p[j] in p;
      assert PodiumClass(p[i].rank)[5] != PodiumClass(p[j].rank)[5];
    }
  }

  /**
   * With consecutive ranks (entry `i` has rank `i + 1`), the podium reads
   * second, first, third, and the list starts at rank 4.
   */
  lemma ConsecutiveRanksPodium(leaderboard: seq<Entry>)
    requires forall i :: 0 <= i < |leaderboard| ==> leaderboard[i].rank == i + 1
    ensures |leaderboard| >= 3 ==> PodiumRow(TopThree(leaderboard)) == [leaderboard[1], leaderboard[0], leaderboard[2]]
    ensures |leaderboard| == 2 ==> PodiumRow(TopThree(leaderboard)) == [leaderboard[1], leaderboard[0]]
    ensures |leaderboard| == 1 ==> PodiumRow(TopThree(leaderboard)) == [leaderboard[0]]
    ensures forall e :: e in RestOfLeaderboard(leaderboard) ==> e.rank >= 4
  {
    var top := TopThree(leaderboard);
    var rest := RestOfLeaderboard(leaderboard);
    PresentOfThree(Find(top, 2), Find(top, 1), Find(top, 3));
    forall rank | 1 <= rank <= 3 ensures Find(top, rank) == if rank <= |top| then Some(top[rank - 1]) else None {
      var r := Find(top, rank);
      if r.Some? {
        var i :| IsFirstWithRank(top, rank, i) && top[i] == r.value;
      }
      if rank <= |top| {
        assert top[rank - 1].rank == rank;
      }
    }
    forall e | e in rest ensures e.rank >= 4 {
      var k :| 0 <= k < |rest| && rest[k] == e;
      assert leaderboard[|top| + k] == e;
    }
  }

  /**
   * A tie inside the top three hides an entry: one that is not the first of
   * its rank there is neither on the podium, which shows only the first of
   * each rank, nor in the list, which starts after the top three. Entries are
   * taken to be distinct, as their ids are.
   */
  lemma TiedEntryHidden(leaderboard: seq<Entry>, i: int, k: int)
    requires forall x, y :: 0 <= x < y < |leaderboard| ==> leaderboard[x] != leaderboard[y]
    requires 0 <= i < k < |TopThree(leaderboard)|
    requires leaderboard[i].rank == leaderboard[k].rank
    ensures leaderboard[k] !in PodiumRow(TopThree(leaderboard))
    ensures leaderboard[k] !in RestOfLeaderboard(leaderboard)
  {
    PodiumMembers(TopThree(leaderboard));
  }
}
