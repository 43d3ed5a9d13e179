/**
 * The leader-change tracker of the leaderboard screen, as a pure transition
 * system. The state is the recorded leader id (`null` until the first
 * non-empty snapshot), the confetti flag and the leaderboard on display; the
 * events are a `leaderboardUpdate` snapshot from the live channel and the
 * completion of the confetti animation.
 */
module LeaderTracker {
  import opened Types

  datatype Tracker = Tracker(leaderId: Option<string>, showConfetti: bool, leaderboard: seq<Entry>)

  /** The state at mount: no leader recorded, no confetti, an empty board. */
  const Initial: Tracker := Tracker(None, false, [])

  datatype Event = Update(snapshot: seq<Entry>) | ConfettiComplete

  /**
   * A snapshot that announces a leader: one with a first entry. The leader is
   * that entry by position, whatever its rank field says.
   */
  predicate IsLeaderUpdate(e: Event)
  {
    e.Update? && |e.snapshot| > 0
  }

  /**
   * The `leaderboardUpdate` handler. It raises the confetti flag when a
   * leader is already recorded (a truthy id) and the snapshot's first entry
   * has another id; it records the first entry's id whenever the snapshot is
   * non-empty; and it always replaces the board by the snapshot.
   */
  function Observe(t: Tracker, snapshot: seq<Entry>): (t': Tracker)
    ensures t'.leaderboard == snapshot
    ensures |snapshot| > 0 ==> t'.leaderId == Some(snapshot[0].id)
    ensures |snapshot| == 0 ==> t'.leaderId == t.leaderId && t'.showConfetti == t.showConfetti
    ensures t.showConfetti ==> t'.showConfetti
    ensures !TruthyOption(t.leaderId) ==> t'.showConfetti == t.showConfetti
    ensures |snapshot| > 0 && TruthyOption(t.leaderId) ==>
      (t'.showConfetti <==> t.showConfetti || snapshot[0].id != t.leaderId.value)
  {
    if |snapshot| > 0 then
      var leader := snapshot[0];
      var raise := TruthyOption(t.leaderId) && leader.id != t.leaderId.value;
      Tracker(Some(leader.id), t.showConfetti || raise, snapshot)
    else
      t.(leaderboard := snapshot)
  }

  /** `onConfettiComplete`: the flag drops and nothing else changes. */
  function Complete(t: Tracker): (t': Tracker)
    ensures !t'.showConfetti
    ensures t'.leaderId == t.leaderId && t'.leaderboard == t.leaderboard
  {
    t.(showConfetti := false)
  }

  function Step(t: Tracker, e: Event): Tracker
  {
    match e
    case Update(snapshot) => Observe(t, snapshot)
    case ConfettiComplete => Complete(t)
  }

  /** The state after handling `events` one at a time, in arrival order. */
  function Run(t: Tracker, events: seq<Event>): Tracker
    decreases |events|
  {
    if events == [] then t
    else Step(Run(t, events[..|events| - 1]), events[|events| - 1])
  }

  /** The same leader arriving again, as when a snapshot is repeated, leaves the flag as it was. */
  lemma RepeatedLeaderKeepsFlag(t: Tracker, first: seq<Entry>, second: seq<Entry>)
    requires |first| > 0 && |second| > 0 && second[0].id == first[0].id
    ensures Observe(Observe(t, first), second).showConfetti == Observe(t, first).showConfetti
  {
  }

  /** Position `i` holds the last snapshot of `events` that has a first entry. */
  ghost predicate IsLastLeaderUpdate(events: seq<Event>, i: int)
  {
    && 0 <= i < |events|
    && IsLeaderUpdate(events[i])
    && forall k :: i < k < |events| ==> !IsLeaderUpdate(events[k])
  }

  /** Position `i` holds the last snapshot of `events`, empty or not. */
  ghost predicate IsLastUpdate(events: seq<Event>, i: int)
  {
    && 0 <= i < |events|
    && events[i].Update?
    && forall k :: i < k < |events| ==> !events[k].Update?
  }

  /** No completion event at positions `from` and later. */
  ghost predicate NoCompletionFrom(events: seq<Event>, from: int)
  {
    forall k :: 0 <= k < |events| && from <= k ==> !events[k].ConfettiComplete?
  }

  /**
   * The recorded leader is the first entry of the last non-empty snapshot;
   * with no non-empty snapshot it is what it was. Empty snapshots never reset
   * it.
   */
  lemma {:induction false} LeaderAfterRun(t: Tracker, events: seq<Event>)
    ensures (forall k :: 0 <= k < |events| ==> !IsLeaderUpdate(events[k])) ==> Run(t, events).leaderId == t.leaderId
    ensures forall i :: IsLastLeaderUpdate(events, i) ==> Run(t, events).leaderId == Some(events[i].snapshot[0].id)
    decreases |events|
  {
    if events != [] {
      var n := |events|;
      var pre := events[..n - 1];
      LeaderAfterRun(t, pre);
      assert forall k :: 0 <= k < n - 1 ==> pre[k] == events[k];
      forall i | IsLastLeaderUpdate(events, i) ensures Run(t, events).leaderId == Some(events[i].snapshot[0].id) {
        if i < n - 1 {
          assert IsLastLeaderUpdate(pre, i);
        }
      }
    }
  }

  /**
   * The board on display is the last snapshot received, replaced wholesale
   * whether or not it is empty; with no snapshot it is what it was.
   */
  lemma {:induction false} LeaderboardAfterRun(t: Tracker, events: seq<Event>)
    ensures (forall k :: 0 <= k < |events| ==> !events[k].Update?) ==> Run(t, events).leaderboard == t.leaderboard
    ensures forall i :: IsLastUpdate(events, i) ==> Run(t, events).leaderboard == events[i].snapshot
    decreases |events|
  {
    if events != [] {
      var n := |events|;
      var pre := events[..n - 1];
      LeaderboardAfterRun(t, pre);
      assert forall k :: 0 <= k < n - 1 ==> pre[k] == events[k];
      forall i | IsLastUpdate(events, i) ensures Run(t, events).leaderboard == events[i].snapshot {
        if i < n - 1 {
          assert IsLastUpdate(pre, i);
        }
      }
    }
  }

  /**
   * Event `i` raises the confetti: it is a non-empty snapshot whose first
   * entry differs from the truthy leader recorded by the events before it.
   */
  ghost predicate Raises(t: Tracker, events: seq<Event>, i: int)
  {
    && 0 <= i < |events|
    && IsLeaderUpdate(events[i])
    && var before := Run(t, events[..i]).leaderId;
       TruthyOption(before) && events[i].snapshot[0].id != before.value
  }

  /**
   * The confetti shows exactly when some event raised it (or it was already
   * showing) and no completion event came after that.
   */
  lemma {:induction false} ConfettiAfterRun(t: Tracker, events: seq<Event>)
    ensures Run(t, events).showConfetti <==>
      || (t.showConfetti && NoCompletionFrom(events, 0))
      || exists i :: Raises(t, events, i) && NoCompletionFrom(events, i + 1)
    decreases |events|
  {
    if events != [] {
      var n := |events|;
      var pre := events[..n - 1];
      var e := events[n - 1];
      ConfettiAfterRun(t, pre);
      assert forall i :: 0 <= i < n - 1 ==> events[..i] == pre[..i];
      assert forall i :: 0 <= i < n - 1 ==> (Raises(t, events, i) <==> Raises(t, pre, i));
      if e.ConfettiComplete? {
        assert !NoCompletionFrom(events, 0);
        forall i | Raises(t, events, i) ensures !NoCompletionFrom(events, i + 1) {
          assert i < n - 1;
        }
      } else {
        assert NoCompletionFrom(events, 0) <==> NoCompletionFrom(pre, 0);
        assert forall j :: 0 <= j < n ==> (NoCompletionFrom(events, j) <==> NoCompletionFrom(pre, j));
        assert events[..n - 1] == pre;
        assert NoCompletionFrom(events, n);
        if Run(t, events).showConfetti && !Run(t, pre).showConfetti {
          assert Raises(t, events, n - 1);
        }
        if Raises(t, events, n - 1) {
          assert Run(t, events).showConfetti;
        }
      }
    }
  }

  /**
   * From the state at mount, the first non-empty snapshot never raises the
   * confetti: there is no leader to compare it with.
   */
  lemma FirstLeaderNeverCelebrates(events: seq<Event>, i: int)
    requires 0 <= i < |events| && IsLeaderUpdate(events[i])
    requires forall k :: 0 <= k < i ==> !IsLeaderUpdate(events[k])
    ensures !Raises(Initial, events, i)
    ensures Run(Initial, events[..i + 1]).leaderId == Some(events[i].snapshot[0].id)
  {
    var pre := events[..i];
    assert forall k :: 0 <= k < i ==> pre[k] == events[k];
    LeaderAfterRun(Initial, pre);
    assert events[..i + 1][..i] == pre;
  }
}
