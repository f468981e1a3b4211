/** The restart supervisor: a sliding-window budget over everything the supervised task and the
    clock can do. */
module Supervision {
  /** How one instance ends; a panic is noticed at clock reading `now`, and `cancelled` says
      whether the token was cancelled by then. */
  datatype End = Clean | Aborted | Panic(now: nat, cancelled: bool)

  /** One turn of the loop: whether the token was cancelled before the instance would start, and
      how the instance ends. */
  datatype Turn = Turn(cancelledBefore: bool, end: End)

  datatype Status = Waiting | Stopped | GaveUp

  /** The supervisor after some turns: the recent restarts it keeps, every restart it ever made,
      the instances it started, and whether it cancelled the token. */
  datatype Supervisor = Supervisor(status: Status, restarts: seq<nat>, history: seq<nat>, starts: nat, cancels: bool)

  const NEW := Supervisor(Waiting, [], [], 0, false)

  /** A clock difference; zero when the readings go backwards. */
  function Elapsed(now: nat, before: nat): nat {
    if now >= before then now - before else 0
  }

  function Pruned(restarts: seq<nat>, now: nat, window: nat): seq<nat> {
    if restarts != [] && Elapsed(now, restarts[0]) > window then Pruned(restarts[1..], now, window) else restarts
  }

  function PanicStep(limit: nat, window: nat, s: Supervisor, now: nat): Supervisor {
    var recent := Pruned(s.restarts, now, window);
    if |recent| >= limit then s.(status := GaveUp, restarts := recent, cancels := true)
    else s.(restarts := recent + [now], history := s.history + [now])
  }

  function TurnStep(limit: nat, window: nat, s: Supervisor, turn: Turn): Supervisor {
    if s.status != Waiting then s
    else if turn.cancelledBefore then s.(status := Stopped)
    else
      var started := s.(starts := s.starts + 1);
      match turn.end
      case Clean => started.(status := Stopped)
      case Aborted => started.(status := Stopped)
      case Panic(now, cancelled) =>
        if cancelled then started.(status := Stopped) else PanicStep(limit, window, started, now)
  }

  function Supervised(limit: nat, window: nat, turns: seq<Turn>): Supervisor {
    if turns == [] then NEW
    else TurnStep(limit, window, Supervised(limit, window, turns[..|turns| - 1]), turns[|turns| - 1])
  }

  /** The loop, over the turns the environment allows it. */
  method Supervise(limit: nat, window: nat, turns: seq<Turn>) returns (s: Supervisor)
    ensures s == Supervised(limit, window, turns)
  {
    var restarts: seq<nat>, history: seq<nat>, starts: nat := [], [], 0;
    for k := 0 to |turns|
      invariant Supervised(limit, window, turns[..k]) == Supervisor(Waiting, restarts, history, starts, false)
    {
      assert turns[..k + 1][..k] == turns[..k];
      if turns[k].cancelledBefore {
        s := Supervisor(Stopped, restarts, history, starts, false);
        EndStays(limit, window, turns, k + 1);
        return;
      }
      starts := starts + 1;
      match turns[k].end {
        case Clean =>
          s := Supervisor(Stopped, restarts, history, starts, false);
          EndStays(limit, window, turns, k + 1);
          return;
        case Aborted =>
          s := Supervisor(Stopped, restarts, history, starts, false);
          EndStays(limit, window, turns, k + 1);
          return;
        case Panic(now, cancelled) =>
          if cancelled {
            s := Supervisor(Stopped, restarts, history, starts, false);
            EndStays(limit, window, turns, k + 1);
            return;
          }
          ghost var kept := Pruned(restarts, now, window);
          while restarts != [] && Elapsed(now, restarts[0]) > window
            invariant Pruned(restarts, now, window) == kept
            decreases |restarts|
          {
            restarts := restarts[1..];
          }
          if |restarts| >= limit {
            s := Supervisor(GaveUp, restarts, history, starts, true);
            EndStays(limit, window, turns, k + 1);
            return;
          }
          restarts := restarts + [now];
          history := history + [now];
      }
    }
    assert turns[..|turns|] == turns;
    s := Supervisor(Waiting, restarts, history, starts, false);
  }

  /** Once it has stopped or given up, nothing the environment does starts or cancels more. */
  lemma {:induction false} EndStays(limit: nat, window: nat, turns: seq<Turn>, k: nat)
    requires k <= |turns| && Supervised(limit, window, turns[..k]).status != Waiting
    ensures Supervised(limit, window, turns) == Supervised(limit, window, turns[..k])
    decreases |turns|
  {
    if k == |turns| {
      assert turns[..k] == turns;
    } else {
      assert turns[..|turns| - 1][..k] == turns[..k];
      EndStays(limit, window, turns[..|turns| - 1], k);
    }
  }

  // ----- The budget -----

  /** The readings of all panics do not decrease. */
  ghost predicate Monotone(turns: seq<Turn>) {
    forall i, j :: 0 <= i < j < |turns| && turns[i].end.Panic? && turns[j].end.Panic? ==>
      turns[i].end.now <= turns[j].end.now
  }

  ghost predicate Ascends(s: seq<nat>) {
    forall i, j :: 0 <= i < j < |s| ==> s[i] <= s[j]
  }

  /** How many of the restarts lie in the closed interval. */
  function CountIn(s: seq<nat>, from: int, to: int): nat {
    if s == [] then 0
    else CountIn(s[..|s| - 1], from, to) + if from <= s[|s| - 1] <= to then 1 else 0
  }

  /** Any two restarts `limit` or more places apart lie more than a window apart. */
  ghost predicate Spaced(history: seq<nat>, limit: nat, window: nat) {
    forall i, j :: 0 <= i < |history| && 0 <= j < |history| && j - i >= limit && j >= i ==>
      history[i] + window < history[j]
  }

  /** `kept` are the last of the history, and those before lie more than a window before `now`. */
  ghost predicate KeepsLatest(history: seq<nat>, kept: seq<nat>, window: nat, now: nat) {
    |kept| <= |history| && kept == history[|history| - |kept|..] &&
    forall i :: 0 <= i < |history| - |kept| ==> history[i] + window < now
  }

  ghost predicate Budgeted(limit: nat, window: nat, s: Supervisor, latest: nat) {
    Ascends(s.history) &&
    (forall i :: 0 <= i < |s.history| ==> s.history[i] <= latest) &&
    |s.restarts| <= limit &&
    KeepsLatest(s.history, s.restarts, window, latest) &&
    Spaced(s.history, limit, window)
  }

  /** Pruning an ascending deque leaves exactly what lies in the window ending now. */
  lemma {:induction false} PrunedIsRecent(restarts: seq<nat>, now: nat, window: nat)
    requires Ascends(restarts) && forall i :: 0 <= i < |restarts| ==> restarts[i] <= now
    ensures var p := Pruned(restarts, now, window);
            |p| <= |restarts| && p == restarts[|restarts| - |p|..] &&
            (forall i :: 0 <= i < |restarts| - |p| ==> restarts[i] + window < now) &&
            (forall i :: 0 <= i < |p| ==> now <= p[i] + window)
    decreases |restarts|
  {
    var p := Pruned(restarts, now, window);
    if restarts == [] {
      assert p == restarts;
    } else if Elapsed(now, restarts[0]) > window {
      var tail := restarts[1..];
      assert forall i :: 0 <= i < |tail| ==> tail[i] == restarts[i + 1];
      PrunedIsRecent(tail, now, window);
      var dropped := |tail| - |p|;
      assert p == tail[dropped..] == restarts[dropped + 1..];
      forall i | 0 <= i < dropped + 1 ensures restarts[i] + window < now {
        assert i > 0 ==> restarts[i] == tail[i - 1];
      }
    } else {
      assert p == restarts;
      forall i | 0 <= i < |p| ensures now <= p[i] + window {
        assert restarts[0] <= p[i];
      }
    }
  }

  lemma {:induction false} CountSplits(s: seq<nat>, k: nat, from: int, to: int)
    requires k <= |s|
    ensures CountIn(s, from, to) == CountIn(s[..k], from, to) + CountIn(s[k..], from, to)
    decreases |s|
  {
    if k == |s| {
      assert s[..k] == s && s[k..] == [];
    } else {
      var init := s[..|s| - 1];
      CountSplits(init, k, from, to);
      assert init[..k] == s[..k] && init[k..] == s[k..][..|s| - 1 - k];
    }
  }

  lemma {:induction false} CountNone(s: seq<nat>, from: int, to: int)
    requires forall i :: 0 <= i < |s| ==> s[i] < from
    ensures CountIn(s, from, to) == 0
    decreases |s|
  {
    if s != [] {
      CountNone(s[..|s| - 1], from, to);
    }
  }

  lemma {:induction false} CountAll(s: seq<nat>, from: int, to: int)
    ensures CountIn(s, from, to) <= |s|
    ensures (forall i :: 0 <= i < |s| ==> from <= s[i] <= to) ==> CountIn(s, from, to) == |s|
    decreases |s|
  {
    if s != [] {
      CountAll(s[..|s| - 1], from, to);
    }
  }

  /** Pruning keeps the latest, now against the new reading. */
  lemma PrunedKeepsLatest(history: seq<nat>, restarts: seq<nat>, window: nat, latest: nat, now: nat)
    requires Ascends(history) && forall i :: 0 <= i < |history| ==> history[i] <= now
    requires KeepsLatest(history, restarts, window, latest) && latest <= now
    ensures var p := Pruned(restarts, now, window);
            |p| <= |restarts| && KeepsLatest(history, p, window, now) &&
            forall i :: 0 <= i < |p| ==> now <= p[i] + window
  {
    hide Pruned;
    var n, m := |history|, |restarts|;
    PrunedIsRecent(restarts, now, window);
    var p := Pruned(restarts, now, window);
    assert p == history[n - |p|..];
    forall i | 0 <= i < n - |p| ensures history[i] + window < now {
      if i >= n - m {
        assert history[i] == restarts[i - (n - m)];
      }
    }
  }

  /** The kept restarts, when all lie in the window ending now, are those that do. */
  lemma KeptCounts(history: seq<nat>, kept: seq<nat>, window: nat, now: nat)
    requires KeepsLatest(history, kept, window, now)
    requires forall i :: 0 <= i < |kept| ==> kept[i] <= now <= kept[i] + window
    ensures CountIn(history, now - window, now) == |kept|
  {
    hide CountIn;
    var k := |history| - |kept|;
    CountSplits(history, k, now - window, now);
    CountNone(history[..k], now - window, now);
    CountAll(kept, now - window, now);
  }

  /** The pruned deque counts the restarts in the closed window ending now. */
  lemma PrunedCounts(limit: nat, window: nat, s: Supervisor, latest: nat, now: nat)
    requires Budgeted(limit, window, s, latest) && latest <= now
    ensures CountIn(s.history, now - window, now) == |Pruned(s.restarts, now, window)|
  {
    hide CountIn, Pruned, Spaced;
    PrunedKeepsLatest(s.history, s.restarts, window, latest, now);
    var p := Pruned(s.restarts, now, window);
    assert forall i :: 0 <= i < |p| ==> p[i] == s.history[|s.history| - |p| + i];
    KeptCounts(s.history, p, window, now);
  }

  /** One more restart, when fewer than `limit` lie in the window ending with it. */
  lemma SpacedExtends(history: seq<nat>, kept: seq<nat>, limit: nat, window: nat, now: nat)
    requires Spaced(history, limit, window) && KeepsLatest(history, kept, window, now) && |kept| < limit
    ensures Spaced(history + [now], limit, window)
    ensures KeepsLatest(history + [now], kept + [now], window, now)
  {
  }

  lemma PanicKeepsBudget(limit: nat, window: nat, s: Supervisor, latest: nat, now: nat)
    requires Budgeted(limit, window, s, latest) && latest <= now
    ensures Budgeted(limit, window, PanicStep(limit, window, s, now), now)
  {
    hide Pruned, Spaced, KeepsLatest;
    PrunedKeepsLatest(s.history, s.restarts, window, latest, now);
    var p := Pruned(s.restarts, now, window);
    if |p| < limit {
      SpacedExtends(s.history, p, limit, window, now);
    }
  }

  lemma LaterReading(limit: nat, window: nat, s: Supervisor, latest: nat, now: nat)
    requires Budgeted(limit, window, s, latest) && latest <= now
    ensures Budgeted(limit, window, s, now)
  {
  }

  lemma TurnKeepsBudget(limit: nat, window: nat, s: Supervisor, turn: Turn, latest: nat)
    requires Budgeted(limit, window, s, latest) && (turn.end.Panic? ==> latest <= turn.end.now)
    ensures var t := TurnStep(limit, window, s, turn);
            Budgeted(limit, window, t, if turn.end.Panic? then turn.end.now else latest)
  {
    hide PanicStep, Spaced, KeepsLatest;
    if turn.end.Panic? {
      PanicKeepsBudget(limit, window, s.(starts := s.starts + 1), latest, turn.end.now);
      LaterReading(limit, window, s, latest, turn.end.now);
    }
  }

  function LatestReading(turns: seq<Turn>): nat {
    if turns == [] then 0
    else
      var last := turns[|turns| - 1];
      if last.end.Panic? then last.end.now else LatestReading(turns[..|turns| - 1])
  }

  lemma {:induction false} LatestIsLast(turns: seq<Turn>, turn: Turn)
    requires Monotone(turns + [turn]) && turn.end.Panic?
    ensures LatestReading(turns) <= turn.end.now
    decreases |turns|
  {
    if turns != [] {
      var init, last := turns[..|turns| - 1], turns[|turns| - 1];
      assert (turns + [turn])[|turns|] == turn && (turns + [turn])[|turns| - 1] == last;
      if !last.end.Panic? {
        assert forall i :: 0 <= i < |init| ==> (init + [turn])[i] == (turns + [turn])[i];
        LatestIsLast(init, turn);
      }
    }
  }

  lemma {:induction false} EveryRunBudgeted(limit: nat, window: nat, turns: seq<Turn>)
    requires Monotone(turns)
    ensures Budgeted(limit, window, Supervised(limit, window, turns), LatestReading(turns))
    decreases |turns|
  {
    hide Budgeted, TurnStep;
    if turns == [] {
      assert Budgeted(limit, window, NEW, 0) by { NewIsBudgeted(limit, window); }
    } else {
      var init, last := turns[..|turns| - 1], turns[|turns| - 1];
      assert init + [last] == turns;
      EveryRunBudgeted(limit, window, init);
      if last.end.Panic? {
        LatestIsLast(init, last);
      }
      TurnKeepsBudget(limit, window, Supervised(limit, window, init), last, LatestReading(init));
    }
  }

  lemma NewIsBudgeted(limit: nat, window: nat)
    ensures Budgeted(limit, window, NEW, 0)
  {
  }

  lemma {:induction false} SpacedCount(s: seq<nat>, limit: nat, window: nat, from: int)
    requires Spaced(s, limit, window)
    ensures CountIn(s, from, from + window) <= limit
    decreases |s|
  {
    hide Spaced;
    var n := |s|;
    if n <= limit {
      CountAll(s, from, from + window);
    } else if from <= s[n - 1] <= from + window {
      hide CountIn;
      CountSplits(s, n - limit, from, from + window);
      CountAll(s[n - limit..], from, from + window);
      forall i | 0 <= i < n - limit ensures s[i] < from {
        FarApart(s, limit, window, i, n - 1);
      }
      CountNone(s[..n - limit], from, from + window);
    } else {
      InitIsSpaced(s, limit, window);
      SpacedCount(s[..n - 1], limit, window, from);
    }
  }

  lemma FarApart(s: seq<nat>, limit: nat, window: nat, i: nat, j: nat)
    requires Spaced(s, limit, window) && i <= j < |s| && j - i >= limit
    ensures s[i] + window < s[j]
  {
  }

  lemma InitIsSpaced(s: seq<nat>, limit: nat, window: nat)
    requires Spaced(s, limit, window) && s != []
    ensures Spaced(s[..|s| - 1], limit, window)
  {
    var init := s[..|s| - 1];
    forall i, j | 0 <= i < |init| && 0 <= j < |init| && j - i >= limit && j >= i ensures init[i] + window < init[j] {
      assert init[i] == s[i] && init[j] == s[j];
    }
  }

  /** The budget: with non-decreasing clock readings no closed interval of the window's length
      ever holds more than `limit` restarts. */
  lemma NoWindowOverspends(limit: nat, window: nat, turns: seq<Turn>, from: int)
    requires Monotone(turns)
    ensures CountIn(Supervised(limit, window, turns).history, from, from + window) <= limit
  {
    hide CountIn, Supervised;
    EveryRunBudgeted(limit, window, turns);
    SpacedCount(Supervised(limit, window, turns).history, limit, window, from);
  }

  lemma EarlierMonotone(turns: seq<Turn>, turn: Turn)
    requires Monotone(turns + [turn])
    ensures Monotone(turns)
  {
    assert forall i :: 0 <= i < |turns| ==> (turns + [turn])[i] == turns[i];
  }

  /** A panic of a running supervisor whose token is not cancelled: it gives up exactly when
      `limit` restarts or more already lie in the closed window ending now, and then cancels the
      token and starts nothing; otherwise it restarts. */
  lemma GivesUpExactly(limit: nat, window: nat, turns: seq<Turn>, now: nat)
    requires Monotone(turns + [Turn(false, Panic(now, false))])
    requires Supervised(limit, window, turns).status == Waiting
    ensures var before := Supervised(limit, window, turns);
            var after := Supervised(limit, window, turns + [Turn(false, Panic(now, false))]);
            if CountIn(before.history, now - window, now) >= limit then
              after.status == GaveUp && after.cancels && after.history == before.history
            else
              after.status == Waiting && !after.cancels && after.history == before.history + [now]
  {
    hide CountIn, Pruned, Budgeted, Monotone, LatestReading;
    var turn := Turn(false, Panic(now, false));
    assert (turns + [turn])[..|turns|] == turns;
    EarlierMonotone(turns, turn);
    EveryRunBudgeted(limit, window, turns);
    LatestIsLast(turns, turn);
    PrunedCounts(limit, window, Supervised(limit, window, turns), LatestReading(turns), now);
    StartsAndCancels(limit, window, turns);
  }

  /** Only giving up cancels; every start but the first is one recorded restart, and a cancel
      seen before a start costs that start. */
  lemma {:induction false} StartsAndCancels(limit: nat, window: nat, turns: seq<Turn>)
    ensures var s := Supervised(limit, window, turns);
            (s.cancels <==> s.status == GaveUp) &&
            (s.status == Waiting ==> s.starts == |s.history| == |turns|) &&
            (s.status == GaveUp ==> s.starts == |s.history| + 1) &&
            |s.history| <= s.starts <= |s.history| + 1
    decreases |turns|
  {
    hide Pruned;
    if turns != [] {
      StartsAndCancels(limit, window, turns[..|turns| - 1]);
    }
  }

  /** A turn that restarts or gives up: an instance was started and panicked, and the token was not
      cancelled by then. */
  predicate Crashes(turn: Turn) {
    !turn.cancelledBefore && turn.end.Panic? && !turn.end.cancelled
  }

  /** A waiting supervisor stops at exactly the turns that are no crash: a token cancelled before the
      start, a clean or aborted end, a panic after a cancel. It then cancels and restarts nothing,
      and started the instance unless the token was cancelled before. */
  lemma StopsExactly(limit: nat, window: nat, turns: seq<Turn>, turn: Turn)
    requires Supervised(limit, window, turns).status == Waiting
    ensures var before, after := Supervised(limit, window, turns), Supervised(limit, window, turns + [turn]);
            (after.status == Stopped <==> !Crashes(turn)) &&
            (!Crashes(turn) ==> !after.cancels && after.history == before.history) &&
            after.starts == before.starts + if turn.cancelledBefore then 0 else 1
  {
    hide Pruned;
    assert (turns + [turn])[..|turns|] == turns;
    StartsAndCancels(limit, window, turns);
  }

  /** How a run has ended: it stopped or gave up at one turn, and every turn before it crashed and
      was answered by a restart. */
  lemma {:induction false} EndsAtOneTurn(limit: nat, window: nat, turns: seq<Turn>) returns (k: nat)
    ensures k <= |turns| && forall i :: 0 <= i < k ==> Crashes(turns[i])
    ensures Supervised(limit, window, turns[..k]).status == Waiting
    ensures var s := Supervised(limit, window, turns);
            (s.status == Waiting <==> k == |turns|) &&
            (s.status == Stopped <==> k < |turns| && !Crashes(turns[k])) &&
            |s.history| == k
    decreases |turns|
  {
    if turns == [] {
      k := 0;
    } else {
      var init, last := turns[..|turns| - 1], turns[|turns| - 1];
      assert init + [last] == turns;
      k := EndsAtOneTurn(limit, window, init);
      StartsAndCancels(limit, window, init);
      StartsAndCancels(limit, window, turns);
      assert turns[..k] == init[..k];
      if k == |init| {
        assert init[..k] == init;
        StopsExactly(limit, window, init, last);
        if Supervised(limit, window, turns).status == Waiting {
          k := |turns|;
          assert turns[..k] == turns;
        }
      } else {
        assert init[..|init|] == init;
        EndStays(limit, window, turns, |init|);
      }
    }
  }
}
