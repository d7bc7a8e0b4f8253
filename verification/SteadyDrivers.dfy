/**
 When a screenshot run ends: the decision the frame pump takes at every vsync, and what it comes to over
 a whole run.
 */
module SteadyDrivers {
  import opened Options

  /** Raster work that has landed and work still on order. */
  datatype Progress = Progress(done: int, outstanding: int)

  /**
   What one vsync finds.  `changed` is the answer of the event-loop turn; `idle` and `progress` are the
   answers of the watchers, None while none is attached; the two clock readings are the one that restarts
   the stall clock and the later one it is compared with.
   */
  datatype Vsync = Vsync(changed: bool, elapsed: int, now: int, checked: int, progress: Option<Progress>,
                         idle: Option<bool>)

  /** The frame floor and ceiling, and the deadline and stall budget in milliseconds. */
  datatype Limits = Limits(floor: int, ceiling: int, deadline: int, stallBudget: int)

  function LimitsFor(frames: int): Limits {
    Limits(frames, frames * 8, 25000, 5000)
  }

  datatype State = State(sent: nat, settled: nat, lastProgress: int, lastMove: Option<int>)

  const START := State(0, 0, 0, None)

  // ---------------------------------------------------------------- one vsync

  /** The stall clock restarts at the first reading and whenever work has landed. */
  function Clocked(st: State, v: Vsync): State {
    if v.progress.Some? && (st.lastMove.None? || v.progress.value.done != st.lastProgress) then
      st.(lastProgress := v.progress.value.done, lastMove := Some(v.now))
    else st
  }

  function Ready(l: Limits, st: State, v: Vsync): (State, bool) {
    if st.sent < l.floor then (st, false)
    else if v.idle.None? || v.elapsed >= l.deadline then (st, true)
    else
      var s := Clocked(st, v);
      if v.progress.Some? && v.progress.value.outstanding > 0 then
        assert s.lastMove.Some?;
        (s, v.checked - s.lastMove.value > l.stallBudget)
      else if s.sent >= l.ceiling then (s, true)
      else
        var settled := if v.idle.value then s.settled + 1 else 0;
        (s.(settled := settled), settled >= 2)
  }

  /** A change published by the turn restarts the settle wait before readiness is asked. */
  function Counted(st: State, v: Vsync): State {
    st.(sent := st.sent + 1, settled := if v.changed then 0 else st.settled)
  }

  function Seen(l: Limits, st: State, v: Vsync): (State, bool) {
    Ready(l, Counted(st, v), v)
  }

  class SteadyDriver {
    const limits: Limits
    var sent: nat
    var settled: nat
    var lastProgress: int
    var lastMove: Option<int>
    var done: bool

    function Abs(): State
      reads this
    {
      State(sent, settled, lastProgress, lastMove)
    }

    constructor (frames: int)
      ensures Abs() == START && limits == LimitsFor(frames) && !done
    {
      limits := LimitsFor(frames);
      sent, settled, lastProgress, lastMove, done := 0, 0, 0, None, false;
    }

    /** One vsync of the pump: the turn, the count, the decision. */
    method Pump(v: Vsync)
      requires !done
      modifies this
      ensures (Abs(), done) == Seen(limits, old(Abs()), v)
    {
      if v.changed {
        settled := 0;
      }
      sent := sent + 1;
      done := Decide(v);
    }

    method Decide(v: Vsync) returns (ready: bool)
      modifies this`settled, this`lastProgress, this`lastMove
      ensures (Abs(), ready) == Ready(limits, old(Abs()), v)
    {
      if sent < limits.floor {
        return false;
      }
      if v.idle.None? || v.elapsed >= limits.deadline {
        return true;
      }
      if v.progress.Some? {
        var progress := v.progress.value;
        if lastMove.None? || progress.done != lastProgress {
          lastProgress := progress.done;
          lastMove := Some(v.now);
        }
        if progress.outstanding > 0 {
          return v.checked - lastMove.value > limits.stallBudget;
        }
      }
      if sent >= limits.ceiling {
        return true;
      }
      if v.idle.value {
        settled := settled + 1;
      } else {
        settled := 0;
      }
      return settled >= 2;
    }
  }

  // ---------------------------------------------------------------- whole runs

  function After(l: Limits, vs: seq<Vsync>): State {
    if vs == [] then START else Seen(l, After(l, vs[..|vs| - 1]), vs[|vs| - 1]).0
  }

  /** The run is over at its last vsync. */
  predicate EndsAtLast(l: Limits, vs: seq<Vsync>)
    requires vs != []
  {
    Seen(l, After(l, vs[..|vs| - 1]), vs[|vs| - 1]).1
  }

  /** Past the floor with the watchers attached and time left: the work is looked at. */
  predicate Watched(l: Limits, vs: seq<Vsync>, k: nat)
    requires k < |vs|
  {
    k + 1 >= l.floor && vs[k].idle.Some? && vs[k].elapsed < l.deadline
  }

  predicate Outstanding(v: Vsync) {
    v.progress.Some? && v.progress.value.outstanding > 0
  }

  /** With no work on order and the ceiling not reached, the vsync asks whether the frame path is idle. */
  predicate AsksIdle(l: Limits, vs: seq<Vsync>, k: nat)
    requires k < |vs|
  {
    Watched(l, vs, k) && !Outstanding(vs[k]) && k + 1 < l.ceiling
  }

  predicate FoundIdle(l: Limits, vs: seq<Vsync>, k: nat)
    requires k < |vs|
  {
    AsksIdle(l, vs, k) && vs[k].idle.value
  }

  predicate FoundBusy(l: Limits, vs: seq<Vsync>, k: nat)
    requires k < |vs|
  {
    AsksIdle(l, vs, k) && !vs[k].idle.value
  }

  /** From vsync `i` on, no page change after it and no busy answer. */
  ghost predicate QuietSince(l: Limits, vs: seq<Vsync>, i: nat) {
    forall k :: i < k < |vs| ==> !vs[k].changed && !FoundBusy(l, vs, k)
  }

  /** Two idle answers with neither a page change nor a busy answer in between or since. */
  ghost predicate TwiceIdle(l: Limits, vs: seq<Vsync>) {
    exists i, j :: 0 <= i < j < |vs| && FoundIdle(l, vs, i) && FoundIdle(l, vs, j) && QuietSince(l, vs, i)
  }

  ghost predicate OnceIdle(l: Limits, vs: seq<Vsync>) {
    exists i :: 0 <= i < |vs| && FoundIdle(l, vs, i) && QuietSince(l, vs, i)
  }

  /** The work has not moved since a reading more than the budget ago. */
  ghost predicate Stalled(l: Limits, vs: seq<Vsync>)
    requires vs != [] && vs[|vs| - 1].progress.Some?
  {
    exists i :: 0 <= i < |vs| && Moved(l, vs, i)
      && (forall k :: i < k < |vs| ==> !Moved(l, vs, k))
      && vs[|vs| - 1].checked - vs[i].now > l.stallBudget
  }

  /** The progress read at vsync `k`, when it is read. */
  predicate Read(l: Limits, vs: seq<Vsync>, k: nat)
    requires k < |vs|
  {
    Watched(l, vs, k) && vs[k].progress.Some?
  }

  /** A first reading, or one that differs from the reading before it. */
  ghost predicate Moved(l: Limits, vs: seq<Vsync>, k: nat)
    requires k < |vs|
  {
    Read(l, vs, k)
    && forall j :: 0 <= j < k && Read(l, vs, j) && (forall m :: j < m < k ==> !Read(l, vs, m)) ==>
         vs[j].progress.value.done != vs[k].progress.value.done
  }

  // ---------------------------------------------------------------- the fields against the run

  lemma {:induction false} SentCounts(l: Limits, vs: seq<Vsync>)
    ensures After(l, vs).sent == |vs|
  {
    if vs != [] { SentCounts(l, vs[..|vs| - 1]); }
  }

  /** The run before its last vsync, seen from the whole run. */
  lemma Before(l: Limits, vs: seq<Vsync>, k: nat)
    requires k < |vs| - 1
    ensures var b := vs[..|vs| - 1];
            && FoundIdle(l, b, k) == FoundIdle(l, vs, k) && FoundBusy(l, b, k) == FoundBusy(l, vs, k)
            && Read(l, b, k) == Read(l, vs, k) && b[k] == vs[k]
  {
  }

  /** One vsync's effect on the settle count. */
  lemma SettledStep(l: Limits, vs: seq<Vsync>)
    requires vs != []
    ensures var n := |vs| - 1;
            var before := if vs[n].changed then 0 else After(l, vs[..n]).settled;
            After(l, vs).settled
            == if FoundIdle(l, vs, n) then before + 1 else if FoundBusy(l, vs, n) then 0 else before
  {
    SentCounts(l, vs[..|vs| - 1]);
  }

  lemma QuietStep(l: Limits, vs: seq<Vsync>, i: nat)
    requires vs != [] && i < |vs| - 1
    ensures var n := |vs| - 1;
            QuietSince(l, vs, i) == (QuietSince(l, vs[..n], i) && !vs[n].changed && !FoundBusy(l, vs, n))
  {
    hide FoundIdle, FoundBusy, Read;
    var n := |vs| - 1;
    forall k | i < k < n ensures vs[..n][k] == vs[k] && FoundBusy(l, vs[..n], k) == FoundBusy(l, vs, k) {
      Before(l, vs, k);
    }
    if QuietSince(l, vs, i) { assert !vs[n].changed && !FoundBusy(l, vs, n); }
  }

  /** The settle count tells exactly whether there was one idle answer, or two, since the last disturbance. */
  lemma {:induction false} SettledCountsIdles(l: Limits, vs: seq<Vsync>)
    ensures After(l, vs).settled >= 1 <==> OnceIdle(l, vs)
    ensures After(l, vs).settled >= 2 <==> TwiceIdle(l, vs)
  {
    if vs != [] {
      SettledCountsIdles(l, vs[..|vs| - 1]);
      SettledStep(l, vs);
      OnceStep(l, vs);
      TwiceStep(l, vs);
    }
  }

  lemma OnceStep(l: Limits, vs: seq<Vsync>)
    requires vs != []
    ensures var n := |vs| - 1;
            OnceIdle(l, vs) <==>
              FoundIdle(l, vs, n) || (OnceIdle(l, vs[..n]) && !vs[n].changed && !FoundBusy(l, vs, n))
  {
    hide FoundIdle, FoundBusy, QuietSince, Read;
    var n := |vs| - 1;
    if OnceIdle(l, vs) && !FoundIdle(l, vs, n) {
      var i :| 0 <= i < |vs| && FoundIdle(l, vs, i) && QuietSince(l, vs, i);
      QuietStep(l, vs, i);
      Before(l, vs, i);
    }
    if FoundIdle(l, vs, n) {
      LastIsQuiet(l, vs);
    } else if OnceIdle(l, vs[..n]) && !vs[n].changed && !FoundBusy(l, vs, n) {
      var i :| 0 <= i < n && FoundIdle(l, vs[..n], i) && QuietSince(l, vs[..n], i);
      QuietStep(l, vs, i);
      Before(l, vs, i);
    }
  }

  lemma LastIsQuiet(l: Limits, vs: seq<Vsync>)
    requires vs != []
    ensures QuietSince(l, vs, |vs| - 1)
  {
  }

  lemma TwiceStep(l: Limits, vs: seq<Vsync>)
    requires vs != []
    ensures var n := |vs| - 1;
            TwiceIdle(l, vs) <==>
              !vs[n].changed && !FoundBusy(l, vs, n)
              && (if FoundIdle(l, vs, n) then OnceIdle(l, vs[..n]) else TwiceIdle(l, vs[..n]))
  {
    hide FoundIdle, FoundBusy, QuietSince, Read;
    var n := |vs| - 1;
    if TwiceIdle(l, vs) { TwiceBefore(l, vs); }
    if !vs[n].changed && !FoundBusy(l, vs, n) {
      if FoundIdle(l, vs, n) && OnceIdle(l, vs[..n]) {
        var i :| 0 <= i < n && FoundIdle(l, vs[..n], i) && QuietSince(l, vs[..n], i);
        QuietStep(l, vs, i);
        Before(l, vs, i);
      } else if !FoundIdle(l, vs, n) && TwiceIdle(l, vs[..n]) {
        var i, j :| 0 <= i < j < n && FoundIdle(l, vs[..n], i) && FoundIdle(l, vs[..n], j) && QuietSince(l, vs[..n], i);
        QuietStep(l, vs, i);
        Before(l, vs, i);
        Before(l, vs, j);
      }
    }
  }

  lemma TwiceBefore(l: Limits, vs: seq<Vsync>)
    requires vs != [] && TwiceIdle(l, vs)
    ensures var n := |vs| - 1;
            !vs[n].changed && !FoundBusy(l, vs, n)
            && if FoundIdle(l, vs, n) then OnceIdle(l, vs[..n]) else TwiceIdle(l, vs[..n])
  {
    hide FoundIdle, FoundBusy, QuietSince, Read;
    var n := |vs| - 1;
    var i, j :| 0 <= i < j < |vs| && FoundIdle(l, vs, i) && FoundIdle(l, vs, j) && QuietSince(l, vs, i);
    QuietStep(l, vs, i);
    Before(l, vs, i);
    if j < n { Before(l, vs, j); }
  }

  // ---------------------------------------------------------------- the stall clock against the run

  /** The clock stands at the latest reading that moved. */
  ghost predicate ClockIs(l: Limits, vs: seq<Vsync>, st: State) {
    match st.lastMove
    case None => forall k :: 0 <= k < |vs| ==> !Read(l, vs, k)
    case Some(t) =>
      exists i, r :: 0 <= i <= r < |vs| && LatestMove(l, vs, i, r) && t == vs[i].now
        && st.lastProgress == vs[r].progress.value.done
  }

  /** Reading `i` is the latest that moved and reading `r` the latest of all. */
  ghost predicate LatestMove(l: Limits, vs: seq<Vsync>, i: nat, r: nat)
    requires i <= r < |vs|
  {
    && Moved(l, vs, i) && (forall k :: i < k < |vs| ==> !Moved(l, vs, k))
    && Read(l, vs, r) && (forall k :: r < k < |vs| ==> !Read(l, vs, k))
  }

  lemma MovedBefore(l: Limits, vs: seq<Vsync>, k: nat)
    requires k < |vs| - 1
    ensures Moved(l, vs[..|vs| - 1], k) == Moved(l, vs, k)
  {
    hide Read;
    var b := vs[..|vs| - 1];
    forall j | 0 <= j <= k ensures Read(l, b, j) == Read(l, vs, j) && b[j] == vs[j] { Before(l, vs, j); }
  }

  /** Whether the last vsync moved, by the latest reading before it. */
  lemma LastMoved(l: Limits, vs: seq<Vsync>, i: nat, r: nat)
    requires vs != [] && i <= r < |vs| - 1 && LatestMove(l, vs[..|vs| - 1], i, r)
    ensures var n := |vs| - 1;
            Moved(l, vs, n) <==> Read(l, vs, n) && vs[r].progress.value.done != vs[n].progress.value.done
    ensures Read(l, vs, r)
  {
    hide Read, Moved;
    var n := |vs| - 1;
    var b := vs[..n];
    forall k | 0 <= k < n ensures Read(l, b, k) == Read(l, vs, k) && b[k] == vs[k] { Before(l, vs, k); }
    MovedMeans(l, vs, r);
  }

  lemma MovedMeans(l: Limits, vs: seq<Vsync>, r: nat)
    requires r < |vs| - 1 && Read(l, vs, r) && forall k :: r < k < |vs| - 1 ==> !Read(l, vs, k)
    ensures Moved(l, vs, |vs| - 1) <==>
              Read(l, vs, |vs| - 1) && vs[r].progress.value.done != vs[|vs| - 1].progress.value.done
  {
    hide Read;
  }

  lemma {:induction false} ClockTellsLatestMove(l: Limits, vs: seq<Vsync>)
    ensures ClockIs(l, vs, After(l, vs))
  {
    hide Moved, Watched;
    if vs != [] {
      var n := |vs| - 1;
      var b := vs[..n];
      var st := After(l, b);
      ClockTellsLatestMove(l, b);
      ClockStep(l, vs);
      if st.lastMove.None? {
        ClockStarts(l, vs);
      } else {
        var i, r :| 0 <= i <= r < n && LatestMove(l, b, i, r) && st.lastMove == Some(b[i].now)
                    && st.lastProgress == b[r].progress.value.done;
        ClockGoesOn(l, vs, i, r);
      }
    }
  }

  /** One vsync's effect on the stall clock. */
  lemma ClockStep(l: Limits, vs: seq<Vsync>)
    requires vs != []
    ensures var n := |vs| - 1;
            var st, next := After(l, vs[..n]), After(l, vs);
            var restart := Read(l, vs, n) && (st.lastMove.None? || vs[n].progress.value.done != st.lastProgress);
            && next.lastMove == (if restart then Some(vs[n].now) else st.lastMove)
            && next.lastProgress == (if restart then vs[n].progress.value.done else st.lastProgress)
  {
    SentCounts(l, vs[..|vs| - 1]);
  }

  lemma ClockStarts(l: Limits, vs: seq<Vsync>)
    requires vs != [] && After(l, vs[..|vs| - 1]).lastMove.None?
    requires ClockIs(l, vs[..|vs| - 1], After(l, vs[..|vs| - 1]))
    ensures ClockIs(l, vs, After(l, vs))
  {
    hide Read, Moved, After, LatestMove;
    var n := |vs| - 1;
    ClockStep(l, vs);
    forall k | 0 <= k < n ensures !Read(l, vs, k) { Before(l, vs, k); }
    if Read(l, vs, n) { FirstReadIsLatest(l, vs); }
  }

  lemma FirstReadIsLatest(l: Limits, vs: seq<Vsync>)
    requires vs != [] && Read(l, vs, |vs| - 1) && forall k :: 0 <= k < |vs| - 1 ==> !Read(l, vs, k)
    ensures LatestMove(l, vs, |vs| - 1, |vs| - 1)
  {
    hide Read, Moved;
    FirstReadMoves(l, vs, |vs| - 1);
  }

  lemma FirstReadMoves(l: Limits, vs: seq<Vsync>, k: nat)
    requires k < |vs| && Read(l, vs, k) && forall j :: 0 <= j < k ==> !Read(l, vs, j)
    ensures Moved(l, vs, k)
  {
    hide Read;
  }

  lemma ClockGoesOn(l: Limits, vs: seq<Vsync>, i: nat, r: nat)
    requires vs != [] && i <= r < |vs| - 1 && LatestMove(l, vs[..|vs| - 1], i, r)
    requires After(l, vs[..|vs| - 1]).lastMove == Some(vs[i].now)
    requires Read(l, vs[..|vs| - 1], r) && After(l, vs[..|vs| - 1]).lastProgress == vs[r].progress.value.done
    ensures ClockIs(l, vs, After(l, vs))
  {
    hide Read, Moved;
    var n := |vs| - 1;
    ClockStep(l, vs);
    LastMoved(l, vs, i, r);
    forall k | 0 <= k < n ensures Read(l, vs[..n], k) == Read(l, vs, k) { Before(l, vs, k); }
    forall k | 0 <= k < n ensures Moved(l, vs[..n], k) == Moved(l, vs, k) { MovedBefore(l, vs, k); }
    if Read(l, vs, n) {
      assert LatestMove(l, vs, if Moved(l, vs, n) then n else i, n);
    } else {
      NotRead(l, vs, n);
      assert LatestMove(l, vs, i, r);
    }
  }

  lemma NotRead(l: Limits, vs: seq<Vsync>, k: nat)
    requires k < |vs| && !Read(l, vs, k)
    ensures !Moved(l, vs, k)
  {
  }

  /** The clock is past its budget exactly when the work is stalled. */
  lemma ClockSaysStalled(l: Limits, vs: seq<Vsync>)
    requires vs != [] && Read(l, vs, |vs| - 1)
    ensures After(l, vs).lastMove.Some?
    ensures vs[|vs| - 1].checked - After(l, vs).lastMove.value > l.stallBudget <==> Stalled(l, vs)
  {
    hide Read, Moved;
    ClockTellsLatestMove(l, vs);
    ReadHasProgress(l, vs, |vs| - 1);
    assert After(l, vs).lastMove.Some?;
    var i, r :| 0 <= i <= r < |vs| && LatestMove(l, vs, i, r) && After(l, vs).lastMove == Some(vs[i].now);
    if Stalled(l, vs) {
      var j :| 0 <= j < |vs| && Moved(l, vs, j) && (forall k :: j < k < |vs| ==> !Moved(l, vs, k))
               && vs[|vs| - 1].checked - vs[j].now > l.stallBudget;
      assert i == j;
    }
  }

  lemma ReadHasProgress(l: Limits, vs: seq<Vsync>, k: nat)
    requires k < |vs| && Read(l, vs, k)
    ensures vs[k].progress.Some? && Watched(l, vs, k)
  {
  }

  // ---------------------------------------------------------------- when a run ends

  /**
   A run ends at a vsync exactly when the floor is met and one of these holds: no watcher is attached, the
   deadline has passed, work is on order but stalled beyond the budget, or none is on order and either the
   ceiling is reached or this vsync is the second idle answer since the page last changed or was busy.
   */
  lemma RunEndsIff(l: Limits, vs: seq<Vsync>)
    requires vs != []
    ensures var n := |vs| - 1;
            var v := vs[n];
            EndsAtLast(l, vs) <==>
              |vs| >= l.floor
              && (v.idle.None? || v.elapsed >= l.deadline
                  || (Outstanding(v) && Stalled(l, vs))
                  || (!Outstanding(v) && (|vs| >= l.ceiling || (v.idle.value && TwiceIdle(l, vs)))))
  {
    hide Stalled, TwiceIdle, OnceIdle, Moved;
    var n := |vs| - 1;
    var v := vs[n];
    SentCounts(l, vs[..n]);
    SettledCountsIdles(l, vs);
    if |vs| >= l.floor && v.idle.Some? && v.elapsed < l.deadline && v.progress.Some? {
      ClockSaysStalled(l, vs);
    }
    EndsByFields(l, vs);
  }

  lemma EndsByFields(l: Limits, vs: seq<Vsync>)
    requires vs != []
    ensures var v := vs[|vs| - 1];
            var st := After(l, vs);
            EndsAtLast(l, vs) <==>
              |vs| >= l.floor
              && (v.idle.None? || v.elapsed >= l.deadline
                  || (Outstanding(v) && st.lastMove.Some? && v.checked - st.lastMove.value > l.stallBudget)
                  || (!Outstanding(v) && (|vs| >= l.ceiling || (v.idle.value && st.settled >= 2))))
  {
    SentCounts(l, vs[..|vs| - 1]);
    if LastAsksIdle(l, vs) { SettledStep(l, vs); }
  }

  /** Work that moved last at some reading more than so many milliseconds before the last one. */
  ghost predicate StillSince(l: Limits, vs: seq<Vsync>, budget: int)
    requires vs != []
  {
    exists i :: 0 <= i < |vs| && Moved(l, vs, i) && (forall k :: i < k < |vs| ==> !Moved(l, vs, k))
      && vs[|vs| - 1].checked - vs[i].now > budget
  }

  /**
   The same for the driver as it is made for a number of frames: never before that many, and then at 25 seconds,
   at work that has stood still for more than 5, at 8 times as many frames, or settled.
   */
  lemma DriverEndsIff(frames: int, vs: seq<Vsync>)
    requires vs != []
    ensures var l, v := LimitsFor(frames), vs[|vs| - 1];
            EndsAtLast(l, vs) <==>
              |vs| >= frames
              && (v.idle.None? || v.elapsed >= 25000
                  || (Outstanding(v) && StillSince(l, vs, 5000))
                  || (!Outstanding(v) && (|vs| >= 8 * frames || (v.idle.value && TwiceIdle(l, vs)))))
  {
    hide TwiceIdle, Moved;
    RunEndsIff(LimitsFor(frames), vs);
  }

  predicate LastAsksIdle(l: Limits, vs: seq<Vsync>)
    requires vs != []
  {
    AsksIdle(l, vs, |vs| - 1)
  }

  /** Two idle answers need not follow one another: a vsync with work on order between them resets nothing. */
  lemma IdleAnswersNeedNotBeAdjacent()
    ensures exists l: Limits, vs: seq<Vsync> ::
              |vs| == 3 && FoundIdle(l, vs, 0) && Outstanding(vs[1]) && EndsAtLast(l, vs)
              && !EndsAtLast(l, vs[..1]) && !EndsAtLast(l, vs[..2])
  {
    var l := Limits(1, 8, 25000, 5000);
    var idle := Vsync(false, 0, 0, 0, Some(Progress(1, 0)), Some(true));
    var busy := Vsync(false, 0, 0, 0, Some(Progress(1, 1)), Some(true));
    var vs := [idle, busy, idle];
    assert vs[..1] == [idle] && vs[..2] == [idle, busy] && [idle][..0] == [] && [idle, busy][..1] == [idle];
    var one, two := State(1, 1, 1, Some(0)), State(2, 1, 1, Some(0));
    assert Seen(l, START, idle) == (one, false) && Seen(l, one, busy) == (two, false);
    assert Seen(l, two, idle).1;
    assert After(l, [idle]) == one;
    assert After(l, [idle, busy]) == two;
    assert !EndsAtLast(l, vs[..1]) && !EndsAtLast(l, vs[..2]) && EndsAtLast(l, vs);
    assert FoundIdle(l, vs, 0) && Outstanding(vs[1]);
  }
}
