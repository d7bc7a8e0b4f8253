/**
 Where every session is.  Places are counted, so that a session in two places, or closed twice,
 counts twice.
 */
module NavOwnership {
  import opened Options
  import opened NavModel

  function Is(s: Option<Session>, x: Session): nat {
    if s == Some(x) then 1 else 0
  }

  function InTabs(tabs: seq<TabState>, x: Session): nat {
    if tabs == [] then 0 else Is(tabs[0].session, x) + InTabs(tabs[1..], x)
  }

  function InQueue(queue: seq<NavResult>, x: Session): nat {
    if queue == [] then 0 else Is(queue[0].session, x) + InQueue(queue[1..], x)
  }

  function InClosed(closed: seq<Session>, x: Session): nat {
    if closed == [] then 0 else (if closed[0] == x then 1 else 0) + InClosed(closed[1..], x)
  }

  /** The number of places `x` is in: shown by a live tab, in an undelivered result, or closed. */
  function Places(s: State, x: Session): nat {
    InTabs(s.tabs, x) + InQueue(s.queue, x) + InClosed(s.closed, x)
  }

  function Built(s: State, x: Session): nat {
    if x in s.built then 1 else 0
  }

  /**
   One when this step drops `x` without closing it: a load gave it up after building it, a delivered error
   or download carried it, or an error page was given up after its session was built.
   */
  function Lost(s: State, step: Step, x: Session): nat {
    if step.Finish? then Is(step.givenUp, x)
    else if !step.Apply? || !HeadCurrent(s) then 0
    else if s.queue[0].downloadPath != "" || s.queue[0].err.Some? then
      Is(s.queue[0].session, x)
      + (if HeadFails(s) && step.page.Discarded? && step.page.session == x then 1 else 0)
    else 0
  }

  function LostAlong(s: State, steps: seq<Step>, x: Session): nat
    decreases |steps|
  {
    if steps == [] then 0 else Lost(s, steps[0], x) + LostAlong(Next(s, steps[0]), steps[1..], x)
  }

  // ---------------------------------------------------------------- sums over tabs and queue

  lemma {:induction false} InTabsConcat(a: seq<TabState>, b: seq<TabState>, x: Session)
    ensures InTabs(a + b, x) == InTabs(a, x) + InTabs(b, x)
  {
    if a == [] {
      assert a + b == b;
    } else {
      InTabsConcat(a[1..], b, x);
      assert (a + b)[1..] == a[1..] + b;
    }
  }

  lemma InTabsSplit(tabs: seq<TabState>, i: nat, x: Session)
    requires i < |tabs|
    ensures InTabs(tabs, x) == InTabs(tabs[..i], x) + Is(tabs[i].session, x) + InTabs(tabs[i + 1..], x)
  {
    assert tabs == tabs[..i] + tabs[i..];
    InTabsConcat(tabs[..i], tabs[i..], x);
    assert tabs[i..][1..] == tabs[i + 1..];
  }

  lemma InTabsUpdate(tabs: seq<TabState>, i: nat, t: TabState, x: Session)
    requires i < |tabs|
    ensures InTabs(tabs[i := t], x) == InTabs(tabs, x) - Is(tabs[i].session, x) + Is(t.session, x)
  {
    InTabsSplit(tabs, i, x);
    InTabsSplit(tabs[i := t], i, x);
    assert tabs[i := t][..i] == tabs[..i] && tabs[i := t][i + 1..] == tabs[i + 1..];
  }

  lemma InTabsRemove(tabs: seq<TabState>, i: nat, x: Session)
    requires i < |tabs|
    ensures InTabs(tabs[..i] + tabs[i + 1..], x) == InTabs(tabs, x) - Is(tabs[i].session, x)
  {
    InTabsSplit(tabs, i, x);
    InTabsConcat(tabs[..i], tabs[i + 1..], x);
  }

  lemma InTabsInsert(tabs: seq<TabState>, k: nat, t: TabState, x: Session)
    requires k <= |tabs|
    ensures InTabs(Inserted(tabs, k, t), x) == InTabs(tabs, x) + Is(t.session, x)
  {
    assert tabs == tabs[..k] + tabs[k..];
    InTabsConcat(tabs[..k], tabs[k..], x);
    InTabsConcat(tabs[..k] + [t], tabs[k..], x);
    InTabsConcat(tabs[..k], [t], x);
  }

  lemma MoveKeeps(s: State, id: nat, to: int, x: Session)
    ensures Places(MoveState(s, id, to), x) == Places(s, x) && MoveState(s, id, to).built == s.built
  {
    hide IndexOf, InTabs;
    var i := IndexOf(s.tabs, id);
    if i < |s.tabs| && s.active < |s.tabs| {
      var rest := s.tabs[..i] + s.tabs[i + 1..];
      InTabsRemove(s.tabs, i, x);
      InTabsInsert(rest, if to < 0 then 0 else if to > |rest| then |rest| else to, s.tabs[i], x);
    }
  }

  lemma RewriteKeeps(s: State, url: string, history: History, x: Session)
    ensures Places(RewriteState(s, url, history), x) == Places(s, x) && RewriteState(s, url, history).built == s.built
  {
    hide RestorePage;
    if RewriteState(s, url, history) != s {
      InTabsUpdate(s.tabs, 0, RewriteState(s, url, history).tabs[0], x);
      assert s.tabs[0 := RewriteState(s, url, history).tabs[0]] == RewriteState(s, url, history).tabs;
    }
  }

  lemma {:induction false} InQueueAppend(queue: seq<NavResult>, r: NavResult, x: Session)
    ensures InQueue(queue + [r], x) == InQueue(queue, x) + Is(r.session, x)
  {
    if queue == [] {
      assert queue + [r] == [r];
    } else {
      InQueueAppend(queue[1..], r, x);
      assert (queue + [r])[1..] == queue[1..] + [r];
    }
  }

  lemma {:induction false} InClosedAppend(closed: seq<Session>, s: Option<Session>, x: Session)
    ensures InClosed(CloseSession(closed, s), x) == InClosed(closed, x) + Is(s, x)
  {
    if s.Some? {
      if closed == [] {
        assert closed + [s.value] == [s.value];
      } else {
        InClosedAppend(closed[1..], s, x);
        assert (closed + [s.value])[1..] == closed[1..] + [s.value];
      }
    }
  }

  // ---------------------------------------------------------------- one step

  /** Sessions are built before they are anywhere, and are in one place at most. */
  ghost predicate AtMostOnce(s: State) {
    forall x {:trigger Places(s, x)} {:trigger Built(s, x)} :: Places(s, x) <= Built(s, x)
  }

  /**
   The law of one step, session by session: places change by what the step builds, less what it
   loses.
   */
  lemma StepConserves(s: State, step: Step, x: Session)
    requires Enabled(s, step) && AtMostOnce(s)
    ensures Places(Next(s, step), x) + Lost(s, step, x)
            == Places(s, x) + Built(Next(s, step), x) - Built(s, x)
  {
    hide ApplyState, HistoryAfter, InTabs, InQueue, InClosed, IndexOf, NavigateState, Lost, AtMostOnce;
    if !step.Apply? { LostInLoad(s, step, x); }
    match step
    case OpenTab(at, url, history, _) =>
      InTabsInsert(s.tabs, if at <= |s.tabs| then at else |s.tabs|,
                   TabState(s.nextId + 1, 0, false, None, None, url, history, 0), x);
    case SwitchTo(id) =>
    case MoveTab(id, to) => MoveKeeps(s, id, to, x);
    case Rewrite(url, history) => RewriteKeeps(s, url, history, x);
    case Navigate(url) => NavigateKeeps(s, url, false, 0, 0, x);
    case Traverse(delta) =>
      if TraverseState(s, delta) != s {
        var h := s.tabs[s.active].history;
        NavigateKeeps(s, h.Peek(delta).value, true, delta, h.index, x);
      }
    case Reload =>
      if ReloadState(s) != s {
        NavigateKeeps(s, s.tabs[s.active].url, true, 0, 0, x);
      }
    case Stop =>
      if StopState(s) != s {
        var t := s.tabs[s.active];
        InTabsUpdate(s.tabs, s.active, t.(serial := t.serial + 1, loading := false, cancel := None), x);
      }
    case CloseTab(id) =>
      var i := IndexOf(s.tabs, id);
      if i < |s.tabs| {
        InTabsRemove(s.tabs, i, x);
        InClosedAppend(s.closed, s.tabs[i].session, x);
      }
    case Finish(load, finalUrl, session, end, givenUp) =>
      InQueueAppend(s.queue, ResultOf(s.inflight[load], finalUrl, session, end), x);
    case Apply(page) => ApplyConserves(s, page, x);
  }

  lemma LostInLoad(s: State, step: Step, x: Session)
    requires !step.Apply?
    ensures Lost(s, step, x) == if step.Finish? then Is(step.givenUp, x) else 0
  {
  }

  lemma NavigateKeeps(s: State, url: string, noHistory: bool, delta: int, base: int, x: Session)
    ensures Places(NavigateState(s, url, noHistory, delta, base), x) == Places(s, x)
    ensures NavigateState(s, url, noHistory, delta, base).built == s.built
  {
    if s.active < |s.tabs| {
      var t := s.tabs[s.active];
      InTabsUpdate(s.tabs, s.active, t.(serial := t.serial + 1, loading := true, cancel := Some(t.serial + 1)), x);
    }
  }

  lemma ApplyConserves(s: State, page: ErrorPage, x: Session)
    requires Enabled(s, Apply(page)) && AtMostOnce(s)
    ensures Places(ApplyState(s, page), x) + Lost(s, Apply(page), x)
            == Places(s, x) + Built(ApplyState(s, page), x) - Built(s, x)
  {
    hide HistoryAfter, IndexOf, InTabs, InClosed;
    if s.queue == [] { return; }
    var r := s.queue[0];
    if !HeadCurrent(s) {
      InClosedAppend(s.closed, r.session, x);
      return;
    }
    var i := IndexOf(s.tabs, r.tabId);
    var t := s.tabs[i].(loading := false);
    var shown := if r.downloadPath == "" && r.err.None? then r.session
                 else if HeadFails(s) && page.Shown? then Some(page.session) else t.session;
    InTabsUpdate(s.tabs, i, ApplyState(s, page).tabs[i], x);
    InClosedAppend(s.closed, Replaced(t.session, shown), x);
    if t.session.Some? {
      // a result never carries, and an error page never builds, the session its tab shows
      var y := t.session.value;
      InTabsSplit(s.tabs, i, y);
      assert Places(s, y) <= Built(s, y) <= 1;
    }
  }

  // ---------------------------------------------------------------- whole runs

  lemma {:induction false} RunConserves(s: State, steps: seq<Step>)
    requires Runnable(s, steps) && AtMostOnce(s)
    ensures AtMostOnce(Run(s, steps))
    ensures forall x :: Built(Run(s, steps), x) - Places(Run(s, steps), x)
                        == Built(s, x) - Places(s, x) + LostAlong(s, steps, x)
    decreases |steps|
  {
    if steps != [] {
      var s' := Next(s, steps[0]);
      forall x ensures Places(s', x) + Lost(s, steps[0], x) == Places(s, x) + Built(s', x) - Built(s, x) {
        StepConserves(s, steps[0], x);
      }
      RunConserves(s', steps[1..]);
    }
  }

  /**
   From the empty browser, over every interleaving: each session built is in exactly one place, or
   was lost by exactly one step that dropped it.  A session not built is nowhere.
   */
  lemma EverySessionAccounted(steps: seq<Step>, x: Session)
    requires Runnable(INITIAL, steps)
    ensures Built(Run(INITIAL, steps), x) == Places(Run(INITIAL, steps), x) + LostAlong(INITIAL, steps, x)
  {
    RunConserves(INITIAL, steps);
  }

  /**
   A step is clean when no load gives up a session it built, no error or download carries one, and no error
   page is given up.
   */
  predicate Clean(s: State, step: Step) {
    && (step.Finish? ==> step.givenUp.None?)
    && (step.Apply? && HeadCurrent(s) ==>
          && (s.queue[0].downloadPath != "" || s.queue[0].err.Some? ==> s.queue[0].session.None?)
          && (HeadFails(s) ==> !step.page.Discarded?))
  }

  predicate CleanRun(s: State, steps: seq<Step>)
    decreases |steps|
  {
    steps == [] || (Clean(s, steps[0]) && CleanRun(Next(s, steps[0]), steps[1..]))
  }

  ghost predicate LosesNothing(s: State, steps: seq<Step>) {
    forall x :: LostAlong(s, steps, x) == 0
  }

  lemma {:induction false} CleanLosesNothing(s: State, steps: seq<Step>)
    ensures CleanRun(s, steps) <==> LosesNothing(s, steps)
    decreases |steps|
  {
    if steps != [] {
      var s', rest := Next(s, steps[0]), steps[1..];
      CleanLosesNothing(s', rest);
      hide Next, Places;
      if !Clean(s, steps[0]) {
        var x := if steps[0].Finish? then steps[0].givenUp.value
                 else if s.queue[0].session.Some? then s.queue[0].session.value
                 else steps[0].page.session;
        assert LostAlong(s, steps, x) != 0;
      } else {
        forall x ensures LostAlong(s, steps, x) == LostAlong(s', rest, x) {
          assert Lost(s, steps[0], x) == 0;
        }
        if LosesNothing(s', rest) {
          forall x ensures LostAlong(s, steps, x) == 0 { assert LostAlong(s', rest, x) == 0; }
        } else {
          var x :| LostAlong(s', rest, x) != 0;
          assert LostAlong(s, steps, x) != 0;
        }
      }
    }
  }

  /** Every session built is in some place. */
  ghost predicate NothingLeaks(s: State) {
    forall x :: x in s.built ==> Places(s, x) == 1
  }

  /** No session leaks, over a whole run, exactly when every step of the run was clean. */
  lemma NoLeakIffClean(steps: seq<Step>)
    requires Runnable(INITIAL, steps)
    ensures NothingLeaks(Run(INITIAL, steps)) <==> CleanRun(INITIAL, steps)
  {
    var s := Run(INITIAL, steps);
    CleanLosesNothing(INITIAL, steps);
    if NothingLeaks(s) {
      forall x ensures LostAlong(INITIAL, steps, x) == 0 { EverySessionAccounted(steps, x); }
    }
    if LosesNothing(INITIAL, steps) {
      forall x | x in s.built ensures Places(s, x) == 1 { EverySessionAccounted(steps, x); }
    }
  }

  /** A failed load whose error page is given up after its session was built leaks that session. */
  lemma ErrorPageLeaks(url: string)
    ensures var steps := [OpenTab(0, "", EMPTY_HISTORY, true), Navigate(url),
                          Finish(0, "", None, Broken(LoadFailed("refused")), None), Apply(Discarded(1))];
            Runnable(INITIAL, steps) && !NothingLeaks(Run(INITIAL, steps))
  {
    var open, go := OpenTab(0, "", EMPTY_HISTORY, true), Navigate(url);
    var fail, apply := Finish(0, "", None, Broken(LoadFailed("refused")), None), Apply(Discarded(1));
    FailedOnce(url);
    RunOfFour(INITIAL, open, go, fail, apply);
    NoLeakIffClean([open, go, fail, apply]);
    UncleanLate(INITIAL, open, go, fail, apply);
  }

  lemma FailedOnce(url: string)
    ensures var s := Next(Next(Next(INITIAL, OpenTab(0, "", EMPTY_HISTORY, true)), Navigate(url)),
                          Finish(0, "", None, Broken(LoadFailed("refused")), None));
            && s.tabs == [TabState(1, 1, true, Some(1), None, "", EMPTY_HISTORY, 0)] && s.built == {} && s.closed == []
            && |s.queue| == 1 && HeadCurrent(s) && HeadFails(s) && s.queue[0].session.None?
    ensures Enabled(INITIAL, OpenTab(0, "", EMPTY_HISTORY, true))
  {
    assert Inserted([], 0, TabState(1, 0, false, None, None, "", EMPTY_HISTORY, 0))
        == [TabState(1, 0, false, None, None, "", EMPTY_HISTORY, 0)];
  }

  /** So does a load whose own painting fails after its session was built, however its result is applied. */
  lemma LoadLeaks(url: string)
    ensures var steps := [OpenTab(0, "", EMPTY_HISTORY, true), Navigate(url),
                          Finish(0, "", None, Broken(LoadFailed("paint")), Some(1)), Apply(NotBuilt)];
            Runnable(INITIAL, steps) && !NothingLeaks(Run(INITIAL, steps))
  {
    var open, go := OpenTab(0, "", EMPTY_HISTORY, true), Navigate(url);
    var fail, apply := Finish(0, "", None, Broken(LoadFailed("paint")), Some(1)), Apply(NotBuilt);
    FailedOnce(url);
    RunOfFour(INITIAL, open, go, fail, apply);
    NoLeakIffClean([open, go, fail, apply]);
    UncleanLate(INITIAL, open, go, fail, apply);
  }

  lemma UncleanLate(s: State, a: Step, b: Step, c: Step, d: Step)
    requires !Clean(Next(Next(s, a), b), c) || !Clean(Next(Next(Next(s, a), b), c), d)
    ensures !CleanRun(s, [a, b, c, d])
  {
    hide Next, Clean;
    assert [a, b, c, d][1..] == [b, c, d] && [b, c, d][1..] == [c, d] && [c, d][1..] == [d];
    assert CleanRun(Next(Next(Next(s, a), b), c), [d]) ==> Clean(Next(Next(Next(s, a), b), c), d);
    assert !CleanRun(Next(Next(s, a), b), [c, d]);
    assert !CleanRun(Next(s, a), [b, c, d]);
  }

  /**
   Over every run: no session is shown by two tabs, none shown is closed, and none is closed twice.
   */
  lemma NoSharingNoReuse(steps: seq<Step>)
    requires Runnable(INITIAL, steps)
    ensures var s := Run(INITIAL, steps);
            forall i, j :: 0 <= i < j < |s.tabs| && s.tabs[i].session.Some? ==> s.tabs[i].session != s.tabs[j].session
    ensures var s := Run(INITIAL, steps);
            forall i :: 0 <= i < |s.tabs| && s.tabs[i].session.Some? ==> s.tabs[i].session.value !in s.closed
    ensures var s := Run(INITIAL, steps);
            forall i, j :: 0 <= i < j < |s.closed| ==> s.closed[i] != s.closed[j]
  {
    RunConserves(INITIAL, steps);
    var s := Run(INITIAL, steps);
    forall i, j | 0 <= i < j < |s.tabs| && s.tabs[i].session.Some?
      ensures s.tabs[i].session != s.tabs[j].session
    {
      var x := s.tabs[i].session.value;
      InTabsSplit(s.tabs, i, x);
      InTabsSplit(s.tabs[i + 1..], j - i - 1, x);
      assert Places(s, x) <= 1;
    }
    forall i | 0 <= i < |s.tabs| && s.tabs[i].session.Some?
      ensures s.tabs[i].session.value !in s.closed
    {
      var x := s.tabs[i].session.value;
      InTabsSplit(s.tabs, i, x);
      InClosedAt(s.closed, x);
      assert Places(s, x) <= 1;
    }
    forall i, j | 0 <= i < j < |s.closed|
      ensures s.closed[i] != s.closed[j]
    {
      InClosedAt(s.closed, s.closed[i]);
      assert Places(s, s.closed[i]) <= 1;
    }
  }

  lemma {:induction false} InClosedAt(closed: seq<Session>, x: Session)
    ensures x in closed <==> InClosed(closed, x) > 0
    ensures InClosed(closed, x) <= 1 ==>
              forall i, j :: 0 <= i < j < |closed| ==> closed[i] != x || closed[j] != x
  {
    if closed != [] {
      InClosedAt(closed[1..], x);
      forall i, j | 0 <= i < j < |closed| && InClosed(closed, x) <= 1
        ensures closed[i] != x || closed[j] != x
      {
        assert closed[j] == closed[1..][j - 1];
        if i > 0 { assert closed[i] == closed[1..][i - 1]; }
      }
    }
  }

  /** A repaint for landed images never reaches a session that was closed. */
  lemma ImagesReachOpenSessions(steps: seq<Step>, img: ImageResult)
    requires Runnable(INITIAL, steps)
    ensures ImageApplies(Run(INITIAL, steps), img) ==> img.session !in Run(INITIAL, steps).closed
  {
    NoSharingNoReuse(steps);
  }
}
