/**
 Restoring a crashed session while a back/forward load is outstanding: what becomes of the step the load
 was to take.  The restore runs inside the load of its own page, over the prompt when that is the only tab.
 */
module NavRestore {
  import opened Options
  import opened NavModel
  import opened NavProtocol
  import Text

  predicate AllValid(saved: seq<SavedTab>) {
    forall i :: 0 <= i < |saved| ==> saved[i].history.Valid()
  }

  /** Over the prompt: the restore itself loads the tab it takes over, for that one stays selected. */
  predicate LoadsFirst(saved: seq<SavedTab>, chosen: int)
    requires saved != []
  {
    !(0 < chosen < |saved|) && saved[0].url != "" && !RestorePage(saved[0].url)
  }

  /** The prompt's tab with its saved URL and trail. */
  function TakenOver(t: TabState, saved: SavedTab): TabState {
    t.(url := saved.url, history := saved.history, trailFrom := t.serial)
  }

  // ---------------------------------------------------------------- what a restore over the prompt does

  lemma {:induction false} RunnableAppend(s: State, a: seq<Step>, b: seq<Step>)
    ensures Runnable(s, a + b) <==> Runnable(s, a) && Runnable(Run(s, a), b)
    decreases |a|
  {
    hide Next, Enabled;
    if a == [] {
      assert a + b == b;
    } else {
      assert (a + b)[1..] == a[1..] + b;
      RunnableAppend(Next(s, a[0]), a[1..], b);
    }
  }

  /** A saved tab brought in as this one. */
  predicate Brought(t: TabState, saved: SavedTab, id: nat) {
    t.id == id && t.url == saved.url && t.history == saved.history && t.session.None? && !t.loading
  }

  /** Tabs opened behind the others leave those as they are. */
  lemma {:induction false} OpenedBehind(s: State, saved: seq<SavedTab>)
    requires Inv(s) && s.tabs != [] && AllValid(saved)
    ensures Runnable(s, Opens(|s.tabs|, saved))
    ensures var m := Run(s, Opens(|s.tabs|, saved));
            && Inv(m) && m.inflight == s.inflight && m.queue == s.queue && m.active == s.active
            && s.tabs <= m.tabs && |m.tabs| == |s.tabs| + |saved| && s.nextId <= m.nextId
            && forall j :: |s.tabs| <= j < |m.tabs| ==>
                 Brought(m.tabs[j], saved[j - |s.tabs|], s.nextId + 1 + j - |s.tabs|)
    decreases |saved|
  {
    hide Inv, Next, Brought, Enabled, Opens, Run, Runnable;
    OpensStep(s, saved);
    if saved != [] {
      var step := OpenTab(|s.tabs|, saved[0].url, saved[0].history, false);
      var next := Next(s, step);
      assert saved[0].history.Valid();
      OpenIsEnabled(s, step);
      StepKeepsInv(s, step);
      OneBehind(s, saved[0]);
      OpenedBehind(next, saved[1..]);
      var m := Run(s, Opens(|s.tabs|, saved));
      forall j | |s.tabs| <= j < |m.tabs|
        ensures Brought(m.tabs[j], saved[j - |s.tabs|], s.nextId + 1 + j - |s.tabs|)
      {
        if j > |s.tabs| { assert saved[1..][j - |next.tabs|] == saved[j - |s.tabs|]; }
      }
    }
  }

  lemma OpensStep(s: State, saved: seq<SavedTab>)
    ensures saved == [] ==> Run(s, Opens(|s.tabs|, saved)) == s && Runnable(s, Opens(|s.tabs|, saved))
    ensures saved != [] ==>
              var step := OpenTab(|s.tabs|, saved[0].url, saved[0].history, false);
              var rest := Opens(|s.tabs| + 1, saved[1..]);
              && Run(s, Opens(|s.tabs|, saved)) == Run(Next(s, step), rest)
              && (Runnable(s, Opens(|s.tabs|, saved)) <==> Enabled(s, step) && Runnable(Next(s, step), rest))
  {
    hide Next, Enabled;
    if saved != [] { assert Opens(|s.tabs|, saved)[1..] == Opens(|s.tabs| + 1, saved[1..]); }
  }

  lemma OpenIsEnabled(s: State, step: Step)
    requires step.OpenTab? && step.history.Valid()
    ensures Enabled(s, step)
  {
  }

  lemma OneBehind(s: State, t: SavedTab)
    requires Inv(s) && s.tabs != []
    ensures Next(s, OpenTab(|s.tabs|, t.url, t.history, false))
            == s.(tabs := s.tabs + [TabState(s.nextId + 1, 0, false, None, None, t.url, t.history, 0)],
                  nextId := s.nextId + 1)
    ensures var t' := Next(s, OpenTab(|s.tabs|, t.url, t.history, false)).tabs;
            |t'| == |s.tabs| + 1 && Brought(t'[|s.tabs|], t, s.nextId + 1)
  {
    hide LoadOk, ResultOk, OutstandingOk;
    assert s.tabs[|s.tabs|..] == [];
  }

  lemma OneStep(s: State, step: Step)
    ensures Run(s, [step]) == Next(s, step) && (Runnable(s, [step]) <==> Enabled(s, step))
  {
    hide Next, Enabled;
    assert [step][1..] == [];
  }

  lemma TabsBroughtIn(s: State, saved: seq<SavedTab>)
    requires Inv(s) && OnlyPrompt(s) && saved != [] && AllValid(saved)
    ensures Runnable(s, BroughtIn(s, saved))
    ensures var m := Run(s, BroughtIn(s, saved));
            && Inv(m) && m.inflight == s.inflight && m.queue == s.queue && m.active == 0 && s.nextId <= m.nextId
            && |m.tabs| == |saved| && m.tabs[0] == TakenOver(s.tabs[0], saved[0])
            && forall j :: 0 < j < |m.tabs| ==> Brought(m.tabs[j], saved[j], s.nextId + j)
  {
    hide Inv, RestorePage, Next, Run, Runnable;
    var rewrite := Rewrite(saved[0].url, saved[0].history);
    var taken := Next(s, rewrite);
    assert saved[0].history.Valid();
    OneStep(s, rewrite);
    StepKeepsInv(s, rewrite);
    Taken(s, saved[0]);
    OpenedBehind(taken, saved[1..]);
    RunAppend(s, [rewrite], Opens(1, saved[1..]));
    RunnableAppend(s, [rewrite], Opens(1, saved[1..]));
  }

  lemma Taken(s: State, t: SavedTab)
    requires Inv(s) && OnlyPrompt(s)
    ensures Next(s, Rewrite(t.url, t.history)) == s.(tabs := [TakenOver(s.tabs[0], t)]) && s.active == 0
  {
    hide RestorePage, LoadOk, ResultOk, OutstandingOk;
  }

  lemma TabsRestored(s: State, saved: seq<SavedTab>, chosen: int)
    requires Inv(s) && OnlyPrompt(s) && saved != [] && AllValid(saved)
    ensures Runnable(s, RestoredTabs(s, saved, chosen))
    ensures var m := Run(s, RestoredTabs(s, saved, chosen));
            && Inv(m) && m.inflight == s.inflight && m.queue == s.queue && m.active < |m.tabs| && s.nextId <= m.nextId
            && m.tabs[0] == TakenOver(s.tabs[0], saved[0]) && (m.active == 0 <==> !(0 < chosen < |saved|))
  {
    hide Inv, OnlyPrompt, Next, Run, Runnable, BroughtIn;
    var first, select := BroughtIn(s, saved), Selected(s, saved, chosen);
    var m := Run(s, first);
    TabsBroughtIn(s, saved);
    RunAppend(s, first, select);
    RunnableAppend(s, first, select);
    if 0 < chosen < |saved| {
      OneStep(m, SwitchTo(s.nextId + chosen));
      StepKeepsInv(m, SwitchTo(s.nextId + chosen));
      SwitchesTo(m, chosen);
    } else {
      NoStep(m);
    }
  }

  lemma SwitchesTo(s: State, i: nat)
    requires Inv(s) && i < |s.tabs|
    ensures Next(s, SwitchTo(s.tabs[i].id)) == s.(active := i)
  {
    hide LoadOk, ResultOk, OutstandingOk;
    FindAt(s.tabs, i);
  }

  /** After the whole restore: whether the tab taken over has moved on, and what its loads have become. */
  lemma Restored(s: State, saved: seq<SavedTab>, chosen: int)
    requires Inv(s) && OnlyPrompt(s) && saved != [] && AllValid(saved)
    ensures Runnable(s, RestoreSteps(s, saved, chosen))
    ensures var m, id := Run(s, RestoreSteps(s, saved, chosen)), s.tabs[0].id;
            && Inv(m) && m.queue == s.queue && |s.inflight| <= |m.inflight| && s.nextId <= m.nextId
            && (LoadsFirst(saved, chosen) ==> Stale(m, id, s.tabs[0].serial))
            && (!LoadsFirst(saved, chosen) ==>
                  && Find(m.tabs, id) == Some(TakenOver(s.tabs[0], saved[0]))
                  && forall k :: 0 <= k < |s.inflight| && s.inflight[k].tabId == id ==> m.inflight[k] == s.inflight[k])
  {
    hide Inv, OnlyPrompt, Next, Run, Runnable, RestoredTabs, RestorePage, Stale;
    var first := RestoredTabs(s, saved, chosen);
    var brought := Run(s, first);
    TabsRestored(s, saved, chosen);
    var load := LoadActive(brought, saved);
    RunAppend(s, first, load);
    RunnableAppend(s, first, load);
    FirstFound(brought);
    OnlyTabOk(s);
    if load == [] {
      NoStep(brought);
    } else {
      var t := brought.tabs[brought.active];
      OneStep(brought, Navigate(t.url));
      StepKeepsInv(brought, Navigate(t.url));
      LoadJoins(brought, t.url);
      if brought.active == 0 {
        SupersedingMakesStale(brought, Navigate(t.url), s.tabs[0].serial);
      } else {
        LoadsAnother(brought, t.url);
      }
    }
  }

  lemma LoadJoins(s: State, url: string)
    requires s.active < |s.tabs|
    ensures var m := Next(s, Navigate(url));
            m.queue == s.queue && m.nextId == s.nextId && |m.inflight| == |s.inflight| + 1
  {
  }

  lemma FirstFound(s: State)
    requires Inv(s) && s.tabs != []
    ensures Find(s.tabs, s.tabs[0].id) == Some(s.tabs[0])
  {
    hide LoadOk, ResultOk, OutstandingOk;
    FindAt(s.tabs, 0);
  }

  lemma OnlyTabOk(s: State)
    requires Inv(s) && OnlyPrompt(s)
    ensures |s.tabs| == 1 && TabOk(s.tabs[0], s.nextId)
  {
  }

  /** Loading another tab leaves the first one and its loads alone. */
  lemma LoadsAnother(s: State, url: string)
    requires Inv(s) && 0 < s.active < |s.tabs|
    ensures var m := Next(s, Navigate(url));
            && m.queue == s.queue && m.nextId == s.nextId && |m.inflight| == |s.inflight| + 1
            && Find(m.tabs, s.tabs[0].id) == Some(s.tabs[0])
            && forall k :: 0 <= k < |s.inflight| && s.inflight[k].tabId == s.tabs[0].id ==>
                 m.inflight[k] == s.inflight[k]
  {
    hide LoadOk, ResultOk, OutstandingOk;
    var t' := Next(s, Navigate(url)).tabs[s.active];
    FindAt(s.tabs, 0);
    FindUpdate(s.tabs, s.active, t', s.tabs[0].id);
    assert s.tabs[0].id != s.tabs[s.active].id;
  }

  // ---------------------------------------------------------------- the trail a waiting result finds

  /** While the tab still waits for the load with this serial, its trail is this one. */
  predicate Waits(s: State, id: nat, serial: nat, h: History) {
    id <= s.nextId &&
    match Find(s.tabs, id)
    case None => true
    case Some(t) => t.serial > serial || (t.serial == serial && (t.loading ==> t.history == h))
  }

  lemma WaitsStays(s: State, step: Step, id: nat, serial: nat, h: History)
    requires Inv(s) && Enabled(s, step) && !step.Rewrite? && Waits(s, id, serial, h)
    ensures Waits(Next(s, step), id, serial, h)
  {
    hide LoadOk, ResultOk, OutstandingOk, ApplyState, NavigateState, StopState, OpenTabState, MoveState, Inserted,
         CancelLoads, HistoryAfter;
    match step
    case OpenTab(_, _, _, _) => RearrangingKeepsTabs(s, step, id);
    case SwitchTo(_) =>
    case MoveTab(_, _) => RearrangingKeepsTabs(s, step, id);
    case Navigate(_) => NavigateAdvances(s, step, id);
    case Traverse(_) => NavigateAdvances(s, step, id);
    case Reload => NavigateAdvances(s, step, id);
    case Stop => NavigateAdvances(s, step, id);
    case CloseTab(c) =>
      var i := IndexOf(s.tabs, c);
      if i < |s.tabs| { FindRemove(s.tabs, i, id); }
    case Finish(_, _, _, _, _) =>
    case Apply(page) => WaitsThroughApply(s, page, id, serial, h);
  }

  lemma WaitsThroughApply(s: State, page: ErrorPage, id: nat, serial: nat, h: History)
    requires Inv(s) && Waits(s, id, serial, h)
    ensures Waits(ApplyState(s, page), id, serial, h)
  {
    hide LoadOk, ResultOk, OutstandingOk, ApplyState, IndexOf;
    if s.queue == [] {
      EmptyQueueStays(s, page);
    } else {
      assert forall i :: 0 <= i < |s.tabs| ==> TabOk(s.tabs[i], s.nextId);
      var t := ApplyShape(s, page);
      if HeadCurrent(s) { FindUpdate(s.tabs, IndexOf(s.tabs, s.queue[0].tabId), t, id); }
    }
  }

  predicate NoRewrite(steps: seq<Step>) {
    forall k :: 0 <= k < |steps| ==> !steps[k].Rewrite?
  }

  lemma {:induction false} WaitsOn(s: State, steps: seq<Step>, id: nat, serial: nat, h: History)
    requires Inv(s) && Runnable(s, steps) && NoRewrite(steps) && Waits(s, id, serial, h)
    ensures Inv(Run(s, steps)) && Waits(Run(s, steps), id, serial, h)
    decreases |steps|
  {
    hide Inv, Next, Enabled, Waits;
    if steps != [] {
      StepKeepsInv(s, steps[0]);
      assert !steps[0].Rewrite?;
      WaitsStays(s, steps[0], id, serial, h);
      WaitsOn(Next(s, steps[0]), steps[1..], id, serial, h);
    }
  }

  /** A result that counts finds the trail the tab waits with. */
  lemma WaitingTrail(s: State, h: History)
    requires Inv(s) && HeadCurrent(s) && Waits(s, s.queue[0].tabId, s.queue[0].serial, h)
    ensures HeadTrail(s) == h
  {
    hide LoadOk, ResultOk, OutstandingOk;
    AppliedIsAlone(s, IndexOf(s.tabs, s.queue[0].tabId));
  }

  // ---------------------------------------------------------------- the step of an outstanding traversal

  /** The head of the channel is this traversal's page, it counts, and its tab's trail no longer has the step. */
  predicate DropsStep(s: State, id: nat, serial: nat, delta: int, base: int) {
    && Displays(s) && HeadTrail(s).Valid() && !HeadTrail(s).StepTaken(delta, base)
    && var r := s.queue[0]; r.tabId == id && r.serial == serial && r.traverse == delta && r.traverseBase == base
  }

  /**
   Whatever happens after a restore over the prompt: a result that was outstanding before it counts only
   if the restore does not load the tab itself, and then it finds the saved trail.
   */
  lemma RestoredTrailFound(before: seq<Step>, saved: seq<SavedTab>, chosen: int, after: seq<Step>)
    requires Runnable(INITIAL, before) && OnlyPrompt(Run(INITIAL, before)) && saved != [] && AllValid(saved)
    requires var s := Run(INITIAL, before);
             Runnable(Run(s, RestoreSteps(s, saved, chosen)), after) && NoRewrite(after)
    requires var s := Run(INITIAL, before);
             var t := Run(Run(s, RestoreSteps(s, saved, chosen)), after);
             HeadCurrent(t) && t.queue[0].tabId == s.tabs[0].id && t.queue[0].serial == s.tabs[0].serial
    ensures var s := Run(INITIAL, before);
            var t := Run(Run(s, RestoreSteps(s, saved, chosen)), after);
            !LoadsFirst(saved, chosen) && HeadTrail(t) == saved[0].history
  {
    hide Inv, Next, Run, Runnable, OnlyPrompt, RestoreSteps, Waits, Stale, HeadTrail, LoadsFirst;
    RunKeepsInv(INITIAL, before);
    var s := Run(INITIAL, before);
    var m := Run(s, RestoreSteps(s, saved, chosen));
    var t := Run(m, after);
    OnlyTabOk(s);
    var id, serial := s.tabs[0].id, s.tabs[0].serial;
    Restored(s, saved, chosen);
    RunKeepsInv(m, after);
    if LoadsFirst(saved, chosen) {
      StaleForever(m, after, id, serial);
      StaleIsNotCurrent(t, id, serial);
    } else {
      WaitsHere(m, TakenOver(s.tabs[0], saved[0]));
      WaitsOn(m, after, id, serial, saved[0].history);
      WaitingTrail(t, saved[0].history);
    }
  }

  lemma StaleIsNotCurrent(s: State, id: nat, serial: nat)
    requires Stale(s, id, serial) && s.queue != [] && s.queue[0].tabId == id && s.queue[0].serial == serial
    ensures !HeadCurrent(s)
  {
  }

  lemma WaitsHere(s: State, t: TabState)
    requires Find(s.tabs, t.id) == Some(t) && t.id <= s.nextId
    ensures Waits(s, t.id, t.serial, t.history)
  {
  }

  function Applies(n: nat): seq<Step> {
    if n == 0 then [] else [Apply(NotBuilt)] + Applies(n - 1)
  }

  /** Draining the channel keeps every tab's serial and the loads in flight. */
  lemma {:induction false} Drained(s: State, n: nat, id: nat)
    requires Inv(s) && n <= |s.queue|
    ensures Runnable(s, Applies(n)) && NoRewrite(Applies(n))
    ensures var m := Run(s, Applies(n));
            && Inv(m) && m.queue == s.queue[n..] && m.inflight == s.inflight
            && Find(m.tabs, id).Some? == Find(s.tabs, id).Some?
            && (Find(m.tabs, id).Some? ==> Find(m.tabs, id).value.serial == Find(s.tabs, id).value.serial)
    decreases n
  {
    hide Inv, Find, ApplyState;
    if n > 0 {
      StepKeepsInv(s, Apply(NotBuilt));
      ApplyKeepsSerial(s, NotBuilt, id);
      AppliedFrame(s);
      Drained(Next(s, Apply(NotBuilt)), n - 1, id);
      assert Applies(n)[1..] == Applies(n - 1);
      assert s.queue[1..][n - 1..] == s.queue[n..];
      forall k | 0 <= k < |Applies(n)| ensures !Applies(n)[k].Rewrite? {
        if k > 0 { assert Applies(n)[k] == Applies(n - 1)[k - 1]; }
      }
    }
  }

  lemma AppliedFrame(s: State)
    requires Inv(s) && s.queue != []
    ensures ApplyState(s, NotBuilt).queue == s.queue[1..] && ApplyState(s, NotBuilt).inflight == s.inflight
  {
    hide LoadOk, ResultOk, OutstandingOk, ApplyState;
    assert forall i :: 0 <= i < |s.tabs| ==> TabOk(s.tabs[i], s.nextId);
    var t := ApplyShape(s, NotBuilt);
  }

  /** A load in flight can end and have its result at the head of the channel, its tab still at its serial. */
  lemma LoadArrives(s: State, k: nat) returns (after: seq<Step>)
    requires Inv(s) && k < |s.inflight| && Find(s.tabs, s.inflight[k].tabId).Some?
    requires Find(s.tabs, s.inflight[k].tabId).value.serial == s.inflight[k].serial
    ensures Runnable(s, after) && NoRewrite(after)
    ensures var t := Run(s, after);
            Inv(t) && HeadCurrent(t) && t.queue[0] == ResultOf(s.inflight[k], "", None, Finished)
  {
    hide Inv, Find, Next, Run, Runnable, Enabled;
    var n, id := |s.queue|, s.inflight[k].tabId;
    var finish := Finish(k, "", None, Finished, None);
    Drained(s, n, id);
    var m := Run(s, Applies(n));
    after := Applies(n) + [finish];
    RunAppend(s, Applies(n), [finish]);
    RunnableAppend(s, Applies(n), [finish]);
    OneStep(m, finish);
    assert s.queue[n..] == [];
    FinishArrives(m, k);
    StepKeepsInv(m, finish);
  }

  lemma FinishArrives(s: State, k: nat)
    requires k < |s.inflight| && s.queue == [] && Find(s.tabs, s.inflight[k].tabId).Some?
    requires Find(s.tabs, s.inflight[k].tabId).value.serial == s.inflight[k].serial
    ensures Enabled(s, Finish(k, "", None, Finished, None))
    ensures var t := Next(s, Finish(k, "", None, Finished, None));
            HeadCurrent(t) && t.queue[0] == ResultOf(s.inflight[k], "", None, Finished)
  {
  }

  /**
   A restore over the prompt while a back/forward load of its tab is in flight: the page can display with
   its step dropped exactly when the restore does not itself load that tab and the saved trail does not
   have the step.
   */
  lemma RestoreDropsStepIff(before: seq<Step>, saved: seq<SavedTab>, chosen: int, k: nat)
    requires Runnable(INITIAL, before) && OnlyPrompt(Run(INITIAL, before)) && saved != [] && AllValid(saved)
    requires var s := Run(INITIAL, before);
             && k < |s.inflight| && s.inflight[k].tabId == s.tabs[0].id && s.inflight[k].serial == s.tabs[0].serial
             && s.inflight[k].traverse != 0
    ensures var s := Run(INITIAL, before);
            var m, l := Run(s, RestoreSteps(s, saved, chosen)), s.inflight[k];
            (exists after: seq<Step> ::
               && Runnable(m, after) && NoRewrite(after)
               && DropsStep(Run(m, after), l.tabId, l.serial, l.traverse, l.traverseBase))
            <==> !LoadsFirst(saved, chosen) && !saved[0].history.StepTaken(l.traverse, l.traverseBase)
  {
    hide Inv, Next, Run, Runnable, OnlyPrompt, RestoreSteps, LoadsFirst, Find, Stale;
    RunKeepsInv(INITIAL, before);
    var s := Run(INITIAL, before);
    var m, l := Run(s, RestoreSteps(s, saved, chosen)), s.inflight[k];
    Restored(s, saved, chosen);
    if after: seq<Step> :| Runnable(m, after) && NoRewrite(after)
                           && DropsStep(Run(m, after), l.tabId, l.serial, l.traverse, l.traverseBase) {
      RestoredTrailFound(before, saved, chosen, after);
    }
    if !LoadsFirst(saved, chosen) && !saved[0].history.StepTaken(l.traverse, l.traverseBase) {
      var after := LoadArrives(m, k);
      RestoredTrailFound(before, saved, chosen, after);
      assert DropsStep(Run(m, after), l.tabId, l.serial, l.traverse, l.traverseBase);
    }
  }

  /**
   The restore link of the prompt is followed and overtaken by going back; then its load restores two tabs
   and selects the second.  The page gone back to displays and its step is dropped.
   */
  lemma RestoreDropsTraversal(first: string, link: string)
    requires first != ""
    ensures var prompt := "goosie://restore";
            var before := [OpenTab(0, prompt, History([first, prompt], 1), true), Navigate(link), Traverse(-1)];
            var saved := [SavedTab("c", History(["c"], 0)), SavedTab("d", History(["d"], 0))];
            var s := Run(INITIAL, before);
            && Runnable(INITIAL, before) && OnlyPrompt(s)
            && exists after: seq<Step> ::
                 var m := Run(s, RestoreSteps(s, saved, 1));
                 Runnable(m, after) && NoRewrite(after) && DropsStep(Run(m, after), 1, 2, -1, 1)
  {
    var prompt := "goosie://restore";
    var trail := History([first, prompt], 1);
    var before := [OpenTab(0, prompt, trail, true), Navigate(link), Traverse(-1)];
    var saved := [SavedTab("c", History(["c"], 0)), SavedTab("d", History(["d"], 0))];
    WentBack(prompt, first, link);
    PromptIsPrompt();
    hide RestorePage, Next, Run, Runnable;
    var s := Run(INITIAL, before);
    assert OnlyPrompt(s) && AllValid(saved) && !LoadsFirst(saved, 1);
    RestoreDropsStepIff(before, saved, 1, 1);
  }

  lemma PromptIsPrompt()
    ensures RestorePage("goosie://restore")
  {
    assert Text.Lower("goosie://restore") == "goosie://restore";
  }

  lemma WentBack(prompt: string, first: string, link: string)
    requires first != ""
    ensures var trail := History([first, prompt], 1);
            var before := [OpenTab(0, prompt, trail, true), Navigate(link), Traverse(-1)];
            && Runnable(INITIAL, before)
            && Run(INITIAL, before)
               == State([TabState(1, 2, true, Some(2), None, prompt, trail, 0)], 0, 1,
                        [Load(1, 1, link, false, 0, 0, true), Load(1, 2, first, true, -1, 1, false)], [], {}, [])
  {
    var trail := History([first, prompt], 1);
    var open, go, back := OpenTab(0, prompt, trail, true), Navigate(link), Traverse(-1);
    var t := TabState(1, 0, false, None, None, prompt, trail, 0);
    var s1 := State([t], 0, 1, [], [], {}, []);
    var s2 := State([t.(serial := 1, loading := true, cancel := Some(1))], 0, 1, [Load(1, 1, link, false, 0, 0, false)],
                    [], {}, []);
    assert Inserted([], 0, t) == [t];
    assert Next(INITIAL, open) == s1;
    assert CancelLoads([], 1, None) == [];
    assert Next(s1, go) == s2;
    BackFrom(prompt, first, link);
    assert [open, go, back][1..] == [go, back] && [go, back][1..] == [back];
    hide Next;
    OneStep(s2, back);
    assert Run(s1, [go, back]) == Run(s2, [back]) && Runnable(s1, [go, back]);
    assert Run(INITIAL, [open, go, back]) == Run(s1, [go, back]);
  }

  lemma BackFrom(prompt: string, first: string, link: string)
    requires first != ""
    ensures var trail := History([first, prompt], 1);
            var load := Load(1, 1, link, false, 0, 0, false);
            Next(State([TabState(1, 1, true, Some(1), None, prompt, trail, 0)], 0, 1, [load], [], {}, []), Traverse(-1))
            == State([TabState(1, 2, true, Some(2), None, prompt, trail, 0)], 0, 1,
                     [load.(canceled := true), Load(1, 2, first, true, -1, 1, false)], [], {}, [])
  {
    var load := Load(1, 1, link, false, 0, 0, false);
    assert CancelLoads([load], 1, Some(1)) == [load.(canceled := true)];
  }
}
