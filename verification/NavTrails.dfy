/**
 What a load brings about, from the step that begins it to the page it shows: the trail and the URL of its
 tab, however the run goes on in between.
 */
module NavTrails {
  import opened Options
  import opened NavModel
  import opened NavProtocol
  import opened NavRestore

  // ---------------------------------------------------------------- one result

  /** The head of the channel is a page, and its tab waits for it. */
  predicate PageWaits(s: State) {
    HeadCurrent(s) && s.queue[0].downloadPath == "" && s.queue[0].err.None?
  }

  /** The entries up to the cursor with one more behind them, the cursor on it; no cursor drops no entry. */
  predicate Extended(h: History, h': History, url: string) {
    && h'.index == (if h.index < 0 then |h.entries| else h.index + 1)
    && |h'.entries| == h'.index + 1 && h'.entries[h'.index] == url
    && forall j :: 0 <= j < h'.index && j < |h.entries| ==> h'.entries[j] == h.entries[j]
  }

  /** One entry further in the direction of `delta`; that entry may be rewritten and all others stay. */
  predicate Turned(h: History, h': History, delta: int, url: string) {
    && h'.index == (if delta < 0 then h.index - 1 else h.index + 1)
    && 0 <= h'.index < |h.entries| == |h'.entries|
    && h'.entries[h'.index] == (if url == "" then h.entries[h'.index] else url)
    && forall j :: 0 <= j < |h.entries| && j != h'.index ==> h'.entries[j] == h.entries[j]
  }

  /** What an applied page does to its tab, and that it touches nothing else but the session it replaces. */
  lemma PageDisplays(steps: seq<Step>, page: ErrorPage)
    requires Runnable(INITIAL, steps) && PageWaits(Run(INITIAL, steps))
    ensures var s, s' := Run(INITIAL, steps), ApplyState(Run(INITIAL, steps), page);
            var r, i := s.queue[0], IndexOf(s.tabs, s.queue[0].tabId);
            var t := s.tabs[i];
            && |s'.tabs| == |s.tabs| && (forall j :: 0 <= j < |s.tabs| && j != i ==> s'.tabs[j] == s.tabs[j])
            && s'.active == s.active && s'.inflight == s.inflight && s'.queue == s.queue[1..] && s'.built == s.built
            && var t' := s'.tabs[i];
               && t'.session == r.session && t'.url == r.url && !t'.loading && t'.serial == t.serial && t'.id == t.id
               && (!r.noHistory ==> Extended(t.history, t'.history, r.url))
               && (r.noHistory ==> t'.history == t.history || Turned(t.history, t'.history, r.traverse, r.url))
               && (r.noHistory && r.traverse == 0 ==> t'.history == t.history)
  {
    RunKeepsInv(INITIAL, steps);
    PageApplied(Run(INITIAL, steps), page);
  }

  lemma PageApplied(s: State, page: ErrorPage)
    requires Inv(s) && PageWaits(s)
    ensures var s' := ApplyState(s, page);
            var r, i := s.queue[0], IndexOf(s.tabs, s.queue[0].tabId);
            var t := s.tabs[i];
            && |s'.tabs| == |s.tabs| && (forall j :: 0 <= j < |s.tabs| && j != i ==> s'.tabs[j] == s.tabs[j])
            && s'.active == s.active && s'.inflight == s.inflight && s'.queue == s.queue[1..] && s'.built == s.built
            && var t' := s'.tabs[i];
               && t'.session == r.session && t'.url == r.url && !t'.loading && t'.serial == t.serial && t'.id == t.id
               && (!r.noHistory ==> Extended(t.history, t'.history, r.url))
               && (r.noHistory ==> t'.history == t.history || Turned(t.history, t'.history, r.traverse, r.url))
               && (r.noHistory && r.traverse == 0 ==> t'.history == t.history)
  {
    hide LoadOk, OutstandingOk;
    var i := IndexOf(s.tabs, s.queue[0].tabId);
    assert ResultOk(s.tabs, s.nextId, s.queue[0]) && TabOk(s.tabs[i], s.nextId);
  }

  /**
   The pushed trail is the old one cut behind the cursor with the page added, unless a trail was restored
   without a cursor: that one keeps all its entries in front of the page.
   */
  lemma CutBehindCursorIff(h: History, h': History, url: string)
    requires h.Valid() && Extended(h, h', url)
    ensures h'.entries == h.entries[..h.index + 1] + [url] <==> h.index >= 0 || h.entries == []
  {
    if h.index >= 0 || h.entries == [] { assert h'.entries[..h'.index] == h.entries[..h.index + 1]; }
  }

  // ---------------------------------------------------------------- a failed or downloaded result

  /** A download or a canceled load only ends the loading; a failure shows its error page when one is built. */
  lemma NoPageApplied(s: State, page: ErrorPage)
    requires HeadCurrent(s) && (s.queue[0].downloadPath != "" || s.queue[0].err.Some?)
    ensures var s' := ApplyState(s, page);
            var r, i := s.queue[0], IndexOf(s.tabs, s.queue[0].tabId);
            var t := s.tabs[i];
            && |s'.tabs| == |s.tabs| && (forall j :: 0 <= j < |s.tabs| && j != i ==> s'.tabs[j] == s.tabs[j])
            && s'.active == s.active && s'.inflight == s.inflight && s'.queue == s.queue[1..]
            && var t' := s'.tabs[i];
               && !t'.loading && t'.serial == t.serial && t'.id == t.id && t'.history == t.history
               && if r.downloadPath == "" && r.err.value.LoadFailed? && page.Shown?
                  then t'.session == Some(page.session) && t'.url == r.url
                  else t'.session == t.session && t'.url == t.url
  {
  }

  // ---------------------------------------------------------------- from a load to its result

  /** The URLs loads of these steps ended at. */
  function Finals(steps: seq<Step>): set<string> {
    if steps == [] then {}
    else (if steps[0].Finish? && steps[0].finalUrl != "" then {steps[0].finalUrl} else {}) + Finals(steps[1..])
  }

  predicate LoadIs(l: Load, k: Load) {
    k.tabId == l.tabId && k.serial == l.serial ==> k == l.(canceled := k.canceled)
  }

  predicate ResultIs(l: Load, finals: set<string>, r: NavResult) {
    r.tabId == l.tabId && r.serial == l.serial ==>
      && r.noHistory == l.noHistory && r.traverse == l.traverse && r.traverseBase == l.traverseBase
      && (r.url == l.url || r.url in finals)
  }

  /** Whatever is outstanding with this load's tab and serial is this load or its result. */
  predicate From(s: State, l: Load, finals: set<string>) {
    && l.tabId <= s.nextId
    && (Find(s.tabs, l.tabId).Some? ==> l.serial <= Find(s.tabs, l.tabId).value.serial)
    && (forall k :: 0 <= k < |s.inflight| ==> LoadIs(l, s.inflight[k]))
    && (forall k :: 0 <= k < |s.queue| ==> ResultIs(l, finals, s.queue[k]))
  }

  lemma SerialNeverFalls(s: State, step: Step, id: nat, serial: nat)
    requires Inv(s) && Enabled(s, step) && id <= s.nextId
    requires Find(s.tabs, id).Some? ==> serial <= Find(s.tabs, id).value.serial
    ensures id <= Next(s, step).nextId
    ensures Find(Next(s, step).tabs, id).Some? ==> serial <= Find(Next(s, step).tabs, id).value.serial
  {
    hide LoadOk, ResultOk, OutstandingOk, ApplyState, NavigateState, StopState, OpenTabState, MoveState, RewriteState,
         Inserted, RestorePage, CancelLoads, HistoryAfter;
    match step
    case OpenTab(_, _, _, _) => RearrangingKeepsTabs(s, step, id);
    case SwitchTo(_) =>
    case MoveTab(_, _) => RearrangingKeepsTabs(s, step, id);
    case Rewrite(url, history) => RewriteKeepsSerial(s, url, history, id);
    case Navigate(_) => NavigateAdvances(s, step, id);
    case Traverse(_) => NavigateAdvances(s, step, id);
    case Reload => NavigateAdvances(s, step, id);
    case Stop => NavigateAdvances(s, step, id);
    case CloseTab(c) =>
      var i := IndexOf(s.tabs, c);
      if i < |s.tabs| { FindRemove(s.tabs, i, id); }
    case Finish(_, _, _, _, _) =>
    case Apply(page) => ApplyKeepsSerial(s, page, id);
  }

  predicate AllLoadsAre(loads: seq<Load>, l: Load) {
    forall k :: 0 <= k < |loads| ==> LoadIs(l, loads[k])
  }

  predicate AllResultsAre(queue: seq<NavResult>, l: Load, finals: set<string>) {
    forall k :: 0 <= k < |queue| ==> ResultIs(l, finals, queue[k])
  }

  lemma CancelingKeeps(loads: seq<Load>, l: Load, id: nat, which: Option<nat>)
    requires AllLoadsAre(loads, l)
    ensures AllLoadsAre(CancelLoads(loads, id, which), l)
  {
    forall k | 0 <= k < |loads| ensures LoadIs(l, CancelLoads(loads, id, which)[k]) { assert LoadIs(l, loads[k]); }
  }

  lemma NavigatingKeeps(s: State, l: Load, url: string, noHistory: bool, delta: int, base: int)
    requires Inv(s) && AllLoadsAre(s.inflight, l)
    requires Find(s.tabs, l.tabId).Some? ==> l.serial <= Find(s.tabs, l.tabId).value.serial
    ensures AllLoadsAre(NavigateState(s, url, noHistory, delta, base).inflight, l)
  {
    hide LoadOk, ResultOk, OutstandingOk, IndexOf;
    if s.active < |s.tabs| {
      var t := s.tabs[s.active];
      FindAt(s.tabs, s.active);
      CancelingKeeps(s.inflight, l, t.id, t.cancel);
    }
  }

  /** No step puts another load under a tab and serial that are taken. */
  lemma LoadsStay(s: State, step: Step, l: Load)
    requires Inv(s) && AllLoadsAre(s.inflight, l)
    requires Find(s.tabs, l.tabId).Some? ==> l.serial <= Find(s.tabs, l.tabId).value.serial
    ensures AllLoadsAre(Next(s, step).inflight, l)
  {
    hide Inv, Find, IndexOf, RestorePage, Inserted, HistoryAfter, LoadIs, CancelLoads, NavigateState;
    match step
    case Navigate(url) => NavigatingKeeps(s, l, url, false, 0, 0);
    case Traverse(delta) =>
      if TraverseState(s, delta) != s {
        var h := s.tabs[s.active].history;
        NavigatingKeeps(s, l, h.Peek(delta).value, true, delta, h.index);
      }
    case Reload =>
      if ReloadState(s) != s { NavigatingKeeps(s, l, s.tabs[s.active].url, true, 0, 0); }
    case Stop =>
      if s.active < |s.tabs| { CancelingKeeps(s.inflight, l, s.tabs[s.active].id, s.tabs[s.active].cancel); }
    case CloseTab(id) =>
      var i := IndexOf(s.tabs, id);
      if i < |s.tabs| { CancelingKeeps(s.inflight, l, s.tabs[i].id, s.tabs[i].cancel); }
    case _ =>
  }

  lemma QueueStays(s: State, step: Step)
    ensures !step.Finish? && !step.Apply? ==> Next(s, step).queue == s.queue
    ensures step.Apply? ==> Next(s, step).queue == if s.queue == [] then [] else s.queue[1..]
    ensures step.Finish? && step.load < |s.inflight| ==>
              Next(s, step).queue == s.queue + [ResultOf(s.inflight[step.load], step.finalUrl, step.session, step.end)]
  {
    hide IndexOf, RestorePage, Inserted, HistoryAfter, CancelLoads, ResultOf;
  }

  lemma ResultsStay(s: State, step: Step, l: Load, finals: set<string>)
    requires Enabled(s, step) && AllLoadsAre(s.inflight, l) && AllResultsAre(s.queue, l, finals)
    ensures AllResultsAre(Next(s, step).queue, l, finals + Finals([step]))
  {
    hide Next, ResultOf, AllLoadsAre;
    QueueStays(s, step);
    assert [step][1..] == [];
    if step.Finish? {
      LoadDelivers(s.inflight, l, step.load, step.finalUrl, step.session, step.end, finals + Finals([step]));
    }
    WiderFinals(s.queue, l, finals, finals + Finals([step]));
  }

  lemma WiderFinals(queue: seq<NavResult>, l: Load, a: set<string>, b: set<string>)
    requires AllResultsAre(queue, l, a) && a <= b
    ensures AllResultsAre(queue, l, b)
  {
    forall k | 0 <= k < |queue| ensures ResultIs(l, b, queue[k]) { assert ResultIs(l, a, queue[k]); }
  }

  lemma LoadDelivers(loads: seq<Load>, l: Load, k: nat, finalUrl: string, session: Option<Session>, end: LoadEnd,
                     finals: set<string>)
    requires AllLoadsAre(loads, l) && k < |loads| && (finalUrl != "" ==> finalUrl in finals)
    ensures ResultIs(l, finals, ResultOf(loads[k], finalUrl, session, end))
  {
    assert LoadIs(l, loads[k]);
  }

  lemma StepKeepsFrom(s: State, step: Step, l: Load, finals: set<string>)
    requires Inv(s) && Enabled(s, step) && From(s, l, finals)
    ensures From(Next(s, step), l, finals + Finals([step]))
  {
    hide Inv, Next, Enabled, Find, LoadIs, ResultIs;
    SerialNeverFalls(s, step, l.tabId, l.serial);
    LoadsStay(s, step, l);
    ResultsStay(s, step, l, finals);
  }

  lemma {:induction false} RunKeepsFrom(s: State, steps: seq<Step>, l: Load, finals: set<string>)
    requires Inv(s) && Runnable(s, steps) && From(s, l, finals)
    ensures Inv(Run(s, steps)) && From(Run(s, steps), l, finals + Finals(steps))
    decreases |steps|
  {
    hide Inv, Next, Enabled, From;
    if steps != [] {
      StepKeepsInv(s, steps[0]);
      StepKeepsFrom(s, steps[0], l, finals);
      RunKeepsFrom(Next(s, steps[0]), steps[1..], l, finals + Finals([steps[0]]));
      assert [steps[0]][1..] == [];
      assert finals + Finals([steps[0]]) + Finals(steps[1..]) == finals + Finals(steps);
    } else {
      assert finals + {} == finals;
    }
  }

  // ---------------------------------------------------------------- from the command to the page

  /** The active tab is told to load this, and nothing else changes but the load its cancel function ends. */
  predicate Begins(s: State, s': State, url: string, noHistory: bool, delta: int, base: int) {
    && s.active < |s.tabs| && s'.active == s.active && s'.nextId == s.nextId && s'.queue == s.queue
    && |s'.tabs| == |s.tabs| && (forall j :: 0 <= j < |s.tabs| && j != s.active ==> s'.tabs[j] == s.tabs[j])
    && var t, t' := s.tabs[s.active], s'.tabs[s.active];
       && t'.id == t.id && t'.serial == t.serial + 1 && t'.loading && t'.session == t.session && t'.url == t.url
       && t'.history == t.history
       && |s'.inflight| == |s.inflight| + 1
       && s'.inflight[|s.inflight|] == Load(t.id, t.serial + 1, url, noHistory, delta, base, false)
  }

  /** The entry next to the cursor on this side, when there is one. */
  predicate Beside(h: History, delta: int, url: string) {
    && delta != 0 && 0 <= h.index
    && var j := if delta < 0 then h.index - 1 else h.index + 1;
       0 <= j < |h.entries| && h.entries[j] == url
  }

  lemma NavigateBegins(s: State, url: string)
    requires s.active < |s.tabs|
    ensures Begins(s, Next(s, Navigate(url)), url, false, 0, 0)
  {
  }

  lemma ReloadBegins(s: State)
    requires s.active < |s.tabs| && s.tabs[s.active].url != ""
    ensures Begins(s, Next(s, Reload), s.tabs[s.active].url, true, 0, 0)
  {
  }

  /** Going back or forward begins a load exactly when an entry that is not empty stands on that side. */
  lemma TraverseBeginsIff(s: State, delta: int)
    requires s.active < |s.tabs| && s.tabs[s.active].history.Valid()
    ensures var h := s.tabs[s.active].history;
            && (forall url :: Beside(h, delta, url) && url != "" ==>
                  Begins(s, Next(s, Traverse(delta)), url, true, delta, h.index))
            && ((forall url :: Beside(h, delta, url) ==> url == "") ==> Next(s, Traverse(delta)) == s)
  {
    var h := s.tabs[s.active].history;
    var j := if delta < 0 then h.index - 1 else h.index + 1;
    if 0 <= h.index && 0 <= j < |h.entries| && delta != 0 { assert Beside(h, delta, h.entries[j]); }
  }

  /** The state after a command has its load as the only thing outstanding under the new serial. */
  lemma BegunFrom(s: State, s': State, url: string, noHistory: bool, delta: int, base: int)
    requires Inv(s) && Inv(s') && Begins(s, s', url, noHistory, delta, base)
    requires s'.inflight[..|s.inflight|] == CancelLoads(s.inflight, s.tabs[s.active].id, s.tabs[s.active].cancel)
    ensures var t := s.tabs[s.active];
            && From(s', Load(t.id, t.serial + 1, url, noHistory, delta, base, false), {})
            && Waits(s', t.id, t.serial + 1, t.history)
  {
    hide OutstandingOk, CanCommit, IndexOf;
    var t := s.tabs[s.active];
    var l := Load(t.id, t.serial + 1, url, noHistory, delta, base, false);
    FindAt(s.tabs, s.active);
    FindAt(s'.tabs, s.active);
    assert TabOk(t, s.nextId);
    forall k | 0 <= k < |s'.inflight| ensures LoadIs(l, s'.inflight[k]) {
      if k < |s.inflight| {
        assert LoadOk(s.tabs, s.nextId, s.inflight[k]);
        assert s'.inflight[k] == s'.inflight[..|s.inflight|][k];
      }
    }
    forall k | 0 <= k < |s'.queue| ensures ResultIs(l, {}, s'.queue[k]) {
      assert ResultOk(s.tabs, s.nextId, s.queue[k]);
    }
  }

  /** A command, then anything but a restore, then the page of its load at the head of the channel. */
  predicate Arrives(s: State, s': State, after: seq<Step>) {
    && s.active < |s.tabs| && Runnable(s', after) && NoRewrite(after) && PageWaits(Run(s', after))
    && Run(s', after).queue[0].tabId == s.tabs[s.active].id
    && Run(s', after).queue[0].serial == s.tabs[s.active].serial + 1
  }

  /** The tab the head of the channel is for, once its page has been applied. */
  function ShownTab(s: State, page: ErrorPage): TabState
    requires HeadCurrent(s)
  {
    var i := IndexOf(s.tabs, s.queue[0].tabId);
    if i < |ApplyState(s, page).tabs| then ApplyState(s, page).tabs[i] else s.tabs[i]
  }

  lemma Arrived(s: State, s': State, after: seq<Step>, page: ErrorPage, url: string, noHistory: bool, delta: int,
                base: int)
    requires Inv(s) && Inv(s') && Begins(s, s', url, noHistory, delta, base) && Arrives(s, s', after)
    requires s'.inflight[..|s.inflight|] == CancelLoads(s.inflight, s.tabs[s.active].id, s.tabs[s.active].cancel)
    ensures var z := Run(s', after);
            var h, t' := s.tabs[s.active].history, ShownTab(z, page);
            && Inv(z) && HeadTrail(z) == h && t'.id == s.tabs[s.active].id && (t'.url == url || t'.url in Finals(after))
            && t'.session == z.queue[0].session && !t'.loading
            && z.queue[0].traverse == delta && z.queue[0].traverseBase == base && z.queue[0].url == t'.url
            && (!noHistory ==> Extended(h, t'.history, t'.url))
            && (noHistory && delta == 0 ==> t'.history == h)
  {
    hide Inv, Next, Run, Runnable, From, Waits, Begins, CancelLoads, ApplyState, Extended, Turned;
    var t := s.tabs[s.active];
    var l := Load(t.id, t.serial + 1, url, noHistory, delta, base, false);
    BegunFrom(s, s', url, noHistory, delta, base);
    RunKeepsFrom(s', after, l, {});
    WaitsOn(s', after, t.id, t.serial + 1, t.history);
    var z := Run(s', after);
    WaitingTrail(z, t.history);
    HeadFrom(z, l, {} + Finals(after));
    PageApplied(z, page);
  }

  lemma HeadFrom(s: State, l: Load, finals: set<string>)
    requires From(s, l, finals) && s.queue != [] && s.queue[0].tabId == l.tabId && s.queue[0].serial == l.serial
    ensures ResultIs(l, finals, s.queue[0])
  {
  }

  /**
   Over every run: a page navigated to, whatever happens until it displays short of a restore, leaves the trail
   the tab had when the navigation began, up to the cursor, with the page behind it.
   */
  lemma NavigationShows(before: seq<Step>, url: string, after: seq<Step>, page: ErrorPage)
    requires Runnable(INITIAL, before)
    requires var s := Run(INITIAL, before); Arrives(s, Next(s, Navigate(url)), after)
    ensures var s := Run(INITIAL, before);
            var h, t' := s.tabs[s.active].history, ShownTab(Run(Next(s, Navigate(url)), after), page);
            && t'.id == s.tabs[s.active].id && (t'.url == url || t'.url in Finals(after))
            && Extended(h, t'.history, t'.url)
  {
    hide Inv, Run, Runnable, Extended, ShownTab, CancelLoads;
    RunKeepsInv(INITIAL, before);
    var s := Run(INITIAL, before);
    NavigateBegins(s, url);
    StepKeepsInv(s, Navigate(url));
    Arrived(s, Next(s, Navigate(url)), after, page, url, false, 0, 0);
  }

  /** A page reloaded leaves the trail as it was when the reload began. */
  lemma ReloadShows(before: seq<Step>, after: seq<Step>, page: ErrorPage)
    requires Runnable(INITIAL, before)
    requires var s := Run(INITIAL, before);
             s.active < |s.tabs| && s.tabs[s.active].url != "" && Arrives(s, Next(s, Reload), after)
    ensures var s := Run(INITIAL, before);
            var t, t' := s.tabs[s.active], ShownTab(Run(Next(s, Reload), after), page);
            t'.id == t.id && (t'.url == t.url || t'.url in Finals(after)) && t'.history == t.history
  {
    hide Inv, Run, Runnable, Extended, ShownTab, CancelLoads;
    RunKeepsInv(INITIAL, before);
    var s := Run(INITIAL, before);
    ReloadBegins(s);
    StepKeepsInv(s, Reload);
    Arrived(s, Next(s, Reload), after, page, s.tabs[s.active].url, true, 0, 0);
  }

  lemma TurnedByPage(s: State, page: ErrorPage, url: string)
    requires Inv(s) && PageWaits(s) && s.queue[0].noHistory && s.queue[0].traverseBase == HeadTrail(s).index
    requires Beside(HeadTrail(s), s.queue[0].traverse, url)
    ensures Turned(HeadTrail(s), ShownTab(s, page).history, s.queue[0].traverse, ShownTab(s, page).url)
  {
    hide LoadOk, ResultOk, OutstandingOk;
    var i := IndexOf(s.tabs, s.queue[0].tabId);
    assert TabOk(s.tabs[i], s.nextId);
  }

  /**
   Going back or forward to the entry that stood beside the cursor: however the run goes on short of a restore,
   once its page displays the cursor stands on that entry, rewritten when the load ended elsewhere.
   */
  lemma TraversalShows(before: seq<Step>, delta: int, url: string, after: seq<Step>, page: ErrorPage)
    requires Runnable(INITIAL, before) && url != ""
    requires var s := Run(INITIAL, before);
             && s.active < |s.tabs| && Beside(s.tabs[s.active].history, delta, url)
             && Arrives(s, Next(s, Traverse(delta)), after)
    ensures var s := Run(INITIAL, before);
            var h, t' := s.tabs[s.active].history, ShownTab(Run(Next(s, Traverse(delta)), after), page);
            && t'.id == s.tabs[s.active].id && (t'.url == url || t'.url in Finals(after))
            && Turned(h, t'.history, delta, t'.url)
  {
    hide Inv, Run, Runnable, Extended, Turned, ShownTab, CancelLoads, Beside;
    RunKeepsInv(INITIAL, before);
    var s := Run(INITIAL, before);
    ActiveIsValid(s);
    var h := s.tabs[s.active].history;
    TraverseBeginsIff(s, delta);
    StepKeepsInv(s, Traverse(delta));
    BesideIsOne(h, delta, url);
    Arrived(s, Next(s, Traverse(delta)), after, page, url, true, delta, h.index);
    var z := Run(Next(s, Traverse(delta)), after);
    HeadFlags(s, Next(s, Traverse(delta)), after, url, delta, h.index);
    TurnedByPage(z, page, url);
  }

  lemma ActiveIsValid(s: State)
    requires Inv(s) && s.active < |s.tabs|
    ensures s.tabs[s.active].history.Valid()
  {
    assert TabOk(s.tabs[s.active], s.nextId);
  }

  lemma BesideIsOne(h: History, delta: int, url: string)
    requires Beside(h, delta, url)
    ensures delta != 0 && forall u :: Beside(h, delta, u) ==> u == url
  {
  }

  lemma HeadFlags(s: State, s': State, after: seq<Step>, url: string, delta: int, base: int)
    requires Inv(s) && Inv(s') && Begins(s, s', url, true, delta, base) && Arrives(s, s', after)
    requires s'.inflight[..|s.inflight|] == CancelLoads(s.inflight, s.tabs[s.active].id, s.tabs[s.active].cancel)
    ensures Run(s', after).queue[0].noHistory
  {
    hide Inv, Next, Run, Runnable, From, Waits, Begins, CancelLoads;
    var t := s.tabs[s.active];
    var l := Load(t.id, t.serial + 1, url, true, delta, base, false);
    BegunFrom(s, s', url, true, delta, base);
    RunKeepsFrom(s', after, l, {});
    HeadFrom(Run(s', after), l, {} + Finals(after));
  }

  /** Back and forth again: the trail is the old one when neither page ended elsewhere. */
  lemma BackAndForth(h: History, there: History, again: History, delta: int)
    requires h.Valid() && 0 <= h.index && 0 <= there.index < |there.entries|
    requires Beside(h, delta, there.entries[there.index]) && Turned(h, there, delta, there.entries[there.index])
    requires Turned(there, again, -delta, h.entries[h.index])
    ensures again == h
  {
  }
}
