/**
 The browser's handlers as they are written: they update tab objects and the frame path in place.
 Each is proved equal to the step of `NavModel` it stands for, so every theorem about runs of that
 transition system is about sequences of these calls.
 */
module FramePaths {
  import opened Options
  import opened NavModel

  class Tab {
    const id: nat
    var serial: nat
    var loading: bool
    var cancel: Option<nat>
    var session: Option<Session>
    var url: string
    var history: History
    ghost var trailFrom: nat

    constructor (id: nat, url: string, history: History)
      ensures Value() == TabState(id, 0, false, None, None, url, history, 0)
    {
      this.id := id;
      serial, loading, cancel, session := 0, false, None, None;
      this.url, this.history, this.trailFrom := url, history, 0;
    }

    ghost function Value(): TabState
      reads this
    {
      TabState(id, serial, loading, cancel, session, url, history, trailFrom)
    }
  }

  ghost function ValuesOf(tabs: seq<Tab>): (r: seq<TabState>)
    reads tabs
    ensures |r| == |tabs|
    ensures forall i :: 0 <= i < |tabs| ==> r[i] == tabs[i].Value()
  {
    seq(|tabs|, i requires 0 <= i < |tabs| reads tabs => tabs[i].Value())
  }

  /** Only one tab's fields changed. */
  lemma ValuesChanged(tabs: seq<Tab>, before: seq<TabState>, i: nat)
    requires i < |tabs| == |before| && forall j :: 0 <= j < |tabs| && j != i ==> tabs[j].Value() == before[j]
    ensures ValuesOf(tabs) == before[i := tabs[i].Value()]
  {
  }

  lemma ValuesInserted(tabs: seq<Tab>, k: nat, tab: Tab)
    requires k <= |tabs|
    ensures ValuesOf(tabs[..k] + [tab] + tabs[k..]) == Inserted(ValuesOf(tabs), k, tab.Value())
  {
    var all, values := tabs[..k] + [tab] + tabs[k..], Inserted(ValuesOf(tabs), k, tab.Value());
    forall j | 0 <= j < |all| ensures ValuesOf(all)[j] == values[j] {
      assert all[j] == if j < k then tabs[j] else if j == k then tab else tabs[j - 1];
    }
  }

  lemma ValuesRemoved(tabs: seq<Tab>, i: nat)
    requires i < |tabs|
    ensures ValuesOf(tabs[..i] + tabs[i + 1..]) == ValuesOf(tabs)[..i] + ValuesOf(tabs)[i + 1..]
  {
    var rest := tabs[..i] + tabs[i + 1..];
    assert forall j :: 0 <= j < |rest| ==> rest[j] == tabs[if j < i then j else j + 1];
  }

  lemma InsertedOnce(tabs: seq<Tab>, k: nat, tab: Tab)
    requires k <= |tabs| && tab !in tabs && forall i, j :: 0 <= i < j < |tabs| ==> tabs[i] != tabs[j]
    ensures var all := tabs[..k] + [tab] + tabs[k..];
            && (forall i, j :: 0 <= i < j < |all| ==> all[i] != all[j])
            && (forall t :: t in all ==> t in tabs || t == tab)
  {
    var all := tabs[..k] + [tab] + tabs[k..];
    assert forall j :: 0 <= j < |all| ==> all[j] == if j < k then tabs[j] else if j == k then tab else tabs[j - 1];
  }

  class FramePath {
    var tabs: seq<Tab>
    var active: nat
    var nextId: nat
    var inflight: seq<Load>        // goroutines that have not delivered
    var navResults: seq<NavResult> // the channel
    ghost var built: set<Session>  // every session ever constructed
    ghost var closed: seq<Session> // every Session.Close call, in order

    constructor ()
      ensures Valid() && Abs() == INITIAL && tabs == []
    {
      tabs, active, nextId, inflight, navResults := [], 0, 0, [], [];
      built, closed := {}, [];
    }

    ghost predicate Valid()
      reads this`tabs, this`active
    {
      && (forall i, j :: 0 <= i < j < |tabs| ==> tabs[i] != tabs[j])
      && (tabs == [] || active < |tabs|)
    }

    ghost function Values(): (r: seq<TabState>)
      reads this`tabs, tabs
      ensures |r| == |tabs|
      ensures forall i :: 0 <= i < |tabs| ==> r[i] == tabs[i].Value()
    {
      ValuesOf(tabs)
    }

    ghost function Abs(): State
      reads this, tabs
    {
      State(Values(), active, nextId, inflight, navResults, built, closed)
    }

    method TabByID(id: nat) returns (i: nat)
      ensures i == IndexOf(Values(), id)
    {
      i := 0;
      while i < |tabs|
        invariant i <= |tabs|
        invariant forall j :: 0 <= j < i ==> Values()[j].id != id
      {
        if tabs[i].id == id { return; }
        i := i + 1;
      }
    }

    method CloseSessionOf(session: Option<Session>)
      modifies this`closed
      ensures closed == CloseSession(old(closed), session)
    {
      if session.Some? { closed := closed + [session.value]; }
    }

    /** A new tab at a position, selected or not. */
    method Open(at: nat, url: string, history: History, select: bool)
      requires Valid() && history.Valid()
      modifies this`tabs, this`active, this`nextId
      ensures Valid() && Abs() == old(OpenTabState(Abs(), at, url, history, select))
      ensures nextId == old(nextId) + 1
      ensures at == |old(tabs)| ==> old(tabs) <= tabs && |tabs| == |old(tabs)| + 1 && tabs[at].id == nextId
      ensures forall t :: t in tabs ==> t in old(tabs) || fresh(t)
    {
      hide Inserted, ValuesOf;
      ghost var before, was := Abs(), tabs;
      nextId := nextId + 1;
      var tab := new Tab(nextId, url, history);
      var k := at;
      if k > |tabs| { k := |tabs|; }
      if select || |tabs| == 0 {
        active := k;
      } else if k <= active {
        active := active + 1;
      }
      tabs := tabs[..k] + [tab] + tabs[k..];
      ValuesInserted(was, k, tab);
      InsertedOnce(was, k, tab);
    }

    /** Puts a tab at another position; the selected tab is found again by its id. */
    method MoveTab(id: nat, to: int)
      requires Valid()
      modifies this`tabs, this`active
      ensures Valid() && Abs() == old(MoveState(Abs(), id, to))
    {
      hide IndexOf, Inserted, MoveState;
      var i := TabByID(id);
      MoveIs(Abs(), id, to);
      if i >= |tabs| { return; }
      ghost var before := Values();
      var k := to;
      if k < 0 { k := 0; }
      if k > |tabs| - 1 { k := |tabs| - 1; }
      StillThere(before, i, k, active);
      Rearrange(i, k);
    }

    lemma MoveIs(s: State, id: nat, to: int)
      requires s.active < |s.tabs| || s.tabs == []
      ensures var i, last := IndexOf(s.tabs, id), |s.tabs| - 1;
              MoveState(s, id, to)
              == if i >= |s.tabs| then s
                 else
                   var k := if to < 0 then 0 else if to > last then last else to;
                   var moved := Inserted(s.tabs[..i] + s.tabs[i + 1..], k, s.tabs[i]);
                   s.(tabs := moved, active := IndexOf(moved, s.tabs[s.active].id))
    {
      hide IndexOf, Inserted;
    }

    method Rearrange(i: nat, k: nat)
      requires Valid() && i < |tabs| && k < |tabs|
      requires IndexOf(Inserted(Values()[..i] + Values()[i + 1..], k, Values()[i]), tabs[active].id) < |tabs|
      modifies this`tabs, this`active
      ensures Valid()
      ensures Values() == old(Inserted(Values()[..i] + Values()[i + 1..], k, Values()[i]))
      ensures active == IndexOf(Values(), old(tabs[active].id))
    {
      hide Inserted, IndexOf;
      ghost var was := tabs;
      var chosen := tabs[active].id;
      var tab := tabs[i];
      var rest := tabs[..i] + tabs[i + 1..];
      tabs := rest[..k] + [tab] + rest[k..];
      ValuesRemoved(was, i);
      ValuesInserted(rest, k, tab);
      RemovedOnce(was, i);
      InsertedOnce(rest, k, tab);
      active := TabByID(chosen);
    }

    lemma RemovedOnce(was: seq<Tab>, i: nat)
      requires i < |was| && forall i, j :: 0 <= i < j < |was| ==> was[i] != was[j]
      ensures var rest := was[..i] + was[i + 1..];
              was[i] !in rest && forall i, j :: 0 <= i < j < |rest| ==> rest[i] != rest[j]
    {
      var rest := was[..i] + was[i + 1..];
      assert forall j :: 0 <= j < |rest| ==> rest[j] == was[if j < i then j else j + 1];
    }

    /** The tab that was selected is among the tabs still. */
    lemma StillThere(before: seq<TabState>, i: nat, k: nat, chosen: nat)
      requires i < |before| && k < |before| && chosen < |before|
      ensures IndexOf(Inserted(before[..i] + before[i + 1..], k, before[i]), before[chosen].id) < |before|
    {
      var rest := before[..i] + before[i + 1..];
      var all := Inserted(rest, k, before[i]);
      var j := if chosen < i then chosen else chosen - 1;
      if chosen == i {
        assert all[k] == before[i];
      } else {
        assert rest[j] == before[chosen];
        assert all[if j < k then j else j + 1] == before[chosen];
      }
    }

    /** Brings the tabs of a crashed session back and loads the selected one. */
    method RestoreCrashedSession(saved: seq<SavedTab>, chosen: int)
      requires Valid() && forall i :: 0 <= i < |saved| ==> saved[i].history.Valid()
      modifies this`tabs, this`active, this`nextId, this`inflight, tabs
      ensures Valid() && Abs() == old(Run(Abs(), RestoreSteps(Abs(), saved, chosen)))
    {
      hide Run, RestorePage, RestoredTabs, Next;
      ghost var before := Abs();
      BringBack(saved, chosen);
      ghost var brought := Abs();
      assert forall t :: t in tabs ==> t in old(tabs) || fresh(t);
      RunAppend(before, RestoredTabs(before, saved, chosen), LoadActive(brought, saved));
      RunOne(brought);
      if saved != [] && |tabs| > 0 {
        var url := tabs[active].url;
        if url != "" && !RestorePage(url) {
          assert forall i :: 0 <= i < |tabs| ==> tabs[i] in old(tabs) || fresh(tabs[i]);
          NavigateTab(url);
        }
      }
    }

    lemma RunOne(s: State)
      ensures Run(s, []) == s
      ensures forall step: Step {:trigger Next(s, step)} :: Run(s, [step]) == Next(s, step)
    {
      hide Next;
      forall step: Step ensures Run(s, [step]) == Next(s, step) {
        assert [step][1..] == [];
        assert Run(Next(s, step), []) == Next(s, step);
      }
    }

    method BringBack(saved: seq<SavedTab>, chosen: int)
      requires Valid() && forall i :: 0 <= i < |saved| ==> saved[i].history.Valid()
      modifies this`tabs, this`active, this`nextId, tabs
      ensures Valid() && Abs() == old(Run(Abs(), RestoredTabs(Abs(), saved, chosen)))
      ensures forall t :: t in tabs ==> t in old(tabs) || fresh(t)
    {
      hide Run, OnlyPrompt, Next, BroughtIn, Selected, ValuesOf;
      ghost var before := Abs();
      RunOne(before);
      if saved == [] { return; }
      var first, over := OpenRestored(saved);
      RunAppend(before, BroughtIn(before, saved), Selected(before, saved, chosen));
      SelectRestored(first, over, chosen, saved, before);
    }

    method SelectRestored(first: nat, over: bool, chosen: int, saved: seq<SavedTab>, ghost before: State)
      requires Valid() && over == OnlyPrompt(before) && |tabs| == first + |saved|
      requires forall k :: first <= k < |tabs| && (over ==> k > 0) ==>
                 tabs[k].id == before.nextId + k - first + if over then 0 else 1
      requires over ==> first == 0
      modifies this`active
      ensures Valid() && Abs() == old(Run(Abs(), Selected(before, saved, chosen)))
    {
      hide Run, OnlyPrompt, Next, SwitchState, ValuesOf;
      RunOne(Abs());
      if (if over then 0 < chosen else 0 <= chosen) && chosen < |saved| {
        var id := tabs[first + chosen].id;
        SwitchToIs(Abs(), id);
        SwitchTo(id);
      }
    }

    /** Over the restore prompt when that is all there is, else behind the tabs there are. */
    method OpenRestored(saved: seq<SavedTab>) returns (first: nat, over: bool)
      requires Valid() && saved != [] && forall i :: 0 <= i < |saved| ==> saved[i].history.Valid()
      modifies this`tabs, this`active, this`nextId, tabs
      ensures Valid() && Abs() == old(Run(Abs(), BroughtIn(Abs(), saved)))
      ensures over == old(OnlyPrompt(Abs())) && first == (if over then 0 else old(|tabs|))
      ensures |tabs| == first + |saved|
      ensures forall k :: first <= k < |tabs| && (over ==> k > 0) ==>
                tabs[k].id == old(nextId) + k - first + if over then 0 else 1
      ensures forall t :: t in tabs ==> t in old(tabs) || fresh(t)
    {
      hide Run, RestorePage, Next, Opens;
      ghost var before := Abs();
      over := |tabs| == 1 && RestorePage(tabs[0].url);
      if over {
        first := 0;
        Overwrite(saved[0]);
        RunAppend(before, [Rewrite(saved[0].url, saved[0].history)], Opens(1, saved[1..]));
        RunOne(before);
        OpenAll(saved[1..]);
      } else {
        first := |tabs|;
        OpenAll(saved);
      }
    }

    lemma SwitchToIs(s: State, id: nat)
      ensures Next(s, NavModel.SwitchTo(id)) == SwitchState(s, id)
    {
    }

    /** The prompt's tab takes a saved URL and trail. */
    method Overwrite(t: SavedTab)
      requires Valid() && |tabs| == 1 && RestorePage(tabs[0].url)
      modifies tabs
      ensures Valid() && Abs() == old(Next(Abs(), Rewrite(t.url, t.history)))
    {
      hide RestorePage;
      ghost var before := Abs();
      tabs[0].url, tabs[0].history := t.url, t.history;
      tabs[0].trailFrom := tabs[0].serial;
      assert Values() == [tabs[0].Value()];
    }

    method OpenAll(saved: seq<SavedTab>)
      requires Valid() && forall i :: 0 <= i < |saved| ==> saved[i].history.Valid()
      modifies this`tabs, this`active, this`nextId
      ensures Valid() && Abs() == old(Run(Abs(), Opens(|tabs|, saved)))
      ensures |tabs| == old(|tabs|) + |saved|
      ensures forall j :: old(|tabs|) <= j < |tabs| ==> tabs[j].id == old(nextId) + 1 + j - old(|tabs|)
      ensures forall t :: t in tabs ==> t in old(tabs) || fresh(t)
    {
      hide Run, OpenTabState, Opens;
      ghost var before, n := Abs(), |tabs|;
      var k := 0;
      while k < |saved|
        invariant k <= |saved| && Valid() && |tabs| == n + k && nextId == old(nextId) + k
        invariant Run(Abs(), Opens(n + k, saved[k..])) == Run(before, Opens(n, saved))
        invariant forall j :: n <= j < |tabs| ==> tabs[j].id == old(nextId) + 1 + j - n
        invariant forall t :: t in tabs ==> t in old(tabs) || fresh(t)
      {
        ghost var now := Abs();
        OneOpened(now, n + k, saved, k);
        Open(|tabs|, saved[k].url, saved[k].history, false);
        k := k + 1;
      }
      NoneLeft(Abs(), n + k, saved[k..]);
    }

    lemma OneOpened(s: State, count: nat, saved: seq<SavedTab>, k: nat)
      requires k < |saved|
      ensures Run(s, Opens(count, saved[k..]))
              == Run(OpenTabState(s, count, saved[k].url, saved[k].history, false), Opens(count + 1, saved[k + 1..]))
    {
      hide OpenTabState;
      assert saved[k..][1..] == saved[k + 1..];
      var steps := Opens(count, saved[k..]);
      assert steps[1..] == Opens(count + 1, saved[k + 1..]);
    }

    lemma NoneLeft(s: State, count: nat, saved: seq<SavedTab>)
      requires saved == []
      ensures Run(s, Opens(count, saved)) == s
    {
    }

    method SwitchTo(id: nat)
      requires Valid()
      modifies this`active
      ensures Valid() && Abs() == old(SwitchState(Abs(), id))
    {
      var i := TabByID(id);
      if i < |tabs| { active := i; }
    }

    method StartLoad(url: string, noHistory: bool, delta: int, base: int)
      requires Valid()
      modifies this`inflight, tabs
      ensures Valid() && Abs() == old(NavigateState(Abs(), url, noHistory, delta, base))
    {
      if |tabs| == 0 { return; }
      ghost var before := Abs();
      var tab := tabs[active];
      inflight := CancelLoads(inflight, tab.id, tab.cancel);
      tab.serial := tab.serial + 1;
      tab.cancel := Some(tab.serial);
      tab.loading := true;
      inflight := inflight + [Load(tab.id, tab.serial, url, noHistory, delta, base, false)];
      ValuesChanged(tabs, before.tabs, active);
    }

    method NavigateTab(url: string)
      requires Valid()
      modifies this`inflight, tabs
      ensures Valid() && Abs() == old(Next(Abs(), Navigate(url)))
    {
      StartLoad(url, false, 0, 0);
    }

    method TraverseTab(delta: int)
      requires Valid() && (forall i :: 0 <= i < |tabs| ==> tabs[i].history.Valid())
      modifies this`inflight, tabs
      ensures Valid() && Abs() == old(Next(Abs(), Traverse(delta)))
    {
      if |tabs| == 0 { return; }
      var h := tabs[active].history;
      var target := h.Peek(delta);
      if target.None? || target.value == "" { return; }
      StartLoad(target.value, true, delta, h.index);
    }

    method ReloadTab()
      requires Valid()
      modifies this`inflight, tabs
      ensures Valid() && Abs() == old(Next(Abs(), Reload))
    {
      if |tabs| == 0 || tabs[active].url == "" { return; }
      StartLoad(tabs[active].url, true, 0, 0);
    }

    method StopTab()
      requires Valid()
      modifies this`inflight, tabs
      ensures Valid() && Abs() == old(Next(Abs(), Stop))
    {
      if |tabs| == 0 { return; }
      ghost var before := Abs();
      var tab := tabs[active];
      if !tab.loading { return; }
      var cancel := tab.cancel;
      tab.cancel := None;
      tab.serial := tab.serial + 1;
      tab.loading := false;
      inflight := CancelLoads(inflight, tab.id, cancel);
      ValuesChanged(tabs, before.tabs, active);
    }

    method CloseTab(id: nat)
      requires Valid()
      modifies this`inflight, this`closed, this`tabs, this`active, tabs
      ensures Valid() && Abs() == old(Next(Abs(), NavModel.CloseTab(id)))
    {
      hide IndexOf, ValuesOf, ActiveAfterClose, CancelLoads, CloseSession;
      var i := TabByID(id);
      if i >= |tabs| { return; }
      ghost var before := Values();
      inflight := CancelLoads(inflight, tabs[i].id, tabs[i].cancel);
      tabs[i].cancel := None;
      CloseSessionOf(tabs[i].session);
      RemoveAt(i, before);
    }

    method RemoveAt(i: nat, ghost before: seq<TabState>)
      requires Valid() && i < |tabs| == |before|
      requires forall j :: 0 <= j < |tabs| && j != i ==> tabs[j].Value() == before[j]
      modifies this`tabs, this`active
      ensures Valid() && Values() == before[..i] + before[i + 1..]
      ensures active == ActiveAfterClose(old(active), i, |tabs|)
    {
      tabs := tabs[..i] + tabs[i + 1..];
      active := ActiveAfterClose(active, i, |tabs|);
      assert forall j :: 0 <= j < |tabs| ==> tabs[j] == old(tabs)[if j < i then j else j + 1];
      assert Values() == before[..i] + before[i + 1..];
    }

    /** A load's goroutine returns and sends its result. */
    method Deliver(load: nat, finalUrl: string, session: Option<Session>, end: LoadEnd, ghost givenUp: Option<Session>)
      requires Valid() && load < |inflight|
      modifies this`inflight, this`navResults, this`built
      ensures Valid() && Abs() == old(Next(Abs(), Finish(load, finalUrl, session, end, givenUp)))
    {
      hide ValuesOf, SessionSet;
      var l := inflight[load];
      var url := l.url;
      if finalUrl != "" { url := finalUrl; }
      var downloadPath := "";
      var err := None;
      match end {
        case Finished =>
        case Downloaded(path) => downloadPath := path;
        case Broken(error) => err := Some(error);
      }
      inflight := inflight[..load] + inflight[load + 1..];
      navResults := navResults
                    + [NavResult(l.tabId, l.serial, session, err, url, downloadPath,
                                 l.noHistory, l.traverse, l.traverseBase)];
      built := built + SessionSet(session) + SessionSet(givenUp);
    }

    /** The drain loop takes the head of the channel; `page` is what building an error page would do. */
    method ApplyNavResult(page: ErrorPage)
      requires Valid() && navResults != []
      requires forall i :: 0 <= i < |tabs| ==> tabs[i].history.Valid()
      modifies this`navResults, this`built, this`closed, tabs
      ensures Valid() && Abs() == old(Next(Abs(), Apply(page)))
    {
      hide IndexOf, ApplyCurrent;
      ghost var before := Abs();
      var result := navResults[0];
      navResults := navResults[1..];
      var i := TabByID(result.tabId);
      assert Abs() == before.(queue := before.queue[1..]);
      if i >= |tabs| || tabs[i].serial != result.serial {
        assert !HeadCurrent(before);
        CloseSessionOf(result.session);
      } else {
        assert HeadCurrent(before);
        ApplyToTab(tabs[i], i, result, page);
      }
    }

    method ApplyToTab(tab: Tab, ghost i: nat, result: NavResult, page: ErrorPage)
      requires Valid() && i < |tabs| && tabs[i] == tab && tab.history.Valid()
      modifies tab, this`built, this`closed
      ensures Valid() && Abs() == old(ApplyCurrent(Abs(), i, result, page))
    {
      hide HistoryAfter, ValuesOf;
      ghost var before := Values();
      tab.loading := false;
      if result.downloadPath == "" {
        if result.err.None? {
          ReplaceSession(tab, result.session);
          tab.url := result.url;
          CommitHistory(tab, result);
        } else if result.err.value.LoadFailed? {
          ShowErrorPage(tab, result.url, page);
        }
      }
      ValuesChanged(tabs, before, i);
    }

    method CommitHistory(tab: Tab, result: NavResult)
      requires tab.history.Valid()
      modifies tab`history
      ensures tab.history == HistoryAfter(old(tab.history), result)
    {
      if !result.noHistory {
        tab.history := tab.history.Push(result.url);
      }
      if result.traverse != 0 && tab.history.StepTaken(result.traverse, result.traverseBase) {
        tab.history := tab.history.Step(result.traverse, result.traverseBase);
        tab.history := tab.history.ReplaceCurrent(result.url);
      }
    }

    method ReplaceSession(tab: Tab, session: Option<Session>)
      modifies tab`session, this`closed
      ensures tab.session == session
      ensures closed == CloseSession(old(closed), Replaced(old(tab.session), session))
    {
      var oldSession := tab.session;
      tab.session := session;
      if oldSession.Some? && oldSession != session {
        CloseSessionOf(oldSession);
      }
    }

    method ShowErrorPage(tab: Tab, url: string, page: ErrorPage)
      modifies tab`session, tab`url, this`closed, this`built
      ensures built == old(built) + if page.NotBuilt? then {} else {page.session}
      ensures page.Shown? ==>
                && tab.session == Some(page.session) && tab.url == url
                && closed == CloseSession(old(closed), Replaced(old(tab.session), Some(page.session)))
      ensures !page.Shown? ==>
                tab.session == old(tab.session) && tab.url == old(tab.url) && closed == old(closed)
    {
      match page {
        case NotBuilt =>
        case Discarded(session) => built := built + {session};
        case Shown(session) =>
          built := built + {session};
          ReplaceSession(tab, Some(session));
          tab.url := url;
      }
    }

    /** Whether landed images repaint their tab: the session it shows and its serial must both match. */
    method ApplyImageResult(img: ImageResult) returns (repaints: bool)
      ensures repaints == ImageApplies(Abs(), img)
    {
      var i := TabByID(img.tabId);
      repaints := i < |tabs| && tabs[i].session == Some(img.session) && tabs[i].serial == img.serial;
    }
  }
}
