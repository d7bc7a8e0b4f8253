/** What each command does to the strip of tabs, told from outside: positions, order and the active tab. */
module NavTabs {
  import opened Options
  import opened NavModel
  import opened NavProtocol
  import opened NavRestore

  /** The strip without the tab at a position. */
  function Without(tabs: seq<TabState>, i: nat): seq<TabState>
    requires i < |tabs|
  {
    tabs[..i] + tabs[i + 1..]
  }

  /** The tab that is active is the same one as before. */
  predicate SameActive(s: State, s': State) {
    s.active < |s.tabs| && s'.active < |s'.tabs| && s'.tabs[s'.active] == s.tabs[s.active]
  }

  /** A tab no other has the id of, with nothing shown and nothing loading. */
  predicate NewTab(tabs: seq<TabState>, t: TabState, url: string, history: History) {
    && t.url == url && t.history == history && t.session.None? && !t.loading
    && forall j :: 0 <= j < |tabs| ==> tabs[j].id != t.id
  }

  /** A new tab stands at `k`, all others in the order they had. */
  predicate Joins(tabs: seq<TabState>, tabs': seq<TabState>, k: nat, url: string, history: History) {
    k < |tabs'| && Without(tabs', k) == tabs && NewTab(tabs, tabs'[k], url, history)
  }

  /**
   A new tab stands where it was put, or last; the others keep their order, and the active tab stays active
   unless the new one is selected or is the first.
   */
  lemma OpenedTab(s: State, at: nat, url: string, history: History, select: bool)
    requires Inv(s)
    ensures var s' := Next(s, OpenTab(at, url, history, select));
            exists k :: && (k == at || (k == |s.tabs| < at)) && Joins(s.tabs, s'.tabs, k, url, history)
                        && if select || s.tabs == [] then s'.active == k else SameActive(s, s')
  {
    hide LoadOk, ResultOk, OutstandingOk, Inserted, Joins, SameActive;
    var k := if at <= |s.tabs| then at else |s.tabs|;
    var t := TabState(s.nextId + 1, 0, false, None, None, url, history, 0);
    forall j | 0 <= j < |s.tabs| ensures s.tabs[j].id != t.id { assert TabOk(s.tabs[j], s.nextId); }
    var s' := Next(s, OpenTab(at, url, history, select));
    assert s'.tabs == Inserted(s.tabs, k, t);
    InsertedJoins(s.tabs, k, t, url, history);
    if !select && s.tabs != [] { StaysActive(s, s', k, t); }
    assert (k == at || (k == |s.tabs| < at)) && Joins(s.tabs, s'.tabs, k, url, history);
  }

  lemma InsertedJoins(tabs: seq<TabState>, k: nat, t: TabState, url: string, history: History)
    requires k <= |tabs| && NewTab(tabs, t, url, history)
    ensures Joins(tabs, Inserted(tabs, k, t), k, url, history)
  {
    assert Without(Inserted(tabs, k, t), k) == tabs;
  }

  lemma StaysActive(s: State, s': State, k: nat, t: TabState)
    requires s.active < |s.tabs| && k <= |s.tabs| && s'.tabs == Inserted(s.tabs, k, t)
    requires s'.active == if k <= s.active then s.active + 1 else s.active
    ensures SameActive(s, s')
  {
  }

  lemma TakenAndPut(tabs: seq<TabState>, i: nat, k: nat)
    requires i < |tabs| && k < |tabs|
    ensures var moved := Inserted(Without(tabs, i), k, tabs[i]);
            |moved| == |tabs| && moved[k] == tabs[i] && Without(moved, k) == Without(tabs, i)
  {
  }

  /** Where a tab put at `to` stands in a strip of `count`. */
  predicate Clamped(k: nat, to: int, count: nat) {
    k < count && (k == to || (k == 0 && to < 0) || (k == count - 1 && k < to))
  }

  /** The tab that stood at `i` stands at `k`, all others in the order they had. */
  predicate Moved(tabs: seq<TabState>, tabs': seq<TabState>, i: nat, k: nat) {
    i < |tabs| == |tabs'| && k < |tabs'| && tabs'[k] == tabs[i] && Without(tabs', k) == Without(tabs, i)
  }

  /** A moved tab stands where it was put, clamped to the strip; the others keep their order, the same is active. */
  lemma MovedTab(s: State, i: nat, to: int)
    requires Inv(s) && i < |s.tabs|
    ensures var s' := Next(s, MoveTab(s.tabs[i].id, to));
            SameActive(s, s') && exists k :: Clamped(k, to, |s.tabs|) && Moved(s.tabs, s'.tabs, i, k)
  {
    hide LoadOk, ResultOk, OutstandingOk, Inserted, IndexOf;
    var s' := Next(s, MoveTab(s.tabs[i].id, to));
    var last := |s.tabs| - 1;
    var k := if to < 0 then 0 else if to > last then last else to;
    FindAt(s.tabs, i);
    FindAt(s.tabs, s.active);
    FindMoved(s.tabs, i, k, s.tabs[s.active].id);
    TakenAndPut(s.tabs, i, k);
    assert Clamped(k, to, |s.tabs|) && Moved(s.tabs, s'.tabs, i, k);
  }

  /**
   Closing takes one tab out.  Another tab that was active stays so; else the tab behind it becomes active, or
   the one before it when it was the last.
   */
  lemma ClosedTab(s: State, i: nat)
    requires Inv(s) && i < |s.tabs|
    ensures var s' := Next(s, CloseTab(s.tabs[i].id));
            && s'.tabs == Without(s.tabs, i)
            && (s.active != i ==> SameActive(s, s'))
            && (s.active == i && i + 1 < |s.tabs| ==> s'.active < |s'.tabs| && s'.tabs[s'.active] == s.tabs[i + 1])
            && (s.active == i && 0 < i == |s.tabs| - 1 ==>
                  s'.active < |s'.tabs| && s'.tabs[s'.active] == s.tabs[i - 1])
            && s'.closed == s.closed + (if s.tabs[i].session.Some? then [s.tabs[i].session.value] else [])
  {
    hide LoadOk, ResultOk, OutstandingOk;
    FindAt(s.tabs, i);
  }

  /** Switching selects the tab with the id and changes nothing else; an id no tab has changes nothing. */
  lemma SwitchedTab(s: State, id: nat)
    requires Inv(s)
    ensures var s' := Next(s, SwitchTo(id));
            && s' == s.(active := s'.active)
            && (forall i :: 0 <= i < |s.tabs| && s.tabs[i].id == id ==> s'.active == i)
            && ((forall i :: 0 <= i < |s.tabs| ==> s.tabs[i].id != id) ==> s' == s)
  {
    hide LoadOk, ResultOk, OutstandingOk;
  }

  /** Stopping ends the loading under a new serial and leaves everything else the tab shows. */
  lemma StoppedTab(s: State)
    requires s.active < |s.tabs|
    ensures var s', t := Next(s, Stop), s.tabs[s.active];
            && (!t.loading ==> s' == s)
            && (t.loading ==>
                  && |s'.tabs| == |s.tabs| && s'.active == s.active
                  && (forall j :: 0 <= j < |s.tabs| && j != s.active ==> s'.tabs[j] == s.tabs[j])
                  && var t' := s'.tabs[s.active];
                     && t'.id == t.id && t'.serial == t.serial + 1 && !t'.loading && t'.session == t.session
                     && t'.url == t.url && t'.history == t.history)
  {
  }

  /** Landed images repaint exactly when their tab is live, still shows their session and has not moved on. */
  lemma ImagesRepaintIff(s: State, img: ImageResult)
    requires Inv(s)
    ensures ImageApplies(s, img)
            <==> exists i :: && 0 <= i < |s.tabs| && s.tabs[i].id == img.tabId && s.tabs[i].serial == img.serial
                             && s.tabs[i].session == Some(img.session)
  {
    hide LoadOk, ResultOk, OutstandingOk;
    if i :| 0 <= i < |s.tabs| && s.tabs[i].id == img.tabId { FindAt(s.tabs, i); }
  }

  // ---------------------------------------------------------------- restoring

  /** The saved tabs stand in a row from `n` on, with their URLs and trails. */
  predicate RowOf(tabs: seq<TabState>, n: nat, saved: seq<SavedTab>) {
    n + |saved| <= |tabs|
    && forall j :: 0 <= j < |saved| ==> tabs[n + j].url == saved[j].url && tabs[n + j].history == saved[j].history
  }

  /** Over the prompt the saved tabs are all there is, in order; the chosen one, failing it the first, is active. */
  lemma RestoredOverPrompt(s: State, saved: seq<SavedTab>, chosen: int)
    requires Inv(s) && OnlyPrompt(s) && saved != [] && AllValid(saved)
    ensures var m := Run(s, RestoredTabs(s, saved, chosen));
            && |m.tabs| == |saved| && RowOf(m.tabs, 0, saved)
            && m.active == (if 0 <= chosen < |saved| then chosen else 0)
  {
    hide Inv, OnlyPrompt, Next, Run, Runnable, BroughtIn, RowOf, Brought;
    var first, select := BroughtIn(s, saved), Selected(s, saved, chosen);
    var m := Run(s, first);
    TabsBroughtIn(s, saved);
    OnlyTabOk(s);
    RowBroughtIn(s, m, saved);
    RunAppend(s, first, select);
    if 0 < chosen < |saved| {
      OneStep(m, SwitchTo(s.nextId + chosen));
      ChosenId(m, saved, chosen, s.nextId);
      SwitchesTo(m, chosen);
    } else {
      NoStep(m);
    }
  }

  lemma RowBroughtIn(s: State, m: State, saved: seq<SavedTab>)
    requires |s.tabs| == 1 && saved != [] && |m.tabs| == |saved| && m.tabs[0] == TakenOver(s.tabs[0], saved[0])
    requires forall j :: 0 < j < |m.tabs| ==> Brought(m.tabs[j], saved[j], s.nextId + j)
    ensures RowOf(m.tabs, 0, saved)
  {
  }

  lemma ChosenId(m: State, saved: seq<SavedTab>, chosen: nat, nextId: nat)
    requires 0 < chosen < |saved| == |m.tabs|
    requires forall j :: 0 < j < |m.tabs| ==> Brought(m.tabs[j], saved[j], nextId + j)
    ensures m.tabs[chosen].id == nextId + chosen
  {
  }

  lemma IdOfBrought(t: TabState, saved: SavedTab, id: nat)
    requires Brought(t, saved, id)
    ensures t.id == id
  {
  }

  /** Elsewhere they come in behind the tabs there are, and the chosen one, failing it the tab that was, is active. */
  lemma RestoredBehind(s: State, saved: seq<SavedTab>, chosen: int)
    requires Inv(s) && !OnlyPrompt(s) && s.tabs != [] && saved != [] && AllValid(saved)
    ensures var m, n := Run(s, RestoredTabs(s, saved, chosen)), |s.tabs|;
            && |m.tabs| == n + |saved| && m.tabs[..n] == s.tabs && RowOf(m.tabs, n, saved)
            && m.active == (if 0 <= chosen < |saved| then n + chosen else s.active)
  {
    hide Inv, OnlyPrompt, Next, Run, Runnable, Opens, RowOf, Brought, AllValid;
    var n := |s.tabs|;
    var first, select := Opens(n, saved), Selected(s, saved, chosen);
    var m := Run(s, first);
    OpenedBehind(s, saved);
    RowBehind(s, m, saved);
    RunAppend(s, first, select);
    if 0 <= chosen < |saved| {
      OneStep(m, SwitchTo(s.nextId + 1 + chosen));
      IdOfBrought(m.tabs[n + chosen], saved[n + chosen - n], s.nextId + 1 + n + chosen - n);
      SwitchesTo(m, n + chosen);
    } else {
      NoStep(m);
    }
  }

  lemma RowBehind(s: State, m: State, saved: seq<SavedTab>)
    requires s.tabs <= m.tabs && |m.tabs| == |s.tabs| + |saved|
    requires forall j :: |s.tabs| <= j < |m.tabs| ==>
               Brought(m.tabs[j], saved[j - |s.tabs|], s.nextId + 1 + j - |s.tabs|)
    ensures m.tabs[..|s.tabs|] == s.tabs && RowOf(m.tabs, |s.tabs|, saved)
  {
    var n := |s.tabs|;
    forall j | 0 <= j < |saved| ensures m.tabs[n + j].url == saved[j].url && m.tabs[n + j].history == saved[j].history {
      assert Brought(m.tabs[n + j], saved[n + j - n], s.nextId + 1 + n + j - n);
    }
  }

  /** Then the active tab loads its URL, unless that is empty or a restore page. */
  lemma RestoreLoads(s: State, saved: seq<SavedTab>, chosen: int)
    requires saved != []
    ensures var b, m := Run(s, RestoredTabs(s, saved, chosen)), Run(s, RestoreSteps(s, saved, chosen));
            if b.active < |b.tabs| && b.tabs[b.active].url != "" && !RestorePage(b.tabs[b.active].url)
            then m == Next(b, Navigate(b.tabs[b.active].url)) else m == b
  {
    hide Next, Run, RestoredTabs, RestorePage;
    var tabs := RestoredTabs(s, saved, chosen);
    var b := Run(s, tabs);
    RunAppend(s, tabs, LoadActive(b, saved));
    NoStep(b);
    if b.active < |b.tabs| { OneStep(b, Navigate(b.tabs[b.active].url)); }
  }
}
