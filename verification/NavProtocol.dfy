/**
 The serial protocol: which result counts, what the loading flag means, which loads are canceled,
 and that a back/forward commit always finds the cursor where its peek left it.
 */
module NavProtocol {
  import opened Options
  import opened NavModel

  function LoadsWith(loads: seq<Load>, id: nat, serial: nat): nat {
    if loads == [] then 0
    else (if loads[0].tabId == id && loads[0].serial == serial then 1 else 0) + LoadsWith(loads[1..], id, serial)
  }

  function ResultsWith(queue: seq<NavResult>, id: nat, serial: nat): nat {
    if queue == [] then 0
    else (if queue[0].tabId == id && queue[0].serial == serial then 1 else 0) + ResultsWith(queue[1..], id, serial)
  }

  /** How many loads of this tab with this serial have not been applied yet. */
  function Outstanding(s: State, id: nat, serial: nat): nat {
    LoadsWith(s.inflight, id, serial) + ResultsWith(s.queue, id, serial)
  }

  /** A traversal with this base can still commit: the cursor has not moved and the target exists. */
  predicate CanCommit(h: History, noHistory: bool, traverse: int, base: int) {
    traverse != 0 ==> noHistory && h.Valid() && h.StepTaken(traverse, base)
  }

  /** The live tab with this id. */
  function Find(tabs: seq<TabState>, id: nat): Option<TabState> {
    var i := IndexOf(tabs, id);
    if i < |tabs| then Some(tabs[i]) else None
  }

  predicate Distinct(tabs: seq<TabState>) {
    forall i, j :: 0 <= i < j < |tabs| ==> tabs[i].id != tabs[j].id
  }

  predicate TabOk(t: TabState, nextId: nat) {
    t.id <= nextId && t.history.Valid()
  }

  /**
   A load in flight never runs ahead of its tab.  It has been canceled exactly when it is not the newest load
   of a live tab; else that tab's cancel function ends it.  A newest traversal can still commit, unless the
   tab's trail was replaced by a restored one since it began.
   */
  predicate LoadOk(tabs: seq<TabState>, nextId: nat, l: Load) {
    && l.tabId <= nextId && 0 < l.serial && (l.traverse != 0 ==> l.noHistory)
    && match Find(tabs, l.tabId)
       case None => l.canceled
       case Some(t) =>
         && l.serial <= t.serial && (l.canceled <==> l.serial < t.serial)
         && (!l.canceled ==> t.loading && t.cancel == Some(l.serial))
         && (l.serial == t.serial && t.trailFrom < l.serial ==>
               CanCommit(t.history, l.noHistory, l.traverse, l.traverseBase))
  }

  predicate ResultOk(tabs: seq<TabState>, nextId: nat, r: NavResult) {
    && r.tabId <= nextId && 0 < r.serial && (r.traverse != 0 ==> r.noHistory)
    && match Find(tabs, r.tabId)
       case None => true
       case Some(t) =>
         && r.serial <= t.serial
         && (r.serial == t.serial && t.trailFrom < r.serial ==>
               CanCommit(t.history, r.noHistory, r.traverse, r.traverseBase))
  }

  predicate OutstandingOk(s: State, t: TabState) {
    Outstanding(s, t.id, t.serial) == if t.loading then 1 else 0
  }

  predicate Inv(s: State) {
    && (s.tabs == [] || s.active < |s.tabs|)
    && Distinct(s.tabs)
    && (forall i :: 0 <= i < |s.tabs| ==> TabOk(s.tabs[i], s.nextId))
    && (forall k :: 0 <= k < |s.inflight| ==> LoadOk(s.tabs, s.nextId, s.inflight[k]))
    && (forall k :: 0 <= k < |s.queue| ==> ResultOk(s.tabs, s.nextId, s.queue[k]))
    && (forall i :: 0 <= i < |s.tabs| ==> OutstandingOk(s, s.tabs[i]))
  }

  // ---------------------------------------------------------------- counting

  lemma {:induction false} LoadsWithAppend(loads: seq<Load>, l: Load, id: nat, serial: nat)
    ensures LoadsWith(loads + [l], id, serial)
            == LoadsWith(loads, id, serial) + if l.tabId == id && l.serial == serial then 1 else 0
  {
    if loads == [] {
      assert loads + [l] == [l];
    } else {
      LoadsWithAppend(loads[1..], l, id, serial);
      assert (loads + [l])[1..] == loads[1..] + [l];
    }
  }

  lemma {:induction false} ResultsWithAppend(queue: seq<NavResult>, r: NavResult, id: nat, serial: nat)
    ensures ResultsWith(queue + [r], id, serial)
            == ResultsWith(queue, id, serial) + if r.tabId == id && r.serial == serial then 1 else 0
  {
    if queue == [] {
      assert queue + [r] == [r];
    } else {
      ResultsWithAppend(queue[1..], r, id, serial);
      assert (queue + [r])[1..] == queue[1..] + [r];
    }
  }

  lemma {:induction false} LoadsWithRemove(loads: seq<Load>, k: nat, id: nat, serial: nat)
    requires k < |loads|
    ensures LoadsWith(loads, id, serial)
            == LoadsWith(loads[..k] + loads[k + 1..], id, serial)
               + if loads[k].tabId == id && loads[k].serial == serial then 1 else 0
  {
    if k == 0 {
      assert loads[..0] + loads[1..] == loads[1..];
    } else {
      LoadsWithRemove(loads[1..], k - 1, id, serial);
      assert (loads[..k] + loads[k + 1..])[1..] == loads[1..][..k - 1] + loads[1..][k..];
    }
  }

  lemma {:induction false} LoadsWithCancel(loads: seq<Load>, tab: nat, which: Option<nat>, id: nat, serial: nat)
    ensures LoadsWith(CancelLoads(loads, tab, which), id, serial) == LoadsWith(loads, id, serial)
  {
    if loads != [] {
      LoadsWithCancel(loads[1..], tab, which, id, serial);
      assert CancelLoads(loads, tab, which)[1..] == CancelLoads(loads[1..], tab, which);
    }
  }

  lemma {:induction false} NoneBeyond(loads: seq<Load>, id: nat, serial: nat)
    requires forall k :: 0 <= k < |loads| && loads[k].tabId == id ==> loads[k].serial < serial
    ensures LoadsWith(loads, id, serial) == 0
  {
    if loads != [] {
      assert forall k :: 0 <= k < |loads[1..]| ==> loads[1..][k] == loads[k + 1];
      NoneBeyond(loads[1..], id, serial);
    }
  }

  lemma {:induction false} NoResultBeyond(queue: seq<NavResult>, id: nat, serial: nat)
    requires forall k :: 0 <= k < |queue| && queue[k].tabId == id ==> queue[k].serial < serial
    ensures ResultsWith(queue, id, serial) == 0
  {
    if queue != [] {
      assert forall k :: 0 <= k < |queue[1..]| ==> queue[1..][k] == queue[k + 1];
      NoResultBeyond(queue[1..], id, serial);
    }
  }

  lemma {:induction false} SomeLoadCounts(loads: seq<Load>, k: nat, id: nat, serial: nat)
    requires k < |loads| && loads[k].tabId == id && loads[k].serial == serial
    ensures LoadsWith(loads, id, serial) >= 1
  {
    if k > 0 { SomeLoadCounts(loads[1..], k - 1, id, serial); }
  }

  lemma {:induction false} SomeResultCounts(queue: seq<NavResult>, k: nat, id: nat, serial: nat)
    requires k < |queue| && queue[k].tabId == id && queue[k].serial == serial
    ensures ResultsWith(queue, id, serial) >= 1
  {
    if k > 0 { SomeResultCounts(queue[1..], k - 1, id, serial); }
  }

  // ---------------------------------------------------------------- finding a tab again

  lemma FindAt(tabs: seq<TabState>, i: nat)
    requires i < |tabs| && Distinct(tabs)
    ensures IndexOf(tabs, tabs[i].id) == i
    ensures Find(tabs, tabs[i].id) == Some(tabs[i])
  {
  }

  lemma FindUpdate(tabs: seq<TabState>, i: nat, t: TabState, id: nat)
    requires i < |tabs| && Distinct(tabs) && t.id == tabs[i].id
    ensures Distinct(tabs[i := t])
    ensures Find(tabs[i := t], id) == if id == t.id then Some(t) else Find(tabs, id)
  {
    var j := IndexOf(tabs, id);
    if j < |tabs| { FindAt(tabs[i := t], j); }
  }

  lemma FindRemove(tabs: seq<TabState>, i: nat, id: nat)
    requires i < |tabs| && Distinct(tabs)
    ensures Distinct(tabs[..i] + tabs[i + 1..])
    ensures Find(tabs[..i] + tabs[i + 1..], id) == if id == tabs[i].id then None else Find(tabs, id)
  {
    var rest := tabs[..i] + tabs[i + 1..];
    RemoveDistinct(tabs, i);
    var j := IndexOf(tabs, id);
    if j < |tabs| && j != i {
      var k := if j < i then j else j - 1;
      assert rest[k] == tabs[j];
      FindAt(rest, k);
    } else {
      forall k | 0 <= k < |rest| ensures rest[k].id != id {
        assert rest[k] == tabs[if k < i then k else k + 1];
      }
    }
  }

  lemma RemoveDistinct(tabs: seq<TabState>, i: nat)
    requires i < |tabs| && Distinct(tabs)
    ensures Distinct(tabs[..i] + tabs[i + 1..])
  {
    var rest := tabs[..i] + tabs[i + 1..];
    assert forall j :: 0 <= j < |rest| ==> rest[j] == tabs[if j < i then j else j + 1];
  }

  lemma InsertedAt(tabs: seq<TabState>, k: nat, t: TabState, i: nat)
    requires k <= |tabs| && i <= |tabs|
    ensures |Inserted(tabs, k, t)| == |tabs| + 1
    ensures Inserted(tabs, k, t)[i] == if i < k then tabs[i] else if i == k then t else tabs[i - 1]
  {
  }

  lemma FindInsert(tabs: seq<TabState>, k: nat, t: TabState, id: nat)
    requires k <= |tabs| && Distinct(tabs) && (forall i :: 0 <= i < |tabs| ==> tabs[i].id != t.id)
    ensures Distinct(Inserted(tabs, k, t))
    ensures Find(Inserted(tabs, k, t), id) == if id == t.id then Some(t) else Find(tabs, id)
  {
    hide Inserted, IndexOf;
    var all := Inserted(tabs, k, t);
    InsertDistinct(tabs, k, t);
    InsertedAt(tabs, k, t, k);
    var j := IndexOf(tabs, id);
    if id == t.id {
      FindAt(all, k);
    } else if j < |tabs| {
      InsertedAt(tabs, k, t, if j < k then j else j + 1);
      FindAt(all, if j < k then j else j + 1);
    } else {
      forall i | 0 <= i < |all| ensures all[i].id != id { InsertedAt(tabs, k, t, i); }
    }
  }

  lemma InsertDistinct(tabs: seq<TabState>, k: nat, t: TabState)
    requires k <= |tabs| && Distinct(tabs) && (forall i :: 0 <= i < |tabs| ==> tabs[i].id != t.id)
    ensures Distinct(Inserted(tabs, k, t))
  {
    hide Inserted;
    var all := Inserted(tabs, k, t);
    InsertedAt(tabs, k, t, k);
    forall i, j | 0 <= i < j < |all| ensures all[i].id != all[j].id {
      InsertedAt(tabs, k, t, i);
      InsertedAt(tabs, k, t, j);
    }
  }

  /** Taking a tab out and putting it back elsewhere changes no lookup. */
  lemma FindMoved(tabs: seq<TabState>, i: nat, k: nat, id: nat)
    requires i < |tabs| && k < |tabs| && Distinct(tabs)
    ensures var moved := Inserted(tabs[..i] + tabs[i + 1..], k, tabs[i]);
            Distinct(moved) && Find(moved, id) == Find(tabs, id) && |moved| == |tabs|
  {
    var rest := tabs[..i] + tabs[i + 1..];
    FindRemove(tabs, i, id);
    forall j | 0 <= j < |rest| ensures rest[j].id != tabs[i].id {
      assert rest[j] == tabs[if j < i then j else j + 1];
    }
    FindInsert(rest, k, tabs[i], id);
    FindAt(tabs, i);
  }

  // ---------------------------------------------------------------- every step keeps the invariant

  /** Moving the active tab one serial on cancels its newest load and leaves every load behind it. */
  lemma AdvanceKeepsLoad(s: State, t': TabState, l: Load)
    requires Inv(s) && s.active < |s.tabs| && LoadOk(s.tabs, s.nextId, l)
    requires t'.id == s.tabs[s.active].id && t'.serial == s.tabs[s.active].serial + 1
    ensures LoadOk(s.tabs[s.active := t'], s.nextId, CancelOne(l, t'.id, s.tabs[s.active].cancel))
  {
    FindAt(s.tabs, s.active);
    FindUpdate(s.tabs, s.active, t', l.tabId);
  }

  lemma AdvanceKeepsResult(s: State, t': TabState, r: NavResult)
    requires Inv(s) && s.active < |s.tabs| && ResultOk(s.tabs, s.nextId, r)
    requires t'.id == s.tabs[s.active].id && t'.serial == s.tabs[s.active].serial + 1
    ensures ResultOk(s.tabs[s.active := t'], s.nextId, r)
  {
    FindAt(s.tabs, s.active);
    FindUpdate(s.tabs, s.active, t', r.tabId);
  }

  lemma NavigateKeepsOutstanding(s: State, url: string, noHistory: bool, delta: int, base: int, i: nat)
    requires Inv(s) && s.active < |s.tabs| && i < |s.tabs|
    ensures var s' := NavigateState(s, url, noHistory, delta, base);
            |s'.tabs| == |s.tabs| && OutstandingOk(s', s'.tabs[i])
  {
    hide LoadOk, ResultOk, CanCommit, LoadsWith, ResultsWith;
    var t := s.tabs[s.active];
    var l := Load(t.id, t.serial + 1, url, noHistory, delta, base, false);
    var t' := NavigateState(s, url, noHistory, delta, base).tabs[i];
    assert OutstandingOk(s, s.tabs[i]);
    LoadsWithCancel(s.inflight, t.id, t.cancel, t'.id, t'.serial);
    LoadsWithAppend(CancelLoads(s.inflight, t.id, t.cancel), l, t'.id, t'.serial);
    if i == s.active { NothingAhead(s, i, t.serial + 1); }
  }

  lemma NavigateKeepsInv(s: State, url: string, noHistory: bool, delta: int, base: int)
    requires Inv(s)
    requires delta != 0 ==> noHistory
    requires s.active < |s.tabs| ==> CanCommit(s.tabs[s.active].history, noHistory, delta, base)
    ensures Inv(NavigateState(s, url, noHistory, delta, base))
  {
    hide CanCommit, LoadsWith, ResultsWith, IndexOf;
    if s.active >= |s.tabs| { return; }
    var s' := NavigateState(s, url, noHistory, delta, base);
    var t := s.tabs[s.active];
    var t' := t.(serial := t.serial + 1, loading := true, cancel := Some(t.serial + 1));
    assert TabOk(t, s.nextId);
    FindUpdate(s.tabs, s.active, t', t.id);
    forall k | 0 <= k < |s'.inflight| ensures LoadOk(s'.tabs, s'.nextId, s'.inflight[k]) {
      if k < |s.inflight| { AdvanceKeepsLoad(s, t', s.inflight[k]); }
    }
    forall k | 0 <= k < |s'.queue| ensures ResultOk(s'.tabs, s'.nextId, s'.queue[k]) {
      AdvanceKeepsResult(s, t', s.queue[k]);
    }
    forall i | 0 <= i < |s'.tabs| ensures OutstandingOk(s', s'.tabs[i]) && TabOk(s'.tabs[i], s'.nextId) {
      NavigateKeepsOutstanding(s, url, noHistory, delta, base, i);
      assert TabOk(s.tabs[i], s.nextId);
    }
  }

  /** Nothing outstanding for a tab has a serial the tab has not reached. */
  lemma NothingAhead(s: State, i: nat, serial: nat)
    requires Inv(s) && i < |s.tabs| && serial > s.tabs[i].serial
    ensures Outstanding(s, s.tabs[i].id, serial) == 0
  {
    FindAt(s.tabs, i);
    forall k | 0 <= k < |s.inflight| && s.inflight[k].tabId == s.tabs[i].id ensures s.inflight[k].serial < serial {
      assert LoadOk(s.tabs, s.nextId, s.inflight[k]);
    }
    forall k | 0 <= k < |s.queue| && s.queue[k].tabId == s.tabs[i].id ensures s.queue[k].serial < serial {
      assert ResultOk(s.tabs, s.nextId, s.queue[k]);
    }
    NoneBeyond(s.inflight, s.tabs[i].id, serial);
    NoResultBeyond(s.queue, s.tabs[i].id, serial);
  }

  lemma StopKeepsOutstanding(s: State, i: nat)
    requires Inv(s) && StopState(s) != s && i < |s.tabs|
    ensures |StopState(s).tabs| == |s.tabs| && OutstandingOk(StopState(s), StopState(s).tabs[i])
  {
    var t := s.tabs[s.active];
    var t' := StopState(s).tabs[i];
    assert OutstandingOk(s, s.tabs[i]);
    LoadsWithCancel(s.inflight, t.id, t.cancel, t'.id, t'.serial);
    if i == s.active { NothingAhead(s, i, t.serial + 1); }
  }

  lemma StopKeepsInv(s: State)
    requires Inv(s)
    ensures Inv(StopState(s))
  {
    hide CanCommit, LoadsWith, ResultsWith, IndexOf;
    if StopState(s) == s { return; }
    var s' := StopState(s);
    var t := s.tabs[s.active];
    var t' := t.(serial := t.serial + 1, loading := false, cancel := None);
    FindUpdate(s.tabs, s.active, t', t.id);
    forall k | 0 <= k < |s'.inflight| ensures LoadOk(s'.tabs, s'.nextId, s'.inflight[k]) {
      AdvanceKeepsLoad(s, t', s.inflight[k]);
    }
    forall k | 0 <= k < |s'.queue| ensures ResultOk(s'.tabs, s'.nextId, s'.queue[k]) {
      AdvanceKeepsResult(s, t', s.queue[k]);
    }
    forall i | 0 <= i < |s'.tabs| ensures OutstandingOk(s', s'.tabs[i]) && TabOk(s'.tabs[i], s'.nextId) {
      StopKeepsOutstanding(s, i);
      assert TabOk(s.tabs[i], s.nextId);
    }
  }

  lemma CloseKeepsInv(s: State, id: nat)
    requires Inv(s)
    ensures Inv(CloseTabState(s, id))
  {
    hide CanCommit, LoadsWith, ResultsWith, IndexOf;
    var c := IndexOf(s.tabs, id);
    if c >= |s.tabs| { return; }
    var s' := CloseTabState(s, id);
    var t := s.tabs[c];
    FindAt(s.tabs, c);
    FindRemove(s.tabs, c, id);
    assert forall i :: 0 <= i < |s'.tabs| ==> s'.tabs[i] == s.tabs[if i < c then i else i + 1];
    forall k | 0 <= k < |s'.inflight| ensures LoadOk(s'.tabs, s'.nextId, s'.inflight[k]) {
      assert LoadOk(s.tabs, s.nextId, s.inflight[k]);
      FindRemove(s.tabs, c, s.inflight[k].tabId);
    }
    forall k | 0 <= k < |s'.queue| ensures ResultOk(s'.tabs, s'.nextId, s'.queue[k]) {
      assert ResultOk(s.tabs, s.nextId, s.queue[k]);
      FindRemove(s.tabs, c, s.queue[k].tabId);
    }
    forall i | 0 <= i < |s'.tabs| ensures OutstandingOk(s', s'.tabs[i]) {
      assert OutstandingOk(s, s.tabs[if i < c then i else i + 1]);
      LoadsWithCancel(s.inflight, t.id, t.cancel, s'.tabs[i].id, s'.tabs[i].serial);
    }
  }

  lemma FinishKeepsInv(s: State, load: nat, finalUrl: string, session: Option<Session>, end: LoadEnd,
                       givenUp: Option<Session>)
    requires Inv(s) && load < |s.inflight|
    ensures Inv(FinishState(s, load, finalUrl, session, end, givenUp))
  {
    hide CanCommit, LoadsWith, ResultsWith;
    var s' := FinishState(s, load, finalUrl, session, end, givenUp);
    var r := ResultOf(s.inflight[load], finalUrl, session, end);
    assert LoadOk(s.tabs, s.nextId, s.inflight[load]);
    forall k | 0 <= k < |s'.inflight| ensures LoadOk(s'.tabs, s'.nextId, s'.inflight[k]) {
      assert s'.inflight[k] == s.inflight[if k < load then k else k + 1];
    }
    forall i | 0 <= i < |s'.tabs| ensures OutstandingOk(s', s'.tabs[i]) {
      assert OutstandingOk(s, s.tabs[i]);
      LoadsWithRemove(s.inflight, load, s.tabs[i].id, s.tabs[i].serial);
      ResultsWithAppend(s.queue, r, s.tabs[i].id, s.tabs[i].serial);
    }
  }

  /** Whatever the page, an applied result changes at most its own tab, and keeps its identity. */
  lemma ApplyShape(s: State, page: ErrorPage) returns (t: TabState)
    requires s.queue != [] && (forall i :: 0 <= i < |s.tabs| ==> s.tabs[i].history.Valid())
    ensures ApplyState(s, page).inflight == s.inflight
    ensures ApplyState(s, page).queue == s.queue[1..]
    ensures ApplyState(s, page).nextId == s.nextId && ApplyState(s, page).active == s.active
    ensures !HeadCurrent(s) ==> ApplyState(s, page).tabs == s.tabs
    ensures HeadCurrent(s) ==>
              var i := IndexOf(s.tabs, s.queue[0].tabId);
              && ApplyState(s, page).tabs == s.tabs[i := t]
              && t.id == s.tabs[i].id && t.serial == s.tabs[i].serial
              && t.cancel == s.tabs[i].cancel && !t.loading && t.history.Valid()
              && t.trailFrom == s.tabs[i].trailFrom
  {
    if HeadCurrent(s) {
      var i := IndexOf(s.tabs, s.queue[0].tabId);
      t := ApplyState(s, page).tabs[i];
    } else {
      t := TabState(0, 0, false, None, None, "", EMPTY_HISTORY, 0);
    }
  }

  lemma ApplyKeepsOutstanding(s: State, page: ErrorPage, i: nat)
    requires Inv(s) && s.queue != [] && i < |s.tabs|
    ensures |ApplyState(s, page).tabs| == |s.tabs|
    ensures OutstandingOk(ApplyState(s, page), ApplyState(s, page).tabs[i])
  {
    hide CanCommit, LoadsWith, LoadOk, ResultOk;
    assert forall i :: 0 <= i < |s.tabs| ==> TabOk(s.tabs[i], s.nextId);
    var t' := ApplyShape(s, page);
    hide ApplyState;
    assert OutstandingOk(s, s.tabs[i]);
    FindAt(s.tabs, i);
  }

  lemma ApplyKeepsInv(s: State, page: ErrorPage)
    requires Inv(s)
    ensures Inv(ApplyState(s, page))
  {
    hide CanCommit, OutstandingOk, IndexOf;
    if s.queue == [] { return; }
    var s' := ApplyState(s, page);
    forall i | 0 <= i < |s.tabs| ensures |s'.tabs| == |s.tabs| && OutstandingOk(s', s'.tabs[i]) {
      ApplyKeepsOutstanding(s, page, i);
    }
    assert forall i :: 0 <= i < |s.tabs| ==> TabOk(s.tabs[i], s.nextId);
    var t' := ApplyShape(s, page);
    hide ApplyState;
    assert forall k :: 0 <= k < |s'.queue| ==> s'.queue[k] == s.queue[k + 1];
    if HeadCurrent(s) {
      var c := IndexOf(s.tabs, s.queue[0].tabId);
      AppliedIsAlone(s, c);
      FindUpdate(s.tabs, c, t', s.queue[0].tabId);
      forall k | 0 <= k < |s'.inflight| ensures LoadOk(s'.tabs, s'.nextId, s'.inflight[k]) {
        assert LoadOk(s.tabs, s.nextId, s.inflight[k]);
        FindUpdate(s.tabs, c, t', s.inflight[k].tabId);
      }
      forall k | 0 <= k < |s'.queue| ensures ResultOk(s'.tabs, s'.nextId, s'.queue[k]) {
        assert ResultOk(s.tabs, s.nextId, s.queue[k + 1]);
        FindUpdate(s.tabs, c, t', s.queue[k + 1].tabId);
      }
    }
  }

  /** Once a tab's newest result is applied, no other load or result of its serial remains. */
  lemma AppliedIsAlone(s: State, i: nat)
    requires Inv(s) && s.queue != [] && HeadCurrent(s) && i == IndexOf(s.tabs, s.queue[0].tabId)
    ensures s.tabs[i].loading
    ensures forall k :: 0 <= k < |s.inflight| && s.inflight[k].tabId == s.tabs[i].id ==>
                          s.inflight[k].serial != s.tabs[i].serial
    ensures forall k :: 0 < k < |s.queue| && s.queue[k].tabId == s.tabs[i].id ==>
                          s.queue[k].serial != s.tabs[i].serial
  {
    var id, serial := s.tabs[i].id, s.tabs[i].serial;
    assert OutstandingOk(s, s.tabs[i]);
    forall k | 0 <= k < |s.inflight| && s.inflight[k].tabId == id ensures s.inflight[k].serial != serial {
      if s.inflight[k].serial == serial { SomeLoadCounts(s.inflight, k, id, serial); }
    }
    forall k | 0 < k < |s.queue| && s.queue[k].tabId == id ensures s.queue[k].serial != serial {
      if s.queue[k].serial == serial { SomeResultCounts(s.queue[1..], k - 1, id, serial); }
    }
  }

  lemma OpenKeepsInv(s: State, at: nat, url: string, history: History, select: bool)
    requires Inv(s) && history.Valid()
    ensures Inv(OpenTabState(s, at, url, history, select))
  {
    hide CanCommit, LoadsWith, ResultsWith, IndexOf, Inserted;
    var s' := OpenTabState(s, at, url, history, select);
    var t' := TabState(s.nextId + 1, 0, false, None, None, url, history, 0);
    var k := if at <= |s.tabs| then at else |s.tabs|;
    assert forall i :: 0 <= i < |s.tabs| ==> TabOk(s.tabs[i], s.nextId);
    InsertedAt(s.tabs, k, t', k);
    FindInsert(s.tabs, k, t', t'.id);
    forall j | 0 <= j < |s'.inflight|
      ensures LoadOk(s'.tabs, s'.nextId, s'.inflight[j]) && s.inflight[j].tabId < t'.id
    {
      assert LoadOk(s.tabs, s.nextId, s.inflight[j]);
      FindInsert(s.tabs, k, t', s.inflight[j].tabId);
    }
    forall j | 0 <= j < |s'.queue|
      ensures ResultOk(s'.tabs, s'.nextId, s'.queue[j]) && s.queue[j].tabId < t'.id
    {
      assert ResultOk(s.tabs, s.nextId, s.queue[j]);
      FindInsert(s.tabs, k, t', s.queue[j].tabId);
    }
    NoneBeyond(s.inflight, t'.id, 0);
    NoResultBeyond(s.queue, t'.id, 0);
    forall i | 0 <= i < |s'.tabs| ensures TabOk(s'.tabs[i], s'.nextId) && OutstandingOk(s', s'.tabs[i]) {
      if i == k {
        assert s'.tabs[i] == t';
      } else {
        var j := if i < k then i else i - 1;
        InsertedAt(s.tabs, k, t', i);
        assert TabOk(s.tabs[j], s.nextId) && OutstandingOk(s, s.tabs[j]);
      }
    }
  }

  /** The moved tabs are the tabs there were. */
  lemma MovedFrom(tabs: seq<TabState>, i: nat, k: nat, j: nat) returns (o: nat)
    requires i < |tabs| && k < |tabs| && j < |tabs|
    ensures var moved := Inserted(tabs[..i] + tabs[i + 1..], k, tabs[i]);
            o < |tabs| && |moved| == |tabs| && moved[j] == tabs[o]
  {
    hide Inserted;
    var rest := tabs[..i] + tabs[i + 1..];
    InsertedAt(rest, k, tabs[i], j);
    var moved := Inserted(rest, k, tabs[i]);
    var r := if j < k then j else j - 1;
    o := if j == k then i else if r < i then r else r + 1;
    if j == k {
      assert moved[j] == tabs[i];
    } else {
      assert moved[j] == rest[r];
      assert rest[r] == tabs[o];
    }
  }

  lemma MoveKeepsTab(s: State, id: nat, to: int, j: nat, o: nat)
    requires Inv(s) && j < |MoveState(s, id, to).tabs| && o < |s.tabs| && MoveState(s, id, to).tabs[j] == s.tabs[o]
    ensures var s' := MoveState(s, id, to); TabOk(s'.tabs[j], s'.nextId) && OutstandingOk(s', s'.tabs[j])
  {
    hide LoadsWith, ResultsWith, IndexOf, Inserted, LoadOk, ResultOk;
    assert TabOk(s.tabs[o], s.nextId) && OutstandingOk(s, s.tabs[o]);
  }

  lemma MoveKeepsInv(s: State, id: nat, to: int)
    requires Inv(s)
    ensures Inv(MoveState(s, id, to))
  {
    hide CanCommit, LoadsWith, ResultsWith, IndexOf, Inserted, TabOk, OutstandingOk;
    var i := IndexOf(s.tabs, id);
    if i >= |s.tabs| || s.active >= |s.tabs| { return; }
    var s' := MoveState(s, id, to);
    var rest := s.tabs[..i] + s.tabs[i + 1..];
    var k := if to < 0 then 0 else if to > |rest| then |rest| else to;
    FindMoved(s.tabs, i, k, s.tabs[s.active].id);
    FindAt(s.tabs, s.active);
    forall j | 0 <= j < |s'.inflight| ensures LoadOk(s'.tabs, s'.nextId, s'.inflight[j]) {
      assert LoadOk(s.tabs, s.nextId, s.inflight[j]);
      FindMoved(s.tabs, i, k, s.inflight[j].tabId);
    }
    forall j | 0 <= j < |s'.queue| ensures ResultOk(s'.tabs, s'.nextId, s'.queue[j]) {
      assert ResultOk(s.tabs, s.nextId, s.queue[j]);
      FindMoved(s.tabs, i, k, s.queue[j].tabId);
    }
    forall j | 0 <= j < |s'.tabs| ensures TabOk(s'.tabs[j], s'.nextId) && OutstandingOk(s', s'.tabs[j]) {
      var o := MovedFrom(s.tabs, i, k, j);
      MoveKeepsTab(s, id, to, j, o);
    }
  }

  lemma RewriteKeepsInv(s: State, url: string, history: History)
    requires Inv(s) && history.Valid()
    ensures Inv(RewriteState(s, url, history))
  {
    hide CanCommit, LoadsWith, ResultsWith, IndexOf, RestorePage;
    var s' := RewriteState(s, url, history);
    if s' == s { return; }
    var t' := s'.tabs[0];
    assert s'.tabs == s.tabs[0 := t'];
    assert TabOk(s.tabs[0], s.nextId) && OutstandingOk(s, s.tabs[0]);
    forall k | 0 <= k < |s'.inflight| ensures LoadOk(s'.tabs, s'.nextId, s'.inflight[k]) {
      assert LoadOk(s.tabs, s.nextId, s.inflight[k]);
      FindAt(s.tabs, 0);
      FindUpdate(s.tabs, 0, t', s.inflight[k].tabId);
    }
    forall k | 0 <= k < |s'.queue| ensures ResultOk(s'.tabs, s'.nextId, s'.queue[k]) {
      assert ResultOk(s.tabs, s.nextId, s.queue[k]);
      FindAt(s.tabs, 0);
      FindUpdate(s.tabs, 0, t', s.queue[k].tabId);
    }
  }

  /** Every step of every interleaving keeps the invariant. */
  lemma StepKeepsInv(s: State, step: Step)
    requires Inv(s) && Enabled(s, step)
    ensures Inv(Next(s, step))
  {
    match step
    case OpenTab(at, url, history, select) => OpenKeepsInv(s, at, url, history, select);
    case MoveTab(id, to) => MoveKeepsInv(s, id, to);
    case Rewrite(url, history) => RewriteKeepsInv(s, url, history);
    case SwitchTo(id) =>
      forall i | 0 <= i < |s.tabs| ensures OutstandingOk(Next(s, step), s.tabs[i]) {
        assert OutstandingOk(s, s.tabs[i]);
      }
    case Navigate(url) => NavigateKeepsInv(s, url, false, 0, 0);
    case Traverse(delta) =>
      if TraverseState(s, delta) != s {
        var h := s.tabs[s.active].history;
        NavigateKeepsInv(s, h.Peek(delta).value, true, delta, h.index);
      }
    case Reload =>
      if ReloadState(s) != s { NavigateKeepsInv(s, s.tabs[s.active].url, true, 0, 0); }
    case Stop => StopKeepsInv(s);
    case CloseTab(id) => CloseKeepsInv(s, id);
    case Finish(load, finalUrl, session, end, givenUp) => FinishKeepsInv(s, load, finalUrl, session, end, givenUp);
    case Apply(page) => ApplyKeepsInv(s, page);
  }

  lemma {:induction false} RunKeepsInv(s: State, steps: seq<Step>)
    requires Inv(s) && Runnable(s, steps)
    ensures Inv(Run(s, steps))
    decreases |steps|
  {
    if steps != [] {
      StepKeepsInv(s, steps[0]);
      RunKeepsInv(Next(s, steps[0]), steps[1..]);
    }
  }

  /** In every reachable state a tab is loading exactly when one load of its serial is outstanding. */
  lemma LoadingIffOneOutstanding(steps: seq<Step>, i: nat)
    requires Runnable(INITIAL, steps) && i < |Run(INITIAL, steps).tabs|
    ensures var s := Run(INITIAL, steps);
            && (s.tabs[i].loading <==> Outstanding(s, s.tabs[i].id, s.tabs[i].serial) == 1)
            && (!s.tabs[i].loading <==> Outstanding(s, s.tabs[i].id, s.tabs[i].serial) == 0)
  {
    RunKeepsInv(INITIAL, steps);
    var s := Run(INITIAL, steps);
    assert OutstandingOk(s, s.tabs[i]);
  }

  /** In every reachable state the canceled loads are those of closed tabs and those superseded or stopped. */
  lemma SupersededLoadsAreCanceled(steps: seq<Step>, k: nat)
    requires Runnable(INITIAL, steps) && k < |Run(INITIAL, steps).inflight|
    ensures var s := Run(INITIAL, steps);
            s.inflight[k].canceled <==> Stale(s, s.inflight[k].tabId, s.inflight[k].serial)
  {
    RunKeepsInv(INITIAL, steps);
    var s := Run(INITIAL, steps);
    assert LoadOk(s.tabs, s.nextId, s.inflight[k]);
  }

  // ---------------------------------------------------------------- stale results never matter

  /** A result with this tab and serial can no longer be the newest: the tab is gone or moved on. */
  predicate Stale(s: State, id: nat, serial: nat) {
    id <= s.nextId && (Find(s.tabs, id).Some? ==> Find(s.tabs, id).value.serial > serial)
  }

  lemma StaleStays(s: State, step: Step, id: nat, serial: nat)
    requires Inv(s) && Enabled(s, step) && Stale(s, id, serial)
    ensures Stale(Next(s, step), id, serial)
  {
    hide LoadOk, ResultOk, OutstandingOk, ApplyState, NavigateState, StopState, OpenTabState, MoveState, RewriteState,
         Inserted, RestorePage, CancelLoads, HistoryAfter;
    match step
    case OpenTab(_, _, _, _) => RearrangingKeepsTabs(s, step, id);
    case SwitchTo(_) =>
    case MoveTab(_, _) => RearrangingKeepsTabs(s, step, id);
    case Rewrite(url, history) => RewriteKeepsSerial(s, url, history, id);
    case Navigate(_) => NavigateAdvances(s, step, id);
    case Traverse(_) => NavigateAdvances(s, step, id);
    case Reload => NavigateAdvances(s, step, id);
    case Stop => NavigateAdvances(s, step, id);
    case CloseTab(c) =>
      var i := IndexOf(s.tabs, c);
      if i < |s.tabs| { FindRemove(s.tabs, i, id); }
    case Finish(_, _, _, _, _) =>
    case Apply(page) => ApplyKeepsSerial(s, page, id);
  }

  lemma ApplyKeepsSerial(s: State, page: ErrorPage, id: nat)
    requires Inv(s)
    ensures ApplyState(s, page).nextId == s.nextId
    ensures var now, before := Find(ApplyState(s, page).tabs, id), Find(s.tabs, id);
            now.Some? == before.Some? && (now.Some? ==> now.value.serial == before.value.serial)
  {
    if s.queue == [] { return; }
    assert forall i :: 0 <= i < |s.tabs| ==> TabOk(s.tabs[i], s.nextId);
    var t := ApplyShape(s, page);
    if HeadCurrent(s) { FindUpdate(s.tabs, IndexOf(s.tabs, s.queue[0].tabId), t, id); }
  }

  /** Opening a tab and moving one leave every tab there was as it was. */
  lemma RearrangingKeepsTabs(s: State, step: Step, id: nat)
    requires Inv(s) && (step.OpenTab? || step.MoveTab?) && id <= s.nextId
    ensures s.nextId <= Next(s, step).nextId && Find(Next(s, step).tabs, id) == Find(s.tabs, id)
  {
    hide LoadOk, ResultOk, OutstandingOk, Inserted;
    assert forall i :: 0 <= i < |s.tabs| ==> TabOk(s.tabs[i], s.nextId);
    match step
    case OpenTab(at, url, history, _) =>
      FindInsert(s.tabs, if at <= |s.tabs| then at else |s.tabs|,
                 TabState(s.nextId + 1, 0, false, None, None, url, history, 0), id);
    case MoveTab(m, to) =>
      var i := IndexOf(s.tabs, m);
      if i < |s.tabs| && s.active < |s.tabs| {
        FindMoved(s.tabs, i, if to < 0 then 0 else if to > |s.tabs| - 1 then |s.tabs| - 1 else to, id);
      }
  }

  lemma RewriteKeepsSerial(s: State, url: string, history: History, id: nat)
    requires Inv(s)
    ensures RewriteState(s, url, history).nextId == s.nextId
    ensures var now, before := Find(RewriteState(s, url, history).tabs, id), Find(s.tabs, id);
            now.Some? == before.Some? && (now.Some? ==> now.value.serial == before.value.serial)
  {
    hide RestorePage;
    var s' := RewriteState(s, url, history);
    if s' != s {
      assert s'.tabs == s.tabs[0 := s'.tabs[0]];
      FindUpdate(s.tabs, 0, s'.tabs[0], id);
    }
  }

  /** A superseding step takes the active tab one serial on, and touches no other tab. */
  lemma NavigateAdvances(s: State, step: Step, id: nat)
    requires Inv(s) && (step.Navigate? || step.Traverse? || step.Reload? || step.Stop?)
    ensures Next(s, step).nextId == s.nextId
    ensures !Supersedes(s, step) ==> Next(s, step) == s
    ensures Supersedes(s, step) ==>
              var t := s.tabs[s.active];
              && Find(s.tabs, t.id) == Some(t)
              && Next(s, step).tabs[s.active].serial == t.serial + 1
              && Find(Next(s, step).tabs, id)
                 == if id == t.id then Some(Next(s, step).tabs[s.active]) else Find(s.tabs, id)
  {
    if s.active < |s.tabs| {
      assert TabOk(s.tabs[s.active], s.nextId);
      var t' := Next(s, step).tabs[s.active];
      FindAt(s.tabs, s.active);
      assert Supersedes(s, step) ==> Next(s, step).tabs == s.tabs[s.active := t'];
      FindUpdate(s.tabs, s.active, t', id);
    }
  }

  lemma {:induction false} StaleForever(s: State, steps: seq<Step>, id: nat, serial: nat)
    requires Inv(s) && Runnable(s, steps) && Stale(s, id, serial)
    ensures Stale(Run(s, steps), id, serial)
    decreases |steps|
  {
    if steps != [] {
      StepKeepsInv(s, steps[0]);
      StaleStays(s, steps[0], id, serial);
      StaleForever(Next(s, steps[0]), steps[1..], id, serial);
    }
  }

  /** The steps after which everything the active tab had outstanding no longer counts. */
  predicate Supersedes(s: State, step: Step) {
    s.active < |s.tabs| &&
    match step
    case Navigate(_) => true
    case Traverse(_) => TraverseState(s, step.delta) != s
    case Reload => s.tabs[s.active].url != ""
    case Stop => s.tabs[s.active].loading
    case _ => false
  }

  lemma SupersedingMakesStale(s: State, step: Step, serial: nat)
    requires Inv(s) && Supersedes(s, step)
    requires serial <= s.tabs[s.active].serial
    ensures Stale(Next(s, step), s.tabs[s.active].id, serial)
  {
    assert TabOk(s.tabs[s.active], s.nextId);
    NavigateAdvances(s, step, s.tabs[s.active].id);
  }

  lemma ClosingMakesStale(s: State, id: nat, serial: nat)
    requires Inv(s) && id <= s.nextId
    ensures Stale(Next(s, CloseTab(id)), id, serial)
  {
    var i := IndexOf(s.tabs, id);
    if i < |s.tabs| { FindRemove(s.tabs, i, id); }
  }

  /** Applying a stale result changes no tab at all; it only closes the session it carries. */
  lemma StaleResultOnlyCloses(s: State, page: ErrorPage)
    requires s.queue != [] && Stale(s, s.queue[0].tabId, s.queue[0].serial)
    ensures ApplyState(s, page)
            == s.(queue := s.queue[1..], closed := CloseSession(s.closed, s.queue[0].session))
  {
  }

  /**
   After a newer navigation, a stop, or a close of its tab, an earlier load's result never changes
   any tab's session, URL, loading flag or history, however the run goes on.
   */
  lemma SupersededResultNeverShows(before: seq<Step>, step: Step, after: seq<Step>, r: NavResult, page: ErrorPage)
    requires Runnable(INITIAL, before) && Enabled(Run(INITIAL, before), step)
    requires var s := Run(INITIAL, before);
             && Runnable(Next(s, step), after)
             && (|| (Supersedes(s, step) && r.tabId == s.tabs[s.active].id && r.serial <= s.tabs[s.active].serial)
                 || (step == CloseTab(r.tabId) && r.tabId <= s.nextId))
    requires var s' := Run(Next(Run(INITIAL, before), step), after); s'.queue != [] && s'.queue[0] == r
    ensures var s' := Run(Next(Run(INITIAL, before), step), after);
            ApplyState(s', page) == s'.(queue := s'.queue[1..], closed := CloseSession(s'.closed, r.session))
  {
    var s := Run(INITIAL, before);
    RunKeepsInv(INITIAL, before);
    StepKeepsInv(s, step);
    if Supersedes(s, step) && r.tabId == s.tabs[s.active].id && r.serial <= s.tabs[s.active].serial {
      SupersedingMakesStale(s, step, r.serial);
    } else {
      ClosingMakesStale(s, r.tabId, r.serial);
    }
    StaleForever(Next(s, step), after, r.tabId, r.serial);
    StaleResultOnlyCloses(Run(Next(s, step), after), page);
  }

  // ---------------------------------------------------------------- traversals

  /** A back/forward page is about to display on the newest load of its tab. */
  predicate Displays(s: State) {
    HeadCurrent(s) && s.queue[0].traverse != 0 && s.queue[0].downloadPath == "" && s.queue[0].err.None?
  }

  /** The trail of the tab that the head of the channel is for. */
  function HeadTrail(s: State): History
    requires HeadCurrent(s)
  {
    s.tabs[IndexOf(s.tabs, s.queue[0].tabId)].history
  }

  /** The cursor moves by one entry from where the peek saw it, and only the entry landed on may change. */
  predicate Moves(h: History, h': History, r: NavResult) {
    && h.index == r.traverseBase
    && h'.index == (if r.traverse < 0 then h.index - 1 else h.index + 1)
    && 0 <= h'.index < |h.entries| == |h'.entries|
    && (forall j :: 0 <= j < |h.entries| && j != h'.index ==> h'.entries[j] == h.entries[j])
    && h'.entries[h'.index] == (if r.url == "" then h.entries[h'.index] else r.url)
  }

  /**
   When a back/forward page displays, the trail moves exactly when it still has the step that was peeked,
   and stays as it is otherwise; it has that step unless a restored trail took the place of the tab's own
   since the load began.
   */
  lemma TraversalCommits(steps: seq<Step>, page: ErrorPage)
    requires Runnable(INITIAL, steps) && Displays(Run(INITIAL, steps))
    ensures var s := Run(INITIAL, steps);
            var r, i, h := s.queue[0], IndexOf(s.tabs, s.queue[0].tabId), HeadTrail(s);
            && h.Valid() && i < |ApplyState(s, page).tabs|
            && (s.tabs[i].trailFrom < r.serial ==> h.StepTaken(r.traverse, r.traverseBase))
            && (h.StepTaken(r.traverse, r.traverseBase) <==> Moves(h, ApplyState(s, page).tabs[i].history, r))
            && (!h.StepTaken(r.traverse, r.traverseBase) ==> ApplyState(s, page).tabs[i].history == h)
  {
    RunKeepsInv(INITIAL, steps);
    var s := Run(INITIAL, steps);
    var r := s.queue[0];
    var i := IndexOf(s.tabs, r.tabId);
    assert ResultOk(s.tabs, s.nextId, r) && TabOk(s.tabs[i], s.nextId);
    AppliedTrail(s, page);
  }

  lemma AppliedTrail(s: State, page: ErrorPage)
    requires Displays(s) && HeadTrail(s).Valid() && s.queue[0].noHistory
    ensures var r, i, h := s.queue[0], IndexOf(s.tabs, s.queue[0].tabId), HeadTrail(s);
            && i < |ApplyState(s, page).tabs|
            && (h.StepTaken(r.traverse, r.traverseBase) <==> Moves(h, ApplyState(s, page).tabs[i].history, r))
            && (!h.StepTaken(r.traverse, r.traverseBase) ==> ApplyState(s, page).tabs[i].history == h)
  {
  }

  /** A traversal that fails, is canceled or turns into a download leaves its tab's trail alone. */
  lemma FailedTraversalKeepsHistory(s: State, page: ErrorPage, i: nat)
    requires Inv(s) && s.queue != [] && i < |s.tabs|
    requires s.queue[0].downloadPath != "" || s.queue[0].err.Some?
    ensures |ApplyState(s, page).tabs| == |s.tabs|
    ensures ApplyState(s, page).tabs[i].history == s.tabs[i].history
  {
  }

  /** Only restoring a crashed session replaces a trail: without it every displayed traversal commits. */
  lemma {:induction false} TrailsStay(s: State, steps: seq<Step>)
    requires Inv(s) && Runnable(s, steps) && (forall i :: 0 <= i < |s.tabs| ==> s.tabs[i].trailFrom == 0)
    requires forall k :: 0 <= k < |steps| ==> !steps[k].Rewrite?
    ensures Inv(Run(s, steps))
    ensures forall i :: 0 <= i < |Run(s, steps).tabs| ==> Run(s, steps).tabs[i].trailFrom == 0
    decreases |steps|
  {
    hide Inv, Next;
    if steps != [] {
      StepKeepsInv(s, steps[0]);
      TrailStays(s, steps[0]);
      assert !steps[0].Rewrite?;
      TrailsStay(Next(s, steps[0]), steps[1..]);
    }
  }

  lemma TrailStays(s: State, step: Step)
    requires Inv(s) && Enabled(s, step) && !step.Rewrite?
    requires forall i :: 0 <= i < |s.tabs| ==> s.tabs[i].trailFrom == 0
    ensures forall i :: 0 <= i < |Next(s, step).tabs| ==> Next(s, step).tabs[i].trailFrom == 0
  {
    hide LoadOk, ResultOk, OutstandingOk, IndexOf, ApplyState, OpenTabState, MoveState;
    match step
    case OpenTab(at, url, history, select) => OpenKeepsTrails(s, at, url, history, select);
    case MoveTab(m, to) => MoveKeepsTrails(s, m, to);
    case Apply(page) =>
      assert forall i :: 0 <= i < |s.tabs| ==> TabOk(s.tabs[i], s.nextId);
      if s.queue != [] {
        var t := ApplyShape(s, page);
      } else {
        EmptyQueueStays(s, page);
      }
    case _ =>
  }

  lemma OpenKeepsTrails(s: State, at: nat, url: string, history: History, select: bool)
    requires forall i :: 0 <= i < |s.tabs| ==> s.tabs[i].trailFrom == 0
    ensures var s' := OpenTabState(s, at, url, history, select);
            forall i :: 0 <= i < |s'.tabs| ==> s'.tabs[i].trailFrom == 0
  {
  }

  lemma MoveKeepsTrails(s: State, id: nat, to: int)
    requires forall i :: 0 <= i < |s.tabs| ==> s.tabs[i].trailFrom == 0
    ensures var s' := MoveState(s, id, to); forall i :: 0 <= i < |s'.tabs| ==> s'.tabs[i].trailFrom == 0
  {
    hide IndexOf;
  }

  lemma EmptyQueueStays(s: State, page: ErrorPage)
    requires s.queue == []
    ensures ApplyState(s, page) == s
  {
  }

  /** So in a run without a restore no trail is younger than a load. */
  lemma NoTrailReplaced(steps: seq<Step>)
    requires Runnable(INITIAL, steps) && HeadCurrent(Run(INITIAL, steps))
    requires forall k :: 0 <= k < |steps| ==> !steps[k].Rewrite?
    ensures var s := Run(INITIAL, steps); s.tabs[IndexOf(s.tabs, s.queue[0].tabId)].trailFrom < s.queue[0].serial
  {
    hide Next, IndexOf;
    TrailsStay(INITIAL, steps);
    assert ResultOk(Run(INITIAL, steps).tabs, Run(INITIAL, steps).nextId, Run(INITIAL, steps).queue[0]);
  }
}
