/**
 The navigation protocol of a tab as a transition system.

 Loads run on their own goroutines and deliver one result each through a channel; meanwhile the
 user navigates, stops, traverses, switches and closes tabs.  A state holds every tab, the loads in
 flight, the results queued on the channel, every engine session ever built and the log of
 `Session.Close` calls.  Each handler of the browser is one atomic step.
 */
module NavModel {
  import opened Options
  import opened Text

  /** A session is named by a number; two sessions are the same object exactly when these agree. */
  type Session = nat

  datatype LoadError = SaveCanceled | ContextCanceled | LoadFailed(message: string)

  /** How a load ended: the error a goroutine sees, with the download case kept apart. */
  datatype LoadEnd = Finished | Downloaded(path: string) | Broken(error: LoadError)

  /** The back/forward trail of a tab: `index` is -1 while it is empty. */
  datatype History = History(entries: seq<string>, index: int) {
    predicate Valid() {
      -1 <= index < |entries|
    }

    function Push(url: string): History
      requires Valid()
    {
      var kept := if 0 <= index < |entries| - 1 then entries[..index + 1] else entries;
      History(kept + [url], |kept|)
    }

    /** The target `delta` away from the cursor, when the trail has one. */
    function Peek(delta: int): Option<string>
      requires Valid()
    {
      if delta < 0 then (if index <= 0 then None else Some(entries[index - 1]))
      else if delta > 0 then (if index < 0 || index >= |entries| - 1 then None else Some(entries[index + 1]))
      else None
    }

    predicate StepTaken(delta: int, base: int)
      requires Valid()
    {
      index == base && Peek(delta).Some?
    }

    function Step(delta: int, base: int): History
      requires Valid()
    {
      if StepTaken(delta, base) then this.(index := if delta < 0 then index - 1 else index + 1) else this
    }

    function ReplaceCurrent(url: string): History
      requires Valid()
    {
      if index < 0 || url == "" then this else this.(entries := entries[index := url])
    }
  }

  const EMPTY_HISTORY := History([], -1)

  /** A goroutine that is still loading; `canceled` says its context was canceled. */
  datatype Load = Load(tabId: nat, serial: nat, url: string,
                       noHistory: bool, traverse: int, traverseBase: int, canceled: bool)

  datatype NavResult = NavResult(tabId: nat, serial: nat, session: Option<Session>, err: Option<LoadError>,
                                 url: string, downloadPath: string,
                                 noHistory: bool, traverse: int, traverseBase: int)

  /**
   `cancel` names the load whose context the stored cancel function ends.  `trailFrom` is kept for the
   proofs: the serial the tab had when a restored trail last took the place of its own.
   */
  datatype TabState = TabState(id: nat, serial: nat, loading: bool, cancel: Option<nat>,
                               session: Option<Session>, url: string, history: History, trailFrom: nat)

  datatype ImageResult = ImageResult(tabId: nat, serial: nat, session: Session)

  datatype State = State(tabs: seq<TabState>, active: nat, nextId: nat,
                         inflight: seq<Load>, queue: seq<NavResult>,
                         built: set<Session>, closed: seq<Session>)

  const INITIAL := State([], 0, 0, [], [], {}, [])

  /** What building an error page did: nothing, a session given up half way, or a session to show. */
  datatype ErrorPage = NotBuilt | Discarded(session: Session) | Shown(session: Session)

  datatype Step =
    | OpenTab(at: nat, url: string, history: History, select: bool)
    | SwitchTo(id: nat)
    | MoveTab(id: nat, to: int)
    | Rewrite(url: string, history: History)
    | Navigate(url: string)
    | Traverse(delta: int)
    | Reload
    | Stop
    | CloseTab(id: nat)
      /** `givenUp` is a session the load built and then dropped: painting or its tile budget failed. */
    | Finish(load: nat, finalUrl: string, session: Option<Session>, end: LoadEnd, givenUp: Option<Session>)
    | Apply(page: ErrorPage)

  // ---------------------------------------------------------------- lookups

  /** The position of the first tab with this id, or the number of tabs when there is none. */
  function IndexOf(tabs: seq<TabState>, id: nat): (i: nat)
    ensures i <= |tabs|
    ensures i < |tabs| ==> tabs[i].id == id
    ensures forall j :: 0 <= j < i ==> tabs[j].id != id
  {
    if tabs == [] then 0
    else if tabs[0].id == id then 0
    else
      var r := IndexOf(tabs[1..], id);
      assert forall j :: 1 <= j < r + 1 ==> tabs[j] == tabs[1..][j - 1];
      r + 1
  }

  function CancelOne(l: Load, id: nat, which: Option<nat>): Load {
    if which.Some? && l.tabId == id && l.serial == which.value then l.(canceled := true) else l
  }

  function CancelLoads(loads: seq<Load>, id: nat, which: Option<nat>): (r: seq<Load>)
    ensures |r| == |loads|
    ensures forall i :: 0 <= i < |loads| ==> r[i] == CancelOne(loads[i], id, which)
  {
    seq(|loads|, i requires 0 <= i < |loads| => CancelOne(loads[i], id, which))
  }

  function CloseSession(closed: seq<Session>, s: Option<Session>): seq<Session> {
    if s.Some? then closed + [s.value] else closed
  }

  // ---------------------------------------------------------------- the steps

  function Inserted(tabs: seq<TabState>, k: nat, t: TabState): seq<TabState>
    requires k <= |tabs|
  {
    tabs[..k] + [t] + tabs[k..]
  }

  /** A tab comes in at a position, before the active one or behind it, and may become the active one. */
  function OpenTabState(s: State, at: nat, url: string, history: History, select: bool): State {
    var k := if at <= |s.tabs| then at else |s.tabs|;
    s.(tabs := Inserted(s.tabs, k, TabState(s.nextId + 1, 0, false, None, None, url, history, 0)),
       nextId := s.nextId + 1,
       active := if select || s.tabs == [] then k else if k <= s.active then s.active + 1 else s.active)
  }

  /** The tab goes to a position among the others; the active tab stays the active one. */
  function MoveState(s: State, id: nat, to: int): State {
    var i := IndexOf(s.tabs, id);
    if i >= |s.tabs| || s.active >= |s.tabs| then s else
      var rest := s.tabs[..i] + s.tabs[i + 1..];
      var moved := Inserted(rest, if to < 0 then 0 else if to > |rest| then |rest| else to, s.tabs[i]);
      s.(tabs := moved, active := IndexOf(moved, s.tabs[s.active].id))
  }

  predicate RestorePage(url: string) {
    "goosie://restore" <= Lower(url)
  }

  /** Restoring a crashed session over its own prompt: the only tab takes a saved URL and trail. */
  function RewriteState(s: State, url: string, history: History): State {
    if |s.tabs| != 1 || !RestorePage(s.tabs[0].url) then s
    else s.(tabs := [s.tabs[0].(url := url, history := history, trailFrom := s.tabs[0].serial)])
  }

  function SwitchState(s: State, id: nat): State {
    var i := IndexOf(s.tabs, id);
    if i < |s.tabs| then s.(active := i) else s
  }

  /** Both navigate handlers: cancel the stored load, take the next serial, start one load. */
  function NavigateState(s: State, url: string, noHistory: bool, delta: int, base: int): State {
    if s.active >= |s.tabs| then s else
      var t := s.tabs[s.active];
      var serial := t.serial + 1;
      s.(tabs := s.tabs[s.active := t.(serial := serial, loading := true, cancel := Some(serial))],
         inflight := CancelLoads(s.inflight, t.id, t.cancel)
                     + [Load(t.id, serial, url, noHistory, delta, base, false)])
  }

  function TraverseState(s: State, delta: int): State {
    if s.active >= |s.tabs| || !s.tabs[s.active].history.Valid() then s else
      var h := s.tabs[s.active].history;
      var target := h.Peek(delta);
      if target.None? || target.value == "" then s
      else NavigateState(s, target.value, true, delta, h.index)
  }

  function ReloadState(s: State): State {
    if s.active >= |s.tabs| || s.tabs[s.active].url == "" then s
    else NavigateState(s, s.tabs[s.active].url, true, 0, 0)
  }

  function StopState(s: State): State {
    if s.active >= |s.tabs| || !s.tabs[s.active].loading then s else
      var t := s.tabs[s.active];
      s.(tabs := s.tabs[s.active := t.(serial := t.serial + 1, loading := false, cancel := None)],
         inflight := CancelLoads(s.inflight, t.id, t.cancel))
  }

  function ActiveAfterClose(active: nat, i: nat, count: nat): nat {
    if count == 0 then 0
    else if active >= count then count - 1
    else if active > i then active - 1
    else active
  }

  function CloseTabState(s: State, id: nat): State {
    var i := IndexOf(s.tabs, id);
    if i >= |s.tabs| then s else
      var t := s.tabs[i];
      var rest := s.tabs[..i] + s.tabs[i + 1..];
      s.(tabs := rest, active := ActiveAfterClose(s.active, i, |rest|),
         inflight := CancelLoads(s.inflight, t.id, t.cancel),
         closed := CloseSession(s.closed, t.session))
  }

  function ResultOf(l: Load, finalUrl: string, session: Option<Session>, end: LoadEnd): NavResult {
    NavResult(l.tabId, l.serial, session,
              if end.Broken? then Some(end.error) else None,
              if finalUrl != "" then finalUrl else l.url,
              if end.Downloaded? then end.path else "",
              l.noHistory, l.traverse, l.traverseBase)
  }

  function SessionSet(s: Option<Session>): set<Session> {
    if s.Some? then {s.value} else {}
  }

  function FinishState(s: State, load: nat, finalUrl: string, session: Option<Session>, end: LoadEnd,
                       givenUp: Option<Session>): State {
    if load >= |s.inflight| then s else
      s.(inflight := s.inflight[..load] + s.inflight[load + 1..],
         queue := s.queue + [ResultOf(s.inflight[load], finalUrl, session, end)],
         built := s.built + SessionSet(session) + SessionSet(givenUp))
  }

  /** The head of the channel still names a live tab with this serial. */
  predicate HeadCurrent(s: State) {
    s.queue != [] &&
    var i := IndexOf(s.tabs, s.queue[0].tabId);
    i < |s.tabs| && s.tabs[i].serial == s.queue[0].serial
  }

  /** Applying the head builds an error page for its tab. */
  predicate HeadFails(s: State) {
    HeadCurrent(s) && s.queue[0].downloadPath == "" && s.queue[0].err.Some? && s.queue[0].err.value.LoadFailed?
  }

  function HistoryAfter(h: History, r: NavResult): History {
    if !h.Valid() then h else
      var pushed := if r.noHistory then h else h.Push(r.url);
      if r.traverse != 0 && pushed.Valid() && pushed.StepTaken(r.traverse, r.traverseBase) then
        var stepped := pushed.Step(r.traverse, r.traverseBase);
        if stepped.Valid() then stepped.ReplaceCurrent(r.url) else stepped
      else pushed
  }

  /** The tab after it took a new document; the replaced session is closed unless it is the same one. */
  function Replaced(before: Option<Session>, after: Option<Session>): Option<Session> {
    if before.Some? && before != after then before else None
  }

  /** The newest result of the tab at `i` has been taken off the channel. */
  function ApplyCurrent(s: State, i: nat, r: NavResult, page: ErrorPage): State
    requires i < |s.tabs|
  {
    var t := s.tabs[i].(loading := false);
    if r.downloadPath != "" then
      s.(tabs := s.tabs[i := t])
    else if r.err.Some? then
      (if !r.err.value.LoadFailed? || page.NotBuilt? then
         s.(tabs := s.tabs[i := t])
       else if page.Discarded? then
         s.(tabs := s.tabs[i := t], built := s.built + {page.session})
       else
         s.(tabs := s.tabs[i := t.(session := Some(page.session), url := r.url)],
            built := s.built + {page.session},
            closed := CloseSession(s.closed, Replaced(t.session, Some(page.session)))))
    else
      s.(tabs := s.tabs[i := t.(session := r.session, url := r.url, history := HistoryAfter(t.history, r))],
         closed := CloseSession(s.closed, Replaced(t.session, r.session)))
  }

  function ApplyState(s: State, page: ErrorPage): State {
    if s.queue == [] then s else
      var r := s.queue[0];
      var s1 := s.(queue := s.queue[1..]);
      if HeadCurrent(s) then ApplyCurrent(s1, IndexOf(s.tabs, r.tabId), r, page)
      else s1.(closed := CloseSession(s.closed, r.session))
  }

  function Next(s: State, step: Step): State {
    match step
    case OpenTab(at, url, history, select) => OpenTabState(s, at, url, history, select)
    case SwitchTo(id) => SwitchState(s, id)
    case MoveTab(id, to) => MoveState(s, id, to)
    case Rewrite(url, history) => RewriteState(s, url, history)
    case Navigate(url) => NavigateState(s, url, false, 0, 0)
    case Traverse(delta) => TraverseState(s, delta)
    case Reload => ReloadState(s)
    case Stop => StopState(s)
    case CloseTab(id) => CloseTabState(s, id)
    case Finish(load, finalUrl, session, end, givenUp) => FinishState(s, load, finalUrl, session, end, givenUp)
    case Apply(page) => ApplyState(s, page)
  }

  /**
   Engine constructors return new objects, a load that gives its session up fails, and a restored trail is
   clamped to its entries.
   */
  predicate Enabled(s: State, step: Step) {
    match step
    case OpenTab(_, _, history, _) => history.Valid()
    case Rewrite(_, history) => history.Valid()
    case Finish(load, _, session, end, givenUp) =>
      && load < |s.inflight| && (session.Some? ==> session.value !in s.built)
      && (givenUp.Some? ==> session.None? && end.Broken? && givenUp.value !in s.built)
    case Apply(page) => HeadFails(s) ==> page.NotBuilt? || page.session !in s.built
    case _ => true
  }

  function Run(s: State, steps: seq<Step>): State
    decreases |steps|
  {
    if steps == [] then s else Run(Next(s, steps[0]), steps[1..])
  }

  predicate Runnable(s: State, steps: seq<Step>)
    decreases |steps|
  {
    steps == [] || (Enabled(s, steps[0]) && Runnable(Next(s, steps[0]), steps[1..]))
  }

  lemma {:induction false} RunAppend(s: State, a: seq<Step>, b: seq<Step>)
    ensures Run(s, a + b) == Run(Run(s, a), b)
    decreases |a|
  {
    hide Next;
    if a == [] {
      assert a + b == b;
    } else {
      assert (a + b)[1..] == a[1..] + b;
      RunAppend(Next(s, a[0]), a[1..], b);
    }
  }

  lemma RunOfFour(s: State, a: Step, b: Step, c: Step, d: Step)
    ensures Run(s, [a, b, c, d]) == Next(Next(Next(Next(s, a), b), c), d)
    ensures Runnable(s, [a, b, c, d])
            <==> Enabled(s, a) && Enabled(Next(s, a), b) && Enabled(Next(Next(s, a), b), c)
                 && Enabled(Next(Next(Next(s, a), b), c), d)
  {
    hide Next, Enabled, Run, Runnable;
    FirstStep(s, a, [b, c, d]);
    FirstStep(Next(s, a), b, [c, d]);
    FirstStep(Next(Next(s, a), b), c, [d]);
    FirstStep(Next(Next(Next(s, a), b), c), d, []);
    assert [a] + [b, c, d] == [a, b, c, d] && [b] + [c, d] == [b, c, d] && [c] + [d] == [c, d] && [d] + [] == [d];
    NoStep(Next(Next(Next(Next(s, a), b), c), d));
  }

  lemma FirstStep(s: State, step: Step, rest: seq<Step>)
    ensures Run(s, [step] + rest) == Run(Next(s, step), rest)
    ensures Runnable(s, [step] + rest) <==> Enabled(s, step) && Runnable(Next(s, step), rest)
  {
    hide Next, Enabled;
    assert ([step] + rest)[1..] == rest;
  }

  lemma NoStep(s: State)
    ensures Run(s, []) == s && Runnable(s, [])
  {
  }

  // ---------------------------------------------------------------- restoring a crashed session

  /** A saved tab: its URL and its trail. */
  datatype SavedTab = SavedTab(url: string, history: History)

  /** Each saved tab opened behind the tabs there are, none selected. */
  function Opens(count: nat, saved: seq<SavedTab>): seq<Step>
    decreases |saved|
  {
    if saved == [] then []
    else [OpenTab(count, saved[0].url, saved[0].history, false)] + Opens(count + 1, saved[1..])
  }

  /** The restore prompt is all there is. */
  predicate OnlyPrompt(s: State) {
    |s.tabs| == 1 && RestorePage(s.tabs[0].url)
  }

  /** The saved tabs come in over the prompt, or behind the tabs there are. */
  function BroughtIn(s: State, saved: seq<SavedTab>): seq<Step>
    requires saved != []
  {
    if OnlyPrompt(s) then [Rewrite(saved[0].url, saved[0].history)] + Opens(1, saved[1..])
    else Opens(|s.tabs|, saved)
  }

  /** The saved tab that is selected: over the prompt the first one is already. */
  function Selected(s: State, saved: seq<SavedTab>, chosen: int): seq<Step> {
    if OnlyPrompt(s) then (if 0 < chosen < |saved| then [SwitchTo(s.nextId + chosen)] else [])
    else if 0 <= chosen < |saved| then [SwitchTo(s.nextId + 1 + chosen)] else []
  }

  function RestoredTabs(s: State, saved: seq<SavedTab>, chosen: int): seq<Step> {
    if saved == [] then [] else BroughtIn(s, saved) + Selected(s, saved, chosen)
  }

  /** The steps a restore is made of: bringing the tabs in, then loading the active one. */
  function RestoreSteps(s: State, saved: seq<SavedTab>, chosen: int): seq<Step> {
    var tabs := RestoredTabs(s, saved, chosen);
    tabs + LoadActive(Run(s, tabs), saved)
  }

  function LoadActive(s: State, saved: seq<SavedTab>): seq<Step> {
    if saved != [] && s.active < |s.tabs| && s.tabs[s.active].url != "" && !RestorePage(s.tabs[s.active].url) then
      [Navigate(s.tabs[s.active].url)]
    else []
  }

  /** A landed batch of images repaints its tab only under this test. */
  predicate ImageApplies(s: State, img: ImageResult) {
    var i := IndexOf(s.tabs, img.tabId);
    i < |s.tabs| && s.tabs[i].session == Some(img.session) && s.tabs[i].serial == img.serial
  }
}
