/** Cooperative suspend and resume between a host and the app in its frame. */
module Lifecycle {
  import opened Bytes

  // --- the app ---------------------------------------------------------------------------------------

  const INCREMENT := 16 * 1024
  const LIMIT := 8 * 1024 * 1024

  /** `timer` is whether the interval that ticks the app is set. */
  datatype App = App(activeMs: nat, runningSince: Option<nat>, timer: bool, retainedBytes: nat) {
    predicate Suspended() { runningSince.None? }

    function Elapsed(now: nat): nat {
      activeMs + if runningSince.Some? && runningSince.value <= now then now - runningSince.value else 0
    }
  }

  function AppStart(now: nat): App {
    App(0, Some(now), true, 0)
  }

  function Suspend(a: App, now: nat): App {
    if a.runningSince.None? then a else App(a.Elapsed(now), None, false, a.retainedBytes)
  }

  function Resume(a: App, now: nat): App {
    if a.runningSince.Some? then a else a.(runningSince := Some(now), timer := true)
  }

  function Tick(a: App): App {
    if a.runningSince.None? || a.retainedBytes >= LIMIT then a
    else a.(retainedBytes := a.retainedBytes + if INCREMENT < LIMIT - a.retainedBytes then INCREMENT else LIMIT - a.retainedBytes)
  }

  // --- the host ----------------------------------------------------------------------------------------

  datatype State = Unknown | Unsupported | Running | Suspending | Suspended | Resuming | Error

  datatype Command = DoSuspend | DoResume

  datatype Pending = Pending(id: nat, command: Command)

  datatype Host = Host(state: State, pending: Option<Pending>, probe: bool, disposed: bool)

  datatype ToApp = Query | Request(id: nat, command: Command)
  datatype ToHost = Ready(suspended: bool) | Ack(id: nat, suspended: bool)

  /** Messages under way may be delivered in any order, late, or never. */
  datatype World = World(host: Host, app: App, toApp: multiset<ToApp>, toHost: multiset<ToHost>, nextId: nat, now: nat)

  function Wanted(c: Command): State {
    if c == DoSuspend then Running else Suspended
  }

  function Receive(h: Host, m: ToHost): Host {
    if h.disposed then h
    else match m
      case Ready(suspended) =>
        if h.state == Unknown || h.state == Unsupported then h.(state := if suspended then Suspended else Running) else h
      case Ack(id, suspended) =>
        if h.pending.None? || h.pending.value.id != id then h
        else h.(pending := None, state :=
          if suspended != (h.pending.value.command == DoSuspend) then Error else if suspended then Suspended else Running)
  }

  /** `posted`: whether the frame could be reached. */
  function Ask(w: World, c: Command, posted: bool): World {
    var h := w.host;
    if h.pending.Some? || h.disposed || h.state != Wanted(c) then w
    else if posted then
      w.(host := h.(pending := Some(Pending(w.nextId, c)), state := if c == DoSuspend then Suspending else Resuming),
         toApp := w.toApp + multiset{Request(w.nextId, c)}, nextId := w.nextId + 1)
    else w.(host := h.(pending := None, state := Error), nextId := w.nextId + 1)
  }

  function AskAgain(w: World, posted: bool): World {
    var h := w.host;
    if h.disposed then w
    else
      var probing := h.state == Unknown || h.state == Unsupported;
      w.(host := if probing then h.(state := Unknown, probe := true) else h, toApp := if posted then w.toApp + multiset{Query} else w.toApp)
  }

  function Deliver(w: World, m: ToApp): World
    requires m in w.toApp
  {
    var rest := w.toApp - multiset{m};
    match m
    case Query => w.(toApp := rest, toHost := w.toHost + multiset{Ready(w.app.Suspended())})
    case Request(id, c) =>
      var app := if c == DoSuspend then Suspend(w.app, w.now) else Resume(w.app, w.now);
      w.(toApp := rest, app := app, toHost := w.toHost + multiset{Ack(id, app.Suspended())})
  }

  // --- steps ---------------------------------------------------------------------------------------------

  datatype Event =
    | UserAsks(command: Command, posted: bool)
    | HostQueries(posted: bool)
    | RequestTimeout
    | ProbeTimeout
    | Dispose
    | AppGets(toApp: ToApp)
    | HostGets(toHost: ToHost)
    | LoseToApp(toApp: ToApp)
    | LoseToHost(toHost: ToHost)
    | AppTick
    | TimePasses(ms: nat)

  predicate Enabled(w: World, e: Event) {
    match e
    case RequestTimeout => w.host.pending.Some?
    case ProbeTimeout => w.host.probe
    case AppGets(m) => m in w.toApp
    case HostGets(m) => m in w.toHost
    case LoseToApp(m) => m in w.toApp
    case LoseToHost(m) => m in w.toHost
    case AppTick => w.app.timer
    case _ => true
  }

  function Step(w: World, e: Event): World
    requires Enabled(w, e)
  {
    match e
    case UserAsks(c, posted) => Ask(w, c, posted)
    case HostQueries(posted) => AskAgain(w, posted)
    case RequestTimeout => w.(host := w.host.(pending := None, state := Error))
    case ProbeTimeout => w.(host := w.host.(probe := false, state := if w.host.state == Unknown then Unsupported else w.host.state))
    case Dispose => w.(host := w.host.(disposed := true, pending := None, probe := false))
    case AppGets(m) => Deliver(w, m)
    case HostGets(m) => w.(host := Receive(w.host, m), toHost := w.toHost - multiset{m})
    case LoseToApp(m) => w.(toApp := w.toApp - multiset{m})
    case LoseToHost(m) => w.(toHost := w.toHost - multiset{m})
    case AppTick => w.(app := Tick(w.app))
    case TimePasses(ms) => w.(now := w.now + ms)
  }

  /** The app has loaded and announced itself; the host asks its first query, which may not get through. */
  function Start(now: nat, posted: bool): World {
    World(Host(Unknown, None, true, false), AppStart(now), if posted then multiset{Query} else multiset{}, multiset{Ready(false)}, 0, now)
  }

  function Run(w: World, events: seq<Event>): Option<World> {
    if events == [] then Some(w)
    else match Run(w, events[..|events| - 1])
      case None => None
      case Some(u) => if Enabled(u, events[|events| - 1]) then Some(Step(u, events[|events| - 1])) else None
  }

  // --- the invariant -----------------------------------------------------------------------------------------

  predicate Transit(s: State) { s == Suspending || s == Resuming }

  /** A request is pending exactly while suspending or resuming, for that command. */
  predicate PendingFits(h: Host) {
    && (h.pending.Some? <==> Transit(h.state))
    && (h.pending.Some? ==> h.pending.value.command == if h.state == Suspending then DoSuspend else DoResume)
  }

  ghost predicate FreshIds(w: World) {
    && (forall m :: m in w.toApp && m.Request? ==> m.id < w.nextId)
    && (forall m :: m in w.toHost && m.Ack? ==> m.id < w.nextId)
    && (w.host.pending.Some? ==> w.host.pending.value.id < w.nextId)
  }

  ghost predicate NoRequests(toApp: multiset<ToApp>) {
    forall m :: m in toApp ==> m == Query
  }

  /** Before the first announcement is accepted nobody has asked the app anything. */
  ghost predicate Untouched(w: World) {
    !w.app.Suspended() && NoRequests(w.toApp) && forall m :: m in w.toHost ==> m == Ready(false)
  }

  /** The one request under way has not reached the app yet, or the app has obeyed it. */
  ghost predicate UnderWay(w: World, p: Pending) {
    var r := Request(p.id, p.command);
    && (forall m :: m in w.toApp ==> m == Query || m == r) && w.toApp[r] <= 1
    && (r in w.toApp ==> w.app.Suspended() == (p.command == DoResume) && forall m :: m in w.toHost && m.Ack? ==> m.id != p.id)
    && forall m :: m in w.toHost && m.Ack? && m.id == p.id ==> m.suspended == (p.command == DoSuspend) == w.app.Suspended()
  }

  ghost predicate Agreed(w: World) {
    match w.host.state
    case Unknown => Untouched(w)
    case Unsupported => Untouched(w)
    case Running => !w.app.Suspended() && NoRequests(w.toApp)
    case Suspended => w.app.Suspended() && NoRequests(w.toApp)
    case Error => true
    case _ => w.host.pending.Some? && UnderWay(w, w.host.pending.value)
  }

  ghost predicate Invariant(w: World) {
    w.host.disposed || (PendingFits(w.host) && FreshIds(w) && Agreed(w))
  }

  lemma RemovedFrom<T>(m: multiset<T>, x: T)
    requires x in m
    ensures forall y :: y in m - multiset{x} ==> y in m
    ensures (m - multiset{x})[x] == m[x] - 1
    ensures forall y :: y != x ==> (m - multiset{x})[y] == m[y]
  {
  }

  lemma AskKeeps(w: World, c: Command, posted: bool)
    requires Invariant(w)
    ensures Invariant(Ask(w, c, posted))
  {
  }

  lemma AskAgainKeeps(w: World, posted: bool)
    requires Invariant(w)
    ensures Invariant(AskAgain(w, posted))
  {
  }

  lemma ReceiveKeeps(w: World, m: ToHost)
    requires Invariant(w) && m in w.toHost
    ensures Invariant(w.(host := Receive(w.host, m), toHost := w.toHost - multiset{m}))
  {
    RemovedFrom(w.toHost, m);
    hide App.Suspended;
  }

  lemma LossKeeps(w: World, toApp: multiset<ToApp>, toHost: multiset<ToHost>)
    requires Invariant(w) && toApp <= w.toApp && toHost <= w.toHost
    ensures Invariant(w.(toApp := toApp, toHost := toHost))
  {
    assert forall m :: toApp[m] <= w.toApp[m];
    assert forall m :: m in toApp ==> m in w.toApp;
    assert forall m :: m in toHost ==> m in w.toHost;
    hide App.Suspended;
  }

  lemma AppKeeps(w: World, app: App, now: nat)
    requires Invariant(w) && app.Suspended() == w.app.Suspended()
    ensures Invariant(w.(app := app, now := now))
  {
    hide App.Suspended;
  }

  lemma DeliverKeeps(w: World, m: ToApp)
    requires Invariant(w) && m in w.toApp
    ensures Invariant(Deliver(w, m))
  {
    var app := if m.Query? then w.app else if m.command == DoSuspend then Suspend(w.app, w.now) else Resume(w.app, w.now);
    assert m.Request? ==> app.Suspended() == (m.command == DoSuspend);
    hide Invariant, Suspend, Resume, App.Suspended;
    if m.Query? { AnswerKeeps(w, m); } else { ObeyKeeps(w, m, app); }
  }

  lemma AnswerKeeps(w: World, m: ToApp)
    requires Invariant(w) && m in w.toApp && m.Query?
    ensures Invariant(w.(toApp := w.toApp - multiset{m}, toHost := w.toHost + multiset{Ready(w.app.Suspended())}))
  {
    var sent := Ready(w.app.Suspended());
    var rest := w.toApp - multiset{m};
    RemovedFrom(w.toApp, m);
    assert forall x :: x in w.toHost + multiset{sent} ==> x in w.toHost || x == sent;
    hide App.Suspended;
    if w.host.pending.Some? {
      var p := w.host.pending.value;
      var r := Request(p.id, p.command);
      assert r != m && rest[r] == w.toApp[r];
      if UnderWay(w, p) { AnswerUnderWay(w, rest, sent, p); }
    }
    assert NoRequests(w.toApp) ==> NoRequests(rest);
    hide UnderWay, NoRequests;
  }

  lemma AnswerUnderWay(w: World, rest: multiset<ToApp>, sent: ToHost, p: Pending)
    requires UnderWay(w, p) && sent.Ready? && (forall x :: x in rest ==> x in w.toApp)
    requires rest[Request(p.id, p.command)] == w.toApp[Request(p.id, p.command)]
    ensures UnderWay(w.(toApp := rest, toHost := w.toHost + multiset{sent}), p)
  {
    assert forall x :: x in w.toHost + multiset{sent} ==> x in w.toHost || x == sent;
    hide App.Suspended;
  }

  lemma ObeyKeeps(w: World, m: ToApp, app: App)
    requires Invariant(w) && m in w.toApp && m.Request? && app.Suspended() == (m.command == DoSuspend)
    ensures Invariant(w.(toApp := w.toApp - multiset{m}, app := app, toHost := w.toHost + multiset{Ack(m.id, app.Suspended())}))
  {
    var sent := Ack(m.id, app.Suspended());
    RemovedFrom(w.toApp, m);
    assert forall x :: x in w.toHost + multiset{sent} ==> x in w.toHost || x == sent;
    hide App.Suspended;
    if !w.host.disposed && w.host.state != Error {
      RequestIsPending(w, m);
      assert w.toApp[m] == 1;
    }
  }

  /** Only the pending request can be under way. */
  lemma RequestIsPending(w: World, m: ToApp)
    requires Invariant(w) && m in w.toApp && m.Request? && !w.host.disposed && w.host.state != Error
    ensures w.host.pending == Some(Pending(m.id, m.command)) && Transit(w.host.state) && UnderWay(w, w.host.pending.value)
  {
    hide App.Suspended;
  }

  lemma TimersKeep(w: World)
    requires Invariant(w)
    ensures w.host.pending.Some? ==> Invariant(w.(host := w.host.(pending := None, state := Error)))
    ensures Invariant(w.(host := w.host.(probe := false, state := if w.host.state == Unknown then Unsupported else w.host.state)))
    ensures Invariant(w.(host := w.host.(disposed := true, pending := None, probe := false)))
  {
    hide App.Suspended, NoRequests;
  }

  lemma StepKeeps(w: World, e: Event)
    requires Invariant(w) && Enabled(w, e)
    ensures Invariant(Step(w, e))
  {
    hide Invariant, Ask, AskAgain, Deliver, Receive;
    TimersKeep(w);
    match e
    case UserAsks(c, posted) => AskKeeps(w, c, posted);
    case HostQueries(posted) => AskAgainKeeps(w, posted);
    case AppGets(m) => DeliverKeeps(w, m);
    case HostGets(m) => ReceiveKeeps(w, m);
    case LoseToApp(m) => LossKeeps(w, w.toApp - multiset{m}, w.toHost);
    case LoseToHost(m) => LossKeeps(w, w.toApp, w.toHost - multiset{m});
    case AppTick => AppKeeps(w, Tick(w.app), w.now);
    case TimePasses(ms) => AppKeeps(w, w.app, w.now + ms);
    case _ =>
  }

  // --- every run -------------------------------------------------------------------------------------------------

  lemma {:induction false} RunKeeps(now: nat, posted: bool, events: seq<Event>, w: World)
    requires Run(Start(now, posted), events) == Some(w)
    ensures Invariant(w)
    decreases |events|
  {
    if events == [] {
      StartHolds(now, posted);
    } else {
      hide Enabled, Step, Invariant, Start;
      var u := Run(Start(now, posted), events[..|events| - 1]).value;
      RunKeeps(now, posted, events[..|events| - 1], u);
      StepKeeps(u, events[|events| - 1]);
    }
  }

  lemma StartHolds(now: nat, posted: bool)
    ensures Invariant(Start(now, posted))
  {
  }

  /** What an undisposed host reports is so, and a request is pending exactly in transit. */
  lemma Agreement(now: nat, posted: bool, events: seq<Event>, w: World)
    requires Run(Start(now, posted), events) == Some(w) && !w.host.disposed
    ensures w.host.state == Running ==> !w.app.Suspended()
    ensures w.host.state == Suspended ==> w.app.Suspended()
    ensures w.host.pending.Some? <==> w.host.state == Suspending || w.host.state == Resuming
  {
    RunKeeps(now, posted, events, w);
  }

  /** An acknowledgement that answers the pending request always confirms it. */
  lemma AcksConfirm(now: nat, posted: bool, events: seq<Event>, w: World, m: ToHost)
    requires Run(Start(now, posted), events) == Some(w) && m in w.toHost && m.Ack?
    requires !w.host.disposed && w.host.pending.Some? && w.host.pending.value.id == m.id
    ensures Receive(w.host, m).state == if w.host.pending.value.command == DoSuspend then Suspended else Running
  {
    RunKeeps(now, posted, events, w);
    hide App.Suspended;
  }

  /** Nothing leaves the error state. */
  lemma ErrorIsFinal(w: World, e: Event)
    requires Invariant(w) && w.host.state == Error && Enabled(w, e)
    ensures Step(w, e).host.state == Error
  {
  }

  // --- what the handshake achieves --------------------------------------------------------------------------------

  lemma RunThree(w: World, a: Event, b: Event, c: Event)
    requires Enabled(w, a) && Enabled(Step(w, a), b) && Enabled(Step(Step(w, a), b), c)
    ensures Run(w, [a, b, c]) == Some(Step(Step(Step(w, a), b), c))
  {
    hide Enabled, Step;
    assert [a, b, c][..2] == [a, b] && [a, b][..1] == [a] && [a][..0] == [];
    assert Run(w, [a]) == Some(Step(w, a));
    assert Run(w, [a, b]) == Some(Step(Step(w, a), b));
  }

  lemma RequestGoesOut(w: World, c: Command)
    requires !w.host.disposed && w.host.pending.None? && w.host.state == Wanted(c)
    ensures var asked := Step(w, UserAsks(c, true));
      && Request(w.nextId, c) in asked.toApp && asked.app == w.app && !asked.host.disposed
      && asked.host.pending == Some(Pending(w.nextId, c))
  {
  }

  lemma AppObeys(w: World, id: nat, c: Command)
    requires Request(id, c) in w.toApp
    ensures var obeyed := Step(w, AppGets(Request(id, c)));
      obeyed.app.Suspended() == (c == DoSuspend) && obeyed.host == w.host && Ack(id, c == DoSuspend) in obeyed.toHost
  {
    var app := if c == DoSuspend then Suspend(w.app, w.now) else Resume(w.app, w.now);
    assert app.Suspended() == (c == DoSuspend);
    hide Suspend, Resume, App.Suspended;
  }

  lemma HostHears(w: World, id: nat, c: Command)
    requires Ack(id, c == DoSuspend) in w.toHost && !w.host.disposed && w.host.pending == Some(Pending(id, c))
    ensures var heard := Step(w, HostGets(Ack(id, c == DoSuspend)));
      heard.app == w.app && heard.host.pending == None && heard.host.state == if c == DoSuspend then Suspended else Running
  {
  }

  /** In every run: a request whose message and answer get through is obeyed, and the host hears of it. */
  lemma HandshakeCompletes(now: nat, posted: bool, events: seq<Event>, w: World, c: Command)
    requires Run(Start(now, posted), events) == Some(w) && !w.host.disposed && w.host.state == Wanted(c)
    ensures var end := Run(w, [UserAsks(c, true), AppGets(Request(w.nextId, c)), HostGets(Ack(w.nextId, c == DoSuspend))]);
      && end.Some? && end.value.app.Suspended() == (c == DoSuspend)
      && end.value.host.pending == None && end.value.host.state == if c == DoSuspend then Suspended else Running
  {
    Agreement(now, posted, events, w);
    hide Run, Step, App.Suspended;
    var asked := Step(w, UserAsks(c, true));
    RequestGoesOut(w, c);
    AppObeys(asked, w.nextId, c);
    HostHears(Step(asked, AppGets(Request(w.nextId, c))), w.nextId, c);
    RunThree(w, UserAsks(c, true), AppGets(Request(w.nextId, c)), HostGets(Ack(w.nextId, c == DoSuspend)));
  }

  lemma QueryGoesOut(w: World)
    requires !w.host.disposed && w.host.state in {Unknown, Unsupported}
    ensures var asked := Step(w, HostQueries(true));
      Query in asked.toApp && asked.app == w.app && !asked.host.disposed && asked.host.state == Unknown
  {
  }

  lemma AppAnswers(w: World)
    requires Query in w.toApp && !w.app.Suspended()
    ensures var answered := Step(w, AppGets(Query));
      answered.app == w.app && answered.host == w.host && Ready(false) in answered.toHost
  {
  }

  lemma HostLearns(w: World)
    requires Ready(false) in w.toHost && !w.host.disposed && w.host.state == Unknown
    ensures var learned := Step(w, HostGets(Ready(false))); learned.app == w.app && learned.host.state == Running
  {
  }

  lemma StillRuns(w: World)
    requires Invariant(w) && !w.host.disposed && w.host.state in {Unknown, Unsupported}
    ensures !w.app.Suspended()
  {
  }

  /** In every run: a host that does not know its app yet learns that it runs from one query that gets through. */
  lemma QueryAnswers(now: nat, posted: bool, events: seq<Event>, w: World)
    requires Run(Start(now, posted), events) == Some(w) && !w.host.disposed && w.host.state in {Unknown, Unsupported}
    ensures var end := Run(w, [HostQueries(true), AppGets(Query), HostGets(Ready(false))]);
      end.Some? && end.value.host.state == Running && !end.value.app.Suspended()
  {
    RunKeeps(now, posted, events, w);
    StillRuns(w);
    hide Run, Step, App.Suspended, Invariant;
    var asked := Step(w, HostQueries(true));
    QueryGoesOut(w);
    AppAnswers(asked);
    HostLearns(Step(asked, AppGets(Query)));
    RunThree(w, HostQueries(true), AppGets(Query), HostGets(Ready(false)));
  }

  // --- the app's own accounts -----------------------------------------------------------------------------------------

  predicate AppSane(w: World) {
    && w.app.timer == w.app.runningSince.Some? && w.app.retainedBytes <= LIMIT
    && (w.app.runningSince.Some? ==> w.app.runningSince.value <= w.now)
  }

  lemma AppStaysSane(w: World, e: Event)
    requires AppSane(w) && Enabled(w, e)
    ensures AppSane(Step(w, e))
    ensures Step(w, e).app.Elapsed(Step(w, e).now) == w.app.Elapsed(w.now) + if e.TimePasses? && !w.app.Suspended() then e.ms else 0
    ensures w.app.Suspended() ==> Step(w, e).app.retainedBytes == w.app.retainedBytes
  {
    hide Receive;
  }

  /** Milliseconds that pass while the app runs. */
  function RunningTime(w: World, events: seq<Event>): nat
    requires Run(w, events).Some?
  {
    if events == [] then 0
    else
      var u, e := Run(w, events[..|events| - 1]).value, events[|events| - 1];
      RunningTime(w, events[..|events| - 1]) + if e.TimePasses? && !u.app.Suspended() then e.ms else 0
  }

  /** The app's clock counts exactly the time it was not suspended. */
  lemma {:induction false} ClockCountsRunning(now: nat, posted: bool, events: seq<Event>)
    requires Run(Start(now, posted), events).Some?
    ensures var w := Run(Start(now, posted), events).value;
      AppSane(w) && w.app.Elapsed(w.now) == RunningTime(Start(now, posted), events)
    decreases |events|
  {
    if events != [] {
      ClockCountsRunning(now, posted, events[..|events| - 1]);
      var u := Run(Start(now, posted), events[..|events| - 1]).value;
      AppStaysSane(u, events[|events| - 1]);
      hide Step, Enabled, AppSane, App.Elapsed, App.Suspended;
    }
  }
}
