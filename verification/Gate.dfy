/** The checkpoint gate between terminals, their workers and snapshot operations, as a step relation. */
module Gate {
  import opened Bytes

  type Tid = nat
  type Data = Bytes

  datatype Post = Post(id: nat, data: Data)

  /** A terminal, and its worker: `alive`, the commands it is still running, the acknowledgements under way. */
  datatype Terminal = Terminal(
    typed: seq<Data>,
    buffer: seq<Data>,
    posted: seq<Post>,
    sequence: nat,
    pending: set<nat>,
    checkpoints: map<nat, bool>,
    ready: bool,
    closed: bool,
    stopping: bool,
    exited: bool,
    inGate: bool,
    spawned: bool,
    alive: bool,
    work: set<nat>,
    acks: set<nat>)

  const CREATED := Terminal([], [], [], 0, {}, map[], false, false, false, false, true, false, false, {}, {})

  /** A checkpoint asked for by the host, or by a terminal's worker on behalf of one of its inputs. */
  datatype Request = External | From(terminal: Tid, id: nat, inputId: nat)

  datatype Phase = Waiting | Running | Settled

  datatype Op = Op(request: Request, phase: Phase)

  /** `chain` is the promise chain of `queue`: each operation waits for the one before it. */
  datatype State = State(terminals: map<Tid, Terminal>, active: bool, chain: seq<Op>)

  // --- handlers -------------------------------------------------------------------------------------

  function Busy(t: Terminal): bool {
    t.stopping || t.pending != {}
  }

  function PostOne(t: Terminal, d: Data): Terminal {
    var id := t.sequence + 1;
    t.(sequence := id, pending := t.pending + {id}, posted := t.posted + [Post(id, d)], work := if t.alive then t.work + {id} else t.work)
  }

  function PostAll(t: Terminal, ds: seq<Data>): Terminal {
    if ds == [] then t else PostOne(PostAll(t, ds[..|ds| - 1]), ds[|ds| - 1])
  }

  function FlushInput(t: Terminal, active: bool): Terminal {
    if !t.ready || t.closed || active then t else PostAll(t, t.buffer).(buffer := [])
  }

  function HandleInput(t: Terminal, d: Data, active: bool): Terminal {
    if t.closed then t else FlushInput(t.(buffer := t.buffer + [d], typed := t.typed + [d]), active)
  }

  function ReleaseGate(t: Terminal): Terminal {
    t.(checkpoints := map id | id in t.checkpoints :: true, stopping := false, pending := {}, inGate := false)
  }

  function Close(t: Terminal): Terminal {
    if t.closed then t
    else
      var u := t.(closed := true, buffer := []);
      if t.spawned && !t.exited then u.(stopping := true) else ReleaseGate(u)
  }

  /** Whether a checkpoint may start: nobody is busy but the requesting command. */
  predicate Admitted(s: State, r: Request) {
    && (r.From? ==>
          && r.terminal in s.terminals
          && var t := s.terminals[r.terminal]; t.inGate && !t.closed && !t.stopping && r.inputId in t.pending)
    && forall i :: i in s.terminals && s.terminals[i].inGate ==>
         var t := s.terminals[i];
         if r.From? && r.terminal == i then !t.stopping && t.pending <= {r.inputId} else !Busy(t)
  }

  function Dismiss(s: State, r: Request): State {
    if r.From? && r.terminal in s.terminals then
      s.(terminals := s.terminals[r.terminal := s.terminals[r.terminal].(checkpoints := s.terminals[r.terminal].checkpoints - {r.id})])
    else s
  }

  function FlushAll(s: State): State {
    s.(terminals := map i | i in s.terminals :: if s.terminals[i].inGate then FlushInput(s.terminals[i], s.active) else s.terminals[i])
  }

  // --- steps --------------------------------------------------------------------------------------------

  /** What happens at one terminal: host calls, messages from its worker, and what the worker itself does. */
  datatype Act =
    | Open
    | WorkerReady
    | Input(data: Data)
    | Done(id: nat)
    | Ask(id: nat, inputId: nat)
    | Completed(id: nat)
    | CloseTerminal
    | Terminated
    | WorkerExit
    | CommandEnds(id: nat)
    | WorkerDies

  /** Operation `k` of the chain starts, or finishes. */
  datatype Event = Create(i: Tid) | Enqueue | Start(k: nat) | Finish(k: nat) | At(i: Tid, act: Act)

  predicate Possible(t: Terminal, a: Act) {
    match a
    case WorkerReady => t.spawned
    case Done(id) => id in t.acks
    case Ask(_, _) => t.spawned
    case Terminated => t.spawned && t.closed && !t.alive
    case WorkerExit => t.spawned && !t.alive
    case CommandEnds(id) => id in t.work
    case WorkerDies => t.alive
    case _ => true
  }

  function Local(t: Terminal, a: Act, active: bool): Terminal {
    match a
    case Open => if t.spawned || t.closed then t else t.(spawned := true, alive := true)
    case WorkerReady => FlushInput(t.(ready := true), active)
    case Input(d) => HandleInput(t, d, active)
    case Done(id) => t.(acks := t.acks - {id}, pending := t.pending - {id})
    case Ask(id, _) => if id in t.checkpoints then t else t.(checkpoints := t.checkpoints[id := false])
    case Completed(id) => if id in t.checkpoints then t.(checkpoints := t.checkpoints[id := true]) else t
    case CloseTerminal => Close(t)
    case Terminated => ReleaseGate(t)
    case WorkerExit => ReleaseGate(Close(t.(exited := true)))
    case CommandEnds(id) => t.(work := t.work - {id}, acks := t.acks + {id})
    case WorkerDies => t.(alive := false, work := {})
  }

  function Asked(i: Tid, t: Terminal, a: Act): seq<Op> {
    match a
    case Ask(id, inputId) => if id in t.checkpoints then [] else [Op(From(i, id, inputId), Waiting)]
    case _ => []
  }

  /** The running operation may end: a terminal's once its worker reported completion or was released. */
  predicate MayFinish(s: State, r: Request) {
    r.From? && r.terminal in s.terminals && r.id in s.terminals[r.terminal].checkpoints ==> s.terminals[r.terminal].checkpoints[r.id]
  }

  predicate Enabled(s: State, e: Event) {
    match e
    case Create(i) => i !in s.terminals
    case Enqueue => true
    case Start(k) => k < |s.chain| && s.chain[k].phase == Waiting && (k > 0 ==> s.chain[k - 1].phase == Settled)
    case Finish(k) => k < |s.chain| && s.chain[k].phase == Running && MayFinish(s, s.chain[k].request)
    case At(i, a) => i in s.terminals && Possible(s.terminals[i], a)
  }

  function Step(s: State, e: Event): State
    requires Enabled(s, e)
  {
    match e
    case Create(i) => s.(terminals := s.terminals[i := CREATED])
    case Enqueue => s.(chain := s.chain + [Op(External, Waiting)])
    case Start(k) =>
      var r := s.chain[k].request;
      if Admitted(s, r) then s.(active := true, chain := s.chain[k := Op(r, Running)])
      else Dismiss(s, r).(chain := s.chain[k := Op(r, Settled)])
    case Finish(k) =>
      var r := s.chain[k].request;
      FlushAll(Dismiss(s, r).(active := false, chain := s.chain[k := Op(r, Settled)]))
    case At(i, a) =>
      s.(terminals := s.terminals[i := Local(s.terminals[i], a, s.active)], chain := s.chain + Asked(i, s.terminals[i], a))
  }

  // --- the invariant ------------------------------------------------------------------------------------

  function DataOf(ps: seq<Post>): seq<Data> {
    seq(|ps|, k requires 0 <= k < |ps| => ps[k].data)
  }

  /** What holds of every terminal at all times. */
  ghost predicate Sane(t: Terminal, active: bool) {
    && (t.exited || !t.inGate ==> t.closed && !t.alive) && (t.alive || t.ready ==> t.spawned) && (!t.alive ==> t.work == {})
    && (t.closed && t.inGate ==> t.stopping)
    && |t.posted| == t.sequence && (forall k :: 0 <= k < |t.posted| ==> t.posted[k].id == k + 1)
    && (forall id :: id in t.pending || id in t.work || id in t.acks ==> 1 <= id <= t.sequence)
    && t.work !! t.acks && (t.inGate ==> t.work <= t.pending)
    && (if t.closed then t.buffer == [] && DataOf(t.posted) <= t.typed else DataOf(t.posted) + t.buffer == t.typed)
    && (t.ready && !active ==> t.buffer == [])
  }

  /** Operations settle in order, and one runs exactly while `checkpointActive`. */
  ghost predicate Chained(s: State) {
    && (forall i, j :: 0 <= i < j < |s.chain| && s.chain[j].phase != Waiting ==> s.chain[i].phase == Settled)
    && (s.active <==> exists k :: 0 <= k < |s.chain| && s.chain[k].phase == Running)
  }

  /** Unacknowledged inputs that operation `r` tolerates at terminal `i`. */
  function Tolerated(r: Request, i: Tid): set<nat> {
    if r.From? && r.terminal == i then {r.inputId} else {}
  }

  ghost predicate Quiet(s: State) {
    forall k, i :: 0 <= k < |s.chain| && s.chain[k].phase == Running && i in s.terminals && s.terminals[i].inGate ==>
      s.terminals[i].pending <= Tolerated(s.chain[k].request, i)
  }

  ghost predicate Invariant(s: State) {
    Chained(s) && Quiet(s) && forall i :: i in s.terminals ==> Sane(s.terminals[i], s.active)
  }

  // --- what each handler keeps --------------------------------------------------------------------------

  lemma PostOneSane(t: Terminal, d: Data, rest: seq<Data>)
    requires !t.closed && t.buffer == [d] + rest && Sane(t, true)
    ensures Sane(PostOne(t, d).(buffer := rest), true)
  {
    var u := PostOne(t, d);
    assert DataOf(u.posted) == DataOf(t.posted) + [d];
    assert DataOf(t.posted) + ([d] + rest) == DataOf(t.posted) + [d] + rest;
    hide DataOf;
  }

  lemma {:induction false} PostAllSane(t: Terminal, n: nat)
    requires !t.closed && n <= |t.buffer| && Sane(t, true)
    ensures Sane(PostAll(t, t.buffer[..n]).(buffer := t.buffer[n..]), true) && !PostAll(t, t.buffer[..n]).closed
    decreases n
  {
    if n == 0 {
      assert t.buffer[..0] == [] && t.buffer[0..] == t.buffer;
      assert t.(buffer := t.buffer) == t;
    } else {
      PostAllSane(t, n - 1);
      var ds := t.buffer[..n];
      assert ds[..n - 1] == t.buffer[..n - 1] && ds[n - 1] == t.buffer[n - 1];
      var u := PostAll(t, ds[..n - 1]);
      assert t.buffer[n - 1..] == [ds[n - 1]] + t.buffer[n..];
      PostOneSane(u.(buffer := t.buffer[n - 1..]), ds[n - 1], t.buffer[n..]);
      assert PostOne(u.(buffer := t.buffer[n - 1..]), ds[n - 1]).(buffer := t.buffer[n..]) == PostOne(u, ds[n - 1]).(buffer := t.buffer[n..]);
      hide Sane;
    }
  }

  lemma FlushSane(t: Terminal, active: bool)
    requires Sane(t, true)
    ensures Sane(FlushInput(t, active), active)
  {
    if t.ready && !t.closed && !active {
      PostAllSane(t, |t.buffer|);
      assert t.buffer[..|t.buffer|] == t.buffer && t.buffer[|t.buffer|..] == [];
      hide PostAll, DataOf;
    }
  }

  lemma ReleaseSane(t: Terminal, active: bool)
    requires Sane(t, active) && t.closed && !t.alive
    ensures Sane(ReleaseGate(t), active)
  {
    hide DataOf;
  }

  lemma CloseSane(t: Terminal, active: bool)
    requires Sane(t, active)
    ensures Close(t).closed && Close(t).alive == t.alive && Sane(Close(t), active)
  {
    hide DataOf;
  }

  lemma InputSane(t: Terminal, d: Data, active: bool)
    requires Sane(t, active)
    ensures Sane(HandleInput(t, d, active), active)
  {
    if !t.closed {
      var u := t.(buffer := t.buffer + [d], typed := t.typed + [d]);
      assert DataOf(u.posted) + (t.buffer + [d]) == DataOf(t.posted) + t.buffer + [d];
      hide DataOf;
      FlushSane(u, active);
    }
  }

  lemma LocalSane(t: Terminal, a: Act, active: bool)
    requires Sane(t, active) && Possible(t, a)
    ensures Sane(Local(t, a, active), active)
  {
    match a
    case WorkerReady => FlushSane(t.(ready := true), active);
    case Input(d) => InputSane(t, d, active);
    case CloseTerminal => CloseSane(t, active);
    case Terminated => ReleaseSane(t, active);
    case WorkerExit =>
      CloseSane(t, active);
      ReleaseSane(Close(t), active);
      ExitIsRelease(t);
      hide Close, ReleaseGate, DataOf;
    case _ => hide DataOf;
  }

  /** A worker's exit closes the terminal and releases the gate. */
  lemma ExitIsRelease(t: Terminal)
    ensures ReleaseGate(Close(t.(exited := true))) == ReleaseGate(Close(t)).(exited := true)
  {
  }

  lemma FlushFrozen(t: Terminal)
    ensures FlushInput(t, true) == t
  {
  }

  /** While a checkpoint runs no handler posts an input, and none adds a pending one. */
  lemma LocalFrozen(t: Terminal, a: Act)
    ensures Local(t, a, true).posted == t.posted && Local(t, a, true).pending <= t.pending && (Local(t, a, true).inGate ==> t.inGate)
  {
    hide FlushInput, PostAll;
    match a
    case WorkerReady => FlushFrozen(t.(ready := true));
    case Input(d) => FlushFrozen(t.(buffer := t.buffer + [d], typed := t.typed + [d]));
    case _ =>
  }

  // --- what each step keeps ------------------------------------------------------------------------------------

  lemma DismissSane(s: State, r: Request, active: bool)
    requires forall i :: i in s.terminals ==> Sane(s.terminals[i], active)
    ensures Dismiss(s, r).chain == s.chain && Dismiss(s, r).active == s.active && Dismiss(s, r).terminals.Keys == s.terminals.Keys
    ensures forall i :: i in s.terminals ==>
      var t := Dismiss(s, r).terminals[i]; Sane(t, active) && t.pending == s.terminals[i].pending && t.inGate == s.terminals[i].inGate
  {
    forall i, id: nat | i in s.terminals
      ensures Sane(s.terminals[i].(checkpoints := s.terminals[i].checkpoints - {id}), active)
    {
      CheckpointsApart(s.terminals[i], s.terminals[i].checkpoints - {id}, active);
    }
    hide Sane;
  }

  lemma CheckpointsApart(t: Terminal, checkpoints: map<nat, bool>, active: bool)
    requires Sane(t, active)
    ensures Sane(t.(checkpoints := checkpoints), active)
  {
    hide DataOf;
  }

  lemma StepChained(s: State, e: Event)
    requires Chained(s) && Enabled(s, e)
    ensures Chained(Step(s, e))
  {
    hide Admitted, Local, MayFinish, Possible;
    var u := Step(s, e);
    match e
    case Start(k) =>
      StartAlone(s, k);
      if Admitted(s, s.chain[k].request) { assert u.chain[k].phase == Running; }
    case Finish(k) =>
      assert forall i :: 0 <= i < |s.chain| && i != k ==> s.chain[i].phase != Running;
    case Enqueue => assert forall i :: 0 <= i < |s.chain| ==> u.chain[i] == s.chain[i];
    case At(i, a) => assert forall k :: 0 <= k < |s.chain| ==> u.chain[k] == s.chain[k];
    case _ =>
  }

  /** The operation that may start finds every earlier one settled and every later one waiting. */
  lemma StartAlone(s: State, k: nat)
    requires Chained(s) && k < |s.chain| && s.chain[k].phase == Waiting && (k > 0 ==> s.chain[k - 1].phase == Settled)
    ensures !s.active && (forall i :: 0 <= i < k ==> s.chain[i].phase == Settled) && forall i :: k <= i < |s.chain| ==> s.chain[i].phase == Waiting
  {
  }

  lemma StepQuiet(s: State, e: Event)
    requires Invariant(s) && Enabled(s, e)
    ensures Quiet(Step(s, e))
  {
    hide Sane, FlushInput, Local, Possible, Dismiss;
    var u := Step(s, e);
    match e
    case Start(k) =>
      StartAlone(s, k);
      DismissSane(s, s.chain[k].request, s.active);
    case Finish(k) =>
      assert forall i :: 0 <= i < |s.chain| && i != k ==> s.chain[i].phase != Running;
      hide FlushAll;
    case At(i, a) =>
      assert forall k :: 0 <= k < |s.chain| ==> u.chain[k] == s.chain[k];
      if s.active { LocalFrozen(s.terminals[i], a); }
    case _ =>
  }

  lemma StepSane(s: State, e: Event, i: Tid)
    requires Invariant(s) && Enabled(s, e) && i in Step(s, e).terminals
    ensures Sane(Step(s, e).terminals[i], Step(s, e).active)
  {
    match e
    case Create(j) => assert DataOf([]) == [];
    case Enqueue =>
    case Start(k) =>
      StartAlone(s, k);
      DismissSane(s, s.chain[k].request, s.active);
      if Admitted(s, s.chain[k].request) { SaneActive(s.terminals[i]); }
    case Finish(k) =>
      SaneActive(s.terminals[i]);
      assert s.active;
      DismissSane(s, s.chain[k].request, true);
      var t := Dismiss(s, s.chain[k].request).terminals[i];
      FlushSane(t, false);
      ReleasedSane(t);
      hide Sane, Dismiss, FlushInput;
    case At(j, a) =>
      if i == j { LocalSane(s.terminals[i], a, s.active); }
      hide Sane, Local, Possible;
  }

  lemma SaneActive(t: Terminal)
    ensures Sane(t, false) ==> Sane(t, true)
  {
    hide DataOf;
  }

  lemma ReleasedSane(t: Terminal)
    requires Sane(t, true)
    ensures !t.inGate ==> Sane(t, false)
  {
    hide DataOf;
  }

  lemma StepKeeps(s: State, e: Event)
    requires Invariant(s) && Enabled(s, e)
    ensures Invariant(Step(s, e))
  {
    StepChained(s, e);
    StepQuiet(s, e);
    forall i | i in Step(s, e).terminals ensures Sane(Step(s, e).terminals[i], Step(s, e).active) { StepSane(s, e, i); }
    hide Step, Sane, Chained, Quiet;
  }

  // --- every run ------------------------------------------------------------------------------------------------

  const START := State(map[], false, [])

  /** The state after a sequence of events, each possible when it happens. */
  function Run(s: State, events: seq<Event>): Option<State> {
    if events == [] then Some(s)
    else match Run(s, events[..|events| - 1])
      case None => None
      case Some(u) => if Enabled(u, events[|events| - 1]) then Some(Step(u, events[|events| - 1])) else None
  }

  lemma {:induction false} RunKeeps(events: seq<Event>, s: State)
    requires Run(START, events) == Some(s)
    ensures Invariant(s)
    decreases |events|
  {
    hide Enabled, Step, Sane;
    if events != [] {
      var u := Run(START, events[..|events| - 1]).value;
      RunKeeps(events[..|events| - 1], u);
      hide Invariant;
      StepKeeps(u, events[|events| - 1]);
    }
  }

  /** While a checkpoint runs, it is the only one, and no live worker is running a command but the one that asked for it. */
  lemma CheckpointAlone(events: seq<Event>, s: State, k: nat)
    requires Run(START, events) == Some(s) && k < |s.chain| && s.chain[k].phase == Running
    ensures s.active && forall j :: 0 <= j < |s.chain| && s.chain[j].phase == Running ==> j == k
    ensures forall i :: i in s.terminals && s.terminals[i].alive ==> s.terminals[i].inGate && s.terminals[i].work <= Tolerated(s.chain[k].request, i)
  {
    RunKeeps(events, s);
    hide DataOf;
    forall i | i in s.terminals && s.terminals[i].alive
      ensures s.terminals[i].inGate && s.terminals[i].work <= Tolerated(s.chain[k].request, i)
    {
      assert Sane(s.terminals[i], s.active);
    }
  }

  /** No input reaches a worker between the start of a checkpoint and its end. */
  lemma NothingPosted(s: State, e: Event, i: Tid)
    requires Enabled(s, e) && s.active && Step(s, e).active && i in s.terminals
    ensures i in Step(s, e).terminals && Step(s, e).terminals[i].posted == s.terminals[i].posted
  {
    match e
    case At(j, a) => LocalFrozen(s.terminals[j], a); hide Local;
    case _ => hide FlushAll;
  }

  /** Inputs of an open terminal are posted in the order typed, and none waits while the worker is ready and no checkpoint runs. */
  lemma InputsInOrder(events: seq<Event>, s: State, i: Tid)
    requires Run(START, events) == Some(s) && i in s.terminals
    ensures var t := s.terminals[i];
      && (!t.closed ==> DataOf(t.posted) + t.buffer == t.typed && (t.ready && !s.active ==> DataOf(t.posted) == t.typed))
      && DataOf(t.posted) <= t.typed && forall k :: 0 <= k < |t.posted| ==> t.posted[k].id == k + 1
  {
    RunKeeps(events, s);
    var t := s.terminals[i];
    assert Sane(t, s.active);
    assert t.buffer == [] ==> DataOf(t.posted) + t.buffer == DataOf(t.posted);
  }

  /** A terminal leaves the gate only after its worker is dead; until then every running command stays pending. */
  lemma NeverDroppedAlive(events: seq<Event>, s: State, i: Tid)
    requires Run(START, events) == Some(s) && i in s.terminals && s.terminals[i].alive
    ensures s.terminals[i].inGate && s.terminals[i].work <= s.terminals[i].pending
  {
    RunKeeps(events, s);
    assert Sane(s.terminals[i], s.active);
    hide DataOf;
  }

  // --- what a checkpoint waits for ------------------------------------------------------------------------------

  function DoneAt(e: Event, i: Tid): set<nat> {
    if e.At? && e.act.Done? && e.i == i then {e.act.id} else {}
  }

  /** The inputs of terminal `i` that its worker has acknowledged. */
  function Acknowledged(events: seq<Event>, i: Tid): set<nat> {
    if events == [] then {} else Acknowledged(events[..|events| - 1], i) + DoneAt(events[|events| - 1], i)
  }

  /** In the gate a terminal is pending exactly on what it posted and has not heard of. */
  ghost predicate Awaits(t: Terminal, acknowledged: set<nat>) {
    && (forall id :: id in acknowledged ==> 1 <= id <= t.sequence)
    && (t.inGate ==> forall id :: id in t.pending <==> 1 <= id <= t.sequence && id !in acknowledged)
  }

  lemma {:induction false} PostAllAwaits(t: Terminal, ds: seq<Data>, acknowledged: set<nat>)
    requires Awaits(t, acknowledged)
    ensures Awaits(PostAll(t, ds), acknowledged)
  {
    if ds != [] { PostAllAwaits(t, ds[..|ds| - 1], acknowledged); }
  }

  lemma FlushAwaits(t: Terminal, active: bool, acknowledged: set<nat>)
    requires Awaits(t, acknowledged)
    ensures Awaits(FlushInput(t, active), acknowledged)
  {
    PostAllAwaits(t, t.buffer, acknowledged);
    hide PostAll;
  }

  lemma LocalAwaits(t: Terminal, a: Act, active: bool, acknowledged: set<nat>)
    requires Sane(t, active) && Possible(t, a) && Awaits(t, acknowledged)
    ensures Awaits(Local(t, a, active), acknowledged + if a.Done? then {a.id} else {})
  {
    hide PostAll, FlushInput, DataOf;
    match a
    case WorkerReady => FlushAwaits(t.(ready := true), active, acknowledged);
    case Input(d) => FlushAwaits(t.(buffer := t.buffer + [d], typed := t.typed + [d]), active, acknowledged);
    case _ =>
  }

  lemma DismissKeys(s: State, r: Request)
    ensures Dismiss(s, r).terminals.Keys == s.terminals.Keys
  {
  }

  lemma DismissAwaits(s: State, r: Request, i: Tid, acknowledged: set<nat>)
    requires i in s.terminals && Awaits(s.terminals[i], acknowledged)
    ensures i in Dismiss(s, r).terminals && Awaits(Dismiss(s, r).terminals[i], acknowledged)
  {
  }

  lemma FinishAwaits(s: State, k: nat, i: Tid, acknowledged: set<nat>)
    requires Enabled(s, Finish(k)) && i in Step(s, Finish(k)).terminals && (i in s.terminals ==> Awaits(s.terminals[i], acknowledged))
    ensures i in s.terminals && Awaits(Step(s, Finish(k)).terminals[i], acknowledged)
  {
    DismissKeys(s, s.chain[k].request);
    DismissAwaits(s, s.chain[k].request, i, acknowledged);
    FlushAwaits(Dismiss(s, s.chain[k].request).terminals[i], false, acknowledged);
    hide FlushInput, Dismiss, Awaits, MayFinish;
  }

  lemma StartAwaits(s: State, k: nat, i: Tid, acknowledged: set<nat>)
    requires Enabled(s, Start(k)) && i in Step(s, Start(k)).terminals && (i in s.terminals ==> Awaits(s.terminals[i], acknowledged))
    ensures i in s.terminals && Awaits(Step(s, Start(k)).terminals[i], acknowledged)
  {
    DismissKeys(s, s.chain[k].request);
    DismissAwaits(s, s.chain[k].request, i, acknowledged);
    hide Dismiss, Awaits, Admitted;
  }

  lemma StepAwaits(s: State, e: Event, i: Tid, acknowledged: set<nat>)
    requires Invariant(s) && Enabled(s, e) && i in Step(s, e).terminals
    requires if i in s.terminals then Awaits(s.terminals[i], acknowledged) else acknowledged == {}
    ensures Awaits(Step(s, e).terminals[i], acknowledged + DoneAt(e, i))
  {
    hide Local, Possible, Sane, Admitted, FlushAll, Dismiss, MayFinish, Chained, Quiet;
    match e
    case Finish(k) => FinishAwaits(s, k, i, acknowledged);
    case Start(k) => StartAwaits(s, k, i, acknowledged);
    case At(j, a) => if i == j { LocalAwaits(s.terminals[i], a, s.active, acknowledged); }
    case _ =>
  }

  /** At every time of every run: an input counts as running from its posting to its acknowledgement. */
  lemma {:induction false} PendingIs(events: seq<Event>, s: State, i: Tid)
    requires Run(START, events) == Some(s)
    ensures if i in s.terminals then Awaits(s.terminals[i], Acknowledged(events, i)) else Acknowledged(events, i) == {}
    decreases |events|
  {
    hide Enabled, Step, Awaits, Possible;
    if events != [] {
      var u := Run(START, events[..|events| - 1]).value;
      var e := events[|events| - 1];
      RunKeeps(events[..|events| - 1], u);
      PendingIs(events[..|events| - 1], u, i);
      if i in Step(u, e).terminals { StepAwaits(u, e, i, Acknowledged(events[..|events| - 1], i)); } else { NeverThere(u, e, i); }
    }
  }

  lemma NeverThere(s: State, e: Event, i: Tid)
    requires Enabled(s, e) && i !in Step(s, e).terminals
    ensures i !in s.terminals && DoneAt(e, i) == {}
  {
    hide Local, FlushInput, Admitted;
  }

  /** Input `id` of terminal `i` was posted, and its worker has not acknowledged it. */
  ghost predicate Unacknowledged(events: seq<Event>, s: State, i: Tid, id: nat)
    requires i in s.terminals
  {
    1 <= id <= s.terminals[i].sequence && id !in Acknowledged(events, i)
  }

  /** No terminal in the gate is stopping or runs a command, but the one command that asked. */
  ghost predicate AllQuiet(events: seq<Event>, s: State, r: Request) {
    forall i :: i in s.terminals && s.terminals[i].inGate ==>
      !s.terminals[i].stopping && forall id :: Unacknowledged(events, s, i, id) ==> r.From? && r.terminal == i && id == r.inputId
  }

  /** The asking command is still running in an open terminal. */
  ghost predicate StillAsked(events: seq<Event>, s: State, r: Request) {
    r.From? ==>
      && r.terminal in s.terminals && s.terminals[r.terminal].inGate && !s.terminals[r.terminal].closed
      && Unacknowledged(events, s, r.terminal, r.inputId)
  }

  /** The next operation runs if and only if everything else has been acknowledged; otherwise it is refused at once. */
  lemma AdmittedIff(events: seq<Event>, s: State, k: nat)
    requires Run(START, events) == Some(s) && Enabled(s, Start(k))
    ensures var r, u := s.chain[k].request, Step(s, Start(k));
      && k < |u.chain| && u.chain[k] == Op(r, if AllQuiet(events, s, r) && StillAsked(events, s, r) then Running else Settled)
      && (u.chain[k].phase == Running <==> u.active)
  {
    var r := s.chain[k].request;
    forall i | i in s.terminals && s.terminals[i].inGate
      ensures forall id :: id in s.terminals[i].pending <==> Unacknowledged(events, s, i, id)
    {
      PendingIs(events, s, i);
    }
    RunKeeps(events, s);
    StartAlone(s, k);
    hide Run, Acknowledged, Sane, DataOf, Unacknowledged;
    AdmittedMeans(events, s, r);
    hide Admitted, AllQuiet, StillAsked;
  }

  lemma AdmittedMeans(events: seq<Event>, s: State, r: Request)
    requires forall i :: i in s.terminals && s.terminals[i].inGate ==> forall id :: id in s.terminals[i].pending <==> Unacknowledged(events, s, i, id)
    ensures Admitted(s, r) <==> AllQuiet(events, s, r) && StillAsked(events, s, r)
  {
    hide Unacknowledged;
  }

  // --- when a terminal's checkpoint ends --------------------------------------------------------------------------

  /** The terminal hears that no worker is left: it was stopped, it exited, or there never was one. */
  predicate WorkerGone(t: Terminal, a: Act) {
    a.Terminated? || a.WorkerExit? || (a.CloseTerminal? && !t.closed && (!t.spawned || t.exited))
  }

  /** A checkpoint that a command has just asked for may not end yet. */
  lemma AskedIsHeld(s: State, i: Tid, id: nat, inputId: nat)
    requires Enabled(s, At(i, Ask(id, inputId))) && id !in s.terminals[i].checkpoints
    ensures var u := Step(s, At(i, Ask(id, inputId)));
      u.chain == s.chain + [Op(From(i, id, inputId), Waiting)] && !MayFinish(u, From(i, id, inputId))
  {
  }

  /** It is held until its worker reports completion or is gone, and no longer. */
  lemma HeldUntilCompleted(s: State, e: Event, r: Request)
    requires Enabled(s, e) && r.From? && r.terminal in s.terminals && !MayFinish(s, r)
    requires e.Start? || e.Finish? ==> var q := s.chain[e.k].request; !(q.From? && q.terminal == r.terminal && q.id == r.id)
    ensures MayFinish(Step(s, e), r) <==> e.At? && e.i == r.terminal && (e.act == Completed(r.id) || WorkerGone(s.terminals[r.terminal], e.act))
  {
    hide Admitted, Possible;
    match e
    case At(j, a) => if j == r.terminal { HeldLocally(s.terminals[j], a, s.active, r.id); } hide Local;
    case Finish(k) => FlushesHold(s, k, r); hide FlushAll;
    case _ =>
  }

  lemma FlushKeepsCheckpoints(t: Terminal, active: bool)
    ensures FlushInput(t, active).checkpoints == t.checkpoints
  {
    PostAllKeepsCheckpoints(t, t.buffer);
    hide PostAll;
  }

  lemma {:induction false} PostAllKeepsCheckpoints(t: Terminal, ds: seq<Data>)
    ensures PostAll(t, ds).checkpoints == t.checkpoints
  {
    if ds != [] { PostAllKeepsCheckpoints(t, ds[..|ds| - 1]); }
  }

  lemma HeldLocally(t: Terminal, a: Act, active: bool, id: nat)
    requires id in t.checkpoints && !t.checkpoints[id]
    ensures var u := Local(t, a, active); id in u.checkpoints && (u.checkpoints[id] <==> a == Completed(id) || WorkerGone(t, a))
  {
    hide FlushInput, Close, ReleaseGate, HandleInput;
    match a
    case WorkerReady => FlushKeepsCheckpoints(t.(ready := true), active);
    case Input(d) => InputKeepsCheckpoints(t, d, active);
    case CloseTerminal => CloseHolds(t, id);
    case Terminated => ReleaseFrees(t, id);
    case WorkerExit => ExitFrees(t, id);
    case _ =>
  }

  lemma InputKeepsCheckpoints(t: Terminal, d: Data, active: bool)
    ensures HandleInput(t, d, active).checkpoints == t.checkpoints
  {
    hide FlushInput;
    FlushKeepsCheckpoints(t.(buffer := t.buffer + [d], typed := t.typed + [d]), active);
  }

  lemma ExitFrees(t: Terminal, id: nat)
    requires id in t.checkpoints
    ensures var u := ReleaseGate(Close(t.(exited := true))); id in u.checkpoints && u.checkpoints[id]
  {
  }

  lemma ReleaseFrees(t: Terminal, id: nat)
    ensures id in t.checkpoints ==> id in ReleaseGate(t).checkpoints && ReleaseGate(t).checkpoints[id]
  {
  }

  lemma CloseHolds(t: Terminal, id: nat)
    requires id in t.checkpoints && !t.checkpoints[id]
    ensures id in Close(t).checkpoints && (Close(t).checkpoints[id] <==> !t.closed && (!t.spawned || t.exited))
  {
  }

  lemma FlushesHold(s: State, k: nat, r: Request)
    requires Enabled(s, Finish(k)) && r.From? && r.terminal in s.terminals && !MayFinish(s, r)
    requires var q := s.chain[k].request; !(q.From? && q.terminal == r.terminal && q.id == r.id)
    ensures !MayFinish(Step(s, Finish(k)), r)
  {
    hide FlushInput;
    FlushKeepsCheckpoints(Dismiss(s, s.chain[k].request).terminals[r.terminal], false);
  }
}
