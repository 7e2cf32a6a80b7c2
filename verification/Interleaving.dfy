/** Turns of the loop with the resolver's thread at work anywhere in them, from a cold start: each history of both is a
    run of the whole daemon. */
module Interleaving {
  import opened Hysteresis
  import opened Engine
  import opened ProberInvariant
  import opened EngineInvariant
  import opened Rebuild
  import opened RebuildTheorems
  import opened Resolver
  import opened System
  import opened SystemTheorems
  import opened Loop
  import opened Turns
  import opened Histories
  import opened ReloadIdentity
  import opened LastingVerdicts

  /** How far the loop is in its turn: asleep; the eventfd read and nothing taken yet; signals, file events and results
      handled; replies handled; reloaded if need be, and `i` probers ticked. */
  datatype Phase =
    | Asleep
    | Draining(x: Inputs)
    | Collected(x: Inputs)
    | Heard(x: Inputs)
    | Ticking(x: Inputs, i: nat)

  /** The loop, where it is, the last clock reading, and what the resolver's thread has of its own. */
  datatype Daemon = Daemon(
    loop: Loop, phase: Phase, clock: nat, worker: Worker, completed: seq<Result>, counter: nat,
    lookups: set<(string, Endpoint)>)

  /** The parts of a turn, and the atomic sections of the thread. A turn is woken with its inputs; those of the resolver
      are what is completed by the time that they are taken. */
  datatype Move =
    | Wake(x: Inputs, drains: bool)
    | Collect
    | Hear
    | Load
    | TickNext
    | End
    | Work(step: Step)

  function SystemOf(d: Daemon, clock: nat): System {
    System(d.loop.engine, clock, d.worker, d.completed, d.counter, d.phase.Draining?, d.lookups)
  }

  predicate IsWork(step: Step) {
    step.WorkerPop? || step.WorkerAnswer? || step.WorkerSignal?
  }

  /** When a move can happen: the parts of a turn in their order, and no clock reading before an earlier one. */
  ghost predicate CanMove(d: Daemon, m: Move, numeric: string -> Endpoint) {
    match m
    case Wake(x, drains) =>
      d.phase.Asleep? && d.loop.running && InOrder(x, d.clock) && x.numeric == numeric && (!drains ==> x.results == [])
    case Collect => d.phase.Draining? && d.clock <= d.phase.x.after && d.phase.x.results == d.completed
    case Hear => d.phase.Collected? && d.clock <= d.phase.x.after
    case Load =>
      d.phase.Heard? && d.clock <= d.phase.x.reloadNow && Clamped(d.phase.x.loaded) && Fresh(d.phase.x.loaded)
      && d.phase.x.numeric == numeric
    case TickNext => d.phase.Ticking? && d.phase.i < |d.loop.engine.probers| && d.clock <= d.phase.x.tickNow
    case End => d.phase.Ticking? && d.phase.i == |d.loop.engine.probers| && d.clock <= d.phase.x.publishNow
    case Work(step) => IsWork(step) && Enabled(SystemOf(d, d.clock), step)
  }

  function Woken(l: Loop, x: Inputs): Loop {
    l.(configDirty := l.configDirty || x.hangup || x.watched, running := l.running && !x.terminate)
  }

  function WithWorker(d: Daemon, q: Queues): Daemon {
    d.(loop := d.loop.(engine := d.loop.engine.(pending := q.pending)), worker := q.worker, completed := q.completed,
       counter := q.counter)
  }

  function AfterWork(d: Daemon, step: Step): Daemon
    requires IsWork(step) && Enabled(SystemOf(d, d.clock), step)
  {
    var q := QueuesOf(SystemOf(d, d.clock));
    match step
    case WorkerPop => WithWorker(d, AfterPop(q))
    case WorkerAnswer(answer) =>
      WithWorker(d, AfterLookup(q, answer)).(lookups := d.lookups + {(d.worker.request.host, answer)})
    case WorkerSignal => WithWorker(d, AfterSignal(q))
  }

  function AfterMove(d: Daemon, m: Move, numeric: string -> Endpoint): Daemon
    requires CanMove(d, m, numeric) && Indexed(d.loop.engine) && ProbersClamped(d.loop.engine.probers)
  {
    var l := d.loop;
    match m
    case Wake(x, drains) =>
      var woken := d.(loop := Woken(l, x), clock := x.after);
      if drains then woken.(phase := Draining(x), counter := 0) else woken.(phase := Collected(x))
    case Collect =>
      var x := d.phase.x;
      d.(loop := l.(engine := HandleResolutions(l.engine, x.after, x.results)), completed := [], phase := Collected(x),
         clock := x.after)
    case Hear =>
      var x := d.phase.x;
      if l.running
      then d.(loop := l.(engine := HandleReplies(l.engine, x.after, x.replies)), phase := Heard(x), clock := x.after)
      else d.(phase := Asleep)
    case Load => d.(loop := Reconfigure(l, d.phase.x), phase := Ticking(d.phase.x, 0), clock := d.phase.x.reloadNow)
    case TickNext =>
      var x := d.phase.x;
      d.(loop := l.(engine := TickProber(l.engine, d.phase.i, x.tickNow, x.sockets)),
         phase := Ticking(x, d.phase.i + 1), clock := x.tickNow)
    case End => d.(loop := WindUp(l, d.phase.x), phase := Asleep, clock := d.phase.x.publishNow)
    case Work(step) => AfterWork(d, step)
  }

  /** The step of the whole daemon that a move is, if it touches what that is about. */
  function StepOf(d: Daemon, m: Move, numeric: string -> Endpoint): seq<Step>
    requires CanMove(d, m, numeric)
  {
    match m
    case Wake(x, drains) => if drains then [ReadEvent] else []
    case Collect => [HandleResults(d.phase.x.after)]
    case Hear => if d.loop.running then [Replies(d.phase.x.after, d.phase.x.replies)] else []
    case Load => if d.loop.configDirty then [Configure(d.phase.x.reloadNow, d.phase.x.loaded)] else []
    case TickNext => [TickOne(d.phase.i, d.phase.x.tickNow, d.phase.x.sockets)]
    case End => if WindUp(d.loop, d.phase.x).engine != d.loop.engine then [Published] else []
    case Work(step) => [step]
  }

  ghost predicate Moves(d: Daemon, m: Move, r: Daemon, numeric: string -> Endpoint)
    requires CanMove(d, m, numeric)
  {
    Indexed(d.loop.engine) && ProbersClamped(d.loop.engine.probers) ==> r == AfterMove(d, m, numeric)
  }

  /** It stands for `s`, whose clock may be behind. */
  ghost predicate StandsFor(d: Daemon, s: System, numeric: string -> Endpoint) {
    s == SystemOf(d, s.clock) && s.clock <= d.clock && SystemInv(s, numeric)
  }

  lemma WindUpPublishes(l: Loop, x: Inputs)
    ensures var e := WindUp(l, x).engine; e == l.engine || e == l.engine.(dataDirty := false, stateDirty := false)
  {
  }

  lemma MoveIsStep(d: Daemon, s: System, m: Move, numeric: string -> Endpoint)
    requires StandsFor(d, s, numeric) && CanMove(d, m, numeric) && Indexed(s.engine) && ProbersClamped(s.engine.probers)
    ensures var r, steps := AfterMove(d, m, numeric), StepOf(d, m, numeric);
      if steps == [] then s == SystemOf(r, s.clock) && s.clock <= r.clock
      else
        Enabled(s, steps[0])
        && var t := Next(s, steps[0], numeric); t == SystemOf(r, t.clock) && t.clock <= r.clock
  {
    hide SystemInv, HandleReplies, HandleResolutions, Reload, TickProber, WindUp, Indexed, ProbersClamped, Clamped,
         Fresh;
    if m.End? {
      WindUpPublishes(d.loop, d.phase.x);
    } else if m.Work? {
      WorkIsStep(d, s, m.step, numeric);
    } else {
      hide AfterWork;
    }
  }

  lemma WorkIsStep(d: Daemon, s: System, step: Step, numeric: string -> Endpoint)
    requires StandsFor(d, s, numeric) && IsWork(step) && Enabled(SystemOf(d, d.clock), step)
    requires Indexed(s.engine) && ProbersClamped(s.engine.probers)
    ensures Enabled(s, step)
    ensures var t := Next(s, step, numeric); t == SystemOf(AfterWork(d, step), t.clock) && t.clock <= d.clock
    ensures AfterWork(d, step).clock == d.clock
  {
    hide SystemInv, Indexed, ProbersClamped;
  }

  /** Every move is one step of the whole daemon or none. */
  lemma MoveKeeps(d: Daemon, s: System, m: Move, r: Daemon, numeric: string -> Endpoint) returns (t: System)
    requires StandsFor(d, s, numeric) && CanMove(d, m, numeric) && Moves(d, m, r, numeric)
    ensures Indexed(s.engine) && ProbersClamped(s.engine.probers) && r == AfterMove(d, m, numeric)
    ensures StandsFor(r, t, numeric)
    ensures var steps := StepOf(d, m, numeric);
      if steps == [] then t == s else Enabled(s, steps[0]) && t == Next(s, steps[0], numeric)
  {
    hide SystemInv, Enabled, Next, AfterMove, StepOf, Indexed, ProbersClamped, CanMove;
    Bounds(s, numeric);
    MoveIsStep(d, s, m, numeric);
    var steps := StepOf(d, m, numeric);
    if steps == [] {
      t := s;
    } else {
      StepKeepsSystemInv(s, steps[0], numeric);
      t := Next(s, steps[0], numeric);
    }
  }

  // ---- histories --------------------------------------------------------

  ghost predicate Continues(ds: seq<Daemon>, ms: seq<Move>, numeric: string -> Endpoint) {
    |ds| == |ms| + 1
    && forall k :: 0 <= k < |ms| ==> CanMove(ds[k], ms[k], numeric) && Moves(ds[k], ms[k], ds[k + 1], numeric)
  }

  predicate ColdStart(d: Daemon) {
    d.loop.engine == Start(d.clock).engine && d.loop.running && Remembered(d.loop, d.clock) && d.phase.Asleep?
    && d.worker == Waiting && d.completed == [] && d.counter == 0 && d.lookups == {}
  }

  /** Any moves from a cold start: turns one after another, and the thread's sections anywhere. */
  ghost predicate History(ds: seq<Daemon>, ms: seq<Move>, numeric: string -> Endpoint) {
    Continues(ds, ms, numeric) && ColdStart(ds[0])
  }

  /** A run of the whole daemon has come to `d`. */
  ghost predicate RunReaches(trace: seq<System>, steps: seq<Step>, d: Daemon, numeric: string -> Endpoint) {
    Run(trace, steps, numeric) && |steps| < |trace| && StandsFor(d, trace[|steps|], numeric)
  }

  lemma RunExtends(trace: seq<System>, steps: seq<Step>, step: Step, numeric: string -> Endpoint)
    requires Run(trace, steps, numeric) && |steps| < |trace| && Enabled(trace[|steps|], step)
    requires ProbersClamped(trace[|steps|].engine.probers) && Indexed(trace[|steps|].engine)
    ensures Run(trace + [Next(trace[|steps|], step, numeric)], steps + [step], numeric)
  {
    hide Enabled, Next;
    var longer, more := trace + [Next(trace[|steps|], step, numeric)], steps + [step];
    forall k | 0 <= k < |more|
      ensures Enabled(longer[k], more[k]) && Leads(longer[k], more[k], longer[k + 1], numeric)
    {
      if k < |steps| {
        assert Enabled(trace[k], steps[k]) && Leads(trace[k], steps[k], trace[k + 1], numeric);
      }
    }
  }

  lemma {:induction false} HistorySteps(ds: seq<Daemon>, ms: seq<Move>, numeric: string -> Endpoint, k: nat)
    returns (trace: seq<System>, steps: seq<Step>)
    requires History(ds, ms, numeric) && k < |ds|
    ensures RunReaches(trace, steps, ds[k], numeric)
  {
    hide StandsFor, CanMove, Moves, ColdStart, Run, Enabled, Next, StepOf, AfterMove;
    if k == 0 {
      trace, steps := [Start(ds[0].clock)], [];
      ColdRun(ds[0], numeric);
    } else {
      trace, steps := HistorySteps(ds, ms, numeric, k - 1);
      assert CanMove(ds[k - 1], ms[k - 1], numeric) && Moves(ds[k - 1], ms[k - 1], ds[k], numeric);
      var t := MoveKeeps(ds[k - 1], trace[|steps|], ms[k - 1], ds[k], numeric);
      var step := StepOf(ds[k - 1], ms[k - 1], numeric);
      if step != [] {
        RunExtends(trace, steps, step[0], numeric);
        RunLength(trace, steps, numeric);
        trace, steps := trace + [t], steps + [step[0]];
      }
    }
  }

  lemma RunLength(trace: seq<System>, steps: seq<Step>, numeric: string -> Endpoint)
    requires Run(trace, steps, numeric)
    ensures |trace| == |steps| + 1
  {
  }

  lemma ColdRun(d: Daemon, numeric: string -> Endpoint)
    requires ColdStart(d)
    ensures RunReaches([Start(d.clock)], [], d, numeric)
  {
    StartSound(d.clock, numeric);
    hide SystemInv;
  }

  /** However the parts of the loop's turns and the thread's sections follow one another from a cold start, at every
      point of it some run of the whole daemon has come to the same engine, queues and thread. */
  lemma HistoryIsRun(ds: seq<Daemon>, ms: seq<Move>, numeric: string -> Endpoint, k: nat)
    requires History(ds, ms, numeric) && k < |ds|
    ensures exists trace, steps :: RunReaches(trace, steps, ds[k], numeric)
  {
    hide RunReaches, History;
    var trace, steps := HistorySteps(ds, ms, numeric, k);
  }

  // ---- a turn left alone ------------------------------------------------

  /** These moves can be made one after another, and lead to `r`. */
  ghost predicate LeadsTo(d: Daemon, ms: seq<Move>, r: Daemon, numeric: string -> Endpoint)
    decreases |ms|
  {
    if ms == [] then r == d
    else
      CanMove(d, ms[0], numeric) && Indexed(d.loop.engine) && ProbersClamped(d.loop.engine.probers)
      && LeadsTo(AfterMove(d, ms[0], numeric), ms[1..], r, numeric)
  }

  predicate Alone(ms: seq<Move>) {
    forall k :: 0 <= k < |ms| ==> !ms[k].Work?
  }

  /** The first of some moves. */
  lemma First(d: Daemon, s: System, m: Move, numeric: string -> Endpoint) returns (t: System)
    requires StandsFor(d, s, numeric) && CanMove(d, m, numeric)
    ensures Indexed(d.loop.engine) && ProbersClamped(d.loop.engine.probers)
    ensures StandsFor(AfterMove(d, m, numeric), t, numeric)
    ensures forall ms, r :: LeadsTo(AfterMove(d, m, numeric), ms, r, numeric) ==> LeadsTo(d, [m] + ms, r, numeric)
    ensures !m.Work? ==> forall ms :: Alone(ms) ==> Alone([m] + ms)
  {
    hide CanMove, AfterMove, SystemInv;
    Bounds(s, numeric);
    t := MoveKeeps(d, s, m, AfterMove(d, m, numeric), numeric);
    forall ms, r | LeadsTo(AfterMove(d, m, numeric), ms, r, numeric) ensures LeadsTo(d, [m] + ms, r, numeric) {
      assert ([m] + ms)[1..] == ms;
    }
  }

  /** What a whole turn leaves alone. */
  predicate SameThread(d: Daemon, r: Daemon) {
    r.worker == d.worker && r.lookups == d.lookups && r.completed == d.completed && r.counter == d.counter
  }

  /** A tick from prober `i` on and the end of the turn. */
  lemma {:induction false} TickAlone(d: Daemon, s: System, numeric: string -> Endpoint)
    returns (ms: seq<Move>, r: Daemon)
    requires StandsFor(d, s, numeric) && d.phase.Ticking? && d.phase.i <= |d.loop.engine.probers|
    requires d.clock <= d.phase.x.tickNow <= d.phase.x.publishNow
    ensures LeadsTo(d, ms, r, numeric) && Alone(ms) && r.phase.Asleep? && SameThread(d, r)
    ensures var x := d.phase.x;
      r.loop == WindUp(d.loop.(engine := TickFrom(d.loop.engine, d.phase.i, x.tickNow, x.sockets)), x)
    decreases |d.loop.engine.probers| - d.phase.i
  {
    hide StandsFor, TickProber, LeadsTo, WindUp, Alone;
    if d.phase.i == |d.loop.engine.probers| {
      var t := First(d, s, End, numeric);
      ms, r := [], AfterMove(d, End, numeric);
      Done(r, numeric);
      ms := [End] + ms;
    } else {
      var t := First(d, s, TickNext, numeric);
      ms, r := TickAlone(AfterMove(d, TickNext, numeric), t, numeric);
      ms := [TickNext] + ms;
    }
  }

  lemma Done(r: Daemon, numeric: string -> Endpoint)
    ensures LeadsTo(r, [], r, numeric) && Alone([])
  {
  }

  /** From the handling of replies on. */
  lemma HearAlone(d: Daemon, s: System, numeric: string -> Endpoint) returns (ms: seq<Move>, r: Daemon)
    requires StandsFor(d, s, numeric) && d.phase.Collected? && d.phase.x.numeric == numeric
    requires InOrder(d.phase.x, d.clock) && Clamped(d.phase.x.loaded) && Fresh(d.phase.x.loaded)
    ensures LeadsTo(d, ms, r, numeric) && Alone(ms) && r.phase.Asleep? && SameThread(d, r)
    ensures Indexed(d.loop.engine) && ProbersClamped(d.loop.engine.probers)
    ensures var x := d.phase.x;
      if !d.loop.running then r.loop == d.loop
      else
        var heard := d.loop.(engine := HandleReplies(d.loop.engine, x.after, x.replies));
        ProbersClamped(heard.engine.probers) && r.loop == Finish(Reconfigure(heard, x), x)
  {
    hide StandsFor, TickFrom, LeadsTo, HandleReplies, Reload, WindUp, Alone, Indexed, ProbersClamped, Clamped, Fresh;
    var t := First(d, s, Hear, numeric);
    var d1 := AfterMove(d, Hear, numeric);
    if d.loop.running {
      t := First(d1, t, Load, numeric);
      var d2 := AfterMove(d1, Load, numeric);
      ms, r := TickAlone(d2, t, numeric);
      ms := [Load] + ms;
    } else {
      ms, r := [], d1;
      Done(r, numeric);
    }
    ms := [Hear] + ms;
  }

  /** A turn that the thread leaves alone is the `Turn` of the loop. */
  lemma TurnAlone(d: Daemon, s: System, x: Inputs, drains: bool, numeric: string -> Endpoint)
    returns (ms: seq<Move>, r: Daemon)
    requires StandsFor(d, s, numeric) && d.phase.Asleep? && d.loop.running && x.numeric == numeric
    requires InOrder(x, d.clock) && Clamped(x.loaded) && Fresh(x.loaded) && Brings(x, drains, d.completed)
    ensures Indexed(d.loop.engine) && ProbersClamped(Receive(d.loop, x).engine.probers)
    ensures LeadsTo(d, ms, r, numeric) && Alone(ms) && r.phase.Asleep? && r.loop == Turn(d.loop, x)
    ensures r.worker == d.worker && r.lookups == d.lookups
    ensures if drains then r.completed == [] && r.counter == 0
            else r.completed == d.completed && r.counter == d.counter
  {
    hide StandsFor, LeadsTo, HandleReplies, HandleResolutions, Reload, Finish, Alone, Indexed, ProbersClamped, Clamped,
         Fresh;
    var t := First(d, s, Wake(x, drains), numeric);
    var d1 := AfterMove(d, Wake(x, drains), numeric);
    if drains {
      t := First(d1, t, Collect, numeric);
      var d2 := AfterMove(d1, Collect, numeric);
      ms, r := HearAlone(d2, t, numeric);
      ms := [Collect] + ms;
    } else {
      NoResults(d.loop.engine, x.after);
      ms, r := HearAlone(d1, t, numeric);
    }
    ms := [Wake(x, drains)] + ms;
  }

  // ---- what holds in the loop -------------------------------------------

  /** Every number up to `sequence` of every prober is in flight or has one verdict, and nothing ever has two. */
  ghost predicate Conserved(e: State) {
    (forall uid, n :: Verdicts(e.log, uid, n) <= 1)
    && forall i, n: nat :: 0 <= i < |e.probers| ==>
        Verdicts(e.log, e.probers[i].uid, n) + One(Flying(e.probers[i], n)) == One(1 <= n <= e.probers[i].sequence)
  }

  ghost predicate WithinRate(e: State, p: Prober, now: nat) {
    p.uid in e.born && (Attempts(p, e.log) - 1) * p.intervalUs <= now - e.born[p.uid] + SEND_SLACK_US
  }

  /** It is resolving exactly if one request of its own is waiting, running or completed, and its endpoint comes from a
      lookup of its own host. */
  ghost predicate ResolvesOwn(d: Daemon, p: Prober, numeric: string -> Endpoint) {
    var out := Outstanding(d.loop.engine.pending, d.worker, d.completed);
    (p.resolving <==> exists j :: 0 <= j < |out| && out[j].uid == p.uid)
    && (forall a, b :: 0 <= a < |out| && 0 <= b < |out| && out[a].uid == p.uid && out[b].uid == p.uid ==> a == b)
    && (forall j :: 0 <= j < |out| && out[j].uid == p.uid ==> out[j].host == p.host)
    && (p.endpoint.Endpoint? ==> (p.host, p.endpoint) in d.lookups || (p.numeric && p.endpoint == numeric(p.host)))
  }

  lemma RunIsConserved(trace: seq<System>, steps: seq<Step>, numeric: string -> Endpoint, k: nat)
    requires Run(trace, steps, numeric) && k < |trace|
    ensures Conserved(trace[k].engine)
  {
    hide Run, Verdicts, Flying;
    RunConserves(trace, steps, numeric, k);
  }

  lemma RunIsWithinRate(trace: seq<System>, steps: seq<Step>, numeric: string -> Endpoint, k: nat, i: nat, now: nat)
    requires Run(trace, steps, numeric) && k < |trace| && i < |trace[k].engine.probers| && trace[k].clock <= now
    ensures WithinRate(trace[k].engine, trace[k].engine.probers[i], now)
  {
    hide Run, Attempts;
    RunRateBound(trace, steps, numeric, k, i);
  }

  lemma RunResolvesOwn(trace: seq<System>, steps: seq<Step>, numeric: string -> Endpoint, d: Daemon, i: nat)
    requires RunReaches(trace, steps, d, numeric) && i < |d.loop.engine.probers|
    ensures ResolvesOwn(d, d.loop.engine.probers[i], numeric)
  {
    hide Run, SystemInv, Outstanding;
    RunResolves(trace, steps, numeric, |steps|, i);
  }

  /** So what holds in every run holds for the loop, in the middle of its turns too: the exact partition and index,
      conservation of probes, the rate bound, lookups of its own for every prober, and that results do not wait in
      vain. */
  lemma LoopKeepsAll(ds: seq<Daemon>, ms: seq<Move>, numeric: string -> Endpoint, k: nat)
    requires History(ds, ms, numeric) && k < |ds|
    ensures var d := ds[k]; var e := d.loop.engine;
      ExactPartition(e) && IndexExact(e) && AllConsistent(e.clients) && Conserved(e)
      && (d.completed != [] ==> d.counter > 0 || d.worker.Signalling? || d.phase.Draining?)
      && forall i :: 0 <= i < |e.probers| ==>
          WithinRate(e, e.probers[i], d.clock) && ResolvesOwn(d, e.probers[i], numeric)
  {
    hide History, Run, SystemInv, Conserved, ExactPartition, IndexExact, AllConsistent, WithinRate, ResolvesOwn;
    var trace, steps := HistorySteps(ds, ms, numeric, k);
    RunPartitions(trace, steps, numeric, |steps|);
    RunIsConserved(trace, steps, numeric, |steps|);
    RunWakes(trace, steps, numeric, |steps|);
    var d := ds[k];
    forall i | 0 <= i < |d.loop.engine.probers|
      ensures WithinRate(d.loop.engine, d.loop.engine.probers[i], d.clock)
      ensures ResolvesOwn(d, d.loop.engine.probers[i], numeric)
    {
      RunIsWithinRate(trace, steps, numeric, |steps|, i, d.clock);
      RunResolvesOwn(trace, steps, numeric, d, i);
    }
  }

  // ---- verdicts in the loop ---------------------------------------------

  /** One destination over a move: it stays where it is, or goes with a reload to where the loaded configuration has
      it. */
  ghost predicate FollowsMove(d: Daemon, m: Move, s: Subscriber, t: Subscriber) {
    if m.Load? && d.phase.Heard? && d.loop.configDirty
    then UniqueIds(d.loop.engine.clients) && KeptAt(d.loop.engine.clients, s, d.phase.x.loaded, t)
    else t == s
  }

  ghost predicate FollowsLoop(ds: seq<Daemon>, ms: seq<Move>, k: nat, slots: seq<Subscriber>)
    requires k + |slots| <= |ds| == |ms| + 1 && slots != []
  {
    ValidSlot(ds[k].loop.engine.clients, slots[0])
    && forall j :: 0 <= j < |slots| - 1 ==> FollowsMove(ds[k + j], ms[k + j], slots[j], slots[j + 1])
  }

  function LoopEngines(ds: seq<Daemon>, k: nat): (r: seq<State>)
    requires k <= |ds|
    ensures |r| == |ds| - k && forall j :: 0 <= j < |r| ==> r[j] == ds[k + j].loop.engine
  {
    seq(|ds| - k, j requires 0 <= j < |ds| - k => ds[k + j].loop.engine)
  }

  lemma NothingNew(e: State, prober: int)
    ensures NewSamples(e, e, prober) == []
  {
  }

  lemma FollowsItsStep(d: Daemon, m: Move, numeric: string -> Endpoint, s: Subscriber, t: Subscriber)
    requires CanMove(d, m, numeric) && FollowsMove(d, m, s, t)
    ensures var steps := StepOf(d, m, numeric);
      if steps == [] then t == s else FollowsStep(d.loop.engine.clients, steps[0], s, t)
  {
    hide UniqueIds, KeptAt, WindUp;
  }

  lemma MoveShows(d: Daemon, w: System, m: Move, r: Daemon, numeric: string -> Endpoint, s: Subscriber, t: Subscriber,
                  h: seq<Sample>)
    requires StandsFor(d, w, numeric) && CanMove(d, m, numeric) && Moves(d, m, r, numeric)
    requires ValidSlot(d.loop.engine.clients, s) && FollowsMove(d, m, s, t)
    requires ShowsHistory(DestinationAt(d.loop.engine.clients, s), h)
    ensures var e, e' := d.loop.engine, r.loop.engine;
      ValidSlot(e'.clients, t)
      && ShowsHistory(DestinationAt(e'.clients, t), h + NewSamples(e, e', DestinationAt(e.clients, s).prober))
  {
    hide SystemInv, Enabled, Next, AfterMove, CanMove, StepOf, ShowsHistory, NewSamples, ValidSlot, FollowsMove,
         FollowsStep;
    var u := MoveKeeps(d, w, m, r, numeric);
    FollowsItsStep(d, m, numeric, s, t);
    var steps := StepOf(d, m, numeric);
    if steps == [] {
      NothingNew(d.loop.engine, DestinationAt(d.loop.engine.clients, s).prober);
      assert h + [] == h;
    } else {
      StepShows(w, steps[0], numeric, s, t, h);
    }
  }

  /** Over any part of the loop's turns, reloads and all: a destination that the configuration keeps, with its threshold
      and sensitivity, shows the verdict of the samples that its probers have had, in their order. */
  lemma {:induction false} LoopKeepsVerdict(ds: seq<Daemon>, ms: seq<Move>, numeric: string -> Endpoint, k: nat,
                                            slots: seq<Subscriber>, h: seq<Sample>)
    requires History(ds, ms, numeric) && slots != [] && k + |slots| <= |ds| && FollowsLoop(ds, ms, k, slots)
    requires ShowsHistory(DestinationAt(ds[k].loop.engine.clients, slots[0]), h)
    ensures var e, s := ds[k + |slots| - 1].loop.engine, slots[|slots| - 1];
      ValidSlot(e.clients, s)
      && ShowsHistory(DestinationAt(e.clients, s), h + SamplesAlong(LoopEngines(ds, k), slots))
      && ShowsMeasured(DestinationAt(e.clients, s), h + SamplesAlong(LoopEngines(ds, k), slots))
    decreases |slots|
  {
    hide SystemInv, CanMove, Moves, ShowsHistory, ShowsMeasured, FollowsMove, NewSamples, ValidSlot, StandsFor;
    var n := |slots| - 1;
    if n == 0 {
      assert h + [] == h;
    } else {
      var front := slots[..n];
      LoopKeepsVerdict(ds, ms, numeric, k, front, h);
      var trace, steps := HistorySteps(ds, ms, numeric, k + n - 1);
      var d, r, s := ds[k + n - 1], ds[k + n], slots[n - 1];
      var along := SamplesAlong(LoopEngines(ds, k), front);
      assert FollowsMove(d, ms[k + n - 1], s, slots[n]);
      MoveShows(d, trace[|steps|], ms[k + n - 1], r, numeric, s, slots[n], h + along);
      var more := NewSamples(d.loop.engine, r.loop.engine, DestinationAt(d.loop.engine.clients, s).prober);
      assert SamplesAlong(LoopEngines(ds, k), slots) == along + more;
      assert h + along + more == h + (along + more);
    }
    HistoryIsMeasured(DestinationAt(ds[k + n].loop.engine.clients, slots[n]),
                      h + SamplesAlong(LoopEngines(ds, k), slots));
  }
}
