/** What holds in every run of the daemon. */
module SystemTheorems {
  import opened Hysteresis
  import opened Engine
  import opened ProberInvariant
  import opened EngineInvariant
  import opened Rebuild
  import opened Partition
  import opened RebuildTheorems
  import opened TableSteps
  import opened Resolver
  import opened System

  // ---- delivery of samples ----------------------------------------------

  lemma DeliverOneEffect(clients: seq<Client>, sub: Subscriber, sample: Sample)
    ensures forall s :: ValidSlot(clients, s) <==> ValidSlot(DeliverOne(clients, sub, sample).0, s)
    ensures forall s :: ValidSlot(clients, s) ==>
      DestinationAt(DeliverOne(clients, sub, sample).0, s)
        == if s == sub then Judge(DestinationAt(clients, s), sample) else DestinationAt(clients, s)
  {
    hide Judge;
  }

  /** Each subscriber is judged once and nobody else is. */
  lemma {:induction false} DeliverEffect(clients: seq<Client>, subs: seq<Subscriber>, sample: Sample, dirty: bool)
    requires Distinct(subs)
    ensures forall s :: ValidSlot(clients, s) <==> ValidSlot(Deliver(clients, subs, sample, dirty).0, s)
    ensures forall s :: ValidSlot(clients, s) ==>
      DestinationAt(Deliver(clients, subs, sample, dirty).0, s)
        == if s in subs then Judge(DestinationAt(clients, s), sample) else DestinationAt(clients, s)
    decreases |subs|
  {
    hide Judge, DeliverOne, ValidSlot;
    if subs != [] {
      var (next, changed) := DeliverOne(clients, subs[0], sample);
      DeliverOneEffect(clients, subs[0], sample);
      assert Distinct(subs[1..]);
      DeliverEffect(next, subs[1..], sample, dirty || changed);
      assert forall s :: s in subs <==> s == subs[0] || s in subs[1..];
      assert subs[0] !in subs[1..];
    }
  }

  /** A sample of a prober reaches exactly the destinations that point to it, each exactly once. */
  lemma SampleReaches(e: State, i: nat, sample: Sample, event: Event, s: Subscriber)
    requires Table(e) && i < |e.probers| && ValidSlot(e.clients, s)
    ensures ValidSlot(ApplySample(e, i, sample, event).clients, s)
    ensures DestinationAt(ApplySample(e, i, sample, event).clients, s)
         == if DestinationAt(e.clients, s).prober == i then Judge(DestinationAt(e.clients, s), sample)
           else DestinationAt(e.clients, s)
  {
    TableIsPartition(e, e.clients);
    assert RightlySubscribed(e, s);
    hide Table, Judge, ValidSlot;
    DeliverEffect(e.clients, e.probers[i].subscribers, sample, e.stateDirty);
  }

  // ---- evaluated states stay consistent ---------------------------------

  lemma {:induction false} DeliverConsistent(clients: seq<Client>, subs: seq<Subscriber>, sample: Sample, dirty: bool)
    requires AllConsistent(clients)
    ensures AllConsistent(Deliver(clients, subs, sample, dirty).0)
    decreases |subs|
  {
    hide Judge, DeliverOne, ValidSlot, Consistent;
    if subs != [] {
      var (next, changed) := DeliverOne(clients, subs[0], sample);
      DeliverOneEffect(clients, subs[0], sample);
      forall s | ValidSlot(next, s) ensures Consistent(DestinationAt(next, s)) {
        JudgeKeepsConsistent(DestinationAt(clients, s), sample);
      }
      DeliverConsistent(next, subs[1..], sample, dirty || changed);
    }
  }

  lemma SampleConsistent(e: State, i: nat, sample: Sample, event: Event)
    requires AllConsistent(e.clients) && i < |e.probers|
    ensures AllConsistent(ApplySample(e, i, sample, event).clients)
  {
    hide AllConsistent, Deliver;
    DeliverConsistent(e.clients, e.probers[i].subscribers, sample, e.stateDirty);
  }

  lemma {:induction false} ExpireConsistent(e: State, i: nat, now: nat)
    requires AllConsistent(e.clients) && i < |e.probers|
    ensures AllConsistent(Expire(e, i, now).clients)
    decreases |e.probers[i].inFlight|
  {
    hide AllConsistent, ApplySample;
    var p := e.probers[i];
    if p.inFlight != [] && Expired(p.inFlight[0], now) {
      SampleConsistent(SetProber(e, i, p.(inFlight := p.inFlight[1..])), i, Silence,
                       TimedOut(p.uid, p.inFlight[0].seqNo));
      ExpireConsistent(ExpireFront(e, i), i, now);
    }
  }

  lemma TickProberConsistent(e: State, i: nat, now: nat, sockets: Sockets)
    requires AllConsistent(e.clients) && i < |e.probers|
    ensures AllConsistent(TickProber(e, i, now, sockets).clients)
  {
    hide AllConsistent, ApplySample, Expire;
    ExpireConsistent(e, i, now);
    var e2 := StartResolving(Expire(e, i, now), i, now);
    var p := e2.probers[i];
    SampleConsistent(e2, i, Silence, NoRoute(p.uid));
    SampleConsistent(SetProber(e2, i, p.(sequence := p.sequence + 1)), i, Silence, SendFailed(p.uid, p.sequence + 1));
  }

  lemma ReplyConsistent(e: State, now: nat, reply: Reply)
    requires AllConsistent(e.clients) && Indexed(e)
    ensures AllConsistent(HandleReply(e, now, reply).clients)
  {
    hide AllConsistent, ApplySample;
    if Accepts(e, reply) {
      var i := e.proberByUid[reply.uid];
      var p := e.probers[i];
      var k := FindSeq(p.inFlight, reply.seqNo);
      SampleConsistent(SetProber(e, i, p.(inFlight := p.inFlight[..k] + p.inFlight[k + 1..])), i,
                       Answer(RoundTrip(now, reply.sentUs)),
                       Answered(p.uid, reply.seqNo, RoundTrip(now, reply.sentUs)));
    }
  }

  lemma {:induction false} RepliesKeep(e: State, now: nat, replies: seq<Reply>, clock: nat)
    requires Inv(e, clock) && clock <= now && Table(e) && AllConsistent(e.clients)
    ensures Indexed(e) && Inv(HandleReplies(e, now, replies), now) && Table(HandleReplies(e, now, replies))
    ensures AllConsistent(HandleReplies(e, now, replies).clients)
    decreases |replies|
  {
    hide Inv, Table, AllConsistent, HandleReply;
    InvIndexes(e, clock);
    if replies == [] {
      TimeKeepsInv(e, clock, now);
    } else {
      HandleReplyKeepsInv(e, now, replies[0], clock);
      HandleReplyKeepsTable(e, now, replies[0]);
      ReplyConsistent(e, now, replies[0]);
      RepliesKeep(HandleReply(e, now, replies[0]), now, replies[1..], now);
    }
  }

  // ---- reconfiguration --------------------------------------------------

  lemma {:induction false} CarryDestinationConsistent(d: Destination, olds: seq<Destination>)
    requires Unevaluated(d) && forall k :: 0 <= k < |olds| ==> Consistent(olds[k])
    ensures Consistent(CarryDestination(d, olds))
  {
    if olds != [] {
      CarryDestinationConsistent(d, olds[1..]);
    }
  }

  lemma {:induction false} CarryClientConsistent(client: Client, olds: seq<Client>)
    requires forall d :: 0 <= d < |client.destinations| ==> Unevaluated(client.destinations[d])
    requires forall c, d :: 0 <= c < |olds| && 0 <= d < |olds[c].destinations| ==> Consistent(olds[c].destinations[d])
    ensures forall d :: 0 <= d < |CarryClient(client, olds).destinations| ==>
        Consistent(CarryClient(client, olds).destinations[d])
  {
    hide Unevaluated, Consistent;
    if olds == [] {
      forall d | 0 <= d < |client.destinations| ensures Consistent(client.destinations[d]) {
        CarryDestinationConsistent(client.destinations[d], []);
      }
    } else if olds[0].id == client.id {
      forall d | 0 <= d < |client.destinations|
        ensures Consistent(CarryDestination(client.destinations[d], olds[0].destinations))
      {
        CarryDestinationConsistent(client.destinations[d], olds[0].destinations);
      }
    } else {
      CarryClientConsistent(client, olds[1..]);
    }
  }

  lemma CarryConsistent(loaded: seq<Client>, olds: seq<Client>)
    requires Fresh(loaded) && AllConsistent(olds)
    ensures AllConsistent(CarryAll(loaded, olds))
  {
    hide Consistent, Unevaluated;
    forall c, d | 0 <= c < |olds| && 0 <= d < |olds[c].destinations| ensures Consistent(olds[c].destinations[d]) {
      assert ValidSlot(olds, Subscriber(c, d)) && Consistent(DestinationAt(olds, Subscriber(c, d)));
    }
    forall s | ValidSlot(CarryAll(loaded, olds), s) ensures Consistent(DestinationAt(CarryAll(loaded, olds), s)) {
      CarryClientConsistent(loaded[s.client], olds);
    }
  }

  lemma IndicesConsistent(a: seq<Client>, b: seq<Client>)
    requires SameButIndices(a, b) && AllConsistent(a)
    ensures AllConsistent(b)
  {
    forall s | ValidSlot(b, s) ensures Consistent(DestinationAt(b, s)) {
      SameKeys(a, b, s);
      assert Consistent(DestinationAt(a, s)) && SameClient(a[s.client], b[s.client]);
    }
  }

  lemma {:induction false} FirstOfStreamExists(e: State, p: Prober, i: nat) returns (k: nat)
    requires i < |e.probers| && SameStream(e.probers[i], p)
    ensures FirstOfStream(e, k, p)
    decreases i
  {
    hide SameStream;
    if forall j :: 0 <= j < i ==> !SameStream(e.probers[j], p) {
      k := i;
    } else {
      var j :| 0 <= j < i && SameStream(e.probers[j], p);
      k := FirstOfStreamExists(e, p, j);
    }
  }

  /** A prober of the new table is an old one resubscribed, or a fresh one. */
  lemma SurvivesEither(e: State, r: State, j: nat, now: nat, numeric: string -> Endpoint)
    requires j < |r.probers| && Survives(e, r, j, now, numeric)
    ensures (exists i :: 0 <= i < |e.probers| && r.probers[j] == e.probers[i].(subscribers := r.probers[j].subscribers))
         || (r.probers[j].uid >= e.nextUid && StartsAfresh(r.probers[j], now, numeric))
  {
    hide StartsAfresh, SameStream;
    if i :| 0 <= i < |e.probers| && SameStream(e.probers[i], r.probers[j]) {
      var k := FirstOfStreamExists(e, r.probers[j], i);
    }
  }

  lemma ConfigureRequests(e: State, r: State, out: seq<Request>, completed: seq<Result>,
                          lookups: set<(string, Endpoint)>, now: nat, numeric: string -> Endpoint)
    requires RequestsRight(e, out) && EndpointsRight(e, completed, lookups, numeric) && e.nextUid <= r.nextUid
    requires forall j :: 0 <= j < |r.probers| ==> Survives(e, r, j, now, numeric)
    ensures RequestsRight(r, out) && EndpointsRight(r, completed, lookups, numeric)
  {
    hide Survives;
    forall j | 0 <= j < |r.probers|
      ensures ResolvesRight(r.probers[j], out) && EndpointRight(r.probers[j], lookups, numeric)
    {
      SurvivesEither(e, r, j, now, numeric);
      if i :| 0 <= i < |e.probers| && r.probers[j] == e.probers[i].(subscribers := r.probers[j].subscribers) {
        assert ResolvesRight(e.probers[i], out) && EndpointRight(e.probers[i], lookups, numeric);
      }
    }
  }

  lemma UidsGrow(e: State, now: nat, numeric: string -> Endpoint, clock: nat)
    requires Inv(e, clock) && Clamped(e.clients)
    ensures ProbersClamped(e.probers) && e.nextUid <= RebuildProbers(e, now, numeric).nextUid
  {
    InvIndexes(e, clock);
    BuiltPartitions(e, now, numeric);
    hide Built, Partitioned, Origin;
  }

  lemma ReloadKeeps(s: System, now: nat, loaded: seq<Client>, numeric: string -> Endpoint)
    requires SystemInv(s, numeric) && Enabled(s, Configure(now, loaded)) && ProbersClamped(s.engine.probers)
    ensures var r := Reload(s.engine, loaded, now, numeric);
      Inv(r, now) && Table(r) && AllConsistent(r.clients) && r.pending == s.engine.pending
      && RequestsRight(r, Outstanding(r.pending, s.worker, s.completed))
      && EndpointsRight(r, s.completed, s.lookups, numeric)
  {
    hide Inv, Table, AllConsistent, RequestsRight, EndpointsRight, Outstanding, RebuildProbers, Survives,
         SameButIndices, CarryAll, WakeupPending;
    var e := s.engine;
    var e1 := e.(clients := CarryAll(loaded, e.clients));
    CarryKeepsClamps(loaded, e.clients);
    CarryConsistent(loaded, e.clients);
    var out := Outstanding(e.pending, s.worker, s.completed);
    ClientsAside(e, CarryAll(loaded, e.clients), s.clock);
    ClientsAsideToo(e, CarryAll(loaded, e.clients), out, s.completed, s.lookups, numeric);
    RebuildAll(e1, now, numeric, s.clock);
    var r1 := RebuildProbers(e1, now, numeric);
    IndicesConsistent(e1.clients, r1.clients);
    ConfigureRequests(e1, r1, out, s.completed, s.lookups, now, numeric);
    Flagged(r1, r1.dataDirty, true, now, out, s.completed, s.lookups, numeric);
  }

  lemma ClientsAsideToo(e: State, clients: seq<Client>, out: seq<Request>, completed: seq<Result>,
                        lookups: set<(string, Endpoint)>, numeric: string -> Endpoint)
    requires RequestsRight(e, out) && EndpointsRight(e, completed, lookups, numeric)
    ensures RequestsRight(e.(clients := clients), out)
    ensures EndpointsRight(e.(clients := clients), completed, lookups, numeric)
  {
    hide ResolvesRight, EndpointRight, DistinctUids;
  }

  lemma RebuildAll(e: State, now: nat, numeric: string -> Endpoint, clock: nat)
    requires Inv(e, clock) && Clamped(e.clients) && clock <= now
    ensures ProbersClamped(e.probers)
    ensures var r := RebuildProbers(e, now, numeric);
      Inv(r, now) && Table(r) && SameButIndices(e.clients, r.clients) && r.pending == e.pending
      && e.nextUid <= r.nextUid
      && forall j :: 0 <= j < |r.probers| ==> Survives(e, r, j, now, numeric)
  {
    InvIndexes(e, clock);
    RebuildMakesTable(e, now, numeric);
    RebuildEstablishesTable(e, now, numeric);
    RebuildKeepsInv(e, now, numeric, clock);
    RebuildSurvivors(e, now, numeric, clock);
    UidsGrow(e, now, numeric, clock);
    hide Inv, Table, Survives;
  }

  /** Asking for a publication, or publishing, changes none of this. */
  lemma Flagged(e: State, data: bool, state: bool, clock: nat, out: seq<Request>, completed: seq<Result>,
                lookups: set<(string, Endpoint)>, numeric: string -> Endpoint)
    requires Inv(e, clock) && Table(e) && RequestsRight(e, out) && EndpointsRight(e, completed, lookups, numeric)
    ensures var r := e.(dataDirty := data, stateDirty := state);
      Inv(r, clock) && Table(r) && RequestsRight(r, out) && EndpointsRight(r, completed, lookups, numeric)
  {
    hide Sound, Verdicts, Samples;
    OthersKeepTable(e, e.(dataDirty := data, stateDirty := state));
  }

  // ---- the resolver's own steps -----------------------------------------

  lemma QueueKeeps(e: State, pending: seq<Request>, clock: nat)
    requires Inv(e, clock) && Table(e)
    ensures Inv(e.(pending := pending), clock) && Table(e.(pending := pending))
  {
    hide Sound, Verdicts, Samples;
    OthersKeepTable(e, e.(pending := pending));
  }

  lemma PopKeepsOutstanding(q: Queues)
    requires q.worker.Waiting? && q.pending != []
    ensures var q' := AfterPop(q);
      Outstanding(q'.pending, q'.worker, q'.completed) == Outstanding(q.pending, q.worker, q.completed)
  {
    assert [q.pending[0]] + q.pending[1..] == q.pending;
  }

  /** A finished lookup moves from running to completed; the list of requests stays the same. */
  lemma AnswerKeepsOutstanding(q: Queues, answer: Endpoint)
    requires q.worker.Looking?
    ensures var q' := AfterLookup(q, answer);
      Outstanding(q'.pending, q'.worker, q'.completed) == Outstanding(q.pending, q.worker, q.completed)
  {
    var q' := AfterLookup(q, answer);
    assert Requests(q'.completed) == Requests(q.completed) + [q.worker.request];
  }

  lemma AnswerEndpoints(e: State, r: State, q: Queues, answer: Endpoint, lookups: set<(string, Endpoint)>,
                        numeric: string -> Endpoint)
    requires q.worker.Looking? && EndpointsRight(e, q.completed, lookups, numeric) && r.probers == e.probers
    ensures EndpointsRight(r, AfterLookup(q, answer).completed, lookups + {(q.worker.request.host, answer)}, numeric)
  {
    var more := lookups + {(q.worker.request.host, answer)};
    forall i | 0 <= i < |r.probers| ensures EndpointRight(r.probers[i], more, numeric) {
      assert EndpointRight(e.probers[i], lookups, numeric);
    }
  }

  // ---- every step -------------------------------------------------------

  lemma SignalKeepsOutstanding(q: Queues)
    requires q.worker.Signalling?
    ensures Outstanding(q.pending, q.worker, q.completed) == Outstanding(q.pending, Waiting, q.completed)
  {
  }

  lemma WorkerKeepsInv(s: System, step: Step, numeric: string -> Endpoint)
    requires SystemInv(s, numeric) && Enabled(s, step) && ProbersClamped(s.engine.probers) && Indexed(s.engine)
    requires step.ReadEvent? || step.WorkerPop? || step.WorkerAnswer? || step.WorkerSignal?
    ensures SystemInv(Next(s, step, numeric), numeric)
  {
    hide Inv, Table, AllConsistent, Outstanding;
    var q := QueuesOf(s);
    var r := Next(s, step, numeric);
    QueueKeeps(s.engine, r.engine.pending, s.clock);
    assert r.engine == s.engine.(pending := r.engine.pending);
    match step
    case ReadEvent =>
    case WorkerSignal => SignalKeepsOutstanding(q);
    case WorkerPop => PopKeepsOutstanding(q);
    case WorkerAnswer(answer) =>
      AnswerKeepsOutstanding(q, answer);
      AnswerEndpoints(s.engine, r.engine, q, answer, s.lookups, numeric);
  }

  /** Every step of either thread keeps the whole invariant. */
  lemma StepKeepsSystemInv(s: System, step: Step, numeric: string -> Endpoint)
    requires SystemInv(s, numeric) && Enabled(s, step)
    ensures ProbersClamped(s.engine.probers) && Indexed(s.engine)
    ensures SystemInv(Next(s, step, numeric), numeric)
  {
    hide Inv, Table, AllConsistent, RequestsRight, EndpointsRight, Outstanding, TickProber, HandleReplies,
         HandleResolutions, Reload;
    var e := s.engine;
    InvIndexes(e, s.clock);
    match step
    case TickOne(i, now, sockets) =>
      TickOneRequests(s, i, now, sockets, numeric);
      TickProberKeepsInv(e, i, now, sockets, s.clock);
      TickProberKeepsTable(e, i, now, sockets);
      TickProberConsistent(e, i, now, sockets);
    case Replies(now, replies) =>
      RepliesKeep(e, now, replies, s.clock);
      RepliesQuiet(e, now, replies);
      SameRequests(e, HandleReplies(e, now, replies), Outstanding(e.pending, s.worker, s.completed));
      SameEndpoints(e, HandleReplies(e, now, replies), s.completed, s.lookups, numeric);
    case Configure(now, loaded) => ReloadKeeps(s, now, loaded, numeric);
    case HandleResults(now) => HandleResolutionsKeep(e, now, s.completed, s.worker, s.lookups, numeric, s.clock);
    case Published =>
      Flagged(e, false, false, s.clock, Outstanding(e.pending, s.worker, s.completed), s.completed, s.lookups, numeric);
    case _ =>
      hide SystemInv, Next;
      WorkerKeepsInv(s, step, numeric);
  }

  // ---- every run --------------------------------------------------------

  /** A run from a cold start: each step was possible, and led to the next state. */
  ghost predicate Run(trace: seq<System>, steps: seq<Step>, numeric: string -> Endpoint) {
    |trace| == |steps| + 1 && trace[0] == Start(trace[0].clock)
    && forall k :: 0 <= k < |steps| ==> Enabled(trace[k], steps[k]) && Leads(trace[k], steps[k], trace[k + 1], numeric)
  }

  ghost predicate Leads(s: System, step: Step, r: System, numeric: string -> Endpoint)
    requires Enabled(s, step)
  {
    ProbersClamped(s.engine.probers) && Indexed(s.engine) ==> r == Next(s, step, numeric)
  }

  lemma StartSound(clock: nat, numeric: string -> Endpoint)
    ensures SystemInv(Start(clock), numeric)
  {
    var s := Start(clock);
    EmptyTable(s.engine);
    EmptyInv(s.engine, clock);
    hide Table, Inv;
  }

  lemma EmptyInv(e: State, clock: nat)
    requires e.probers == [] && e.proberByUid == map[] && e.log == [] && e.born == map[]
    ensures Inv(e, clock)
  {
  }

  lemma EmptyTable(e: State)
    requires e.clients == [] && e.probers == [] && e.proberByUid == map[] && e.minIntervalUs == 0
    ensures Table(e)
  {
    assert Slots([]) == [] && Wanted([], []) == [];
  }

  lemma {:induction false} RunInvariant(trace: seq<System>, steps: seq<Step>, numeric: string -> Endpoint, k: nat)
    requires Run(trace, steps, numeric) && k < |trace|
    ensures SystemInv(trace[k], numeric)
  {
    hide SystemInv;
    if k == 0 {
      StartSound(trace[0].clock, numeric);
    } else {
      RunInvariant(trace, steps, numeric, k - 1);
      assert Leads(trace[k - 1], steps[k - 1], trace[k], numeric);
      StepKeepsSystemInv(trace[k - 1], steps[k - 1], numeric);
    }
  }

  /** At every instant of every run, whatever was reconfigured in between: the numbers 1..sequence of a live prober are
      each either in flight or settled by exactly one verdict, `sent` counts its samples and `received` its answers,
      and nowhere in the history does any probe have two verdicts. */
  lemma RunConserves(trace: seq<System>, steps: seq<Step>, numeric: string -> Endpoint, k: nat)
    requires Run(trace, steps, numeric) && k < |trace|
    ensures forall i, n: nat :: 0 <= i < |trace[k].engine.probers| ==>
      var p, log := trace[k].engine.probers[i], trace[k].engine.log;
      Verdicts(log, p.uid, n) + One(Flying(p, n)) == One(1 <= n <= p.sequence)
    ensures forall i :: 0 <= i < |trace[k].engine.probers| ==>
      var p, log := trace[k].engine.probers[i], trace[k].engine.log;
      p.sent == Samples(log, p.uid) && p.received == Answers(log, p.uid)
    ensures forall uid, n :: Verdicts(trace[k].engine.log, uid, n) <= 1
  {
    hide Verdicts, Samples, Answers, Flying, Table, RequestsRight, EndpointsRight, Ordered, Paced;
    RunInvariant(trace, steps, numeric, k);
    forall i, n: nat | 0 <= i < |trace[k].engine.probers|
      ensures var p, log := trace[k].engine.probers[i], trace[k].engine.log;
        Verdicts(log, p.uid, n) + One(Flying(p, n)) == One(1 <= n <= p.sequence)
    {
      assert Sound(trace[k].engine.probers[i], trace[k].engine.log, trace[k].engine.born, trace[k].clock);
    }
    forall i | 0 <= i < |trace[k].engine.probers|
      ensures var p, log := trace[k].engine.probers[i], trace[k].engine.log;
        p.sent == Samples(log, p.uid) && p.received == Answers(log, p.uid)
    {
      assert Sound(trace[k].engine.probers[i], trace[k].engine.log, trace[k].engine.born, trace[k].clock);
    }
  }

  /** The rate bound over whole runs: `n` attempts of a prober born at `t0` take at least `n - 1` intervals, less 2
      ms. */
  lemma RunRateBound(trace: seq<System>, steps: seq<Step>, numeric: string -> Endpoint, k: nat, i: nat)
    requires Run(trace, steps, numeric) && k < |trace| && i < |trace[k].engine.probers|
    ensures var e, p := trace[k].engine, trace[k].engine.probers[i];
      p.uid in e.born && (Attempts(p, e.log) - 1) * p.intervalUs <= trace[k].clock - e.born[p.uid] + SEND_SLACK_US
  {
    hide Attempts, Ledger, Ordered, Table, RequestsRight, EndpointsRight;
    RunInvariant(trace, steps, numeric, k);
    var e, p := trace[k].engine, trace[k].engine.probers[i];
    assert Sound(p, e.log, e.born, trace[k].clock);
    RateBound(p, e.log, e.born[p.uid], trace[k].clock, trace[k].clock);
  }

  /** At every instant of every run: enabled destinations are partitioned exactly among the probers, the uid index is
      exact, and no destination shows a state without samples or samples without a state. */
  lemma RunPartitions(trace: seq<System>, steps: seq<Step>, numeric: string -> Endpoint, k: nat)
    requires Run(trace, steps, numeric) && k < |trace|
    ensures ExactPartition(trace[k].engine) && IndexExact(trace[k].engine) && AllConsistent(trace[k].engine.clients)
  {
    RunInvariant(trace, steps, numeric, k);
    hide IndexExact, AllSound, HistorySound, AllConsistent, RequestsRight, EndpointsRight;
    TableIsPartition(trace[k].engine, trace[k].engine.clients);
  }

  /** Under every interleaving of the two threads: a prober is resolving exactly when one request of its own is waiting,
      running or completed, and its endpoint comes from a lookup of its own host. */
  lemma RunResolves(trace: seq<System>, steps: seq<Step>, numeric: string -> Endpoint, k: nat, i: nat)
    requires Run(trace, steps, numeric) && k < |trace| && i < |trace[k].engine.probers|
    ensures var s := trace[k]; var p, out := s.engine.probers[i], Outstanding(s.engine.pending, s.worker, s.completed);
      (p.resolving <==> exists j :: 0 <= j < |out| && out[j].uid == p.uid)
      && (forall a, b :: 0 <= a < |out| && 0 <= b < |out| && out[a].uid == p.uid && out[b].uid == p.uid ==> a == b)
      && (forall j :: 0 <= j < |out| && out[j].uid == p.uid ==> out[j].host == p.host)
      && (p.endpoint.Endpoint? ==> (p.host, p.endpoint) in s.lookups || (p.numeric && p.endpoint == numeric(p.host)))
  {
    hide Inv, Table, AllConsistent, Outstanding, WakeupPending;
    RunInvariant(trace, steps, numeric, k);
    var s := trace[k];
    var p, out := s.engine.probers[i], Outstanding(s.engine.pending, s.worker, s.completed);
    assert ResolvesRight(p, out) && EndpointRight(p, s.lookups, numeric);
    assert Asks(out, p.uid) <==> exists j :: 0 <= j < |out| && out[j].uid == p.uid;
    forall a, b | 0 <= a < |out| && 0 <= b < |out| && out[a].uid == p.uid && out[b].uid == p.uid ensures a == b {
    }
  }

  /** At every instant of every run, whether or not there is any prober: results never wait without a wakeup. */
  lemma RunWakes(trace: seq<System>, steps: seq<Step>, numeric: string -> Endpoint, k: nat)
    requires Run(trace, steps, numeric) && k < |trace|
    ensures var s := trace[k];
      s.completed != [] ==> s.counter > 0 || s.worker.Signalling? || s.draining
  {
    hide Inv, Table, AllConsistent, RequestsRight, EndpointsRight;
    RunInvariant(trace, steps, numeric, k);
  }
}
