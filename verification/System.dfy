/** The whole daemon as a state machine: the loop's steps interleaved with the resolver thread's, in any order.
    `SystemInv` is what holds at every instant; the lemmas here say what each kind of step does to requests
    and endpoints, for the theorems about whole runs. */
module System {
  import opened Hysteresis
  import opened Engine
  import opened EngineInvariant
  import opened Rebuild
  import opened RebuildTheorems
  import opened TableSteps
  import opened Resolver

  /** `lookups` records every answer a lookup has given for a host. */
  datatype System = System(
    engine: State, clock: nat, worker: Worker, completed: seq<Result>, counter: nat, draining: bool,
    lookups: set<(string, Endpoint)>)

  function QueuesOf(s: System): Queues {
    Queues(s.engine.pending, s.worker, s.completed, s.counter, s.draining)
  }

  function WithQueues(s: System, q: Queues): System {
    s.(engine := s.engine.(pending := q.pending), worker := q.worker, completed := q.completed, counter := q.counter,
       draining := q.draining)
  }

  datatype Step =
    | TickOne(i: nat, now: nat, sockets: Sockets)
    | Replies(now: nat, replies: seq<Reply>)
    | Configure(now: nat, loaded: seq<Client>)
    | ReadEvent
    | HandleResults(now: nat)
    | Published
    | WorkerPop
    | WorkerAnswer(answer: Endpoint)
    | WorkerSignal

  /** When a step can happen: time does not go back, and between the halves of `collect` the loop does nothing else. */
  predicate Enabled(s: System, step: Step) {
    match step
    case TickOne(i, now, _) => i < |s.engine.probers| && s.clock <= now && !s.draining
    case Replies(now, _) => s.clock <= now && !s.draining
    case Configure(now, loaded) => s.clock <= now && !s.draining && Clamped(loaded) && Fresh(loaded)
    case ReadEvent => !s.draining
    case HandleResults(now) => s.clock <= now && s.draining
    case Published => !s.draining
    case WorkerPop => s.worker.Waiting? && s.engine.pending != []
    case WorkerAnswer(_) => s.worker.Looking?
    case WorkerSignal => s.worker.Signalling?
  }

  /** Loaded configurations carry nothing evaluated. */
  predicate Fresh(loaded: seq<Client>) {
    forall c :: 0 <= c < |loaded| ==> forall d :: 0 <= d < |loaded[c].destinations| ==>
        Unevaluated(loaded[c].destinations[d])
  }

  /** The steps. `numeric` is `parseNumericAddress`. */
  function Next(s: System, step: Step, numeric: string -> Endpoint): System
    requires Enabled(s, step) && ProbersClamped(s.engine.probers) && Indexed(s.engine)
  {
    match step
    case TickOne(i, now, sockets) => s.(engine := TickProber(s.engine, i, now, sockets), clock := now)
    case Replies(now, replies) => s.(engine := HandleReplies(s.engine, now, replies), clock := now)
    case Configure(now, loaded) => s.(engine := Reload(s.engine, loaded, now, numeric), clock := now)
    case ReadEvent => WithQueues(s, AfterDrain(QueuesOf(s)))
    case HandleResults(now) =>
      WithQueues(s, AfterTake(QueuesOf(s))).(engine := HandleResolutions(s.engine, now, s.completed), clock := now)
    case Published => s.(engine := s.engine.(dataDirty := false, stateDirty := false))
    case WorkerPop => WithQueues(s, AfterPop(QueuesOf(s)))
    case WorkerAnswer(answer) =>
      WithQueues(s, AfterLookup(QueuesOf(s), answer)).(lookups := s.lookups + {(s.worker.request.host, answer)})
    case WorkerSignal => WithQueues(s, AfterSignal(QueuesOf(s)))
  }

  function Start(clock: nat): System {
    System(State([], [], map[], 1, 0, true, true, [], [], map[]), clock, Waiting, [], 0, false, {})
  }

  // ---- requests ---------------------------------------------------------

  function Requests(completed: seq<Result>): (r: seq<Request>)
    ensures |r| == |completed| && forall k :: 0 <= k < |r| ==> r[k] == Request(completed[k].uid, completed[k].host)
  {
    seq(|completed|, k requires 0 <= k < |completed| => Request(completed[k].uid, completed[k].host))
  }

  function Running(worker: Worker): seq<Request> {
    if worker.Looking? then [worker.request] else []
  }

  /** Everything asked of the resolver and not yet handed back: completed, running, waiting. */
  function Outstanding(pending: seq<Request>, worker: Worker, completed: seq<Result>): seq<Request> {
    Requests(completed) + Running(worker) + pending
  }

  predicate Asks(out: seq<Request>, uid: nat) {
    exists k :: 0 <= k < |out| && out[k].uid == uid
  }

  predicate DistinctUids(out: seq<Request>) {
    forall i, j :: 0 <= i < j < |out| ==> out[i].uid != out[j].uid
  }

  /** A prober is resolving exactly when the resolver has a request of its own, for its own host; literals never ask. */
  ghost predicate ResolvesRight(p: Prober, out: seq<Request>) {
    (p.resolving <==> Asks(out, p.uid)) && (p.numeric ==> !p.resolving)
    && forall k :: 0 <= k < |out| && out[k].uid == p.uid ==> out[k].host == p.host
  }

  /** Its endpoint is its own literal, or an answer that a lookup of its own host has given. */
  ghost predicate EndpointRight(p: Prober, lookups: set<(string, Endpoint)>, numeric: string -> Endpoint) {
    if p.numeric then p.endpoint == numeric(p.host) && p.endpoint.Endpoint?
    else p.endpoint.Endpoint? ==> (p.host, p.endpoint) in lookups
  }

  /** Requests belong to uids that were given out, at most one to each. */
  ghost predicate RequestsRight(e: State, out: seq<Request>) {
    DistinctUids(out) && (forall k :: 0 <= k < |out| ==> out[k].uid < e.nextUid)
    && forall i :: 0 <= i < |e.probers| ==> ResolvesRight(e.probers[i], out)
  }

  ghost predicate EndpointsRight(e: State, completed: seq<Result>, lookups: set<(string, Endpoint)>,
                                 numeric: string -> Endpoint) {
    (forall i :: 0 <= i < |e.probers| ==> EndpointRight(e.probers[i], lookups, numeric))
    && forall k :: 0 <= k < |completed| ==> (completed[k].host, completed[k].answer) in lookups
  }

  ghost predicate AllConsistent(clients: seq<Client>) {
    forall s :: ValidSlot(clients, s) ==> Consistent(DestinationAt(clients, s))
  }

  /** What is true at every instant of every run. */
  ghost predicate SystemInv(s: System, numeric: string -> Endpoint) {
    Inv(s.engine, s.clock) && Table(s.engine) && AllConsistent(s.engine.clients)
    && RequestsRight(s.engine, Outstanding(s.engine.pending, s.worker, s.completed))
    && EndpointsRight(s.engine, s.completed, s.lookups, numeric)
    && WakeupPending(QueuesOf(s))
  }

  // ---- steps that do not touch requests ---------------------------------

  /** What requests and endpoints depend on, in one prober. */
  predicate SameResolving(p: Prober, q: Prober) {
    q.uid == p.uid && q.host == p.host && q.numeric == p.numeric && q.resolving == p.resolving
    && q.endpoint == p.endpoint
  }

  lemma SameRequests(e: State, r: State, out: seq<Request>)
    requires RequestsRight(e, out) && r.nextUid == e.nextUid && |r.probers| == |e.probers|
    requires forall i :: 0 <= i < |e.probers| ==> SameResolving(e.probers[i], r.probers[i])
    ensures RequestsRight(r, out)
  {
    hide Asks, DistinctUids;
    forall i | 0 <= i < |r.probers| ensures ResolvesRight(r.probers[i], out) {
      assert ResolvesRight(e.probers[i], out);
    }
  }

  lemma SameEndpoints(e: State, r: State, completed: seq<Result>, lookups: set<(string, Endpoint)>,
                      numeric: string -> Endpoint)
    requires EndpointsRight(e, completed, lookups, numeric) && |r.probers| == |e.probers|
    requires forall i :: 0 <= i < |e.probers| ==>
        SameResolving(e.probers[i], r.probers[i])
        || SameResolving(e.probers[i].(resolving := r.probers[i].resolving), r.probers[i])
    ensures EndpointsRight(r, completed, lookups, numeric)
  {
    forall i | 0 <= i < |r.probers| ensures EndpointRight(r.probers[i], lookups, numeric) {
      assert EndpointRight(e.probers[i], lookups, numeric);
    }
  }

  ghost predicate Quiet(e: State, r: State) {
    |r.probers| == |e.probers| && r.nextUid == e.nextUid && r.pending == e.pending
    && forall i :: 0 <= i < |e.probers| ==> SameResolving(e.probers[i], r.probers[i])
  }

  lemma ChangesQuiet(e: State, r: State, i: nat, p: Prober, events: seq<Event>)
    requires Changes(e, r, i, p, events) && SameResolving(e.probers[i], p) && r.pending == e.pending
    ensures Quiet(e, r)
  {
  }

  lemma {:induction false} ExpireQuiet(e: State, i: nat, now: nat)
    requires i < |e.probers|
    ensures Quiet(e, Expire(e, i, now))
    decreases |e.probers[i].inFlight|
  {
    hide ExpireFront;
    var p := e.probers[i];
    if p.inFlight != [] && Expired(p.inFlight[0], now) {
      ExpireFrontChanges(e, i);
      ChangesQuiet(e, ExpireFront(e, i), i, Counted(Without(p, 0), Silence), [TimedOut(p.uid, p.inFlight[0].seqNo)]);
      ExpireQuiet(ExpireFront(e, i), i, now);
    }
  }

  lemma MaybeSendQuiet(e: State, i: nat, now: nat, sockets: Sockets)
    requires i < |e.probers|
    ensures Quiet(e, MaybeSend(e, i, now, sockets))
  {
    hide SendProbe;
    if SendDue(e.probers[i], now) {
      MaybeSendChanges(e, i, now, sockets);
      var (p', events) := Attempted(e.probers[i], now, sockets);
      ChangesQuiet(e, MaybeSend(e, i, now, sockets), i, Reschedule(p', now), events);
    }
  }

  lemma {:induction false} RepliesQuiet(e: State, now: nat, replies: seq<Reply>)
    requires Indexed(e)
    ensures Quiet(e, HandleReplies(e, now, replies))
    decreases |replies|
  {
    if replies != [] {
      ReplyQuiet(e, now, replies[0]);
      RepliesQuiet(HandleReply(e, now, replies[0]), now, replies[1..]);
    }
  }

  lemma ReplyQuiet(e: State, now: nat, reply: Reply)
    requires Indexed(e)
    ensures Quiet(e, HandleReply(e, now, reply))
  {
    if Accepts(e, reply) {
      var i := e.proberByUid[reply.uid];
      var p := e.probers[i];
      var k := FindSeq(p.inFlight, reply.seqNo);
      var sample := Answer(RoundTrip(now, reply.sentUs));
      SampleAfterSet(e, i, Without(p, k), sample, Answered(p.uid, reply.seqNo, RoundTrip(now, reply.sentUs)));
      ChangesQuiet(e, HandleReply(e, now, reply), i, Counted(Without(p, k), sample),
                   [Answered(p.uid, reply.seqNo, RoundTrip(now, reply.sentUs))]);
    }
  }

  // ---- asking -----------------------------------------------------------

  lemma StartResolvingRequests(e: State, i: nat, now: nat, worker: Worker, completed: seq<Result>, clock: nat)
    requires i < |e.probers| && Inv(e, clock)
    requires RequestsRight(e, Outstanding(e.pending, worker, completed))
    ensures RequestsRight(StartResolving(e, i, now), Outstanding(StartResolving(e, i, now).pending, worker, completed))
  {
    var p := e.probers[i];
    var r := StartResolving(e, i, now);
    if ResolveDue(p, now) {
      var out := Outstanding(e.pending, worker, completed);
      var request := Request(p.uid, p.host);
      BornBelow(e, clock);
      hide Inv;
      assert !Asks(out, p.uid);
      PendingIsOutstanding(e.pending, worker, completed, p.uid);
      assert r.pending == e.pending + [request];
      assert Outstanding(r.pending, worker, completed) == out + [request];
      forall j | 0 <= j < |r.probers| ensures ResolvesRight(r.probers[j], out + [request]) {
        assert ResolvesRight(e.probers[j], out);
        AsksOneMore(out, request, r.probers[j].uid);
        if j != i {
          UidsDiffer(e, clock, i, j);
        }
      }
    }
  }

  lemma UidsDiffer(e: State, clock: nat, i: nat, j: nat)
    requires Inv(e, clock) && i < |e.probers| && j < |e.probers| && i != j
    ensures e.probers[i].uid != e.probers[j].uid
  {
    hide AllSound, HistorySound;
  }

  lemma AsksOneMore(out: seq<Request>, request: Request, uid: nat)
    ensures Asks(out + [request], uid) <==> Asks(out, uid) || request.uid == uid
  {
    var more := out + [request];
    assert more[|out|] == request;
    if Asks(out, uid) {
      var k :| 0 <= k < |out| && out[k].uid == uid;
      assert more[k].uid == uid;
    }
  }

  lemma PendingIsOutstanding(pending: seq<Request>, worker: Worker, completed: seq<Result>, uid: nat)
    ensures Asks(pending, uid) ==> Asks(Outstanding(pending, worker, completed), uid)
  {
    var out := Outstanding(pending, worker, completed);
    if Asks(pending, uid) {
      var k :| 0 <= k < |pending| && pending[k].uid == uid;
      assert out[|Requests(completed)| + |Running(worker)| + k].uid == uid;
    }
  }

  lemma TickOneRequests(s: System, i: nat, now: nat, sockets: Sockets, numeric: string -> Endpoint)
    requires SystemInv(s, numeric) && i < |s.engine.probers| && s.clock <= now
    ensures var r := TickProber(s.engine, i, now, sockets);
      RequestsRight(r, Outstanding(r.pending, s.worker, s.completed))
      && EndpointsRight(r, s.completed, s.lookups, numeric)
  {
    hide Expire, MaybeSend, RequestsRight, EndpointsRight, Outstanding, Inv, Table, AllConsistent, WakeupPending;
    var e := s.engine;
    var e1 := Expire(e, i, now);
    ExpireQuiet(e, i, now);
    ExpireKeepsInv(e, i, now, s.clock);
    SameRequests(e, e1, Outstanding(e.pending, s.worker, s.completed));
    SameEndpoints(e, e1, s.completed, s.lookups, numeric);
    var e2 := StartResolving(e1, i, now);
    StartResolvingRequests(e1, i, now, s.worker, s.completed, s.clock);
    SameEndpoints(e1, e2, s.completed, s.lookups, numeric);
    MaybeSendQuiet(e2, i, now, sockets);
    var r := MaybeSend(e2, i, now, sockets);
    SameRequests(e2, r, Outstanding(e2.pending, s.worker, s.completed));
    SameEndpoints(e2, r, s.completed, s.lookups, numeric);
  }

  // ---- answering --------------------------------------------------------

  /** One result handed back: its prober, if it still exists, stops resolving and takes an answer for its own host. */
  lemma HandleResolutionRequests(e: State, now: nat, result: Result, rest: seq<Request>,
                                 lookups: set<(string, Endpoint)>, numeric: string -> Endpoint, clock: nat)
    requires Inv(e, clock) && RequestsRight(e, [Request(result.uid, result.host)] + rest)
    requires (forall i :: 0 <= i < |e.probers| ==> EndpointRight(e.probers[i], lookups, numeric))
    requires (result.host, result.answer) in lookups
    ensures Indexed(e)
    ensures var r := HandleResolution(e, now, result);
      RequestsRight(r, rest) && r.pending == e.pending
      && forall i :: 0 <= i < |r.probers| ==> EndpointRight(r.probers[i], lookups, numeric)
  {
    InvIndexes(e, clock);
    ResolutionShape(e, now, result, clock);
    hide Inv, HandleResolution, Asks;
    var r := HandleResolution(e, now, result);
    var first := Request(result.uid, result.host);
    var out := [first] + rest;
    FirstIsAlone(first, rest);
    forall i | 0 <= i < |r.probers|
      ensures ResolvesRight(r.probers[i], rest) && EndpointRight(r.probers[i], lookups, numeric)
    {
      var p, q := e.probers[i], r.probers[i];
      assert ResolvesRight(p, out) && EndpointRight(p, lookups, numeric);
      AsksOneLess(first, rest, p.uid);
      assert out[0] == first && forall k :: 0 <= k < |rest| ==> rest[k] == out[k + 1];
    }
  }

  /** With distinct uids, whoever the first request is for is asked for by no other. */
  lemma FirstIsAlone(first: Request, rest: seq<Request>)
    requires DistinctUids([first] + rest)
    ensures DistinctUids(rest) && !Asks(rest, first.uid)
    ensures forall k :: 0 <= k < |rest| ==> rest[k] == ([first] + rest)[k + 1]
  {
    var out := [first] + rest;
    assert forall k :: 0 <= k < |rest| ==> rest[k] == out[k + 1];
    assert out[0] == first;
  }

  /** A resolution touches the prober with its uid and no other. */
  lemma ResolutionShape(e: State, now: nat, result: Result, clock: nat)
    requires Inv(e, clock) && Indexed(e)
    ensures var r := HandleResolution(e, now, result);
      r.nextUid == e.nextUid && r.pending == e.pending
      && forall i :: 0 <= i < |e.probers| ==>
        var p, q := e.probers[i], r.probers[i];
        q.uid == p.uid && q.host == p.host && q.numeric == p.numeric
        && if p.uid == result.uid then
             !q.resolving && q.endpoint == (if result.answer.Endpoint? then result.answer else p.endpoint)
           else q == p
  {
    hide AllSound, HistorySound, Backoff;
  }

  lemma AsksOneLess(first: Request, rest: seq<Request>, uid: nat)
    ensures Asks([first] + rest, uid) <==> first.uid == uid || Asks(rest, uid)
  {
    var out := [first] + rest;
    assert out[0] == first;
    if Asks(rest, uid) {
      var k :| 0 <= k < |rest| && rest[k].uid == uid;
      assert out[k + 1].uid == uid;
    }
    if Asks(out, uid) {
      var k :| 0 <= k < |out| && out[k].uid == uid;
      assert k > 0 ==> rest[k - 1].uid == uid;
    }
  }

  lemma {:induction false} HandleResolutionsKeep(e: State, now: nat, results: seq<Result>, worker: Worker,
                                                 lookups: set<(string, Endpoint)>, numeric: string -> Endpoint,
                                                 clock: nat)
    requires Inv(e, clock) && clock <= now && Table(e) && RequestsRight(e, Outstanding(e.pending, worker, results))
    requires EndpointsRight(e, results, lookups, numeric)
    ensures Indexed(e)
    ensures var r := HandleResolutions(e, now, results);
      Inv(r, now) && Table(r) && RequestsRight(r, Outstanding(r.pending, worker, []))
      && EndpointsRight(r, [], lookups, numeric)
      && r.clients == e.clients
    decreases |results|
  {
    hide Inv, Table, RequestsRight, HandleResolution, EndpointRight, Outstanding;
    InvIndexes(e, clock);
    if results == [] {
      TimeKeepsInv(e, clock, now);
    } else {
      var result, more := results[0], results[1..];
      var r := HandleResolution(e, now, result);
      OutstandingStep(e.pending, worker, results);
      HandleResolutionRequests(e, now, result, Outstanding(e.pending, worker, more), lookups, numeric, clock);
      HandleResolutionKeepsInv(e, now, result, clock);
      HandleResolutionKeepsTable(e, now, result);
      ClientsKept(e, now, result);
      HandleResolutionsKeep(r, now, more, worker, lookups, numeric, now);
    }
  }

  lemma OutstandingStep(pending: seq<Request>, worker: Worker, results: seq<Result>)
    requires results != []
    ensures Outstanding(pending, worker, results)
         == [Request(results[0].uid, results[0].host)] + Outstanding(pending, worker, results[1..])
  {
    assert Requests(results) == [Request(results[0].uid, results[0].host)] + Requests(results[1..]);
  }

  lemma ClientsKept(e: State, now: nat, result: Result)
    requires Indexed(e)
    ensures HandleResolution(e, now, result).clients == e.clients
  {
  }
}
