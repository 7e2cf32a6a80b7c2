/** The probe engine of daemon/src/monitor.cpp. */
module Engine {
  import opened Hysteresis

  const SEND_SLACK_US := 2000
  const RESOLVE_TTL_US := 300_000_000
  const RESOLVE_BACKOFF_BASE_US := 5_000_000
  const RESOLVE_BACKOFF_MAX_US := 300_000_000
  const MAX_IN_FLIGHT := 8

  datatype Client = Client(id: string, intervalUs: nat, timeoutUs: nat, destinations: seq<Destination>)

  /** A resolved address: family, address bits and numeric text. */
  datatype Endpoint = NoEndpoint | Endpoint(v6: bool, address: nat, text: string)

  datatype InFlight = InFlight(seqNo: nat, sentUs: nat, deadlineUs: nat)

  datatype Subscriber = Subscriber(client: nat, destination: nat)

  datatype Prober = Prober(
    host: string, intervalUs: nat, timeoutUs: nat, uid: nat,
    endpoint: Endpoint, numeric: bool, resolving: bool, nextResolveUs: nat, resolveFailures: nat,
    nextSendUs: nat, sequence: nat, inFlight: seq<InFlight>, maxInFlight: nat,
    sent: nat, received: nat, subscribers: seq<Subscriber>)

  datatype Request = Request(uid: nat, host: string)
  datatype Result = Result(uid: nat, host: string, answer: Endpoint)
  datatype Reply = Reply(uid: nat, seqNo: nat, sentUs: nat, from: Endpoint)

  datatype SendResult = Sent | Unreachable | Failed

  /** What the operating system does: which sockets are open, and what becomes of each send. */
  datatype Sockets = Sockets(open4: bool, open6: bool, outcome: (nat, nat) -> SendResult)

  /** The history of verdicts: one event for each sample. */
  datatype Event =
    | Answered(uid: nat, seqNo: nat, rttUs: nat)
    | TimedOut(uid: nat, seqNo: nat)
    | SendFailed(uid: nat, seqNo: nat)
    | NoRoute(uid: nat)

  /** The fields of `Monitor` that probing reads and writes, the resolver's request queue,
      and two records of the past: `log`, and `born`, the instant each uid was given out. */
  datatype State = State(
    clients: seq<Client>, probers: seq<Prober>, proberByUid: map<nat, nat>, nextUid: nat, minIntervalUs: nat,
    dataDirty: bool, stateDirty: bool, pending: seq<Request>, log: seq<Event>, born: map<nat, nat>)

  function Min(a: nat, b: nat): nat {
    if a < b then a else b
  }

  // ---- samples ----------------------------------------------------------

  /** The loop of `applySample` over the subscribers, with its two bounds checks. */
  function Deliver(clients: seq<Client>, subs: seq<Subscriber>, sample: Sample, dirty: bool): (r: (seq<Client>, bool))
    ensures |r.0| == |clients|
    decreases |subs|
  {
    if subs == [] then (clients, dirty)
    else
      var (next, changed) := DeliverOne(clients, subs[0], sample);
      Deliver(next, subs[1..], sample, dirty || changed)
  }

  function DeliverOne(clients: seq<Client>, sub: Subscriber, sample: Sample): (r: (seq<Client>, bool))
    ensures |r.0| == |clients|
  {
    if sub.client >= |clients| || sub.destination >= |clients[sub.client].destinations| then (clients, false)
    else
      var client := clients[sub.client];
      var before := client.destinations[sub.destination];
      var after := Judge(before, sample);
      (clients[sub.client := client.(destinations := client.destinations[sub.destination := after])],
       after.state != before.state)
  }

  /** `applySample` for prober `i`, recorded as `event`. */
  function ApplySample(e: State, i: nat, sample: Sample, event: Event): (r: State)
    requires i < |e.probers|
    ensures |r.probers| == |e.probers|
  {
    var p := e.probers[i];
    var (clients, dirty) := Deliver(e.clients, p.subscribers, sample, e.stateDirty);
    e.(probers := e.probers[i := Counted(p, sample)], clients := clients, stateDirty := dirty, dataDirty := true,
       log := e.log + [event])
  }

  function Counted(p: Prober, sample: Sample): Prober {
    p.(sent := p.sent + 1, received := p.received + (if sample.Answer? then 1 else 0))
  }

  function SetProber(e: State, i: nat, p: Prober): (r: State)
    requires i < |e.probers|
    ensures |r.probers| == |e.probers|
  {
    e.(probers := e.probers[i := p])
  }

  // ---- tick -------------------------------------------------------------

  predicate Expired(f: InFlight, now: nat) {
    now + SEND_SLACK_US >= f.deadlineUs
  }

  /** The expiry loop for prober `i`: give up on the front while it is due. */
  function Expire(e: State, i: nat, now: nat): (r: State)
    requires i < |e.probers|
    ensures |r.probers| == |e.probers|
    decreases |e.probers[i].inFlight|
  {
    var p := e.probers[i];
    if p.inFlight != [] && Expired(p.inFlight[0], now) then Expire(ExpireFront(e, i), i, now) else e
  }

  function ExpireFront(e: State, i: nat): (r: State)
    requires i < |e.probers| && e.probers[i].inFlight != []
    ensures |r.probers| == |e.probers| && r.probers[i].inFlight == e.probers[i].inFlight[1..]
  {
    var p := e.probers[i];
    ApplySample(SetProber(e, i, p.(inFlight := p.inFlight[1..])), i, Silence, TimedOut(p.uid, p.inFlight[0].seqNo))
  }

  /** `Resolver::request`: a second request for the same uid is dropped. */
  function Enqueue(pending: seq<Request>, request: Request): seq<Request> {
    if exists k :: 0 <= k < |pending| && pending[k].uid == request.uid then pending else pending + [request]
  }

  predicate ResolveDue(p: Prober, now: nat) {
    !p.numeric && !p.resolving && now + SEND_SLACK_US >= p.nextResolveUs
  }

  function StartResolving(e: State, i: nat, now: nat): (r: State)
    requires i < |e.probers|
    ensures |r.probers| == |e.probers|
  {
    var p := e.probers[i];
    if ResolveDue(p, now) then
      SetProber(e, i, p.(resolving := true)).(pending := Enqueue(e.pending, Request(p.uid, p.host)))
    else e
  }

  predicate Routable(p: Prober, sockets: Sockets) {
    p.endpoint.Endpoint? && if p.endpoint.v6 then sockets.open6 else sockets.open4
  }

  /** `sendProbe` */
  function SendProbe(e: State, i: nat, now: nat, sockets: Sockets): (r: State)
    requires i < |e.probers|
    ensures |r.probers| == |e.probers|
  {
    var p := e.probers[i];
    if !Routable(p, sockets) then ApplySample(e, i, Silence, NoRoute(p.uid))
    else
      var seqNo := p.sequence + 1;
      var p' := p.(sequence := seqNo);
      match sockets.outcome(p.uid, seqNo)
      case Sent => SetProber(e, i, p'.(inFlight := p.inFlight + [InFlight(seqNo, now, now + p.timeoutUs)]))
      case _ => ApplySample(SetProber(e, i, p'), i, Silence, SendFailed(p.uid, seqNo))
  }

  predicate SendDue(p: Prober, now: nat) {
    |p.inFlight| < p.maxInFlight && now + SEND_SLACK_US >= p.nextSendUs
  }

  /** The next slot; after a long pause, one interval from now instead of a burst. */
  function Reschedule(p: Prober, now: nat): Prober {
    p.(nextSendUs := if p.nextSendUs + p.intervalUs <= now then now + p.intervalUs else p.nextSendUs + p.intervalUs)
  }

  function MaybeSend(e: State, i: nat, now: nat, sockets: Sockets): (r: State)
    requires i < |e.probers|
    ensures |r.probers| == |e.probers|
  {
    if SendDue(e.probers[i], now) then
      var sent := SendProbe(e, i, now, sockets);
      SetProber(sent, i, Reschedule(sent.probers[i], now))
    else e
  }

  /** One turn of the loop of `tick`. */
  function TickProber(e: State, i: nat, now: nat, sockets: Sockets): (r: State)
    requires i < |e.probers|
    ensures |r.probers| == |e.probers|
  {
    MaybeSend(StartResolving(Expire(e, i, now), i, now), i, now, sockets)
  }

  /** `tick`, from prober `i` on. */
  function TickFrom(e: State, i: nat, now: nat, sockets: Sockets): (r: State)
    requires i <= |e.probers|
    ensures |r.probers| == |e.probers|
    decreases |e.probers| - i
  {
    if i == |e.probers| then e else TickFrom(TickProber(e, i, now, sockets), i + 1, now, sockets)
  }

  function Tick(e: State, now: nat, sockets: Sockets): State {
    TickFrom(e, 0, now, sockets)
  }

  // ---- replies ----------------------------------------------------------

  /** The position of the first probe with that number, or the length if there is none. */
  function FindSeq(inFlight: seq<InFlight>, seqNo: nat): (k: nat)
    ensures k <= |inFlight|
    ensures k < |inFlight| ==> inFlight[k].seqNo == seqNo
    ensures forall j :: 0 <= j < k ==> inFlight[j].seqNo != seqNo
  {
    if inFlight == [] then 0
    else if inFlight[0].seqNo == seqNo then 0
    else 1 + FindSeq(inFlight[1..], seqNo)
  }

  /** `Endpoint::matches`: same family and same address, whatever the text. */
  predicate Matches(endpoint: Endpoint, from: Endpoint) {
    endpoint.Endpoint? && from.Endpoint? && endpoint.v6 == from.v6 && endpoint.address == from.address
  }

  /** The index leads to existing probers. */
  predicate Indexed(e: State) {
    forall u :: u in e.proberByUid ==> e.proberByUid[u] < |e.probers|
  }

  /** A reply that settles an outstanding probe of a live prober. */
  predicate Accepts(e: State, reply: Reply)
    requires Indexed(e)
  {
    reply.uid in e.proberByUid
    && var p := e.probers[e.proberByUid[reply.uid]];
       FindSeq(p.inFlight, reply.seqNo) < |p.inFlight| && Matches(p.endpoint, reply.from)
  }

  function RoundTrip(now: nat, sentUs: nat): nat {
    if now > sentUs then now - sentUs else 0
  }

  /** One turn of the loop of `handleReplies`. */
  function HandleReply(e: State, now: nat, reply: Reply): (r: State)
    requires Indexed(e)
    ensures Indexed(r)
  {
    if !Accepts(e, reply) then e
    else
      var i := e.proberByUid[reply.uid];
      var p := e.probers[i];
      var k := FindSeq(p.inFlight, reply.seqNo);
      ApplySample(SetProber(e, i, p.(inFlight := p.inFlight[..k] + p.inFlight[k + 1..])), i,
                  Answer(RoundTrip(now, reply.sentUs)), Answered(p.uid, reply.seqNo, RoundTrip(now, reply.sentUs)))
  }

  function HandleReplies(e: State, now: nat, replies: seq<Reply>): (r: State)
    requires Indexed(e)
    ensures Indexed(r)
    decreases |replies|
  {
    if replies == [] then e else HandleReplies(HandleReply(e, now, replies[0]), now, replies[1..])
  }

  // ---- resolutions ------------------------------------------------------

  /** `base << bits` */
  function Shifted(base: nat, bits: nat): nat
    decreases bits
  {
    if bits == 0 then base else Shifted(base * 2, bits - 1)
  }

  function Backoff(failures: nat): nat
    requires failures > 0
  {
    Min(Shifted(RESOLVE_BACKOFF_BASE_US, Min(failures - 1, 6)), RESOLVE_BACKOFF_MAX_US)
  }

  lemma {:induction false} ShiftedDoubles(base: nat, bits: nat)
    ensures Shifted(base, bits + 1) == 2 * Shifted(base, bits)
    decreases bits
  {
    if bits > 0 {
      ShiftedDoubles(base * 2, bits - 1);
    }
  }

  /** The wait after failed lookups starts at 5 s and doubles with each failure, up to 5 minutes and no further. */
  lemma BackoffDoubles(failures: nat)
    requires failures > 0
    ensures Backoff(1) == RESOLVE_BACKOFF_BASE_US
    ensures Backoff(failures + 1) == Min(2 * Backoff(failures), RESOLVE_BACKOFF_MAX_US)
  {
    assert Shifted(RESOLVE_BACKOFF_BASE_US, 6) == 320_000_000;
    ShiftedDoubles(RESOLVE_BACKOFF_BASE_US, Min(failures - 1, 6));
  }

  /** One turn of the loop of `handleResolutions`. */
  function HandleResolution(e: State, now: nat, result: Result): (r: State)
    requires Indexed(e)
    ensures Indexed(r) && |r.probers| == |e.probers| && r.proberByUid == e.proberByUid
  {
    if result.uid !in e.proberByUid then e
    else
      var i := e.proberByUid[result.uid];
      var p := e.probers[i];
      if result.answer.Endpoint? then
        var moved := p.endpoint.NoEndpoint? || p.endpoint.text != result.answer.text;
        SetProber(e, i,
                  p.(resolving := false, endpoint := result.answer, resolveFailures := 0,
                     nextResolveUs := now + RESOLVE_TTL_US))
          .(stateDirty := e.stateDirty || moved)
      else
        var failures := Min(p.resolveFailures + 1, 16);
        SetProber(e, i, p.(resolving := false, resolveFailures := failures, nextResolveUs := now + Backoff(failures)))
          .(stateDirty := true)
  }

  function HandleResolutions(e: State, now: nat, results: seq<Result>): (r: State)
    requires Indexed(e)
    ensures Indexed(r) && |r.probers| == |e.probers| && r.proberByUid == e.proberByUid
    decreases |results|
  {
    if results == [] then e else HandleResolutions(HandleResolution(e, now, results[0]), now, results[1..])
  }

  // ---- the next deadline ------------------------------------------------

  const NEVER_US := 0xFFFF_FFFF_FFFF_FFFF

  /** What one prober contributes to `nextDeadline`. */
  function ProberDeadline(p: Prober): nat {
    var send := if p.inFlight != [] then Min(p.inFlight[0].deadlineUs, p.nextSendUs) else p.nextSendUs;
    if !p.numeric && !p.resolving then Min(send, p.nextResolveUs) else send
  }

  function ProbersDeadline(probers: seq<Prober>): nat {
    if probers == [] then NEVER_US else Min(ProberDeadline(probers[0]), ProbersDeadline(probers[1..]))
  }
}
