/** When hosts are looked up, over whole runs, told from requests and results alone. */
module Lookups {
  import opened Hysteresis
  import opened Engine
  import opened EngineInvariant
  import opened Rebuild
  import opened Partition
  import opened RebuildTheorems
  import opened TableSteps
  import opened Resolver
  import opened System
  import opened SystemTheorems
  import opened Answers
  import opened Punctuality

  /** A result that was handed to the loop: when, and whether the host was found. */
  datatype Handled = Handled(at: nat, found: bool)

  function HandledIn(completed: seq<Result>, uid: nat, now: nat): seq<Handled> {
    if completed == [] then []
    else
      var front, last := HandledIn(completed[..|completed| - 1], uid, now), completed[|completed| - 1];
      if last.uid == uid then front + [Handled(now, last.answer.Endpoint?)] else front
  }

  /** All results for a uid that the first `k` steps have handled. */
  function Outcomes(trace: seq<System>, steps: seq<Step>, k: nat, uid: nat): seq<Handled>
    requires k <= |steps| <= |trace|
  {
    if k == 0 then []
    else
      Outcomes(trace, steps, k - 1, uid)
      + if steps[k - 1].HandleResults? then HandledIn(trace[k - 1].completed, uid, steps[k - 1].now) else []
  }

  /** How many lookups in a row have failed, up to the last. */
  function Failures(outcomes: seq<Handled>): nat {
    if outcomes == [] || outcomes[|outcomes| - 1].found then 0 else 1 + Failures(outcomes[..|outcomes| - 1])
  }

  function Pow2(n: nat): nat {
    if n == 0 then 1 else 2 * Pow2(n - 1)
  }

  /** 5 minutes after a lookup that found the host; after one that did not, 5 seconds, doubled for each failure in a row
      before it, and no more than 5 minutes. */
  function WaitUs(outcomes: seq<Handled>): nat {
    if Failures(outcomes) == 0 then 300_000_000 else Min(5_000_000 * Pow2(Failures(outcomes) - 1), 300_000_000)
  }

  /** What the prober remembers of it. */
  ghost predicate Recalls(p: Prober, outcomes: seq<Handled>, clock: nat) {
    if outcomes == [] then p.resolveFailures == 0 && (!p.numeric ==> p.nextResolveUs <= clock)
    else
      p.nextResolveUs == outcomes[|outcomes| - 1].at + WaitUs(outcomes)
      && p.resolveFailures == Min(Failures(outcomes), 16)
  }

  // ---- the wait ---------------------------------------------------------

  lemma {:induction false} ShiftedIsPow2(base: nat, bits: nat)
    ensures Shifted(base, bits) == base * Pow2(bits)
    decreases bits
  {
    if bits > 0 {
      ShiftedIsPow2(base * 2, bits - 1);
    }
  }

  lemma {:induction false} Pow2Grows(n: nat)
    requires n >= 6
    ensures Pow2(n) >= 64
  {
    if n == 6 {
      assert Pow2(3) == 8;
    } else {
      Pow2Grows(n - 1);
    }
  }

  lemma BackoffIsWait(failures: nat)
    requires failures > 0
    ensures Backoff(Min(failures, 16)) == Min(5_000_000 * Pow2(failures - 1), 300_000_000)
  {
    var bits := Min(Min(failures, 16) - 1, 6);
    ShiftedIsPow2(RESOLVE_BACKOFF_BASE_US, bits);
    assert Pow2(6) == 64 by {
      assert Pow2(3) == 8;
    }
    if failures > 6 {
      Pow2Grows(failures - 1);
    }
  }

  // ---- one result -------------------------------------------------------

  lemma ResultRecalled(e: State, now: nat, result: Result, i: nat, outcomes: seq<Handled>, clock: nat)
    requires Indexed(e) && IndexExact(e) && i < |e.probers| && Recalls(e.probers[i], outcomes, clock) && clock <= now
    ensures var r := HandleResolution(e, now, result);
      IndexExact(r) && r.probers[i].uid == e.probers[i].uid
      && Recalls(r.probers[i], outcomes + HandledIn([result], e.probers[i].uid, now), now)
  {
    hide Recalls, HandledIn, Backoff;
    var p, r := e.probers[i], HandleResolution(e, now, result);
    OneHandled(result, p.uid, now);
    if result.uid == p.uid {
      assert e.proberByUid[result.uid] == i;
      hide IndexExact;
      if result.answer.Endpoint? {
        FoundRecalled(p, r.probers[i], outcomes, now);
      } else {
        MissedRecalled(p, r.probers[i], outcomes, now, clock);
      }
    } else {
      assert outcomes + HandledIn([result], p.uid, now) == outcomes;
      assert r.probers[i] == p;
      RecalledLater(p, outcomes, clock, now);
    }
  }

  lemma OneHandled(result: Result, uid: nat, now: nat)
    ensures HandledIn([result], uid, now) == if result.uid == uid then [Handled(now, result.answer.Endpoint?)] else []
  {
    assert [result][..0] == [];
  }

  lemma FoundRecalled(p: Prober, q: Prober, outcomes: seq<Handled>, now: nat)
    requires q.resolveFailures == 0 && q.nextResolveUs == now + RESOLVE_TTL_US
    ensures Recalls(q, outcomes + [Handled(now, true)], now)
  {
  }

  lemma MissedRecalled(p: Prober, q: Prober, outcomes: seq<Handled>, now: nat, clock: nat)
    requires Recalls(p, outcomes, clock) && q.resolveFailures == Min(p.resolveFailures + 1, 16)
    requires q.nextResolveUs == now + Backoff(q.resolveFailures)
    ensures Recalls(q, outcomes + [Handled(now, false)], now)
  {
    hide Backoff, Pow2;
    var longer := outcomes + [Handled(now, false)];
    assert longer[..|longer| - 1] == outcomes;
    FailureRecalled(p, outcomes);
    BackoffIsWait(Failures(outcomes) + 1);
  }

  lemma FailureRecalled(p: Prober, outcomes: seq<Handled>)
    requires p.resolveFailures == if outcomes == [] then 0 else Min(Failures(outcomes), 16)
    ensures Min(p.resolveFailures + 1, 16) == Min(Failures(outcomes) + 1, 16)
  {
  }

  lemma {:induction false} HandledJoins(a: seq<Result>, b: seq<Result>, uid: nat, now: nat)
    ensures HandledIn(a + b, uid, now) == HandledIn(a, uid, now) + HandledIn(b, uid, now)
  {
    if b == [] {
      assert a + b == a;
    } else {
      HandledJoins(a, b[..|b| - 1], uid, now);
      assert (a + b)[..|a + b| - 1] == a + b[..|b| - 1];
    }
  }

  lemma {:induction false} ResultsRecalled(e: State, now: nat, results: seq<Result>, i: nat, outcomes: seq<Handled>,
                                           clock: nat)
    requires Indexed(e) && IndexExact(e) && i < |e.probers| && Recalls(e.probers[i], outcomes, clock) && clock <= now
    ensures var r := HandleResolutions(e, now, results);
      r.probers[i].uid == e.probers[i].uid
      && Recalls(r.probers[i], outcomes + HandledIn(results, e.probers[i].uid, now), now)
    decreases |results|
  {
    hide HandleResolution, Recalls, Indexed, IndexExact;
    if results == [] {
      assert outcomes + HandledIn([], e.probers[i].uid, now) == outcomes;
      RecalledLater(e.probers[i], outcomes, clock, now);
    } else {
      var uid := e.probers[i].uid;
      ResultRecalled(e, now, results[0], i, outcomes, clock);
      var longer := outcomes + HandledIn([results[0]], uid, now);
      ResultsRecalled(HandleResolution(e, now, results[0]), now, results[1..], i, longer, now);
      HandledJoins([results[0]], results[1..], uid, now);
      assert [results[0]] + results[1..] == results;
      assert longer + HandledIn(results[1..], uid, now) == outcomes + HandledIn(results, uid, now);
    }
  }

  lemma RecalledLater(p: Prober, outcomes: seq<Handled>, clock: nat, now: nat)
    requires Recalls(p, outcomes, clock) && clock <= now
    ensures Recalls(p, outcomes, now)
  {
  }

  // ---- other steps ------------------------------------------------------

  /** What lookups depend on, in one prober. */
  predicate SameLookup(p: Prober, q: Prober) {
    q.uid == p.uid && q.numeric == p.numeric && q.nextResolveUs == p.nextResolveUs
    && q.resolveFailures == p.resolveFailures
  }

  predicate SameLookups(e: State, r: State) {
    |r.probers| == |e.probers| && r.nextUid == e.nextUid
    && forall i :: 0 <= i < |e.probers| ==> SameLookup(e.probers[i], r.probers[i])
  }

  lemma {:induction false} ExpireSameLookups(e: State, i: nat, now: nat)
    requires i < |e.probers|
    ensures SameLookups(e, Expire(e, i, now))
    decreases |e.probers[i].inFlight|
  {
    var p := e.probers[i];
    if p.inFlight != [] && Expired(p.inFlight[0], now) {
      ExpireFrontChanges(e, i);
      var r := ExpireFront(e, i);
      assert SameLookups(e, r);
      hide ExpireFront;
      ExpireSameLookups(r, i, now);
    }
  }

  lemma SendSameLookups(e: State, i: nat, now: nat, sockets: Sockets)
    requires i < |e.probers|
    ensures SameLookups(e, MaybeSend(e, i, now, sockets)) && MaybeSend(e, i, now, sockets).pending == e.pending
  {
    if SendDue(e.probers[i], now) {
      MaybeSendChanges(e, i, now, sockets);
    }
  }

  lemma {:induction false} RepliesSameLookups(e: State, now: nat, replies: seq<Reply>)
    requires Indexed(e)
    ensures SameLookups(e, HandleReplies(e, now, replies))
    decreases |replies|
  {
    if replies != [] {
      ReplySameLookups(e, now, replies[0]);
      hide HandleReply, Indexed;
      RepliesSameLookups(HandleReply(e, now, replies[0]), now, replies[1..]);
    }
  }

  lemma ReplySameLookups(e: State, now: nat, reply: Reply)
    requires Indexed(e)
    ensures SameLookups(e, HandleReply(e, now, reply))
  {
    if Accepts(e, reply) {
      var i := e.proberByUid[reply.uid];
      var p := e.probers[i];
      var k := FindSeq(p.inFlight, reply.seqNo);
      SampleAfterSet(e, i, p.(inFlight := p.inFlight[..k] + p.inFlight[k + 1..]),
                     Answer(RoundTrip(now, reply.sentUs)),
                     Answered(p.uid, reply.seqNo, RoundTrip(now, reply.sentUs)));
      hide ApplySample;
    }
  }

  lemma TickSameLookups(e: State, i: nat, now: nat, sockets: Sockets)
    requires i < |e.probers|
    ensures SameLookups(e, TickProber(e, i, now, sockets))
  {
    hide Expire, MaybeSend;
    ExpireSameLookups(e, i, now);
    var a := Expire(e, i, now);
    SendSameLookups(StartResolving(a, i, now), i, now, sockets);
  }

  /** A prober after a reload was there before, or starts afresh under a new uid. */
  ghost predicate ComesFrom(e: State, p: Prober, now: nat, numeric: string -> Endpoint) {
    (exists i :: 0 <= i < |e.probers| && p == e.probers[i].(subscribers := p.subscribers))
    || (p.uid >= e.nextUid && StartsAfresh(p, now, numeric))
  }

  lemma RebuildComesFrom(e: State, now: nat, numeric: string -> Endpoint, clock: nat)
    requires Inv(e, clock) && Clamped(e.clients)
    ensures ProbersClamped(e.probers)
    ensures var r := RebuildProbers(e, now, numeric);
      forall j :: 0 <= j < |r.probers| ==> ComesFrom(e, r.probers[j], now, numeric)
  {
    hide Inv, RebuildProbers, FirstOfStream, SameStream, StartsAfresh;
    RebuildSurvivors(e, now, numeric, clock);
    var r := RebuildProbers(e, now, numeric);
    forall j | 0 <= j < |r.probers| ensures ComesFrom(e, r.probers[j], now, numeric) {
      var p := r.probers[j];
      assert Survives(e, r, j, now, numeric);
      FirstExists(e, p, 0);
      if i: nat :| FirstOfStream(e, i, p) {
        StreamIndex(e, i, p);
        assert p == e.probers[i].(subscribers := p.subscribers);
      }
    }
  }

  lemma ReloadComesFrom(e: State, loaded: seq<Client>, now: nat, numeric: string -> Endpoint, clock: nat)
    requires Inv(e, clock) && Clamped(loaded)
    ensures ProbersClamped(e.probers)
    ensures var r := Reload(e, loaded, now, numeric);
      forall j :: 0 <= j < |r.probers| ==> ComesFrom(e, r.probers[j], now, numeric)
  {
    hide Inv, RebuildProbers, StartsAfresh;
    CarryKeepsClamps(loaded, e.clients);
    ClientsAside(e, CarryAll(loaded, e.clients), clock);
    RebuildComesFrom(e.(clients := CarryAll(loaded, e.clients)), now, numeric, clock);
  }

  // ---- every run --------------------------------------------------------

  /** Every prober recalls the outcomes of its own lookups, and there are none yet for uids not given out. */
  ghost predicate AllRecall(trace: seq<System>, steps: seq<Step>, k: nat)
    requires k <= |steps| < |trace|
  {
    var e := trace[k].engine;
    (forall i :: 0 <= i < |e.probers| ==>
        Recalls(e.probers[i], Outcomes(trace, steps, k, e.probers[i].uid), trace[k].clock))
    && forall uid: nat :: uid >= e.nextUid ==> Outcomes(trace, steps, k, uid) == []
  }

  lemma {:induction false} NoneHandled(completed: seq<Result>, uid: nat, now: nat)
    requires forall k :: 0 <= k < |completed| ==> completed[k].uid != uid
    ensures HandledIn(completed, uid, now) == []
  {
    if completed != [] {
      NoneHandled(completed[..|completed| - 1], uid, now);
    }
  }

  lemma CompletedBelow(s: System, numeric: string -> Endpoint, k: nat)
    requires SystemInv(s, numeric) && k < |s.completed|
    ensures s.completed[k].uid < s.engine.nextUid
  {
    hide Inv, Table, AllConsistent, EndpointsRight, ResolvesRight;
    var out := Outstanding(s.engine.pending, s.worker, s.completed);
    assert out[k] == Requests(s.completed)[k];
  }

  lemma OtherOutcomes(trace: seq<System>, steps: seq<Step>, k: nat, uid: nat)
    requires k < |steps| < |trace| && !steps[k].HandleResults?
    ensures Outcomes(trace, steps, k + 1, uid) == Outcomes(trace, steps, k, uid)
  {
    assert Outcomes(trace, steps, k, uid) + [] == Outcomes(trace, steps, k, uid);
  }

  lemma SameRecalled(trace: seq<System>, steps: seq<Step>, k: nat)
    requires k < |steps| < |trace| && !steps[k].HandleResults? && AllRecall(trace, steps, k)
    requires SameLookups(trace[k].engine, trace[k + 1].engine) && trace[k].clock <= trace[k + 1].clock
    ensures AllRecall(trace, steps, k + 1)
  {
    hide Outcomes;
    var n := k + 1;
    var e, r := trace[k].engine, trace[n].engine;
    forall uid: nat ensures Outcomes(trace, steps, n, uid) == Outcomes(trace, steps, k, uid) {
      OtherOutcomes(trace, steps, k, uid);
    }
    forall i | 0 <= i < |r.probers|
      ensures Recalls(r.probers[i], Outcomes(trace, steps, n, r.probers[i].uid), trace[n].clock)
    {
      assert SameLookup(e.probers[i], r.probers[i]);
      assert Recalls(e.probers[i], Outcomes(trace, steps, k, e.probers[i].uid), trace[k].clock);
    }
  }

  lemma ResultsKeepRecall(trace: seq<System>, steps: seq<Step>, k: nat, numeric: string -> Endpoint)
    requires k < |steps| < |trace| && steps[k].HandleResults? && AllRecall(trace, steps, k)
    requires SystemInv(trace[k], numeric) && Enabled(trace[k], steps[k])
    requires Indexed(trace[k].engine) && ProbersClamped(trace[k].engine.probers) && IndexExact(trace[k].engine)
    requires trace[k + 1] == Next(trace[k], steps[k], numeric)
    ensures AllRecall(trace, steps, k + 1)
  {
    hide SystemInv, Outcomes, HandledIn, Recalls, Indexed, ProbersClamped, IndexExact, HandleResolutions;
    var s, now, n := trace[k], steps[k].now, k + 1;
    var e, r := s.engine, trace[n].engine;
    assert WithQueues(s, AfterTake(QueuesOf(s))).engine == e;
    assert r == HandleResolutions(e, now, s.completed);
    KeepsUids(e, now, s.completed);
    forall uid: nat
      ensures Outcomes(trace, steps, n, uid) == Outcomes(trace, steps, k, uid) + HandledIn(s.completed, uid, now)
    {
      NextOutcomes(trace, steps, k, uid);
    }
    forall i | 0 <= i < |r.probers|
      ensures Recalls(r.probers[i], Outcomes(trace, steps, n, r.probers[i].uid), trace[n].clock)
    {
      ResultsRecalled(e, now, s.completed, i, Outcomes(trace, steps, k, e.probers[i].uid), s.clock);
    }
    forall uid: nat | uid >= r.nextUid ensures Outcomes(trace, steps, n, uid) == [] {
      forall j | 0 <= j < |s.completed| ensures s.completed[j].uid != uid {
        CompletedBelow(s, numeric, j);
      }
      NoneHandled(s.completed, uid, now);
    }
  }

  lemma NextOutcomes(trace: seq<System>, steps: seq<Step>, k: nat, uid: nat)
    requires k < |steps| < |trace| && steps[k].HandleResults?
    ensures Outcomes(trace, steps, k + 1, uid)
      == Outcomes(trace, steps, k, uid) + HandledIn(trace[k].completed, uid, steps[k].now)
  {
  }

  lemma {:induction false} KeepsUids(e: State, now: nat, results: seq<Result>)
    requires Indexed(e)
    ensures HandleResolutions(e, now, results).nextUid == e.nextUid
    decreases |results|
  {
    if results != [] {
      KeepsUids(HandleResolution(e, now, results[0]), now, results[1..]);
    }
  }

  lemma ConfigureKeepsRecall(trace: seq<System>, steps: seq<Step>, k: nat, numeric: string -> Endpoint)
    requires k < |steps| < |trace| && steps[k].Configure? && AllRecall(trace, steps, k)
    requires SystemInv(trace[k], numeric) && Enabled(trace[k], steps[k])
    requires Indexed(trace[k].engine) && ProbersClamped(trace[k].engine.probers)
    requires trace[k + 1] == Next(trace[k], steps[k], numeric)
    ensures AllRecall(trace, steps, k + 1)
  {
    hide Inv, Outcomes, Recalls, Indexed, ProbersClamped, Reload, Table, StartsAfresh;
    var n := k + 1;
    var e, r, now := trace[k].engine, trace[n].engine, steps[k].now;
    ReloadComesFrom(e, steps[k].loaded, now, numeric, trace[k].clock);
    ReloadRaisesUids(e, steps[k].loaded, now, numeric, trace[k].clock);
    forall uid: nat ensures Outcomes(trace, steps, n, uid) == Outcomes(trace, steps, k, uid) {
      OtherOutcomes(trace, steps, k, uid);
    }
    forall j | 0 <= j < |r.probers|
      ensures Recalls(r.probers[j], Outcomes(trace, steps, n, r.probers[j].uid), trace[n].clock)
    {
      var p := r.probers[j];
      assert ComesFrom(e, p, now, numeric);
      if i :| 0 <= i < |e.probers| && p == e.probers[i].(subscribers := p.subscribers) {
        RecalledElsewhere(e.probers[i], p, Outcomes(trace, steps, k, p.uid), trace[k].clock, now);
      } else {
        FreshRecalls(p, now, numeric);
      }
    }
  }

  lemma RecalledElsewhere(p: Prober, q: Prober, outcomes: seq<Handled>, clock: nat, now: nat)
    requires Recalls(p, outcomes, clock) && clock <= now && SameLookup(p, q)
    ensures Recalls(q, outcomes, now)
  {
  }

  lemma FreshRecalls(p: Prober, now: nat, numeric: string -> Endpoint)
    requires StartsAfresh(p, now, numeric)
    ensures Recalls(p, [], now)
  {
  }

  lemma ReloadRaisesUids(e: State, loaded: seq<Client>, now: nat, numeric: string -> Endpoint, clock: nat)
    requires Inv(e, clock) && Clamped(loaded)
    ensures ProbersClamped(e.probers) && e.nextUid <= Reload(e, loaded, now, numeric).nextUid
  {
    hide Inv, Built, Partitioned;
    CarryKeepsClamps(loaded, e.clients);
    var e1 := e.(clients := CarryAll(loaded, e.clients));
    ClientsAside(e, CarryAll(loaded, e.clients), clock);
    ProbersAreClamped(e1, clock);
    BornBelow(e1, clock);
    EnrollAllKeepsClamps(StartBuild(e1), Slots(e1.clients), OldOf(e1), now, numeric);
    BuiltPartitions(e1, now, numeric);
  }

  lemma StepKeepsRecall(trace: seq<System>, steps: seq<Step>, k: nat, numeric: string -> Endpoint)
    requires k < |steps| < |trace| && AllRecall(trace, steps, k)
    requires SystemInv(trace[k], numeric) && Enabled(trace[k], steps[k])
    requires Indexed(trace[k].engine) && ProbersClamped(trace[k].engine.probers) && IndexExact(trace[k].engine)
    requires trace[k + 1] == Next(trace[k], steps[k], numeric)
    ensures AllRecall(trace, steps, k + 1)
  {
    hide SystemInv, AllRecall, TickProber, HandleReplies, HandleResolutions, Reload, Indexed, ProbersClamped,
         IndexExact;
    var e := trace[k].engine;
    match steps[k]
    case HandleResults(_) => ResultsKeepRecall(trace, steps, k, numeric);
    case Configure(_, _) => ConfigureKeepsRecall(trace, steps, k, numeric);
    case TickOne(i, now, sockets) =>
      TickSameLookups(e, i, now, sockets);
      SameRecalled(trace, steps, k);
    case Replies(now, replies) =>
      RepliesSameLookups(e, now, replies);
      SameRecalled(trace, steps, k);
    case _ => SameRecalled(trace, steps, k);
  }

  lemma {:induction false} RunRecalls(trace: seq<System>, steps: seq<Step>, numeric: string -> Endpoint, k: nat)
    requires Run(trace, steps, numeric) && k < |trace|
    ensures k <= |steps| < |trace| && AllRecall(trace, steps, k)
  {
    hide SystemInv, Enabled, Next, AllRecall, IndexExact;
    if k == 0 {
      StartRecalls(trace, steps);
    } else {
      RunRecalls(trace, steps, numeric, k - 1);
      RunInvariant(trace, steps, numeric, k - 1);
      InvBounds(trace[k - 1], numeric);
      assert Enabled(trace[k - 1], steps[k - 1]) && Leads(trace[k - 1], steps[k - 1], trace[k], numeric);
      StepKeepsRecall(trace, steps, k - 1, numeric);
    }
  }

  lemma StartRecalls(trace: seq<System>, steps: seq<Step>)
    requires 0 <= |steps| < |trace| && trace[0].engine.probers == []
    ensures AllRecall(trace, steps, 0)
  {
  }

  /** The turn of prober `i` in the tick asks for a lookup. */
  predicate Asked(e: State, i: nat, now: nat, sockets: Sockets)
    requires i < |e.probers|
  {
    TickProber(e, i, now, sockets).pending == e.pending + [Request(e.probers[i].uid, e.probers[i].host)]
  }

  /** In every run, in its turn of the tick a prober for a host name asks for a lookup exactly if no request of its
      own is outstanding and it has never had a result, or the wait after its last one is over, less 2 ms: 5 minutes
      after a success, and after failures 5 seconds, doubled for each one before it in a row, up to 5 minutes.
      Otherwise nothing is asked. */
  lemma RunLooksUp(trace: seq<System>, steps: seq<Step>, numeric: string -> Endpoint, k: nat, i: nat, now: nat,
                   sockets: Sockets)
    requires Run(trace, steps, numeric) && k < |trace| && i < |trace[k].engine.probers| && trace[k].clock <= now
    ensures k <= |steps| < |trace|
    ensures var s := trace[k];
      var p, outcomes := s.engine.probers[i], Outcomes(trace, steps, k, s.engine.probers[i].uid);
      var due := !p.numeric && !Asks(Outstanding(s.engine.pending, s.worker, s.completed), p.uid)
        && (outcomes == [] || now + 2000 >= outcomes[|outcomes| - 1].at + WaitUs(outcomes));
      (Asked(s.engine, i, now, sockets) <==> due)
      && (!due ==> TickProber(s.engine, i, now, sockets).pending == s.engine.pending)
  {
    hide Run, Inv, Table, AllConsistent, EndpointsRight, Outstanding, Outcomes, TickProber;
    RunRecalls(trace, steps, numeric, k);
    RunInvariant(trace, steps, numeric, k);
    var s := trace[k];
    var p := s.engine.probers[i];
    assert ResolvesRight(p, Outstanding(s.engine.pending, s.worker, s.completed));
    assert Recalls(p, Outcomes(trace, steps, k, p.uid), s.clock);
    TickAsks(s.engine, i, now, sockets);
    PendingOutstanding(s, p.uid);
  }

  lemma PendingOutstanding(s: System, uid: nat)
    ensures (exists j :: 0 <= j < |s.engine.pending| && s.engine.pending[j].uid == uid)
      ==> Asks(Outstanding(s.engine.pending, s.worker, s.completed), uid)
  {
    var out := Outstanding(s.engine.pending, s.worker, s.completed);
    var n := |Requests(s.completed) + Running(s.worker)|;
    if j :| 0 <= j < |s.engine.pending| && s.engine.pending[j].uid == uid {
      assert out[n + j] == s.engine.pending[j];
    }
  }

  /** What a turn of the tick asks, told by the prober's own fields. */
  lemma TickAsks(e: State, i: nat, now: nat, sockets: Sockets)
    requires i < |e.probers|
    ensures var p := e.probers[i];
      TickProber(e, i, now, sockets).pending
      == if !p.numeric && !p.resolving && now + 2000 >= p.nextResolveUs
            && !exists j :: 0 <= j < |e.pending| && e.pending[j].uid == p.uid
         then e.pending + [Request(p.uid, p.host)] else e.pending
  {
    hide Expire, MaybeSend;
    ExpireAsksNothing(e, i, now);
    var a := Expire(e, i, now);
    SendSameLookups(StartResolving(a, i, now), i, now, sockets);
  }

  lemma {:induction false} ExpireAsksNothing(e: State, i: nat, now: nat)
    requires i < |e.probers|
    ensures var r := Expire(e, i, now);
      r.pending == e.pending && r.probers[i].host == e.probers[i].host && r.probers[i].uid == e.probers[i].uid
      && r.probers[i].numeric == e.probers[i].numeric && r.probers[i].resolving == e.probers[i].resolving
      && r.probers[i].nextResolveUs == e.probers[i].nextResolveUs
    decreases |e.probers[i].inFlight|
  {
    var p := e.probers[i];
    if p.inFlight != [] && Expired(p.inFlight[0], now) {
      ExpireFrontChanges(e, i);
      var r := ExpireFront(e, i);
      hide ExpireFront;
      ExpireAsksNothing(r, i, now);
    }
  }

  // ---- first come, first served -----------------------------------------

  function OutstandingOf(s: System): seq<Request> {
    Outstanding(s.engine.pending, s.worker, s.completed)
  }

  lemma {:induction false} RepliesAskNothing(e: State, now: nat, replies: seq<Reply>)
    requires Indexed(e)
    ensures HandleReplies(e, now, replies).pending == e.pending
    decreases |replies|
  {
    if replies != [] {
      hide ApplySample, Accepts;
      RepliesAskNothing(HandleReply(e, now, replies[0]), now, replies[1..]);
      ReplyAsksNothing(e, now, replies[0]);
    }
  }

  lemma ReplyAsksNothing(e: State, now: nat, reply: Reply)
    requires Indexed(e)
    ensures HandleReply(e, now, reply).pending == e.pending
  {
  }

  lemma {:induction false} ResultsAskNothing(e: State, now: nat, results: seq<Result>)
    requires Indexed(e)
    ensures HandleResolutions(e, now, results).pending == e.pending
    decreases |results|
  {
    if results != [] {
      ResultsAskNothing(HandleResolution(e, now, results[0]), now, results[1..]);
    }
  }

  lemma ReloadAsksNothing(e: State, loaded: seq<Client>, now: nat, numeric: string -> Endpoint)
    requires Clamped(loaded) && ProbersClamped(e.probers)
    ensures Reload(e, loaded, now, numeric).pending == e.pending
  {
  }

  /** Requests are served in the order in which they were asked, each once and with the answer for its own host: a
      tick may add one at the end, the handing over of results takes what is completed from the front, and nothing
      else changes what is outstanding. */
  lemma FirstComeFirstServed(s: System, step: Step, numeric: string -> Endpoint)
    requires Enabled(s, step) && ProbersClamped(s.engine.probers) && Indexed(s.engine)
    ensures var t := Next(s, step, numeric);
      match step
      case TickOne(i, _, _) =>
        var p := s.engine.probers[i];
        OutstandingOf(t) == OutstandingOf(s) || OutstandingOf(t) == OutstandingOf(s) + [Request(p.uid, p.host)]
      case HandleResults(_) => OutstandingOf(s) == Requests(s.completed) + OutstandingOf(t)
      case WorkerAnswer(answer) =>
        OutstandingOf(t) == OutstandingOf(s)
        && t.completed == s.completed + [Result(s.worker.request.uid, s.worker.request.host, answer)]
      case _ => OutstandingOf(t) == OutstandingOf(s)
  {
    hide TickProber, HandleReplies, HandleResolutions, Reload, Indexed, ProbersClamped, Outstanding;
    match step
    case TickOne(i, now, sockets) => TickQueues(s, i, now, sockets);
    case Replies(now, replies) => RepliesAskNothing(s.engine, now, replies);
    case Configure(now, loaded) => ReloadAsksNothing(s.engine, loaded, now, numeric);
    case HandleResults(now) =>
      ResultsAskNothing(s.engine, now, s.completed);
      assert WithQueues(s, AfterTake(QueuesOf(s))).engine == s.engine;
      TakenOut(s.engine.pending, s.worker, s.completed);
    case WorkerPop => PoppedStays(s.engine.pending, s.completed);
    case WorkerAnswer(answer) => AnsweredStays(s.engine.pending, s.worker.request, s.completed, answer);
    case WorkerSignal => SignalStays(s.engine.pending, s.completed);
    case _ =>
  }

  lemma TickQueues(s: System, i: nat, now: nat, sockets: Sockets)
    requires i < |s.engine.probers|
    ensures var p, out := s.engine.probers[i], OutstandingOf(s);
      var out' := Outstanding(TickProber(s.engine, i, now, sockets).pending, s.worker, s.completed);
      out' == out || out' == out + [Request(p.uid, p.host)]
  {
    hide TickProber;
    TickAsks(s.engine, i, now, sockets);
    var front := Requests(s.completed) + Running(s.worker);
    var last := Request(s.engine.probers[i].uid, s.engine.probers[i].host);
    assert front + (s.engine.pending + [last]) == front + s.engine.pending + [last];
  }

  lemma TakenOut(pending: seq<Request>, worker: Worker, completed: seq<Result>)
    ensures Outstanding(pending, worker, completed) == Requests(completed) + Outstanding(pending, worker, [])
  {
    assert Requests([]) == [];
    assert Requests(completed) + (Running(worker) + pending) == Requests(completed) + Running(worker) + pending;
  }

  lemma PoppedStays(pending: seq<Request>, completed: seq<Result>)
    requires pending != []
    ensures Outstanding(pending[1..], Looking(pending[0]), completed) == Outstanding(pending, Waiting, completed)
  {
    assert [pending[0]] + pending[1..] == pending;
    assert Requests(completed) + ([pending[0]] + pending[1..]) == Requests(completed) + [pending[0]] + pending[1..];
    assert Requests(completed) + [] == Requests(completed);
  }

  lemma AnsweredStays(pending: seq<Request>, request: Request, completed: seq<Result>, answer: Endpoint)
    ensures Outstanding(pending, Signalling, completed + [Result(request.uid, request.host, answer)])
      == Outstanding(pending, Looking(request), completed)
  {
    var more := completed + [Result(request.uid, request.host, answer)];
    assert Requests(more) == Requests(completed) + [request];
    assert Requests(more) + [] == Requests(more);
  }

  lemma SignalStays(pending: seq<Request>, completed: seq<Result>)
    ensures Outstanding(pending, Waiting, completed) == Outstanding(pending, Signalling, completed)
  {
  }
}
