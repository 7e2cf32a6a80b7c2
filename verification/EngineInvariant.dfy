/** What every operation of the probe engine keeps. `Inv` puts together the exact uid index, the soundness of every
    prober and that of the whole history; each operation changes at most one prober at a time, so `StepKeepsInv` is
    what all its lemmas come down to. The last part is about answers and the maximum wait. */
module EngineInvariant {
  import opened Hysteresis
  import opened Engine
  import opened ProberInvariant

  /** `m_proberByUid` is the exact inverse of the probers' uids. */
  ghost predicate IndexExact(e: State) {
    (forall i :: 0 <= i < |e.probers| ==> e.probers[i].uid in e.proberByUid && e.proberByUid[e.probers[i].uid] == i)
    && (forall u :: u in e.proberByUid ==> e.proberByUid[u] < |e.probers| && e.probers[e.proberByUid[u]].uid == u)
  }

  ghost predicate AllSound(e: State, clock: nat) {
    forall i :: 0 <= i < |e.probers| ==> Sound(e.probers[i], e.log, e.born, clock)
  }

  /** No probe ever has two verdicts, also of probers that are long gone, and uids not given out yet have no history. */
  ghost predicate HistorySound(e: State) {
    (forall u, k :: Verdicts(e.log, u, k) <= 1)
    && (forall u :: u >= e.nextUid ==> Samples(e.log, u) == 0 && u !in e.born && u !in e.proberByUid)
  }

  ghost predicate Inv(e: State, clock: nat) {
    IndexExact(e) && AllSound(e, clock) && HistorySound(e)
  }

  /** Only prober `i` changed, to `p`, and `events` happened. */
  ghost predicate Changes(e: State, r: State, i: nat, p: Prober, events: seq<Event>) {
    i < |e.probers| && r.probers == e.probers[i := p] && r.log == e.log + events
    && r.proberByUid == e.proberByUid && r.nextUid == e.nextUid && r.born == e.born
    && r.minIntervalUs == e.minIntervalUs
  }

  lemma VerdictsFrame(log: seq<Event>, events: seq<Event>, uid: nat)
    requires |events| <= 1 && forall k :: 0 <= k < |events| ==> events[k].uid == uid
    ensures forall u, k :: u != uid ==> Verdicts(log + events, u, k) == Verdicts(log, u, k)
    ensures forall u :: u != uid ==> Samples(log + events, u) == Samples(log, u)
  {
    if events == [] {
      assert log + events == log;
    } else {
      assert events == [events[0]];
      Append(log, events[0]);
    }
  }

  /** A step of one prober that leaves that prober sound leaves everything sound. */
  lemma StepKeepsInv(e: State, r: State, i: nat, p: Prober, events: seq<Event>, clock: nat, clock': nat)
    requires Inv(e, clock) && clock <= clock' && Changes(e, r, i, p, events)
    requires p.uid == e.probers[i].uid && |events| <= 1 && forall k :: 0 <= k < |events| ==> events[k].uid == p.uid
    requires Sound(p, r.log, r.born, clock')
    ensures Inv(r, clock')
  {
    hide Sound, Verdicts, Samples, Answers, NoRoutes;
    VerdictsFrame(e.log, events, p.uid);
    forall j | 0 <= j < |r.probers| ensures Sound(r.probers[j], r.log, r.born, clock') {
      if j != i {
        SoundFrame(e.probers[j], e.log, events, e.born, clock, clock');
      }
    }
    AtMostOneVerdict(p, r.log, r.born, clock');
    assert p.uid in e.proberByUid && p.uid < e.nextUid;
  }

  lemma AtMostOneVerdict(p: Prober, log: seq<Event>, born: map<nat, nat>, clock: nat)
    requires Sound(p, log, born, clock)
    ensures forall k :: Verdicts(log, p.uid, k) <= 1
  {
  }

  /** The evaluated states of destinations are no part of it. */
  lemma ClientsAside(e: State, clients: seq<Client>, clock: nat)
    requires Inv(e, clock)
    ensures Inv(e.(clients := clients), clock)
  {
    hide Sound, Verdicts, Samples;
  }

  /** The passing of time alone. */
  lemma TimeKeepsInv(e: State, clock: nat, clock': nat)
    requires Inv(e, clock) && clock <= clock'
    ensures Inv(e, clock')
  {
    forall j | 0 <= j < |e.probers| ensures Sound(e.probers[j], e.log, e.born, clock') {
      SoundFrame(e.probers[j], e.log, [], e.born, clock, clock');
      assert e.log + [] == e.log;
    }
  }

  // ---- the steps --------------------------------------------------------

  lemma ApplySampleChanges(e: State, i: nat, sample: Sample, event: Event)
    requires i < |e.probers|
    ensures Changes(e, ApplySample(e, i, sample, event), i, Counted(e.probers[i], sample), [event])
    ensures ApplySample(e, i, sample, event).pending == e.pending
  {
  }

  lemma SampleAfterSet(e: State, i: nat, p: Prober, sample: Sample, event: Event)
    requires i < |e.probers|
    ensures Changes(e, ApplySample(SetProber(e, i, p), i, sample, event), i, Counted(p, sample), [event])
    ensures ApplySample(SetProber(e, i, p), i, sample, event).pending == e.pending
  {
    ApplySampleChanges(SetProber(e, i, p), i, sample, event);
  }

  lemma ExpireFrontChanges(e: State, i: nat)
    requires i < |e.probers| && e.probers[i].inFlight != []
    ensures var p := e.probers[i];
      Changes(e, ExpireFront(e, i), i, Counted(Without(p, 0), Silence), [TimedOut(p.uid, p.inFlight[0].seqNo)])
    ensures ExpireFront(e, i).pending == e.pending
  {
    var p := e.probers[i];
    WithoutFront(p);
    SampleAfterSet(e, i, p.(inFlight := p.inFlight[1..]), Silence, TimedOut(p.uid, p.inFlight[0].seqNo));
  }

  lemma ExpireFrontKeepsInv(e: State, i: nat, clock: nat)
    requires Inv(e, clock) && i < |e.probers| && e.probers[i].inFlight != []
    ensures Inv(ExpireFront(e, i), clock)
  {
    hide Sound, HistorySound, IndexExact, ExpireFront;
    var p := e.probers[i];
    var event := TimedOut(p.uid, p.inFlight[0].seqNo);
    ExpireFrontChanges(e, i);
    SettleKeepsSound(p, e.log, e.born, clock, 0, Silence, event);
    StepKeepsInv(e, ExpireFront(e, i), i, Counted(Without(p, 0), Silence), [event], clock, clock);
  }

  /** Any outstanding probe may be settled: taken out of the queue and given its one verdict. */
  lemma SettleKeepsSound(p: Prober, log: seq<Event>, born: map<nat, nat>, clock: nat, k: nat, sample: Sample,
                         event: Event)
    requires Sound(p, log, born, clock) && k < |p.inFlight|
    requires sample.Answer? ==> event == Answered(p.uid, p.inFlight[k].seqNo, sample.rttUs)
    requires sample.Silence? ==> event == TimedOut(p.uid, p.inFlight[k].seqNo)
    ensures Sound(Counted(Without(p, k), sample), log + [event], born, clock)
  {
    hide Verdicts, Samples, Answers, NoRoutes;
    var p1 := Without(p, k);
    Erase(p, k, clock);
    assert Flying(p, p.inFlight[k].seqNo);
    hide Ledger;
    assert forall n: nat :: Flying(Counted(p1, sample), n) <==> Flying(p1, n);
    LedgerVerdict(p, log, Counted(p1, sample), event, p.inFlight[k].seqNo, sample);
    Append(log, event);
    hide Flying;
  }

  function Without(p: Prober, k: nat): Prober
    requires k < |p.inFlight|
  {
    p.(inFlight := p.inFlight[..k] + p.inFlight[k + 1..])
  }

  lemma WithoutFront(p: Prober)
    requires p.inFlight != []
    ensures Without(p, 0) == p.(inFlight := p.inFlight[1..])
  {
    assert p.inFlight[1..] == p.inFlight[..0] + p.inFlight[0 + 1..];
  }

  lemma {:induction false} ExpireKeepsInv(e: State, i: nat, now: nat, clock: nat)
    requires Inv(e, clock) && i < |e.probers|
    ensures Inv(Expire(e, i, now), clock) && Expire(e, i, now).pending == e.pending
    decreases |e.probers[i].inFlight|
  {
    hide Inv;
    if e.probers[i].inFlight != [] && Expired(e.probers[i].inFlight[0], now) {
      ExpireFrontKeepsInv(e, i, clock);
      ExpireFrontChanges(e, i);
      ExpireKeepsInv(ExpireFront(e, i), i, now, clock);
    }
  }

  lemma StartResolvingKeepsInv(e: State, i: nat, now: nat, clock: nat)
    requires Inv(e, clock) && i < |e.probers|
    ensures Inv(StartResolving(e, i, now), clock)
  {
    hide Sound, Verdicts, Samples, Answers, NoRoutes, HistorySound;
    var p := e.probers[i];
    var p' := p.(resolving := true);
    if ResolveDue(p, now) {
      ResolvedKeepsSound(p, p', e.log, e.born, clock);
      assert e.log + [] == e.log;
      StepKeepsInv(e, StartResolving(e, i, now), i, p', [], clock, clock);
    }
  }

  /** The prober after an attempt, before its schedule moves. */
  function Attempted(p: Prober, now: nat, sockets: Sockets): (Prober, seq<Event>) {
    if !Routable(p, sockets) then (Counted(p, Silence), [NoRoute(p.uid)])
    else if sockets.outcome(p.uid, p.sequence + 1) == Sent then
      (p.(sequence := p.sequence + 1, inFlight := p.inFlight + [InFlight(p.sequence + 1, now, now + p.timeoutUs)]), [])
    else (Counted(p.(sequence := p.sequence + 1), Silence), [SendFailed(p.uid, p.sequence + 1)])
  }

  lemma SendProbeChanges(e: State, i: nat, now: nat, sockets: Sockets)
    requires i < |e.probers|
    ensures var (p', events) := Attempted(e.probers[i], now, sockets);
      Changes(e, SendProbe(e, i, now, sockets), i, p', events) && SendProbe(e, i, now, sockets).pending == e.pending
  {
    var p := e.probers[i];
    if !Routable(p, sockets) {
      ApplySampleChanges(e, i, Silence, NoRoute(p.uid));
    } else {
      SampleAfterSet(e, i, p.(sequence := p.sequence + 1), Silence, SendFailed(p.uid, p.sequence + 1));
      assert e.log + [] == e.log;
    }
  }

  /** One attempt adds one to the count of attempts, and leaves the ledger and the queue in order. */
  lemma AttemptedLedger(p: Prober, log: seq<Event>, now: nat, clock: nat, sockets: Sockets)
    requires Ledger(p, log) && Ordered(p, clock) && clock <= now
    ensures var (p', events) := Attempted(p, now, sockets);
      Ledger(p', log + events) && Ordered(p', now) && Attempts(p', log + events) == Attempts(p, log) + 1
  {
    hide Verdicts, Samples, Answers, NoRoutes, Ledger, Flying;
    if !Routable(p, sockets) {
      LedgerNoRoute(p, log, Counted(p, Silence));
      Append(log, NoRoute(p.uid));
    } else if sockets.outcome(p.uid, p.sequence + 1) == Sent {
      var f := InFlight(p.sequence + 1, now, now + p.timeoutUs);
      LedgerSent(p, log, p.(sequence := p.sequence + 1, inFlight := p.inFlight + [f]), f);
      assert log + [] == log;
    } else {
      LedgerSendFailed(p, log, Counted(p.(sequence := p.sequence + 1), Silence));
      Append(log, SendFailed(p.uid, p.sequence + 1));
    }
  }

  lemma RescheduleLedger(p: Prober, log: seq<Event>, now: nat)
    requires Ledger(p, log) && Ordered(p, now)
    ensures Ledger(Reschedule(p, now), log) && Ordered(Reschedule(p, now), now)
    ensures Attempts(Reschedule(p, now), log) == Attempts(p, log)
  {
    hide Verdicts, Samples, Answers, NoRoutes;
    assert forall k: nat :: Flying(Reschedule(p, now), k) <==> Flying(p, k);
  }

  lemma MaybeSendChanges(e: State, i: nat, now: nat, sockets: Sockets)
    requires i < |e.probers| && SendDue(e.probers[i], now)
    ensures var (p', events) := Attempted(e.probers[i], now, sockets);
      Changes(e, MaybeSend(e, i, now, sockets), i, Reschedule(p', now), events)
      && MaybeSend(e, i, now, sockets).pending == e.pending
  {
    hide SendProbe, Attempted;
    SendProbeChanges(e, i, now, sockets);
  }

  lemma MaybeSendKeepsInv(e: State, i: nat, now: nat, sockets: Sockets, clock: nat)
    requires Inv(e, clock) && i < |e.probers| && clock <= now
    ensures Inv(MaybeSend(e, i, now, sockets), now) && MaybeSend(e, i, now, sockets).pending == e.pending
  {
    hide Sound, Verdicts, Samples, Answers, NoRoutes, HistorySound, IndexExact;
    TimeKeepsInv(e, clock, now);
    if SendDue(e.probers[i], now) {
      var p := e.probers[i];
      var (p1, events) := Attempted(p, now, sockets);
      MaybeSendChanges(e, i, now, sockets);
      AttemptKeepsSound(p, e.log, e.born, now, clock, sockets);
      assert |events| <= 1 && forall k :: 0 <= k < |events| ==> events[k].uid == p.uid;
      hide Sound, Attempted, SendProbe, MaybeSend, SendDue, Reschedule;
      StepKeepsInv(e, MaybeSend(e, i, now, sockets), i, Reschedule(p1, now), events, clock, now);
    }
  }

  lemma AttemptKeepsSound(p: Prober, log: seq<Event>, born: map<nat, nat>, now: nat, clock: nat, sockets: Sockets)
    requires Sound(p, log, born, clock) && clock <= now && SendDue(p, now)
    ensures var (p1, events) := Attempted(p, now, sockets);
      Sound(Reschedule(p1, now), log + events, born, now) && p1.uid == p.uid
  {
    hide Verdicts, Samples, Answers, NoRoutes;
    var (p1, events) := Attempted(p, now, sockets);
    AttemptedLedger(p, log, now, clock, sockets);
    RescheduleLedger(p1, log + events, now);
    PaceStep(p, log, born[p.uid], clock, now, Reschedule(p1, now), log + events);
  }

  /** One turn of `tick`. */
  lemma TickProberKeepsInv(e: State, i: nat, now: nat, sockets: Sockets, clock: nat)
    requires Inv(e, clock) && i < |e.probers| && clock <= now
    ensures Inv(TickProber(e, i, now, sockets), now)
  {
    hide Inv, Expire, StartResolving, MaybeSend;
    var e1 := Expire(e, i, now);
    ExpireKeepsInv(e, i, now, clock);
    StartResolvingKeepsInv(e1, i, now, clock);
    MaybeSendKeepsInv(StartResolving(e1, i, now), i, now, sockets, clock);
  }

  lemma {:induction false} TickKeepsInv(e: State, i: nat, now: nat, sockets: Sockets, clock: nat)
    requires Inv(e, clock) && i <= |e.probers| && clock <= now
    ensures Inv(TickFrom(e, i, now, sockets), now)
    decreases |e.probers| - i
  {
    hide Inv, TickProber;
    if i < |e.probers| {
      TickProberKeepsInv(e, i, now, sockets, clock);
      TickKeepsInv(TickProber(e, i, now, sockets), i + 1, now, sockets, now);
    } else {
      TimeKeepsInv(e, clock, now);
    }
  }

  /** A reply: either ignored altogether, or it settles exactly one probe that was in flight. */
  lemma HandleReplyKeepsInv(e: State, now: nat, reply: Reply, clock: nat)
    requires Inv(e, clock) && clock <= now
    ensures Inv(HandleReply(e, now, reply), now) && HandleReply(e, now, reply).pending == e.pending
  {
    hide Sound, Verdicts, Samples, Answers, NoRoutes, HistorySound;
    TimeKeepsInv(e, clock, now);
    if Accepts(e, reply) {
      var i := e.proberByUid[reply.uid];
      var p := e.probers[i];
      var k := FindSeq(p.inFlight, reply.seqNo);
      var p1 := p.(inFlight := p.inFlight[..k] + p.inFlight[k + 1..]);
      var sample := Answer(RoundTrip(now, reply.sentUs));
      var event := Answered(p.uid, reply.seqNo, RoundTrip(now, reply.sentUs));
      SettleKeepsSound(p, e.log, e.born, now, k, sample, event);
      SampleAfterSet(e, i, p1, sample, event);
      StepKeepsInv(e, HandleReply(e, now, reply), i, Counted(p1, sample), [event], clock, now);
    }
  }

  lemma {:induction false} HandleRepliesKeepInv(e: State, now: nat, replies: seq<Reply>, clock: nat)
    requires Inv(e, clock) && clock <= now
    ensures Inv(HandleReplies(e, now, replies), now) && HandleReplies(e, now, replies).pending == e.pending
    decreases |replies|
  {
    if replies == [] {
      TimeKeepsInv(e, clock, now);
    } else {
      HandleReplyKeepsInv(e, now, replies[0], clock);
      HandleRepliesKeepInv(HandleReply(e, now, replies[0]), now, replies[1..], now);
    }
  }

  lemma HandleResolutionKeepsInv(e: State, now: nat, result: Result, clock: nat)
    requires Inv(e, clock) && clock <= now
    ensures Inv(HandleResolution(e, now, result), now) && HandleResolution(e, now, result).pending == e.pending
  {
    hide Sound, Verdicts, Samples, Answers, NoRoutes, HistorySound;
    TimeKeepsInv(e, clock, now);
    if result.uid in e.proberByUid {
      var i := e.proberByUid[result.uid];
      var p := e.probers[i];
      var r := HandleResolution(e, now, result);
      var p' := r.probers[i];
      ResolvedKeepsSound(p, p', e.log, e.born, now);
      assert e.log + [] == e.log;
      StepKeepsInv(e, r, i, p', [], clock, now);
    }
  }

  lemma ResolvedKeepsSound(p: Prober, p': Prober, log: seq<Event>, born: map<nat, nat>, clock: nat)
    requires Sound(p, log, born, clock)
    requires p' == p.(resolving := p'.resolving, endpoint := p'.endpoint, resolveFailures := p'.resolveFailures,
                      nextResolveUs := p'.nextResolveUs)
    ensures Sound(p', log, born, clock)
  {
    assert forall k: nat :: Flying(p', k) <==> Flying(p, k);
  }

  /** The reply is about an outstanding probe of this prober, and comes from its address: the same family and the same
      bits, whatever the text. */
  ghost predicate Replied(p: Prober, reply: Reply) {
    p.uid == reply.uid && (exists k :: 0 <= k < |p.inFlight| && p.inFlight[k].seqNo == reply.seqNo)
    && p.endpoint.Endpoint? && reply.from.Endpoint?
    && p.endpoint.v6 == reply.from.v6 && p.endpoint.address == reply.from.address
  }

  /** What an accepted reply does: its probe, and no other, is settled, with the time it took. */
  ghost predicate SettledBy(e: State, r: State, i: nat, now: nat, reply: Reply)
    requires i < |e.probers|
  {
    |r.probers| == |e.probers|
    && r.log == e.log + [Answered(reply.uid, reply.seqNo, if now > reply.sentUs then now - reply.sentUs else 0)]
    && (forall j :: 0 <= j < |e.probers| && j != i ==> r.probers[j] == e.probers[j])
    && r.probers[i]
      == e.probers[i].(inFlight := r.probers[i].inFlight, sent := e.probers[i].sent + 1,
                       received := e.probers[i].received + 1)
    && |r.probers[i].inFlight| == |e.probers[i].inFlight| - 1
    && forall n: nat :: Flying(r.probers[i], n) <==> Flying(e.probers[i], n) && n != reply.seqNo
  }

  /** A reply to an outstanding probe of a live prober from that prober's address gives the probe its one verdict; any
      other changes nothing at all: a duplicate, a late one, one to a dropped uid, or one from another address. */
  lemma ReplyEffect(e: State, now: nat, reply: Reply, clock: nat)
    requires Inv(e, clock) && clock <= now
    ensures var r := HandleReply(e, now, reply);
      (r != e <==> exists i :: 0 <= i < |e.probers| && Replied(e.probers[i], reply))
      && forall i :: 0 <= i < |e.probers| && Replied(e.probers[i], reply) ==>
          SettledBy(e, r, i, now, reply) && Verdicts(e.log, reply.uid, reply.seqNo) == 0
    ensures Verdicts(e.log, reply.uid, reply.seqNo) > 0 ==> HandleReply(e, now, reply) == e
    ensures reply.uid !in e.proberByUid ==> HandleReply(e, now, reply) == e
  {
    hide Verdicts, Samples, Answers, Attempts, Ordered, Paced, ApplySample;
    forall i | 0 <= i < |e.probers| && Replied(e.probers[i], reply)
      ensures Accepts(e, reply) && e.proberByUid[reply.uid] == i
    {
      RepliedAccepted(e, i, reply);
    }
    if Accepts(e, reply) {
      AcceptedSettles(e, now, reply, clock);
    }
  }

  lemma RepliedAccepted(e: State, i: nat, reply: Reply)
    requires Indexed(e) && IndexExact(e) && i < |e.probers| && Replied(e.probers[i], reply)
    ensures Accepts(e, reply) && e.proberByUid[reply.uid] == i
  {
  }

  lemma AcceptedSettles(e: State, now: nat, reply: Reply, clock: nat)
    requires Inv(e, clock) && clock <= now && Indexed(e) && Accepts(e, reply)
    ensures var i := e.proberByUid[reply.uid];
      Replied(e.probers[i], reply) && SettledBy(e, HandleReply(e, now, reply), i, now, reply)
      && Verdicts(e.log, reply.uid, reply.seqNo) == 0
  {
    var i := e.proberByUid[reply.uid];
    var p := e.probers[i];
    assert Sound(p, e.log, e.born, clock) && p.uid == reply.uid;
    var k := FindSeq(p.inFlight, reply.seqNo);
    var p' := p.(inFlight := p.inFlight[..k] + p.inFlight[k + 1..]);
    assert p.inFlight[k].seqNo == reply.seqNo;
    hide Inv, Verdicts, Samples, Answers, Attempts, ApplySample, FindSeq, Paced;
    Erase(p, k, clock);
    assert Flying(p, reply.seqNo);
    SampleAfterSet(e, i, p', Answer(RoundTrip(now, reply.sentUs)),
                   Answered(p.uid, reply.seqNo, RoundTrip(now, reply.sentUs)));
    hide Ordered, Ledger;
  }

  // ---- answers and the maximum wait -------------------------------------

  /** The probe that an accepted reply answers. */
  function Awaited(e: State, reply: Reply): InFlight
    requires Indexed(e) && Accepts(e, reply)
  {
    var p := e.probers[e.proberByUid[reply.uid]];
    p.inFlight[FindSeq(p.inFlight, reply.seqNo)]
  }

  /** A reply to an outstanding probe that brings back the send time of that probe, as its payload does. */
  predicate Echoes(e: State, reply: Reply)
    requires Indexed(e)
  {
    Accepts(e, reply) && reply.sentUs == Awaited(e, reply).sentUs
  }

  predicate InTime(e: State, now: nat, reply: Reply)
    requires Indexed(e) && reply.uid in e.proberByUid
  {
    RoundTrip(now, reply.sentUs) <= e.probers[e.proberByUid[reply.uid]].timeoutUs
  }

  /** Replies are handled before the tick that would expire the probe, so every echo of an outstanding probe is taken as
      an answer. Its round-trip time is inside the maximum wait exactly if it is handled by the probe's deadline. */
  lemma AnswerInTimeIff(e: State, now: nat, reply: Reply, clock: nat)
    requires Inv(e, clock) && clock <= now && Indexed(e) && Echoes(e, reply)
    ensures HandleReply(e, now, reply).log == e.log + [Answered(reply.uid, reply.seqNo, RoundTrip(now, reply.sentUs))]
    ensures InTime(e, now, reply) <==> now <= Awaited(e, reply).deadlineUs
  {
    hide Ledger, Paced, HistorySound, HandleReply;
    ReplyEffect(e, now, reply, clock);
    var i := e.proberByUid[reply.uid];
    assert Sound(e.probers[i], e.log, e.born, clock);
  }

  /** Nothing in flight was due by `t`. */
  ghost predicate NoneDue(e: State, t: nat) {
    forall i, k :: 0 <= i < |e.probers| && 0 <= k < |e.probers[i].inFlight| ==> t < e.probers[i].inFlight[k].deadlineUs
  }

  lemma ReplyKeepsNoneDue(e: State, now: nat, reply: Reply, t: nat)
    requires Indexed(e) && NoneDue(e, t)
    ensures NoneDue(HandleReply(e, now, reply), t)
  {
    if Accepts(e, reply) {
      var i := e.proberByUid[reply.uid];
      var p := e.probers[i];
      var k := FindSeq(p.inFlight, reply.seqNo);
      hide NoneDue;
      SampleAfterSet(e, i, Without(p, k), Answer(RoundTrip(now, reply.sentUs)),
                     Answered(p.uid, reply.seqNo, RoundTrip(now, reply.sentUs)));
      NoneDueWithout(e, HandleReply(e, now, reply), i, k, t);
    }
  }

  lemma NoneDueWithout(e: State, r: State, i: nat, k: nat, t: nat)
    requires NoneDue(e, t) && i < |e.probers| == |r.probers| && k < |e.probers[i].inFlight|
    requires r.probers[i].inFlight == Without(e.probers[i], k).inFlight
    requires forall j :: 0 <= j < |e.probers| && j != i ==> r.probers[j] == e.probers[j]
    ensures NoneDue(r, t)
  {
    forall m, n | 0 <= m < |r.probers| && 0 <= n < |r.probers[m].inFlight|
      ensures t < r.probers[m].inFlight[n].deadlineUs
    {
      if m == i {
        assert r.probers[i].inFlight[n] == e.probers[i].inFlight[if n < k then n else n + 1];
      }
    }
  }

  lemma {:induction false} ResolutionsKeepNoneDue(e: State, now: nat, results: seq<Result>, t: nat)
    requires Indexed(e) && NoneDue(e, t)
    ensures NoneDue(HandleResolutions(e, now, results), t)
    decreases |results|
  {
    if results != [] {
      ResolutionsKeepNoneDue(HandleResolution(e, now, results[0]), now, results[1..], t);
    }
  }

  /** While nothing in flight is due, every reply of a batch that is an echo is in time, whatever came before it. */
  lemma {:induction false} EchoesInTime(e: State, now: nat, replies: seq<Reply>, n: nat, clock: nat, t: nat)
    requires Inv(e, clock) && clock <= now <= t && Indexed(e) && NoneDue(e, t) && n < |replies|
    ensures var before := HandleReplies(e, now, replies[..n]);
      Echoes(before, replies[n]) ==> InTime(before, now, replies[n])
    decreases n
  {
    hide Inv, NoneDue, HandleReply, Awaited, InTime;
    if n == 0 {
      if Echoes(e, replies[0]) {
        AnswerInTimeIff(e, now, replies[0], clock);
        AwaitedNotDue(e, replies[0], t);
      }
    } else {
      var r := HandleReply(e, now, replies[0]);
      HandleReplyKeepsInv(e, now, replies[0], clock);
      ReplyKeepsNoneDue(e, now, replies[0], t);
      assert replies[..n][0] == replies[0] && replies[..n][1..] == replies[1..][..n - 1];
      assert replies[1..][n - 1] == replies[n];
      EchoesInTime(r, now, replies[1..], n - 1, now, t);
    }
  }

  lemma AwaitedNotDue(e: State, reply: Reply, t: nat)
    requires Indexed(e) && Accepts(e, reply) && NoneDue(e, t)
    ensures t < Awaited(e, reply).deadlineUs
  {
  }
}
