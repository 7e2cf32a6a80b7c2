/** When probers send, and what wakes the loop. */
module Scheduling {
  import opened Hysteresis
  import opened Engine
  import opened ProberInvariant
  import opened EngineInvariant

  // ---- what a tick changes ----------------------------------------------

  /** Only prober `i` changed, and not its identity. */
  ghost predicate Only(e: State, r: State, i: nat) {
    i < |e.probers| == |r.probers|
    && (forall j :: 0 <= j < |e.probers| && j != i ==> r.probers[j] == e.probers[j])
    && SameIdentity(e.probers[i], r.probers[i])
    && r.proberByUid == e.proberByUid && r.nextUid == e.nextUid && r.born == e.born
  }

  predicate SameIdentity(p: Prober, q: Prober) {
    q.uid == p.uid && q.host == p.host && q.intervalUs == p.intervalUs && q.timeoutUs == p.timeoutUs
    && q.numeric == p.numeric && q.maxInFlight == p.maxInFlight && q.subscribers == p.subscribers
  }

  /** What giving up on probes leaves alone: the rest of the prober, its schedule, its attempts and the requests. */
  ghost predicate OnlyExpiry(e: State, r: State, i: nat) {
    Only(e, r, i) && r.pending == e.pending
    && r.probers[i].nextSendUs == e.probers[i].nextSendUs && r.probers[i].sequence == e.probers[i].sequence
    && r.probers[i].resolving == e.probers[i].resolving && r.probers[i].nextResolveUs == e.probers[i].nextResolveUs
    && r.probers[i].endpoint == e.probers[i].endpoint
    && forall u :: NoRoutes(r.log, u) == NoRoutes(e.log, u)
  }

  lemma FrontOnlyExpiry(e: State, i: nat)
    requires i < |e.probers| && e.probers[i].inFlight != []
    ensures OnlyExpiry(e, ExpireFront(e, i), i)
  {
    hide NoRoutes;
    ExpireFrontChanges(e, i);
    Append(e.log, TimedOut(e.probers[i].uid, e.probers[i].inFlight[0].seqNo));
  }

  lemma OnlyExpiryChains(e: State, r: State, s: State, i: nat)
    requires OnlyExpiry(e, r, i) && OnlyExpiry(r, s, i)
    ensures OnlyExpiry(e, s, i)
  {
    hide NoRoutes;
  }

  lemma {:induction false} ExpireOnly(e: State, i: nat, now: nat)
    requires i < |e.probers|
    ensures OnlyExpiry(e, Expire(e, i, now), i)
    ensures var q := Expire(e, i, now).probers[i].inFlight; q != [] ==> !Expired(q[0], now)
    decreases |e.probers[i].inFlight|
  {
    hide NoRoutes, ExpireFront;
    if e.probers[i].inFlight != [] && Expired(e.probers[i].inFlight[0], now) {
      FrontOnlyExpiry(e, i);
      ExpireOnly(ExpireFront(e, i), i, now);
      OnlyExpiryChains(e, ExpireFront(e, i), Expire(e, i, now), i);
    }
  }

  lemma StartResolvingOnly(e: State, i: nat, now: nat)
    requires i < |e.probers|
    ensures var r := StartResolving(e, i, now);
      Only(e, r, i) && r.log == e.log && r.probers[i] == e.probers[i].(resolving := r.probers[i].resolving)
      && !ResolveDue(r.probers[i], now)
  {
  }

  lemma MaybeSendOnly(e: State, i: nat, now: nat, sockets: Sockets)
    requires i < |e.probers|
    ensures Only(e, MaybeSend(e, i, now, sockets), i)
  {
    if SendDue(e.probers[i], now) {
      MaybeSendChanges(e, i, now, sockets);
    }
  }

  lemma TickProberOnly(e: State, i: nat, now: nat, sockets: Sockets)
    requires i < |e.probers|
    ensures Only(e, TickProber(e, i, now, sockets), i)
  {
    hide Expire, StartResolving, MaybeSend;
    var e1 := Expire(e, i, now);
    ExpireOnly(e, i, now);
    StartResolvingOnly(e1, i, now);
    MaybeSendOnly(StartResolving(e1, i, now), i, now, sockets);
  }

  // ---- what a tick leaves behind ----------------------------------------

  /** Nothing in flight is due within the slack, no lookup is due, and the next send is in the future
      unless the prober is at its in-flight cap. */
  ghost predicate Settled(p: Prober, now: nat) {
    (forall k :: 0 <= k < |p.inFlight| ==> now + SEND_SLACK_US < p.inFlight[k].deadlineUs)
    && !ResolveDue(p, now)
    && (now < p.nextSendUs || |p.inFlight| >= p.maxInFlight)
  }

  lemma TickProberSettles(e: State, i: nat, now: nat, sockets: Sockets, clock: nat)
    requires Inv(e, clock) && clock <= now && i < |e.probers|
    ensures Settled(TickProber(e, i, now, sockets).probers[i], now)
  {
    hide Verdicts, Samples, Answers, NoRoutes, Ledger, HistorySound, IndexExact, Expire, StartResolving, MaybeSend,
         ExpireFront;
    var e1 := Expire(e, i, now);
    ExpireOnly(e, i, now);
    ExpireKeepsInv(e, i, now, clock);
    var p1 := e1.probers[i];
    assert forall k :: 0 <= k < |p1.inFlight| ==> now + SEND_SLACK_US < p1.inFlight[k].deadlineUs by {
      forall k | 0 <= k < |p1.inFlight| ensures now + SEND_SLACK_US < p1.inFlight[k].deadlineUs {
        FrontIsEarliest(p1, clock, k);
      }
    }
    StartResolvingOnly(e1, i, now);
    var e2 := StartResolving(e1, i, now);
    SendSettles(e2, i, now, sockets);
  }

  lemma SendSettles(e: State, i: nat, now: nat, sockets: Sockets)
    requires i < |e.probers| && Configured(e.probers[i]) && !ResolveDue(e.probers[i], now)
    requires forall k :: 0 <= k < |e.probers[i].inFlight| ==> now + SEND_SLACK_US < e.probers[i].inFlight[k].deadlineUs
    ensures Settled(MaybeSend(e, i, now, sockets).probers[i], now)
  {
    if SendDue(e.probers[i], now) {
      MaybeSendChanges(e, i, now, sockets);
    }
  }

  /** After a tick every prober is settled, whatever the probers were like before. */
  lemma {:induction false} TickSettles(e: State, i: nat, now: nat, sockets: Sockets, clock: nat)
    requires Inv(e, clock) && clock <= now && i <= |e.probers|
    requires forall j :: 0 <= j < i ==> Settled(e.probers[j], now)
    ensures var r := TickFrom(e, i, now, sockets); forall j :: 0 <= j < |r.probers| ==> Settled(r.probers[j], now)
    decreases |e.probers| - i
  {
    hide Inv, TickProber, Settled;
    if i < |e.probers| {
      TickProberKeepsInv(e, i, now, sockets, clock);
      TickProberOnly(e, i, now, sockets);
      TickProberSettles(e, i, now, sockets, clock);
      var e1 := TickProber(e, i, now, sockets);
      TickSettles(e1, i + 1, now, sockets, now);
      assert TickFrom(e, i, now, sockets) == TickFrom(e1, i + 1, now, sockets);
    }
  }

  // ---- sleeping ---------------------------------------------------------

  lemma {:induction false} DeadlineIsLeast(probers: seq<Prober>, i: nat)
    requires i < |probers|
    ensures ProbersDeadline(probers) <= ProberDeadline(probers[i])
  {
    if i > 0 {
      DeadlineIsLeast(probers[1..], i - 1);
    }
  }

  /** A tick before the next deadline, less the slack, does nothing at all. */
  lemma {:induction false} EarlyTickDoesNothing(e: State, i: nat, now: nat, sockets: Sockets)
    requires i <= |e.probers| && now + SEND_SLACK_US < ProbersDeadline(e.probers)
    ensures TickFrom(e, i, now, sockets) == e
    decreases |e.probers| - i
  {
    if i < |e.probers| {
      DeadlineIsLeast(e.probers, i);
      assert TickProber(e, i, now, sockets) == e;
      EarlyTickDoesNothing(e, i + 1, now, sockets);
    }
  }

  /** The converse, for probers below their cap: when the deadline has come, the prober that set it has something to
      do. */
  lemma DueMeansWork(p: Prober, now: nat)
    requires now + SEND_SLACK_US >= ProberDeadline(p)
    ensures (p.inFlight != [] && Expired(p.inFlight[0], now)) || ResolveDue(p, now) || SendDue(p, now)
      || |p.inFlight| >= p.maxInFlight
  {
  }

  // ---- the in-flight cap ------------------------------------------------

  /** Counting back from the next slot, each outstanding probe left at or before its own slot. */
  ghost predicate OnSchedule(p: Prober) {
    forall a :: 0 <= a < |p.inFlight| ==> p.inFlight[a].sentUs + (|p.inFlight| - a) * p.intervalUs <= p.nextSendUs
  }

  /** A send is on time: not after its slot, or so late that the schedule starts afresh. */
  predicate Punctual(p: Prober, now: nat) {
    now <= p.nextSendUs || p.nextSendUs + p.intervalUs <= now
  }

  /** A due probe is never held back: with everything sent on time and a wait of at most eight intervals, after
      expiry the queue is strictly below the cap. */
  lemma CapNeverBlocks(p: Prober, now: nat)
    requires Configured(p) && p.timeoutUs <= MAX_IN_FLIGHT * p.intervalUs && OnSchedule(p)
    requires forall a :: 0 <= a < |p.inFlight| ==> p.inFlight[a].deadlineUs == p.inFlight[a].sentUs + p.timeoutUs
    requires p.inFlight != [] ==> !Expired(p.inFlight[0], now)
    requires now + SEND_SLACK_US >= p.nextSendUs
    ensures SendDue(p, now)
  {
    if p.inFlight != [] {
      assert p.inFlight[0].sentUs + (|p.inFlight| - 0) * p.intervalUs <= p.nextSendUs;
      assert |p.inFlight| * p.intervalUs < p.timeoutUs;
      FewerThanCeiling(|p.inFlight|, p.intervalUs, p.timeoutUs);
    }
  }

  lemma FewerThanCeiling(n: nat, interval: nat, timeout: nat)
    requires interval > 0 && n * interval < timeout <= MAX_IN_FLIGHT * interval
    ensures n < InFlightLimit(interval, timeout)
  {
    var q := (timeout + interval - 1) / interval;
    assert q * interval > timeout - 1 by {
      assert timeout + interval - 1 == q * interval + (timeout + interval - 1) % interval;
    }
    if q <= n {
      ProductMonotone(q, n, interval);
    }
    if n >= MAX_IN_FLIGHT {
      ProductMonotone(MAX_IN_FLIGHT, n, interval);
    }
  }

  lemma ProductMonotone(a: nat, b: nat, c: nat)
    requires a <= b
    ensures a * c <= b * c
  {
    assert b * c == a * c + (b - a) * c;
  }

  lemma EraseKeepsSchedule(p: Prober, k: nat)
    requires OnSchedule(p) && k < |p.inFlight|
    ensures OnSchedule(Without(p, k))
  {
    var q := Without(p, k).inFlight;
    forall a | 0 <= a < |q| ensures q[a].sentUs + (|q| - a) * p.intervalUs <= p.nextSendUs {
      var b := if a < k then a else a + 1;
      assert q[a] == p.inFlight[b];
      ProductMonotone(|q| - a, |p.inFlight| - b, p.intervalUs);
    }
  }

  lemma AttemptKeepsSchedule(p: Prober, now: nat, sockets: Sockets)
    requires OnSchedule(p) && Punctual(p, now)
    ensures OnSchedule(Reschedule(Attempted(p, now, sockets).0, now))
  {
    var q := Reschedule(Attempted(p, now, sockets).0, now);
    forall a | 0 <= a < |q.inFlight| ensures q.inFlight[a].sentUs + (|q.inFlight| - a) * q.intervalUs <= q.nextSendUs {
      if a < |p.inFlight| {
        assert q.inFlight[a] == p.inFlight[a];
        assert (|p.inFlight| - a + 1) * p.intervalUs == (|p.inFlight| - a) * p.intervalUs + p.intervalUs;
      }
    }
  }

  /** The prober with that uid, if there is one, is on schedule. */
  ghost predicate UidOnSchedule(e: State, uid: nat) {
    forall i :: 0 <= i < |e.probers| && e.probers[i].uid == uid ==> OnSchedule(e.probers[i])
  }

  lemma {:induction false} ExpireKeepsSchedule(e: State, i: nat, now: nat)
    requires i < |e.probers| && OnSchedule(e.probers[i])
    ensures OnSchedule(Expire(e, i, now).probers[i])
    decreases |e.probers[i].inFlight|
  {
    if e.probers[i].inFlight != [] && Expired(e.probers[i].inFlight[0], now) {
      ExpireFrontChanges(e, i);
      EraseKeepsSchedule(e.probers[i], 0);
      ExpireKeepsSchedule(ExpireFront(e, i), i, now);
    }
  }

  /** In a run whose sends are on time, a prober whose slot has come does send, once, in that tick. */
  lemma DueProberSends(e: State, i: nat, now: nat, sockets: Sockets, clock: nat)
    requires Inv(e, clock) && clock <= now && i < |e.probers| && OnSchedule(e.probers[i])
    requires e.probers[i].timeoutUs <= MAX_IN_FLIGHT * e.probers[i].intervalUs
    requires now + SEND_SLACK_US >= e.probers[i].nextSendUs
    ensures SendDue(StartResolving(Expire(e, i, now), i, now).probers[i], now)
  {
    hide Verdicts, Samples, Answers, NoRoutes, Ledger, HistorySound, IndexExact, Expire, StartResolving;
    ExpireOnly(e, i, now);
    ExpireKeepsInv(e, i, now, clock);
    ExpireKeepsSchedule(e, i, now);
    var e1 := Expire(e, i, now);
    StartResolvingOnly(e1, i, now);
    CapNeverBlocks(e1.probers[i], now);
  }

  lemma SameSchedule(p: Prober, q: Prober)
    requires OnSchedule(p) && q.inFlight == p.inFlight && q.intervalUs == p.intervalUs && q.nextSendUs == p.nextSendUs
    ensures OnSchedule(q)
  {
  }

  lemma MaybeSendKeepsSchedule(e: State, i: nat, now: nat, sockets: Sockets)
    requires i < |e.probers| && OnSchedule(e.probers[i])
    requires SendDue(e.probers[i], now) ==> Punctual(e.probers[i], now)
    ensures OnSchedule(MaybeSend(e, i, now, sockets).probers[i])
  {
    hide OnSchedule, Attempted;
    if SendDue(e.probers[i], now) {
      MaybeSendChanges(e, i, now, sockets);
      AttemptKeepsSchedule(e.probers[i], now, sockets);
    }
  }

  lemma TickOneKeepsSchedule(e: State, i: nat, now: nat, sockets: Sockets)
    requires i < |e.probers| && OnSchedule(e.probers[i])
    requires SendDue(StartResolving(Expire(e, i, now), i, now).probers[i], now) ==> Punctual(e.probers[i], now)
    ensures OnSchedule(TickProber(e, i, now, sockets).probers[i])
  {
    hide Expire, StartResolving, MaybeSend, OnSchedule;
    var e1 := Expire(e, i, now);
    ExpireOnly(e, i, now);
    ExpireKeepsSchedule(e, i, now);
    StartResolvingOnly(e1, i, now);
    var e2 := StartResolving(e1, i, now);
    SameSchedule(e1.probers[i], e2.probers[i]);
    MaybeSendKeepsSchedule(e2, i, now, sockets);
  }

  lemma ReplyKeepsSchedule(e: State, now: nat, reply: Reply, uid: nat)
    requires Indexed(e) && UidOnSchedule(e, uid)
    ensures UidOnSchedule(HandleReply(e, now, reply), uid)
  {
    hide OnSchedule;
    if Accepts(e, reply) {
      var i := e.proberByUid[reply.uid];
      var p := e.probers[i];
      var k := FindSeq(p.inFlight, reply.seqNo);
      var sample := Answer(RoundTrip(now, reply.sentUs));
      SampleAfterSet(e, i, Without(p, k), sample, Answered(p.uid, reply.seqNo, RoundTrip(now, reply.sentUs)));
      if p.uid == uid {
        EraseKeepsSchedule(p, k);
        SameSchedule(Without(p, k), Counted(Without(p, k), sample));
      }
    }
  }

  /** Expiry makes room exactly if the front is due. */
  lemma {:induction false} ExpiryMakesRoom(e: State, i: nat, now: nat)
    requires i < |e.probers|
    ensures var before, after := e.probers[i].inFlight, Expire(e, i, now).probers[i].inFlight;
      |after| <= |before| && (|after| < |before| <==> before != [] && Expired(before[0], now))
    decreases |e.probers[i].inFlight|
  {
    hide ExpireFront;
    if e.probers[i].inFlight != [] && Expired(e.probers[i].inFlight[0], now) {
      ExpiryMakesRoom(ExpireFront(e, i), i, now);
    }
  }

  /** A prober has room in its turn: below its cap, or its front is given up on first. */
  predicate HasRoom(p: Prober, now: nat) {
    |p.inFlight| < p.maxInFlight || (p.inFlight != [] && Expired(p.inFlight[0], now))
  }

  /** In its turn of any tick a prober sends exactly if its slot has come and it has room. */
  lemma SendsIffRoom(e: State, i: nat, now: nat, clock: nat)
    requires Inv(e, clock) && clock <= now && i < |e.probers|
    ensures SendDue(StartResolving(Expire(e, i, now), i, now).probers[i], now)
      <==> now + SEND_SLACK_US >= e.probers[i].nextSendUs && HasRoom(e.probers[i], now)
  {
    hide Ledger, Ordered, Paced, HistorySound, IndexExact, Expire, StartResolving;
    ExpireOnly(e, i, now);
    ExpiryMakesRoom(e, i, now);
    StartResolvingOnly(Expire(e, i, now), i, now);
    assert Sound(e.probers[i], e.log, e.born, clock);
  }

  /** So a turn makes exactly one attempt if the slot has come and there is room, and none otherwise. */
  lemma AttemptsIffRoom(e: State, i: nat, now: nat, sockets: Sockets, clock: nat)
    requires Inv(e, clock) && clock <= now && i < |e.probers|
    ensures var r := TickProber(e, i, now, sockets);
      Attempts(r.probers[i], r.log) == Attempts(e.probers[i], e.log)
        + One(now + SEND_SLACK_US >= e.probers[i].nextSendUs && HasRoom(e.probers[i], now))
  {
    hide Inv, Expire, StartResolving, MaybeSend, NoRoutes, HasRoom, SendDue;
    SendsIffRoom(e, i, now, clock);
    ExpireOnly(e, i, now);
    var e1 := Expire(e, i, now);
    StartResolvingOnly(e1, i, now);
    MaybeSendAttempts(StartResolving(e1, i, now), i, now, sockets);
  }

  /** Being a little late does matter: two sends, the first 99 ms behind its slot, leave the third slot blocked. */
  lemma LateSendBlocks(sockets: Sockets, p: Prober)
    requires sockets.open4 && sockets.outcome(p.uid, 1) == Sent && sockets.outcome(p.uid, 2) == Sent
    requires p.endpoint == Endpoint(false, 1, "") && p.inFlight == [] && p.sequence == 0 && p.nextSendUs == 0
    requires p.intervalUs == 100_000 && p.timeoutUs == 200_000 && p.maxInFlight == InFlightLimit(100_000, 200_000)
    ensures var p1 := Reschedule(Attempted(p, 99_000, sockets).0, 99_000);
      var p2 := Reschedule(Attempted(p1, 100_000, sockets).0, 100_000);
      SendDue(p, 99_000) && SendDue(p1, 100_000) && p2.nextSendUs == 200_000
      && !Expired(p2.inFlight[0], 200_000) && !SendDue(p2, 200_000)
  {
  }

  // ---- one attempt a tick -----------------------------------------------

  /** A turn makes at most one attempt, for its own prober. */
  lemma OneAttemptPerTurn(e: State, i: nat, now: nat, sockets: Sockets)
    requires i < |e.probers|
    ensures var r := TickProber(e, i, now, sockets);
      Attempts(e.probers[i], e.log) <= Attempts(r.probers[i], r.log) <= Attempts(e.probers[i], e.log) + 1
      && forall j :: 0 <= j < |e.probers| && e.probers[j].uid != e.probers[i].uid ==>
          Attempts(r.probers[j], r.log) == Attempts(e.probers[j], e.log)
  {
    hide Expire, StartResolving, MaybeSend, NoRoutes, Attempted;
    var e1 := Expire(e, i, now);
    ExpireOnly(e, i, now);
    StartResolvingOnly(e1, i, now);
    var e2 := StartResolving(e1, i, now);
    MaybeSendAttempts(e2, i, now, sockets);
  }

  /** A tick, from prober `i` on, makes at most one attempt for each prober, and none for those before `i`. */
  lemma {:induction false} OneAttemptPerTick(e: State, i: nat, now: nat, sockets: Sockets, j: nat)
    requires i <= |e.probers| && j < |e.probers|
    requires forall a, b :: 0 <= a < b < |e.probers| ==> e.probers[a].uid != e.probers[b].uid
    ensures var r := TickFrom(e, i, now, sockets);
      Attempts(e.probers[j], e.log) <= Attempts(r.probers[j], r.log) <= Attempts(e.probers[j], e.log) + One(i <= j)
    decreases |e.probers| - i
  {
    hide TickProber, Attempts;
    if i < |e.probers| {
      OneAttemptPerTurn(e, i, now, sockets);
      TickProberOnly(e, i, now, sockets);
      OneAttemptPerTick(TickProber(e, i, now, sockets), i + 1, now, sockets, j);
    }
  }

  lemma MaybeSendAttempts(e: State, i: nat, now: nat, sockets: Sockets)
    requires i < |e.probers|
    ensures var r := MaybeSend(e, i, now, sockets);
      Attempts(r.probers[i], r.log) == Attempts(e.probers[i], e.log) + One(SendDue(e.probers[i], now))
      && forall j :: 0 <= j < |e.probers| && e.probers[j].uid != e.probers[i].uid ==>
          Attempts(r.probers[j], r.log) == Attempts(e.probers[j], e.log)
  {
    hide NoRoutes;
    if SendDue(e.probers[i], now) {
      MaybeSendChanges(e, i, now, sockets);
      var (p', events) := Attempted(e.probers[i], now, sockets);
      if events != [] {
        Append(e.log, events[0]);
      } else {
        assert e.log + [] == e.log;
      }
    }
  }
}
