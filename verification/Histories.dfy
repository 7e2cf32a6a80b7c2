/** What the samples in the log of a prober make of the destinations that it serves: between reconfigurations, in any
    run, each of them hears exactly those samples, in their order. */
module Histories {
  import opened Hysteresis
  import opened Engine
  import opened ProberInvariant
  import opened EngineInvariant
  import opened Rebuild
  import opened RebuildTheorems
  import opened TableSteps
  import opened Resolver
  import opened System
  import opened SystemTheorems

  function SampleOf(event: Event): Sample {
    if event.Answered? then Answer(event.rttUs) else Silence
  }

  /** The samples of one prober, in order. */
  function SamplesOf(log: seq<Event>, uid: nat): seq<Sample> {
    if log == [] then []
    else
      var front, last := SamplesOf(log[..|log| - 1], uid), log[|log| - 1];
      if last.uid == uid then front + [SampleOf(last)] else front
  }

  lemma SamplesAppend(log: seq<Event>, event: Event, uid: nat)
    ensures SamplesOf(log + [event], uid) == SamplesOf(log, uid) + if event.uid == uid then [SampleOf(event)] else []
  {
    assert (log + [event])[..|log|] == log;
  }

  /** They are what `sent` and `received` count. */
  lemma {:induction false} SamplesCounted(log: seq<Event>, uid: nat)
    ensures |SamplesOf(log, uid)| == Samples(log, uid) && AnswersIn(SamplesOf(log, uid)) == Answers(log, uid)
  {
    if log != [] {
      var front, last := log[..|log| - 1], log[|log| - 1];
      SamplesCounted(front, uid);
      assert (SamplesOf(front, uid) + [SampleOf(last)])[..|SamplesOf(front, uid)|] == SamplesOf(front, uid);
    }
  }

  /** From `e` to `r` the destination at `s` was judged by `samples`, which are the new samples of its prober, in
      order. */
  ghost predicate Heard(e: State, r: State, s: Subscriber, samples: seq<Sample>) {
    ValidSlot(e.clients, s) && ValidSlot(r.clients, s) && SameUids(e, r)
    && DestinationAt(r.clients, s) == JudgeAll(DestinationAt(e.clients, s), samples)
    && var i := DestinationAt(e.clients, s).prober;
       if 0 <= i < |e.probers| then SamplesOf(r.log, e.probers[i].uid) == SamplesOf(e.log, e.probers[i].uid) + samples
       else samples == []
  }

  predicate SameUids(e: State, r: State) {
    |r.probers| == |e.probers| && forall j :: 0 <= j < |e.probers| ==> r.probers[j].uid == e.probers[j].uid
  }

  /** What delivery relies on. */
  ghost predicate Delivers(e: State) {
    Table(e) && forall i, j :: 0 <= i < j < |e.probers| ==> e.probers[i].uid != e.probers[j].uid
  }

  lemma StaysDelivering(e: State, r: State)
    requires Delivers(e) && SameUids(e, r) && Table(r)
    ensures Delivers(r)
  {
  }

  lemma HeardNothing(e: State, r: State, s: Subscriber)
    requires ValidSlot(e.clients, s) && r.clients == e.clients && r.log == e.log && SameUids(e, r)
    ensures Heard(e, r, s, [])
  {
  }

  lemma HeardChain(e: State, r: State, t: State, s: Subscriber, a: seq<Sample>, b: seq<Sample>)
    requires Heard(e, r, s, a) && Heard(r, t, s, b)
    ensures Heard(e, t, s, a + b)
  {
    hide SamplesOf, ValidSlot, JudgeAll, AnswersIn;
    JudgeAllJoins(DestinationAt(e.clients, s), a, b);
    JudgeAllWeighs(DestinationAt(e.clients, s), a);
  }

  lemma HeardSample(e: State, i: nat, sample: Sample, event: Event, s: Subscriber) returns (h: seq<Sample>)
    requires Delivers(e) && i < |e.probers| && ValidSlot(e.clients, s)
    requires event.uid == e.probers[i].uid && SampleOf(event) == sample
    ensures Heard(e, ApplySample(e, i, sample, event), s, h) && Delivers(ApplySample(e, i, sample, event))
  {
    hide Table, ValidSlot, SamplesOf, Deliver, Judge, JudgeAll;
    SampleReaches(e, i, sample, event, s);
    SampleKeepsTable(e, i, sample, event);
    ProberInRange(e, s);
    forall u {
      SamplesAppend(e.log, event, u);
    }
    var r := ApplySample(e, i, sample, event);
    assert SameUids(e, r);
    h := if DestinationAt(e.clients, s).prober == i then [sample] else [];
    JudgeOne(DestinationAt(e.clients, s), sample);
  }

  lemma JudgeOne(d: Destination, sample: Sample)
    ensures JudgeAll(d, [sample]) == Judge(d, sample) && JudgeAll(d, []) == d
  {
    assert [sample][..0] == [];
  }

  lemma ProberInRange(e: State, s: Subscriber)
    requires Table(e) && ValidSlot(e.clients, s)
    ensures -1 <= DestinationAt(e.clients, s).prober < |e.probers|
  {
    TableIsPartition(e, e.clients);
    assert RightlySubscribed(e, s);
  }

  /** Changing a prober, but not its row in the table, and then sampling. */
  lemma HeardAfterSet(e: State, i: nat, p: Prober, sample: Sample, event: Event, s: Subscriber) returns (h: seq<Sample>)
    requires Delivers(e) && i < |e.probers| && ValidSlot(e.clients, s) && SameRow(e.probers[i], p)
    requires p.uid == e.probers[i].uid
    requires event.uid == p.uid && SampleOf(event) == sample
    ensures var r := ApplySample(SetProber(e, i, p), i, sample, event);
      Heard(e, r, s, h) && Delivers(r)
  {
    var e1 := SetProber(e, i, p);
    SetKeepsTable(e, i, p);
    hide Table, ApplySample, ValidSlot, Heard;
    HeardNothing(e, e1, s);
    StaysDelivering(e, e1);
    h := HeardSample(e1, i, sample, event, s);
    HeardChain(e, e1, ApplySample(e1, i, sample, event), s, [], h);
    assert [] + h == h;
  }

  lemma {:induction false} ExpireHeard(e: State, i: nat, now: nat, s: Subscriber) returns (h: seq<Sample>)
    requires Delivers(e) && i < |e.probers| && ValidSlot(e.clients, s)
    ensures Heard(e, Expire(e, i, now), s, h) && Delivers(Expire(e, i, now))
    decreases |e.probers[i].inFlight|
  {
    var p := e.probers[i];
    if p.inFlight != [] && Expired(p.inFlight[0], now) {
      var a := HeardAfterSet(e, i, p.(inFlight := p.inFlight[1..]), Silence, TimedOut(p.uid, p.inFlight[0].seqNo), s);
      var r := ExpireFront(e, i);
      HeardSlot(e, r, s, a);
      hide Delivers, Heard, ApplySample, ValidSlot;
      var b := ExpireHeard(r, i, now, s);
      HeardChain(e, r, Expire(r, i, now), s, a, b);
      h := a + b;
    } else {
      HeardNothing(e, e, s);
      h := [];
    }
  }

  lemma HeardSlot(e: State, r: State, s: Subscriber, h: seq<Sample>)
    requires Heard(e, r, s, h)
    ensures ValidSlot(r.clients, s)
  {
  }

  lemma SendProbeHeard(e: State, i: nat, now: nat, sockets: Sockets, s: Subscriber) returns (h: seq<Sample>)
    requires Delivers(e) && i < |e.probers| && ValidSlot(e.clients, s)
    ensures Heard(e, SendProbe(e, i, now, sockets), s, h)
  {
    hide Delivers, Heard, ApplySample, ValidSlot;
    var p := e.probers[i];
    var p' := p.(sequence := p.sequence + 1);
    if !Routable(p, sockets) {
      h := HeardSample(e, i, Silence, NoRoute(p.uid), s);
    } else if sockets.outcome(p.uid, p.sequence + 1) == Sent {
      HeardNothing(e, SendProbe(e, i, now, sockets), s);
      h := [];
    } else {
      h := HeardAfterSet(e, i, p', Silence, SendFailed(p.uid, p.sequence + 1), s);
    }
  }

  lemma TickProberHeard(e: State, i: nat, now: nat, sockets: Sockets, s: Subscriber) returns (h: seq<Sample>)
    requires Delivers(e) && i < |e.probers| && ValidSlot(e.clients, s)
    ensures Heard(e, TickProber(e, i, now, sockets), s, h)
  {
    hide Delivers, Heard, Expire, SendProbe, ValidSlot, Table;
    var a := ExpireHeard(e, i, now, s);
    var e1 := Expire(e, i, now);
    HeardSlot(e, e1, s, a);
    var e2 := StartResolving(e1, i, now);
    HeardNothing(e1, e2, s);
    HeardChain(e, e1, e2, s, a, []);
    assert a + [] == a;
    LookupDelivers(e1, i, now);
    if SendDue(e2.probers[i], now) {
      var b := SendProbeHeard(e2, i, now, sockets, s);
      var e3 := SendProbe(e2, i, now, sockets);
      HeardChain(e, e2, e3, s, a, b);
      HeardSlot(e, e3, s, a + b);
      var e4 := TickProber(e, i, now, sockets);
      HeardNothing(e3, e4, s);
      HeardChain(e, e3, e4, s, a + b, []);
      assert a + b + [] == a + b;
      h := a + b;
    } else {
      h := a;
    }
  }

  lemma LookupDelivers(e: State, i: nat, now: nat)
    requires Delivers(e) && i < |e.probers|
    ensures Delivers(StartResolving(e, i, now))
  {
    hide Table;
    var r := StartResolving(e, i, now);
    if ResolveDue(e.probers[i], now) {
      SetKeepsTable(e, i, e.probers[i].(resolving := true));
      OthersKeepTable(SetProber(e, i, e.probers[i].(resolving := true)), r);
    }
    StaysDelivering(e, r);
  }

  lemma ReplyHeard(e: State, now: nat, reply: Reply, s: Subscriber) returns (h: seq<Sample>)
    requires Delivers(e) && Indexed(e) && ValidSlot(e.clients, s)
    ensures Heard(e, HandleReply(e, now, reply), s, h) && Delivers(HandleReply(e, now, reply))
  {
    hide Delivers, Heard, ApplySample, ValidSlot;
    if Accepts(e, reply) {
      var i := e.proberByUid[reply.uid];
      var p := e.probers[i];
      var k := FindSeq(p.inFlight, reply.seqNo);
      h := HeardAfterSet(e, i, p.(inFlight := p.inFlight[..k] + p.inFlight[k + 1..]),
                         Answer(RoundTrip(now, reply.sentUs)),
                         Answered(p.uid, reply.seqNo, RoundTrip(now, reply.sentUs)), s);
    } else {
      HeardNothing(e, e, s);
      h := [];
    }
  }

  lemma {:induction false} RepliesHeard(e: State, now: nat, replies: seq<Reply>, s: Subscriber) returns (h: seq<Sample>)
    requires Delivers(e) && Indexed(e) && ValidSlot(e.clients, s)
    ensures Heard(e, HandleReplies(e, now, replies), s, h)
    decreases |replies|
  {
    hide Delivers, Heard, HandleReply, ValidSlot, Indexed;
    if replies == [] {
      HeardNothing(e, e, s);
      h := [];
    } else {
      var a := ReplyHeard(e, now, replies[0], s);
      var r := HandleReply(e, now, replies[0]);
      HeardSlot(e, r, s, a);
      var b := RepliesHeard(r, now, replies[1..], s);
      HeardChain(e, r, HandleReplies(e, now, replies), s, a, b);
      h := a + b;
    }
  }

  lemma {:induction false} ResolutionsSilent(e: State, now: nat, results: seq<Result>)
    requires Indexed(e)
    ensures var r := HandleResolutions(e, now, results);
      r.clients == e.clients && r.log == e.log && SameUids(e, r)
    decreases |results|
  {
    if results != [] {
      ResolutionsSilent(HandleResolution(e, now, results[0]), now, results[1..]);
    }
  }

  lemma StepHeard(w: System, step: Step, numeric: string -> Endpoint, s: Subscriber) returns (h: seq<Sample>)
    requires SystemInv(w, numeric) && Enabled(w, step) && !step.Configure? && ValidSlot(w.engine.clients, s)
    ensures ProbersClamped(w.engine.probers) && Indexed(w.engine)
    ensures Heard(w.engine, Next(w, step, numeric).engine, s, h)
  {
    assert Delivers(w.engine) by { InvDelivers(w.engine, w.clock); }
    InvIndexes(w.engine, w.clock);
    hide SystemInv, Delivers, Heard, TickProber, HandleReplies, HandleResolutions, ValidSlot, Indexed, ProbersClamped;
    if step.TickOne? {
      h := TickProberHeard(w.engine, step.i, step.now, step.sockets, s);
    } else if step.Replies? {
      h := RepliesHeard(w.engine, step.now, step.replies, s);
    } else {
      OtherStepsSilent(w, step, numeric);
      HeardNothing(w.engine, Next(w, step, numeric).engine, s);
      h := [];
    }
  }

  lemma OtherStepsSilent(w: System, step: Step, numeric: string -> Endpoint)
    requires ProbersClamped(w.engine.probers) && Indexed(w.engine) && Enabled(w, step)
    requires !step.TickOne? && !step.Replies? && !step.Configure?
    ensures var e, r := w.engine, Next(w, step, numeric).engine;
      r.clients == e.clients && r.log == e.log && SameUids(e, r)
  {
    hide HandleResolutions, Indexed, ProbersClamped;
    if step.HandleResults? {
      ResolutionsSilent(w.engine, step.now, w.completed);
      assert WithQueues(w, AfterTake(QueuesOf(w))).engine == w.engine;
    }
  }

  lemma InvDelivers(e: State, clock: nat)
    requires Inv(e, clock) && Table(e)
    ensures Delivers(e)
  {
    hide AllSound, HistorySound;
  }

  /** The samples that the destination's prober had from `e` to `r`, in order. */
  ghost function NewSamples(e: State, r: State, prober: int): seq<Sample> {
    if 0 <= prober < |e.probers| then
      var before, after := SamplesOf(e.log, e.probers[prober].uid), SamplesOf(r.log, e.probers[prober].uid);
      if |before| <= |after| then after[|before|..] else []
    else []
  }

  lemma {:induction false} RunHeard(trace: seq<System>, steps: seq<Step>, numeric: string -> Endpoint, k: nat, m: nat,
                                    s: Subscriber)
    returns (h: seq<Sample>)
    requires Run(trace, steps, numeric) && k <= m < |trace| && ValidSlot(trace[k].engine.clients, s)
    requires forall j :: k <= j < m ==> !steps[j].Configure?
    ensures Heard(trace[k].engine, trace[m].engine, s, h)
  {
    hide SystemInv, Next, ValidSlot;
    if k == m {
      HeardNothing(trace[k].engine, trace[m].engine, s);
      h := [];
    } else {
      var a := RunHeard(trace, steps, numeric, k, m - 1, s);
      RunInvariant(trace, steps, numeric, m - 1);
      StepKeepsSystemInv(trace[m - 1], steps[m - 1], numeric);
      assert Leads(trace[m - 1], steps[m - 1], trace[m], numeric);
      HeardSlot(trace[k].engine, trace[m - 1].engine, s, a);
      var b := StepHeard(trace[m - 1], steps[m - 1], numeric, s);
      HeardChain(trace[k].engine, trace[m - 1].engine, trace[m].engine, s, a, b);
      h := a + b;
    }
  }

  /** Between reconfigurations of any run, from instant `k` to instant `m`: a destination has been judged by exactly the
      samples that its prober had, in their order, and by nothing else. If it had shown nothing before, its state is the
      verdict of that history: the most recent run of more than `sensitivity` equal samples, or else the first. */
  lemma RunShowsVerdict(trace: seq<System>, steps: seq<Step>, numeric: string -> Endpoint, k: nat, m: nat,
                        s: Subscriber)
    requires Run(trace, steps, numeric) && k <= m < |trace| && ValidSlot(trace[k].engine.clients, s)
    requires forall j :: k <= j < m ==> !steps[j].Configure?
    ensures ValidSlot(trace[m].engine.clients, s)
    ensures var e, r := trace[k].engine, trace[m].engine;
      var d := DestinationAt(e.clients, s);
      var h := NewSamples(e, r, d.prober);
      DestinationAt(r.clients, s) == JudgeAll(d, h)
      && (0 <= d.prober < |e.probers| ==>
            SamplesOf(r.log, e.probers[d.prober].uid) == SamplesOf(e.log, e.probers[d.prober].uid) + h)
      && (Untouched(d) && h != [] ==>
            DestinationAt(r.clients, s).state == Verdict(d.sensitivity, Classified(h, d.thresholdUs))
            && IsMeasured(DestinationAt(r.clients, s).state, h, d.sensitivity + 1, d.thresholdUs)
            && ShowsLast(DestinationAt(r.clients, s), h[|h| - 1]))
  {
    hide Run, ValidSlot, SamplesOf, JudgeAll, Verdict, IsMeasured;
    var h := RunHeard(trace, steps, numeric, k, m, s);
    var d := DestinationAt(trace[k].engine.clients, s);
    assert NewSamples(trace[k].engine, trace[m].engine, d.prober) == h;
    if Untouched(d) && h != [] {
      JudgeAllIsVerdict(d, h);
      ShownIsMeasured(d, h);
    }
  }
}
