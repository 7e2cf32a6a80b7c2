/** Where the answers in the log come from, over whole runs. */
module Answers {
  import opened Hysteresis
  import opened Engine
  import opened ProberInvariant
  import opened EngineInvariant
  import opened Rebuild
  import opened RebuildTheorems
  import opened Resolver
  import opened System
  import opened SystemTheorems
  import opened Histories
  import opened LastingVerdicts

  /** The event is the answer that this reply gives to the prober it names, from that prober's address. */
  ghost predicate AnswerOf(e: State, now: nat, reply: Reply, event: Event) {
    event == Answered(reply.uid, reply.seqNo, if now > reply.sentUs then now - reply.sentUs else 0)
    && exists i :: 0 <= i < |e.probers| && FromItsAddress(e.probers[i], reply)
  }

  predicate FromItsAddress(p: Prober, reply: Reply) {
    p.uid == reply.uid && p.endpoint.Endpoint? && reply.from.Endpoint?
    && p.endpoint.v6 == reply.from.v6 && p.endpoint.address == reply.from.address
  }

  /** The log only grows, and not by answers. */
  ghost predicate Unanswered(e: State, r: State) {
    |e.log| <= |r.log| && r.log[..|e.log|] == e.log && forall j :: |e.log| <= j < |r.log| ==> !r.log[j].Answered?
  }

  lemma UnansweredChain(e: State, r: State, t: State)
    requires Unanswered(e, r) && Unanswered(r, t)
    ensures Unanswered(e, t)
  {
    assert t.log[..|e.log|] == t.log[..|r.log|][..|e.log|];
  }

  lemma SampleUnanswered(e: State, r: State, event: Event)
    requires r.log == e.log + [event] && !event.Answered?
    ensures Unanswered(e, r)
  {
  }

  lemma {:induction false} ExpireUnanswered(e: State, i: nat, now: nat)
    requires i < |e.probers|
    ensures Unanswered(e, Expire(e, i, now))
    decreases |e.probers[i].inFlight|
  {
    var p := e.probers[i];
    if p.inFlight != [] && Expired(p.inFlight[0], now) {
      ExpireFrontChanges(e, i);
      var r := ExpireFront(e, i);
      SampleUnanswered(e, r, TimedOut(p.uid, p.inFlight[0].seqNo));
      hide Unanswered, ExpireFront;
      ExpireUnanswered(r, i, now);
      UnansweredChain(e, r, Expire(e, i, now));
    }
  }

  lemma SendUnanswered(e: State, i: nat, now: nat, sockets: Sockets)
    requires i < |e.probers|
    ensures Unanswered(e, MaybeSend(e, i, now, sockets))
  {
    if SendDue(e.probers[i], now) {
      SendProbeChanges(e, i, now, sockets);
    }
  }

  lemma TickUnanswered(e: State, i: nat, now: nat, sockets: Sockets)
    requires i < |e.probers|
    ensures Unanswered(e, TickProber(e, i, now, sockets))
  {
    hide Unanswered, Expire, MaybeSend;
    var a := Expire(e, i, now);
    ExpireUnanswered(e, i, now);
    SameLog(a, StartResolving(a, i, now));
    UnansweredChain(e, a, StartResolving(a, i, now));
    SendUnanswered(StartResolving(a, i, now), i, now, sockets);
    UnansweredChain(e, StartResolving(a, i, now), TickProber(e, i, now, sockets));
  }

  lemma SameLog(e: State, r: State)
    requires r.log == e.log
    ensures Unanswered(e, r)
  {
  }

  /** Every new answer comes from one of these replies. */
  ghost predicate AnsweredBy(e: State, r: State, now: nat, replies: seq<Reply>) {
    |e.log| <= |r.log| && r.log[..|e.log|] == e.log
    && forall j :: |e.log| <= j < |r.log| ==> exists n :: 0 <= n < |replies| && AnswerOf(e, now, replies[n], r.log[j])
  }

  lemma ReplyAnswers(e: State, now: nat, reply: Reply)
    requires Indexed(e) && IndexExact(e)
    ensures var r := HandleReply(e, now, reply);
      SameAddresses(e, r) && r.proberByUid == e.proberByUid && IndexExact(r)
      && (r.log == e.log || exists event :: r.log == e.log + [event] && AnswerOf(e, now, reply, event))
  {
    var r := HandleReply(e, now, reply);
    if Accepts(e, reply) {
      var i := e.proberByUid[reply.uid];
      var p := e.probers[i];
      var k := FindSeq(p.inFlight, reply.seqNo);
      var event := Answered(p.uid, reply.seqNo, RoundTrip(now, reply.sentUs));
      SampleAfterSet(e, i, p.(inFlight := p.inFlight[..k] + p.inFlight[k + 1..]),
                     Answer(RoundTrip(now, reply.sentUs)), event);
      hide ApplySample;
      assert FromItsAddress(p, reply);
      assert AnswerOf(e, now, reply, event);
    }
  }

  predicate SameAddresses(e: State, r: State) {
    |r.probers| == |e.probers|
    && forall i :: 0 <= i < |e.probers| ==>
        r.probers[i].uid == e.probers[i].uid && r.probers[i].endpoint == e.probers[i].endpoint
  }

  lemma {:induction false} RepliesAnswer(e: State, now: nat, replies: seq<Reply>)
    requires Indexed(e) && IndexExact(e)
    ensures AnsweredBy(e, HandleReplies(e, now, replies), now, replies)
    decreases |replies|
  {
    hide HandleReply, Indexed, IndexExact;
    if replies != [] {
      var a, rest := HandleReply(e, now, replies[0]), replies[1..];
      ReplyAnswers(e, now, replies[0]);
      RepliesAnswer(a, now, rest);
      AnsweredJoins(e, a, HandleReplies(a, now, rest), now, replies);
    }
  }

  lemma AnsweredJoins(e: State, a: State, r: State, now: nat, replies: seq<Reply>)
    requires replies != [] && SameAddresses(e, a) && AnsweredBy(a, r, now, replies[1..])
    requires a.log == e.log || exists event :: a.log == e.log + [event] && AnswerOf(e, now, replies[0], event)
    ensures AnsweredBy(e, r, now, replies)
  {
    hide FromItsAddress;
    assert r.log[..|e.log|] == r.log[..|a.log|][..|e.log|];
    forall j | |e.log| <= j < |r.log|
      ensures exists n :: 0 <= n < |replies| && AnswerOf(e, now, replies[n], r.log[j])
    {
      if j < |a.log| {
        assert r.log[j] == r.log[..|a.log|][j];
        assert AnswerOf(e, now, replies[0], r.log[j]);
      } else {
        var n :| 0 <= n < |replies[1..]| && AnswerOf(a, now, replies[1..][n], r.log[j]);
        SameAnswer(e, a, now, replies[1..][n], r.log[j]);
        assert AnswerOf(e, now, replies[n + 1], r.log[j]);
      }
    }
  }

  lemma SameAnswer(e: State, a: State, now: nat, reply: Reply, event: Event)
    requires SameAddresses(e, a) && AnswerOf(a, now, reply, event)
    ensures AnswerOf(e, now, reply, event)
  {
    var i :| 0 <= i < |a.probers| && FromItsAddress(a.probers[i], reply);
    assert FromItsAddress(e.probers[i], reply);
  }

  lemma StepUnanswered(s: System, step: Step, numeric: string -> Endpoint)
    requires Enabled(s, step) && ProbersClamped(s.engine.probers) && Indexed(s.engine) && !step.Replies?
    ensures Unanswered(s.engine, Next(s, step, numeric).engine)
  {
    hide Unanswered, TickProber, HandleResolutions, Reload, Indexed, ProbersClamped;
    var e, r := s.engine, Next(s, step, numeric).engine;
    if step.TickOne? {
      TickUnanswered(e, step.i, step.now, step.sockets);
    } else {
      OtherStepsKeepLog(s, step, numeric);
      SameLog(e, r);
    }
  }

  lemma OtherStepsKeepLog(s: System, step: Step, numeric: string -> Endpoint)
    requires Enabled(s, step) && ProbersClamped(s.engine.probers) && Indexed(s.engine)
    requires !step.Replies? && !step.TickOne?
    ensures Next(s, step, numeric).engine.log == s.engine.log
  {
    hide HandleResolutions, Reload, Indexed, ProbersClamped;
    if step.HandleResults? {
      ResolutionsSilent(s.engine, step.now, s.completed);
    } else if step.Configure? {
      ReloadSilent(s.engine, step.loaded, step.now, numeric);
    }
  }

  /** The step handled a reply that gave this answer. */
  ghost predicate GaveAnswer(s: System, step: Step, event: Event) {
    step.Replies? && exists n :: 0 <= n < |step.replies| && AnswerOf(s.engine, step.now, step.replies[n], event)
  }

  /** In every run, every answer in the log was given by a reply that came from the address which the prober had at that
      instant, and its time is what had passed since the reply's probe was sent. */
  lemma {:induction false} RunAnswers(trace: seq<System>, steps: seq<Step>, numeric: string -> Endpoint, k: nat, j: nat)
    requires Run(trace, steps, numeric) && k < |trace| && j < |trace[k].engine.log| && trace[k].engine.log[j].Answered?
    ensures exists m :: 0 <= m < k && GaveAnswer(trace[m], steps[m], trace[k].engine.log[j])
  {
    hide SystemInv, Enabled, Next, AnswerOf, HandleReplies, IndexExact;
    if k > 0 {
      var s, step, t := trace[k - 1], steps[k - 1], trace[k];
      RunInvariant(trace, steps, numeric, k - 1);
      InvBounds(s, numeric);
      assert Enabled(s, step) && Leads(s, step, t, numeric);
      var event := t.engine.log[j];
      StepAnswers(s, step, numeric);
      if j < |s.engine.log| {
        assert t.engine.log[..|s.engine.log|][j] == event;
        RunAnswers(trace, steps, numeric, k - 1, j);
      }
    }
  }

  lemma InvBounds(s: System, numeric: string -> Endpoint)
    requires SystemInv(s, numeric)
    ensures ProbersClamped(s.engine.probers) && Indexed(s.engine) && IndexExact(s.engine)
  {
    hide AllSound, HistorySound;
    InvIndexes(s.engine, s.clock);
  }

  lemma StepAnswers(s: System, step: Step, numeric: string -> Endpoint)
    requires Enabled(s, step) && ProbersClamped(s.engine.probers) && Indexed(s.engine) && IndexExact(s.engine)
    ensures var r := Next(s, step, numeric).engine;
      |s.engine.log| <= |r.log| && r.log[..|s.engine.log|] == s.engine.log
      && forall j :: |s.engine.log| <= j < |r.log| && r.log[j].Answered? ==> GaveAnswer(s, step, r.log[j])
  {
    hide AnswerOf, HandleReplies, Indexed, IndexExact, ProbersClamped;
    if step.Replies? {
      RepliesAnswer(s.engine, step.now, step.replies);
    } else {
      StepUnanswered(s, step, numeric);
      hide Next;
    }
  }
}
