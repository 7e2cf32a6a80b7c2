/** The in-flight cap over whole runs. */
module Punctuality {
  import opened Engine
  import opened ProberInvariant
  import opened EngineInvariant
  import opened Scheduling
  import opened Rebuild
  import opened RebuildTheorems
  import opened TableSteps
  import opened Resolver
  import opened System
  import opened SystemTheorems

  /** This step is a turn in which the prober with that uid sends. */
  predicate Sends(s: System, step: Step, uid: nat) {
    step.TickOne? && step.i < |s.engine.probers| && s.engine.probers[step.i].uid == uid
    && SendDue(StartResolving(Expire(s.engine, step.i, step.now), step.i, step.now).probers[step.i], step.now)
  }

  /** Up to instant `k` no send of that prober was late for its slot, unless so late that its schedule started afresh.
      Nothing is asked of other probers, nor of turns in which it does not send. */
  ghost predicate PunctualRun(trace: seq<System>, steps: seq<Step>, uid: nat, k: nat) {
    forall j :: 0 <= j < k && j < |steps| && j < |trace| && Sends(trace[j], steps[j], uid) ==>
      Punctual(trace[j].engine.probers[steps[j].i], steps[j].now)
  }

  lemma {:induction false} RepliesKeepSchedule(e: State, now: nat, replies: seq<Reply>, uid: nat)
    requires Indexed(e) && UidOnSchedule(e, uid)
    ensures UidOnSchedule(HandleReplies(e, now, replies), uid)
    decreases |replies|
  {
    hide UidOnSchedule, HandleReply, Indexed;
    if replies != [] {
      ReplyKeepsSchedule(e, now, replies[0], uid);
      RepliesKeepSchedule(HandleReply(e, now, replies[0]), now, replies[1..], uid);
    }
  }

  lemma {:induction false} ResolutionsKeepSchedule(e: State, now: nat, results: seq<Result>, uid: nat)
    requires Indexed(e) && UidOnSchedule(e, uid)
    ensures UidOnSchedule(HandleResolutions(e, now, results), uid)
    decreases |results|
  {
    if results != [] {
      var r := HandleResolution(e, now, results[0]);
      ResolutionKeepsSchedule(e, now, results[0], uid);
      hide UidOnSchedule, HandleResolution, Indexed;
      ResolutionsKeepSchedule(r, now, results[1..], uid);
    }
  }

  lemma ResolutionKeepsSchedule(e: State, now: nat, result: Result, uid: nat)
    requires Indexed(e) && UidOnSchedule(e, uid)
    ensures UidOnSchedule(HandleResolution(e, now, result), uid)
  {
    hide OnSchedule;
    var r := HandleResolution(e, now, result);
    forall j | 0 <= j < |r.probers| && r.probers[j].uid == uid ensures OnSchedule(r.probers[j]) {
      SameSchedule(e.probers[j], r.probers[j]);
    }
  }

  /** The first old prober of a stream, searched from `i` on. */
  lemma {:induction false} FirstExists(e: State, p: Prober, i: nat)
    requires i <= |e.probers| && forall k :: 0 <= k < i ==> !SameStream(e.probers[k], p)
    ensures (exists k: nat :: FirstOfStream(e, k, p))
      || forall k :: 0 <= k < |e.probers| ==> !SameStream(e.probers[k], p)
    decreases |e.probers| - i
  {
    if i < |e.probers| {
      if SameStream(e.probers[i], p) {
        assert FirstOfStream(e, i, p);
      } else {
        FirstExists(e, p, i + 1);
      }
    }
  }

  lemma RebuildKeepsSchedule(e: State, now: nat, numeric: string -> Endpoint, clock: nat, uid: nat)
    requires Inv(e, clock) && Clamped(e.clients) && UidOnSchedule(e, uid)
    ensures ProbersClamped(e.probers) && UidOnSchedule(RebuildProbers(e, now, numeric), uid)
  {
    hide Inv, RebuildProbers, OnSchedule, FirstOfStream, SameStream;
    RebuildSurvivors(e, now, numeric, clock);
    var r := RebuildProbers(e, now, numeric);
    forall j | 0 <= j < |r.probers| && r.probers[j].uid == uid ensures OnSchedule(r.probers[j]) {
      var p := r.probers[j];
      assert Survives(e, r, j, now, numeric);
      FirstExists(e, p, 0);
      if i: nat :| FirstOfStream(e, i, p) {
        StreamIndex(e, i, p);
        SameSchedule(e.probers[i], p);
      } else {
        NothingOutstanding(p);
      }
    }
  }

  lemma StreamIndex(e: State, i: nat, p: Prober)
    requires FirstOfStream(e, i, p)
    ensures i < |e.probers|
  {
  }

  lemma NothingOutstanding(p: Prober)
    requires p.inFlight == []
    ensures OnSchedule(p)
  {
  }

  lemma ReloadKeepsSchedule(e: State, loaded: seq<Client>, now: nat, numeric: string -> Endpoint, clock: nat, uid: nat)
    requires Inv(e, clock) && Clamped(loaded) && UidOnSchedule(e, uid)
    ensures ProbersClamped(e.probers) && UidOnSchedule(Reload(e, loaded, now, numeric), uid)
  {
    hide Inv, RebuildProbers, OnSchedule;
    CarryKeepsClamps(loaded, e.clients);
    ClientsAside(e, CarryAll(loaded, e.clients), clock);
    RebuildKeepsSchedule(e.(clients := CarryAll(loaded, e.clients)), now, numeric, clock, uid);
  }

  lemma StepKeepsSchedule(s: System, step: Step, numeric: string -> Endpoint, uid: nat)
    requires SystemInv(s, numeric) && Enabled(s, step) && UidOnSchedule(s.engine, uid)
    requires Sends(s, step, uid) ==> Punctual(s.engine.probers[step.i], step.now)
    ensures ProbersClamped(s.engine.probers) && Indexed(s.engine)
    ensures UidOnSchedule(Next(s, step, numeric).engine, uid)
  {
    hide Inv, Table, AllConsistent, RequestsRight, EndpointsRight, OnSchedule, Reload, HandleReplies,
         HandleResolutions, TickProber, SendDue, StartResolving, Expire;
    InvIndexes(s.engine, s.clock);
    match step
    case TickOne(i, now, sockets) =>
      TickProberOnly(s.engine, i, now, sockets);
      if s.engine.probers[i].uid == uid {
        TickOneKeepsSchedule(s.engine, i, now, sockets);
      }
    case Replies(now, replies) => RepliesKeepSchedule(s.engine, now, replies, uid);
    case Configure(now, loaded) => ReloadKeepsSchedule(s.engine, loaded, now, numeric, s.clock, uid);
    case HandleResults(now) =>
      ResolutionsKeepSchedule(WithQueues(s, AfterTake(QueuesOf(s))).engine, now, s.completed, uid);
    case _ =>
  }

  lemma {:induction false} RunOnSchedule(trace: seq<System>, steps: seq<Step>, numeric: string -> Endpoint, k: nat,
                                         uid: nat)
    requires Run(trace, steps, numeric) && PunctualRun(trace, steps, uid, k) && k < |trace|
    ensures UidOnSchedule(trace[k].engine, uid)
  {
    hide SystemInv, UidOnSchedule, Sends, Next, Enabled;
    if k == 0 {
      EmptySchedule(trace[0].engine, uid);
    } else {
      RunOnSchedule(trace, steps, numeric, k - 1, uid);
      RunInvariant(trace, steps, numeric, k - 1);
      assert Leads(trace[k - 1], steps[k - 1], trace[k], numeric);
      StepKeepsSchedule(trace[k - 1], steps[k - 1], numeric, uid);
    }
  }

  lemma EmptySchedule(e: State, uid: nat)
    requires e.probers == []
    ensures UidOnSchedule(e, uid)
  {
  }

  /** At any point of any run, over replies, resolutions and reconfigurations: a prober whose sends so far were on time,
      that waits for at most eight intervals and whose slot has come, attempts exactly one probe in its turn of the
      tick; the cap is never in the way. */
  lemma RunNeverBlocks(trace: seq<System>, steps: seq<Step>, numeric: string -> Endpoint, k: nat, i: nat, now: nat,
                       sockets: Sockets)
    requires Run(trace, steps, numeric) && k < |trace| && i < |trace[k].engine.probers| && trace[k].clock <= now
    requires PunctualRun(trace, steps, trace[k].engine.probers[i].uid, k)
    requires var p := trace[k].engine.probers[i];
      p.timeoutUs <= MAX_IN_FLIGHT * p.intervalUs && now + SEND_SLACK_US >= p.nextSendUs
    ensures var e := trace[k].engine; var r := TickProber(e, i, now, sockets);
      Attempts(r.probers[i], r.log) == Attempts(e.probers[i], e.log) + 1
  {
    hide Inv, Table, AllConsistent, RequestsRight, EndpointsRight, OnSchedule, Attempts, TickProber, Run, PunctualRun,
         HasRoom;
    var e := trace[k].engine;
    RunInvariant(trace, steps, numeric, k);
    RunOnSchedule(trace, steps, numeric, k, e.probers[i].uid);
    DueProberSends(e, i, now, sockets, trace[k].clock);
    SendsIffRoom(e, i, now, trace[k].clock);
    AttemptsIffRoom(e, i, now, sockets, trace[k].clock);
  }

  /** At any point of any run, punctual or not: in its turn of the tick a prober attempts exactly one probe if its
      slot has come and it is below its cap or gives up on its oldest probe in that turn, and none otherwise. */
  lemma RunSendsIffRoom(trace: seq<System>, steps: seq<Step>, numeric: string -> Endpoint, k: nat, i: nat, now: nat,
                        sockets: Sockets)
    requires Run(trace, steps, numeric) && k < |trace|
    requires i < |trace[k].engine.probers| && trace[k].clock <= now
    ensures var e := trace[k].engine; var p, r := e.probers[i], TickProber(e, i, now, sockets);
      Attempts(r.probers[i], r.log) == Attempts(p, e.log) + One(now + SEND_SLACK_US >= p.nextSendUs && HasRoom(p, now))
  {
    hide Inv, Table, AllConsistent, RequestsRight, EndpointsRight, Run, Attempts, TickProber, HasRoom;
    RunInvariant(trace, steps, numeric, k);
    AttemptsIffRoom(trace[k].engine, i, now, sockets, trace[k].clock);
  }
}
