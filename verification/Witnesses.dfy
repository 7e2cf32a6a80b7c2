/** Runs in which the code does what its comments do not say: an answer later than the maximum wait, and a loop that
    wakes with nothing to do. */
module Witnesses {
  import opened Hysteresis
  import opened Engine
  import opened ProberInvariant
  import opened EngineInvariant
  import opened Rebuild
  import opened System
  import opened SystemTheorems
  import opened Loop
  import opened Turns

  // ---- one widget with one destination, an address literal --------------

  const HOST := "10.0.0.1"
  const LITERAL := Endpoint(false, 1, HOST)
  const INTERVAL_US := 100_000

  function OneHost(timeoutUs: nat): seq<Client> {
    var d := Destination("r", HOST, 1000, 3, true, false, -1, Unknown, Unknown, 0, false, 0, 0, 0);
    [Client("w", INTERVAL_US, timeoutUs, [d])]
  }

  function TheProber(timeoutUs: nat, now: nat): Prober {
    NewProber(HOST, INTERVAL_US, timeoutUs, 1, LITERAL, now)
      .(subscribers := [Subscriber(0, 0)], maxInFlight := InFlightLimit(INTERVAL_US, timeoutUs))
  }

  lemma OneSlot(timeoutUs: nat)
    ensures CarryAll(OneHost(timeoutUs), []) == OneHost(timeoutUs) && Slots(OneHost(timeoutUs)) == [Subscriber(0, 0)]
  {
    assert SlotsFrom(OneHost(timeoutUs), 0, 1) == [];
  }

  lemma FirstBuild(b: Build, timeoutUs: nat, prev: Old, now: nat, numeric: string -> Endpoint)
    requires numeric(HOST) == LITERAL && OldOk(prev) && prev.byKey == map[]
    requires b == Build(OneHost(timeoutUs), [], map[], {}, 1, map[])
    ensures ValidSlot(b.clients, Subscriber(0, 0))
    ensures EnrollAll(b, [Subscriber(0, 0)], prev, now, numeric).probers
         == [NewProber(HOST, INTERVAL_US, timeoutUs, 1, LITERAL, now).(subscribers := [Subscriber(0, 0)])]
    ensures |EnrollAll(b, [Subscriber(0, 0)], prev, now, numeric).clients| == 1
  {
    hide Key;
    var s := Subscriber(0, 0);
    assert [s][1..] == [] && [] + [s] == [s];
    var r := Enroll(b, s, prev, now, numeric);
    assert r.probers == [NewProber(HOST, INTERVAL_US, timeoutUs, 1, LITERAL, now).(subscribers := [s])];
    assert EnrollAll(b, [s], prev, now, numeric) == EnrollAll(r, [], prev, now, numeric) == r;
  }

  lemma OneIndexed(p: Prober)
    requires p.intervalUs > 0
    ensures IndexByUid([p]) == map[p.uid := 0] && LimitAll([p]) == [Limited(p)]
  {
    assert [p][..0] == [];
    assert IndexByUid([]) == map[];
  }

  /** What the first configuration makes of an empty table. */
  lemma FirstReload(timeoutUs: nat, now: nat, numeric: string -> Endpoint)
    requires numeric(HOST) == LITERAL && timeoutUs >= 50_000
    ensures Clamped(OneHost(timeoutUs))
    ensures var r := Reload(Start(0).engine, OneHost(timeoutUs), now, numeric);
      r.probers == [TheProber(timeoutUs, now)] && r.proberByUid == map[1 := 0] && r.log == [] && r.clients != []
  {
    hide InFlightLimit, EnrollAll, Slots, CarryAll, IndexByUid, LimitAll, MinInterval, NewProber;
    var e := Start(0).engine.(clients := OneHost(timeoutUs));
    OneSlot(timeoutUs);
    assert OldOf(e).byKey == map[];
    FirstBuild(StartBuild(e), timeoutUs, OldOf(e), now, numeric);
    NewProberSettings(timeoutUs, now);
    OneIndexed(NewProber(HOST, INTERVAL_US, timeoutUs, 1, LITERAL, now).(subscribers := [Subscriber(0, 0)]));
    var b := Built(e, now, numeric);
    EnrollAllKeepsClamps(StartBuild(e), Slots(e.clients), OldOf(e), now, numeric);
    assert RebuildProbers(e, now, numeric).probers == LimitAll(b.probers);
  }

  lemma NewProberSettings(timeoutUs: nat, now: nat)
    ensures var p := NewProber(HOST, INTERVAL_US, timeoutUs, 1, LITERAL, now);
      p.intervalUs == INTERVAL_US && p.timeoutUs == timeoutUs && p.uid == 1
  {
  }

  /** A prober after one more send. */
  function AfterSend(p: Prober, now: nat): Prober {
    Reschedule(p.(sequence := p.sequence + 1,
                  inFlight := p.inFlight + [InFlight(p.sequence + 1, now, now + p.timeoutUs)]), now)
  }

  /** The turn of a prober that needs no lookup and has nothing due to give up on. */
  lemma PlainTurn(e: State, i: nat, now: nat, sockets: Sockets)
    requires i < |e.probers| && sockets.open4 && forall u, k :: sockets.outcome(u, k) == Sent
    requires var p := e.probers[i];
      p.numeric && p.endpoint == LITERAL && (p.inFlight != [] ==> !Expired(p.inFlight[0], now))
    ensures var p := e.probers[i];
      TickProber(e, i, now, sockets) == if SendDue(p, now) then SetProber(e, i, AfterSend(p, now)) else e
  {
  }

  // ---- a late answer ----------------------------------------------------

  /** The last of three steps takes an answer that took longer than the prober waits. */
  ghost predicate AnsweredLate(trace: seq<System>) {
    |trace| == 4 && |trace[2].engine.probers| == 1
    && exists rttUs: nat ::
         trace[3].engine.log == trace[2].engine.log + [Answered(trace[2].engine.probers[0].uid, 1, rttUs)]
         && rttUs > trace[2].engine.probers[0].timeoutUs
  }

  /** The comment on `classify` has it that whatever answered did so inside the maximum wait. This run answers after
      60 ms to a prober that waits for 50 ms. */
  lemma LateAnswerHappens(numeric: string -> Endpoint, sockets: Sockets)
    requires numeric(HOST) == LITERAL && sockets.open4 && forall u, k :: sockets.outcome(u, k) == Sent
    ensures exists trace, steps :: Run(trace, steps, numeric) && AnsweredLate(trace)
  {
    hide Reload, TickProber, HandleReplies, OneHost, Clamped, Fresh, ProbersClamped, Indexed;
    var loaded, replies := OneHost(50_000), [Reply(1, 1, 0, LITERAL)];
    LateEngines(numeric, sockets);
    var s0 := Start(0);
    var s1 := Next(s0, Configure(0, loaded), numeric);
    var s2 := Next(s1, TickOne(0, 0, sockets), numeric);
    var s3 := Next(s2, Replies(60_000, replies), numeric);
    var trace, steps := [s0, s1, s2, s3], [Configure(0, loaded), TickOne(0, 0, sockets), Replies(60_000, replies)];
    assert AnsweredLate(trace);
    assert Run(trace, steps, numeric);
  }

  /** What the three steps make of the engine. */
  lemma LateEngines(numeric: string -> Endpoint, sockets: Sockets)
    requires numeric(HOST) == LITERAL && sockets.open4 && forall u, k :: sockets.outcome(u, k) == Sent
    ensures Clamped(OneHost(50_000)) && Fresh(OneHost(50_000))
    ensures ProbersClamped(Start(0).engine.probers) && Indexed(Start(0).engine)
    ensures var e1 := Reload(Start(0).engine, OneHost(50_000), 0, numeric);
      |e1.probers| == 1 && ProbersClamped(e1.probers) && Indexed(e1)
      && var e2 := TickProber(e1, 0, 0, sockets);
         |e2.probers| == 1 && ProbersClamped(e2.probers) && Indexed(e2) && e2.probers[0].timeoutUs == 50_000
         && HandleReplies(e2, 60_000, [Reply(1, 1, 0, LITERAL)]).log
           == e2.log + [Answered(e2.probers[0].uid, 1, 60_000)]
  {
    hide Reload, TickProber, InFlightLimit, HandleReply;
    FirstReload(50_000, 0, numeric);
    LimitPositive(50_000);
    var e1 := Reload(Start(0).engine, OneHost(50_000), 0, numeric);
    PlainTurn(e1, 0, 0, sockets);
    var e2 := TickProber(e1, 0, 0, sockets);
    assert e2.probers == [AfterSend(TheProber(50_000, 0), 0)];
    assert e2.probers[0].inFlight == [InFlight(1, 0, 50_000)];
    var reply := Reply(1, 1, 0, LITERAL);
    TakenAsAnswer(e2, 60_000, reply);
    assert [reply][1..] == [];
    assert HandleReplies(HandleReply(e2, 60_000, reply), 60_000, []) == HandleReply(e2, 60_000, reply);
  }

  lemma TakenAsAnswer(e: State, now: nat, reply: Reply)
    requires Indexed(e) && Accepts(e, reply) && e.probers[e.proberByUid[reply.uid]].uid == reply.uid
    ensures HandleReply(e, now, reply).log == e.log + [Answered(reply.uid, reply.seqNo, RoundTrip(now, reply.sentUs))]
  {
  }

  lemma LimitPositive(timeoutUs: nat)
    ensures InFlightLimit(INTERVAL_US, timeoutUs) >= 1
  {
  }

  // ---- a turn with nothing to do ----------------------------------------

  function FirstLoop(): Loop {
    Loop(Start(0).engine, Options(0, 0, 0), 0, 0, 0, true, 0, 0, true)
  }

  /** A turn that brings nothing but clock readings. */
  function Tock(after: nat, tickNow: nat, loaded: seq<Client>, numeric: string -> Endpoint, sockets: Sockets): Inputs {
    Inputs(after, after, tickNow, tickNow, false, false, false, [], [], loaded, numeric, sockets, false)
  }

  /** The last of three turns changes no prober and leaves the next deadline at or before its own beginning. */
  ghost predicate Spins(ls: seq<Loop>, xs: seq<Inputs>) {
    |ls| == 4 && |xs| == 3 && ls[3].running && ls[3].engine.probers == ls[2].engine.probers
    && NextDeadline(ls[3]) <= xs[2].after
  }

  /** A prober that sends every 100 ms and waits for 200 ms is kept from its first send until just before its second
      slot. It then makes the second send on time, and at its third slot it sits at its cap: the loop wakes at once,
      again and again, with nothing to do. */
  lemma LoopSpins(numeric: string -> Endpoint, sockets: Sockets)
    requires numeric(HOST) == LITERAL && sockets.open4 && forall u, k :: sockets.outcome(u, k) == Sent
    ensures exists ls: seq<Loop>, xs: seq<Inputs> ::
      LoopRun(ls, xs, 0) && Inv(ls[0].engine, 0) && Remembered(ls[0], 0) && Spins(ls, xs)
  {
    hide Turn, Receive, NextDeadline, AfterSend, SendDue, Single, Plain, Clamped, Indexed, ProbersClamped;
    hide OneHost, TheProber, Start, Inv, Remembered, FirstLoop;
    var loaded := OneHost(200_000);
    var x1, x2, x3 := Tock(1, 99_001, loaded, numeric, sockets), Tock(100_001, 100_001, loaded, numeric, sockets),
                      Tock(200_001, 200_001, loaded, numeric, sockets);
    var l0 := FirstLoop();
    var p1, p2 := SpinningProber();
    FirstTock(x1);
    var l1 := Turn(l0, x1);
    LaterTock(l1, p1, x2);
    var l2 := Turn(l1, x2);
    LaterTock(l2, p2, x3);
    var l3 := Turn(l2, x3);
    SingleHas(l2, p2);
    SingleHas(l3, p2);
    DeadlineBound(l3, 0);
    var ls, xs := [l0, l1, l2, l3], [x1, x2, x3];
    FirstLoopSound(numeric);
    assert LoopRun(ls, xs, 0);
    assert Spins(ls, xs);
  }

  lemma FirstLoopSound(numeric: string -> Endpoint)
    ensures Inv(FirstLoop().engine, 0) && Remembered(FirstLoop(), 0)
  {
    StartSound(0, numeric);
    hide Inv;
  }

  /** The prober after its first send, late, and after its second. */
  lemma SpinningProber() returns (p1: Prober, p2: Prober)
    ensures p1 == AfterSend(TheProber(200_000, 1), 99_001) && p2 == AfterSend(p1, 100_001)
    ensures SendDue(TheProber(200_000, 1), 99_001) && SendDue(p1, 100_001) && !SendDue(p2, 200_001)
    ensures Plain(p1, 100_001) && Plain(p2, 200_001) && p2.nextSendUs == 200_001
  {
    assert InFlightLimit(INTERVAL_US, 200_000) == 2;
    p1 := AfterSend(TheProber(200_000, 1), 99_001);
    p2 := AfterSend(p1, 100_001);
    assert p2.inFlight == [InFlight(1, 99_001, 299_001), InFlight(2, 100_001, 300_001)];
  }

  /** A loop that goes on with one prober, and no reload due. */
  predicate Single(l: Loop, p: Prober) {
    l.engine.probers == [p] && l.engine.proberByUid == map[1 := 0] && l.running && !l.configDirty
    && l.options == Options(0, 0, 0)
  }

  lemma SingleHas(l: Loop, p: Prober)
    requires Single(l, p)
    ensures l.engine.probers == [p] && l.running
  {
  }

  predicate Plain(p: Prober, now: nat) {
    p.numeric && p.endpoint == LITERAL && (p.inFlight != [] ==> !Expired(p.inFlight[0], now))
    && p.intervalUs >= 100_000 && p.timeoutUs >= 50_000
  }

  ghost predicate IsTock(x: Inputs) {
    x == Tock(x.after, x.tickNow, x.loaded, x.numeric, x.sockets)
    && x.sockets.open4 && forall u, k :: x.sockets.outcome(u, k) == Sent
  }

  lemma FirstTock(x: Inputs)
    requires IsTock(x) && x.loaded == OneHost(200_000) && x.numeric(HOST) == LITERAL && x.reloadNow == 1
    requires x.tickNow == 99_001
    ensures Clamped(x.loaded) && Indexed(FirstLoop().engine) && ProbersClamped(Receive(FirstLoop(), x).engine.probers)
    ensures Single(Turn(FirstLoop(), x), AfterSend(TheProber(200_000, 1), 99_001))
  {
    hide Reload, Finish, AfterSend;
    FirstReload(200_000, 1, x.numeric);
    var p1, p2 := SpinningProber();
    var heard := Receive(FirstLoop(), x);
    assert heard.engine == Start(0).engine && heard.configDirty && heard.running;
    PlainTock(Reconfigure(heard, x), TheProber(200_000, 1), x);
  }

  lemma LaterTock(l: Loop, p: Prober, x: Inputs)
    requires IsTock(x) && Single(l, p) && Plain(p, x.tickNow) && Clamped(x.loaded)
    ensures Indexed(l.engine) && ProbersClamped(Receive(l, x).engine.probers)
    ensures Single(Turn(l, x), if SendDue(p, x.tickNow) then AfterSend(p, x.tickNow) else p)
  {
    hide Finish, AfterSend, Reload;
    var heard := Receive(l, x);
    assert heard.engine == l.engine && !heard.configDirty && heard.running;
    PlainTock(heard, p, x);
  }

  /** The end of such a turn. */
  lemma PlainTock(l: Loop, p: Prober, x: Inputs)
    requires IsTock(x) && Single(l, p) && Plain(p, x.tickNow)
    ensures Single(Finish(l, x), if SendDue(p, x.tickNow) then AfterSend(p, x.tickNow) else p)
  {
    hide TickProber, AfterSend, SendDue;
    PlainTurn(l.engine, 0, x.tickNow, x.sockets);
    var e := TickProber(l.engine, 0, x.tickNow, x.sockets);
    assert TickFrom(e, 1, x.tickNow, x.sockets) == e;
    assert Tick(l.engine, x.tickNow, x.sockets) == e;
    assert e.probers == [if SendDue(p, x.tickNow) then AfterSend(p, x.tickNow) else p];
  }
}
