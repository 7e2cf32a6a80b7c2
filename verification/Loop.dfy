/** The event loop of `Monitor::run`. */
module Loop {
  import opened Engine
  import opened ProberInvariant
  import opened EngineInvariant
  import opened Scheduling
  import opened Rebuild
  import opened RebuildTheorems

  const CLIENT_CHECK_INTERVAL_US := 60_000_000
  const READABLE_PUBLISH_INTERVAL_US := 5_000_000
  const MAX_SLEEP_MS := 3_600_000

  datatype Options = Options(publishIntervalUs: nat, clientTimeoutUs: nat, idleExitUs: nat)

  datatype Loop = Loop(
    engine: State, options: Options, generation: nat, lastPublishUs: nat, lastReadableUs: nat,
    configDirty: bool, lastClientCheckUs: nat, idleSinceUs: nat, running: bool)

  function Max(a: nat, b: nat): nat {
    if a < b then b else a
  }

  /** `now - then` in the daemon's unsigned microseconds; no clock reading precedes an earlier one. */
  function Since(now: nat, then_: nat): nat {
    if then_ <= now then now - then_ else 0
  }

  function PublishIntervalUs(l: Loop): nat {
    Max(l.options.publishIntervalUs, l.engine.minIntervalUs)
  }

  predicate PublishDue(l: Loop, now: nat, force: bool) {
    force || l.engine.stateDirty || (l.engine.dataDirty && Since(now, l.lastPublishUs) >= PublishIntervalUs(l))
  }

  predicate ReadableDue(l: Loop, now: nat) {
    l.engine.stateDirty || l.lastReadableUs == 0 || Since(now, l.lastReadableUs) >= READABLE_PUBLISH_INTERVAL_US
  }

  /** `publish` */
  function Publish(l: Loop, now: nat, force: bool): Loop {
    if !PublishDue(l, now, force) then l
    else
      l.(generation := l.generation + 1, lastPublishUs := now,
         lastReadableUs := if ReadableDue(l, now) then now else l.lastReadableUs,
         engine := l.engine.(dataDirty := false, stateDirty := false))
  }

  function ClientCheckIntervalUs(options: Options): nat {
    if options.clientTimeoutUs == 0 then CLIENT_CHECK_INTERVAL_US
    else Min(CLIENT_CHECK_INTERVAL_US, Max(options.clientTimeoutUs / 2, 1_000_000))
  }

  /** `dropExpiredClients`; `stale` says whether a configuration file was found expired and removed. */
  function DropExpired(l: Loop, now: nat, stale: bool): Loop {
    if l.options.clientTimeoutUs == 0 || Since(now, l.lastClientCheckUs) < ClientCheckIntervalUs(l.options) then l
    else l.(lastClientCheckUs := now, configDirty := l.configDirty || stale)
  }

  /** The idle bookkeeping of `run`. */
  function Idle(l: Loop, now: nat): Loop {
    if l.engine.probers == [] then
      var since := if l.idleSinceUs == 0 then now else l.idleSinceUs;
      l.(idleSinceUs := since,
         running := l.running && !(l.options.idleExitUs != 0 && Since(now, since) >= l.options.idleExitUs))
    else l.(idleSinceUs := 0)
  }

  /** `nextDeadline` */
  function NextDeadline(l: Loop): nat {
    var probing := ProbersDeadline(l.engine.probers);
    var publishing := if l.engine.dataDirty || l.engine.stateDirty
      then Min(probing, l.lastPublishUs + PublishIntervalUs(l)) else probing;
    var checking := if l.options.clientTimeoutUs != 0 && l.engine.clients != []
      then Min(publishing, l.lastClientCheckUs + ClientCheckIntervalUs(l.options)) else publishing;
    if l.options.idleExitUs != 0 && l.idleSinceUs != 0
      then Min(checking, l.idleSinceUs + l.options.idleExitUs) else checking
  }

  /** The `epoll_wait` timeout: -1 to wait for ever, else milliseconds rounded up and limited to one hour. */
  function TimeoutMs(deadline: nat, now: nat): int {
    if deadline == NEVER_US then -1
    else if deadline <= now then 0
    else Min((deadline - now + 999) / 1000, MAX_SLEEP_MS)
  }

  /** What one turn of the loop is given: clock readings in the order they are taken, and what the file descriptors
      brought. */
  datatype Inputs = Inputs(
    after: nat, reloadNow: nat, tickNow: nat, publishNow: nat, hangup: bool, terminate: bool, watched: bool,
    results: seq<Result>,
    replies: seq<Reply>, loaded: seq<Client>, numeric: string -> Endpoint, sockets: Sockets, stale: bool)

  /** Signals, inotify and resolver results; replies come after them. */
  function Receive(l: Loop, x: Inputs): Loop
    requires Indexed(l.engine)
  {
    var heard := l.(configDirty := l.configDirty || x.hangup || x.watched, running := l.running && !x.terminate,
                    engine := HandleResolutions(l.engine, x.after, x.results));
    if heard.running then heard.(engine := HandleReplies(heard.engine, x.after, x.replies)) else heard
  }

  function Reconfigure(l: Loop, x: Inputs): Loop
    requires Clamped(x.loaded) && ProbersClamped(l.engine.probers)
  {
    if l.configDirty then l.(configDirty := false, engine := Reload(l.engine, x.loaded, x.reloadNow, x.numeric)) else l
  }

  /** The end of the turn: housekeeping, idling, publishing. */
  function WindUp(l: Loop, x: Inputs): Loop {
    Publish(Idle(DropExpired(l, x.after, x.stale), x.after), x.publishNow, false)
  }

  /** The rest of the turn: the tick and the end. */
  function Finish(l: Loop, x: Inputs): Loop {
    WindUp(l.(engine := Tick(l.engine, x.tickNow, x.sockets)), x)
  }

  // ---- progress ---------------------------------------------------------

  /** A prober at its in-flight cap whose next send is overdue. */
  ghost predicate Capped(e: State, now: nat) {
    exists i :: 0 <= i < |e.probers| && |e.probers[i].inFlight| >= e.probers[i].maxInFlight
      && e.probers[i].nextSendUs <= now
  }

  /** The clock readings of a turn follow one another, and come after `clock`. */
  predicate InOrder(x: Inputs, clock: nat) {
    clock <= x.after <= x.reloadNow <= x.tickNow <= x.publishNow < NEVER_US && 0 < x.after
  }

  /** The clock readings that the loop remembers are not later than `clock`. */
  predicate Remembered(l: Loop, clock: nat) {
    l.lastPublishUs <= clock && l.lastReadableUs <= clock && l.lastClientCheckUs <= clock && l.idleSinceUs <= clock
  }

  lemma {:induction false} SettledDeadline(probers: seq<Prober>, after: nat, now: nat)
    requires after <= now && after < NEVER_US
    requires forall i :: 0 <= i < |probers| ==> Settled(probers[i], now) && after < probers[i].nextSendUs
    ensures after < ProbersDeadline(probers)
  {
    if probers != [] {
      SettledDeadline(probers[1..], after, now);
      assert Settled(probers[0], now);
    }
  }

  /** No deadline is later than any prober's next send. */
  lemma DeadlineBound(l: Loop, i: nat)
    requires i < |l.engine.probers|
    ensures NextDeadline(l) <= l.engine.probers[i].nextSendUs
  {
    hide ProbersDeadline;
    DeadlineIsLeast(l.engine.probers, i);
  }

  /** After the end of a turn the next deadline lies ahead of the instant at which the turn began, exactly if no prober
      sits at its cap with a send overdue at that instant: only then does the loop wake with nothing to do. */
  lemma LoopProgress(l: Loop, x: Inputs, clock: nat)
    requires Inv(l.engine, clock) && clock <= x.tickNow && InOrder(x, 0) && Remembered(l, x.after)
    ensures var r := Finish(l, x);
      r.running ==> (x.after < NextDeadline(r) <==> !Capped(r.engine, x.after))
  {
    hide Inv, Settled, Publish, Idle, DropExpired, NextDeadline, ProbersDeadline, Tick;
    var e := Tick(l.engine, x.tickNow, x.sockets);
    WholeTickSettles(l.engine, x.tickNow, x.sockets, clock);
    var r := Finish(l, x);
    HousekeepingAhead(l.(engine := e), x);
    hide Finish;
    if Capped(r.engine, x.after) {
      var i :| 0 <= i < |e.probers| && |e.probers[i].inFlight| >= e.probers[i].maxInFlight
        && e.probers[i].nextSendUs <= x.after;
      DeadlineBound(r, i);
    } else {
      forall i | 0 <= i < |e.probers| ensures x.after < e.probers[i].nextSendUs {
        SettledSends(e.probers[i], x.tickNow);
      }
      SettledDeadline(e.probers, x.after, x.tickNow);
    }
  }

  /** What the end of a turn leaves unpublished is no change of state, and other news only while the publishing interval
      lasts; and the loop sleeps no longer than to the end of it. */
  lemma NewsGoesOut(l: Loop, x: Inputs)
    requires InOrder(x, 0) && Remembered(l, x.after)
    ensures var r := Finish(l, x);
      !r.engine.stateDirty && r.lastPublishUs <= x.publishNow
      && (r.engine.dataDirty ==>
            x.publishNow < r.lastPublishUs + PublishIntervalUs(r)
            && NextDeadline(r) <= r.lastPublishUs + PublishIntervalUs(r))
  {
    hide Tick, ProbersDeadline;
    var ticked := l.(engine := Tick(l.engine, x.tickNow, x.sockets));
    NothingStaysUnpublished(Idle(DropExpired(ticked, x.after, x.stale), x.after), x.publishNow);
  }

  /** One turn of the loop of `run`. */
  function Turn(l: Loop, x: Inputs): Loop
    requires Indexed(l.engine) && Clamped(x.loaded) && ProbersClamped(Receive(l, x).engine.probers)
  {
    var heard := Receive(l, x);
    if heard.running then Finish(Reconfigure(heard, x), x) else heard
  }

  /** From any state of the invariant and whatever the turn brings: the invariant holds after it, with the clock
      readings then remembered, and if the loop goes on, it has progressed as `LoopProgress` says and `NewsGoesOut`
      holds. */
  lemma TurnProgress(l: Loop, x: Inputs, clock: nat)
    requires Inv(l.engine, clock) && Remembered(l, clock) && InOrder(x, clock) && Clamped(x.loaded)
    ensures Indexed(l.engine) && ProbersClamped(Receive(l, x).engine.probers)
    ensures var r := Turn(l, x);
      Inv(r.engine, x.publishNow) && Remembered(r, x.publishNow) && (r.running ==> Progressed(r, x))
  {
    hide Inv, HandleReplies, HandleResolutions, Reload, ProbersClamped, Clamped, Tick, NextDeadline, ProbersDeadline,
         Indexed;
    InvIndexes(l.engine, clock);
    ResolutionsKeepInv(l.engine, x.after, x.results, clock);
    var resolved := HandleResolutions(l.engine, x.after, x.results);
    HandleRepliesKeepInv(resolved, x.after, x.replies, x.after);
    var heard := Receive(l, x);
    InvIndexes(heard.engine, x.after);
    if heard.running {
      ReloadKeepsInv(heard.engine, x.loaded, x.reloadNow, x.numeric, x.after);
      TimeKeepsInv(heard.engine, x.after, x.reloadNow);
      FinishProgress(Reconfigure(heard, x), x);
    } else {
      TimeKeepsInv(heard.engine, x.after, x.publishNow);
    }
  }

  /** After a turn of a loop that goes on. */
  ghost predicate Progressed(r: Loop, x: Inputs) {
    (x.after < NextDeadline(r) <==> !Capped(r.engine, x.after))
    && !r.engine.stateDirty
    && (r.engine.dataDirty ==>
          x.publishNow < r.lastPublishUs + PublishIntervalUs(r)
          && NextDeadline(r) <= r.lastPublishUs + PublishIntervalUs(r))
  }

  lemma FinishProgress(l: Loop, x: Inputs)
    requires Inv(l.engine, x.reloadNow) && Remembered(l, x.after) && InOrder(x, 0)
    ensures var r := Finish(l, x);
      Inv(r.engine, x.publishNow) && Remembered(r, x.publishNow) && (r.running ==> Progressed(r, x))
  {
    hide Inv, Tick, NextDeadline, ProbersDeadline, Capped, PublishIntervalUs;
    WholeTickKeepsInv(l.engine, x.tickNow, x.sockets, x.reloadNow);
    LoopProgress(l, x, x.reloadNow);
    NewsGoesOut(l, x);
    var ticked := Tick(l.engine, x.tickNow, x.sockets);
    assert Finish(l, x).engine == ticked || Finish(l, x).engine == ticked.(dataDirty := false, stateDirty := false);
    FlagsAside(ticked, x.tickNow);
    TimeKeepsInv(Finish(l, x).engine, x.tickNow, x.publishNow);
  }

  lemma FlagsAside(e: State, clock: nat)
    requires Inv(e, clock)
    ensures Inv(e.(dataDirty := false, stateDirty := false), clock)
  {
    hide Sound, Samples, Verdicts;
  }

  lemma WholeTickKeepsInv(e: State, now: nat, sockets: Sockets, clock: nat)
    requires Inv(e, clock) && clock <= now
    ensures Inv(Tick(e, now, sockets), now)
  {
    hide Inv, TickFrom;
    TickKeepsInv(e, 0, now, sockets, clock);
  }

  lemma {:induction false} ResolutionsKeepInv(e: State, now: nat, results: seq<Result>, clock: nat)
    requires Inv(e, clock) && clock <= now && Indexed(e)
    ensures Inv(HandleResolutions(e, now, results), now)
    decreases |results|
  {
    hide Inv, HandleResolution;
    if results == [] {
      TimeKeepsInv(e, clock, now);
    } else {
      HandleResolutionKeepsInv(e, now, results[0], clock);
      ResolutionsKeepInv(HandleResolution(e, now, results[0]), now, results[1..], now);
    }
  }

  lemma WholeTickSettles(e: State, now: nat, sockets: Sockets, clock: nat)
    requires Inv(e, clock) && clock <= now
    ensures forall j :: 0 <= j < |Tick(e, now, sockets).probers| ==> Settled(Tick(e, now, sockets).probers[j], now)
  {
    hide Settled, Inv, TickFrom;
    assert Tick(e, now, sockets) == TickFrom(e, 0, now, sockets);
    TickSettles(e, 0, now, sockets, clock);
    var r := TickFrom(e, 0, now, sockets);
    assert forall j :: 0 <= j < |r.probers| ==> Settled(r.probers[j], now);
  }

  lemma CheckAhead(t: Loop, now: nat, stale: bool)
    requires t.lastClientCheckUs <= now
    ensures var d := DropExpired(t, now, stale);
      d == t.(lastClientCheckUs := d.lastClientCheckUs, configDirty := d.configDirty)
      && (t.options.clientTimeoutUs != 0 ==> now < d.lastClientCheckUs + ClientCheckIntervalUs(t.options))
  {
  }

  lemma IdleAhead(d: Loop, now: nat)
    requires d.idleSinceUs <= now
    ensures var i := Idle(d, now);
      i == d.(idleSinceUs := i.idleSinceUs, running := i.running)
      && (i.running && d.options.idleExitUs != 0 && i.idleSinceUs != 0 ==> now < i.idleSinceUs + d.options.idleExitUs)
  {
  }

  /** What housekeeping leaves: the probers alone, and its own deadlines ahead. */
  lemma HousekeepingAhead(t: Loop, x: Inputs)
    requires x.after <= x.publishNow && t.lastPublishUs <= x.publishNow && t.lastClientCheckUs <= x.after
    requires t.idleSinceUs <= x.after && 0 < x.after
    ensures var r := WindUp(t, x);
      r.engine.probers == t.engine.probers
      && (r.running && x.after < ProbersDeadline(t.engine.probers) ==> x.after < NextDeadline(r))
  {
    hide ProbersDeadline, DropExpired, Idle, ClientCheckIntervalUs;
    CheckAhead(t, x.after, x.stale);
    var d := DropExpired(t, x.after, x.stale);
    IdleAhead(d, x.after);
    NothingStaysUnpublished(Idle(d, x.after), x.publishNow);
  }

  lemma SettledSends(p: Prober, now: nat)
    requires Settled(p, now)
    ensures now < p.nextSendUs || |p.inFlight| >= p.maxInFlight
  {
  }

  /** Without a deadline the loop sleeps for ever, and after one not at all. Before it, the sleep never ends early,
      unless it was limited to an hour, and aims less than 1 ms past the deadline. */
  lemma SleepIsTight(deadline: nat, now: nat)
    ensures var t := TimeoutMs(deadline, now);
      if deadline == NEVER_US then t == -1
      else if deadline <= now then t == 0
      else (deadline <= now + t * 1000 || t == 3_600_000) && now + t * 1000 < deadline + 1000
  {
    if now < deadline {
      var ms := (deadline - now + 999) / 1000;
      assert ms * 1000 <= deadline - now + 999 < ms * 1000 + 1000;
    }
  }

  /** A turn that brings nothing: no signal, no file event, no result, no reply, no expired file. */
  predicate BringsNothing(x: Inputs) {
    !x.hangup && !x.terminate && !x.watched && x.results == [] && x.replies == [] && !x.stale
  }

  /** What a turn of a loop that goes on leaves, unless it found an expired file: no change of state to publish, no
      reload due, and the idle clock set exactly without probers. */
  predicate AtRest(l: Loop) {
    l.running && !l.configDirty && !l.engine.stateDirty && (l.engine.probers == [] <==> l.idleSinceUs != 0)
  }

  lemma FinishRests(l: Loop, x: Inputs)
    requires InOrder(x, 0) && !l.configDirty
    ensures var r := Finish(l, x);
      r.running && !r.configDirty ==> AtRest(r)
  {
    hide Tick, PublishIntervalUs;
  }

  /** A turn whose clock readings all come before the next deadline, by more than the slack, and that brings nothing,
      leaves a loop at rest as it was: probers, publication, idling and all. Without clients only the instant of the
      last look for expired files may move. */
  lemma EarlyWakeDoesNothing(l: Loop, x: Inputs, clock: nat)
    requires AtRest(l) && BringsNothing(x) && InOrder(x, clock) && Remembered(l, clock) && Indexed(l.engine)
    requires x.publishNow + SEND_SLACK_US < NextDeadline(l) && ProbersClamped(l.engine.probers) && Clamped(x.loaded)
    ensures ProbersClamped(Receive(l, x).engine.probers)
    ensures Turn(l, x) == l.(lastClientCheckUs := Turn(l, x).lastClientCheckUs)
    ensures l.engine.clients != [] || l.options.clientTimeoutUs == 0 ==> Turn(l, x) == l
  {
    hide ProbersDeadline, Tick, ClientCheckIntervalUs;
    assert HandleResolutions(l.engine, x.after, []) == l.engine && HandleReplies(l.engine, x.after, []) == l.engine;
    assert Receive(l, x) == l;
    WholeTickEarly(l.engine, x.tickNow, x.sockets);
    var ticked := l.(engine := Tick(l.engine, x.tickNow, x.sockets));
    assert ticked == l;
    var d := DropExpired(l, x.after, x.stale);
    assert d == l.(lastClientCheckUs := d.lastClientCheckUs);
    assert l.engine.clients != [] || l.options.clientTimeoutUs == 0 ==> d == l;
    assert Idle(d, x.after) == d;
  }

  lemma WholeTickEarly(e: State, now: nat, sockets: Sockets)
    requires now + SEND_SLACK_US < ProbersDeadline(e.probers)
    ensures Tick(e, now, sockets) == e
  {
    EarlyTickDoesNothing(e, 0, now, sockets);
  }

  /** A change of state is published in the same turn; other news within one publishing interval. */
  lemma NothingStaysUnpublished(l: Loop, now: nat)
    ensures var r := Publish(l, now, false);
      !r.engine.stateDirty && (r.engine.dataDirty ==> Since(now, r.lastPublishUs) < PublishIntervalUs(r))
      && (r.generation == l.generation <==> r == l)
      && (l.engine.stateDirty ==> r.generation == l.generation + 1)
  {
  }
}
