/** What is news, that it is published, and when. */
module News {
  import opened Hysteresis
  import opened Engine
  import opened Rebuild
  import opened Loop

  /** Every destination shows the same state. */
  predicate SameStates(a: seq<Client>, b: seq<Client>) {
    |b| == |a|
    && forall c :: 0 <= c < |a| ==>
        |b[c].destinations| == |a[c].destinations|
        && forall d :: 0 <= d < |a[c].destinations| ==> b[c].destinations[d].state == a[c].destinations[d].state
  }

  predicate SameText(p: Endpoint, q: Endpoint) {
    p.Endpoint? == q.Endpoint? && (p.Endpoint? ==> q.text == p.text)
  }

  /** Every prober shows the same address. */
  predicate SameTexts(a: seq<Prober>, b: seq<Prober>) {
    |b| == |a| && forall i :: 0 <= i < |a| ==> SameText(a[i].endpoint, b[i].endpoint)
  }

  predicate SameView(e: State, r: State) {
    SameStates(e.clients, r.clients) && SameTexts(e.probers, r.probers)
  }

  /** From `e` to `r` nothing new went unnoticed. */
  predicate Flagged(e: State, r: State) {
    (e.stateDirty ==> r.stateDirty) && (r.stateDirty || SameView(e, r))
    && (e.dataDirty ==> r.dataDirty) && (r.dataDirty || r.log == e.log)
  }

  lemma SameStatesChain(a: seq<Client>, b: seq<Client>, c: seq<Client>)
    requires SameStates(a, b) && SameStates(b, c)
    ensures SameStates(a, c)
  {
  }

  lemma FlaggedChain(e: State, r: State, t: State)
    requires Flagged(e, r) && Flagged(r, t)
    ensures Flagged(e, t)
  {
    if SameView(e, r) && SameView(r, t) {
      SameStatesChain(e.clients, r.clients, t.clients);
    }
  }

  // ---- samples ----------------------------------------------------------

  lemma OneDelivered(clients: seq<Client>, sub: Subscriber, sample: Sample)
    ensures var (next, changed) := DeliverOne(clients, sub, sample);
      if changed then
        ValidSlot(clients, sub) && ValidSlot(next, sub)
        && DestinationAt(next, sub).state != DestinationAt(clients, sub).state
      else SameStates(clients, next)
  {
    hide Judge;
  }

  lemma {:induction false} AllDelivered(clients: seq<Client>, subs: seq<Subscriber>, sample: Sample, dirty: bool)
    ensures var (next, news) := Deliver(clients, subs, sample, dirty);
      (dirty ==> news) && (news || SameStates(clients, next))
    decreases |subs|
  {
    hide DeliverOne;
    if subs != [] {
      var (next, changed) := DeliverOne(clients, subs[0], sample);
      OneDelivered(clients, subs[0], sample);
      AllDelivered(next, subs[1..], sample, dirty || changed);
      if !Deliver(clients, subs, sample, dirty).1 {
        SameStatesChain(clients, next, Deliver(next, subs[1..], sample, dirty || changed).0);
      }
    }
  }

  /** Slots that are not delivered to are not touched. */
  lemma {:induction false} OthersUntouched(clients: seq<Client>, subs: seq<Subscriber>, sample: Sample, dirty: bool,
                                           s: Subscriber)
    requires ValidSlot(clients, s) && s !in subs
    ensures var next := Deliver(clients, subs, sample, dirty).0;
      ValidSlot(next, s) && DestinationAt(next, s) == DestinationAt(clients, s)
    decreases |subs|
  {
    hide Judge;
    if subs != [] {
      var (next, changed) := DeliverOne(clients, subs[0], sample);
      assert subs[0] in subs && forall x :: x in subs[1..] ==> x in subs;
      OthersUntouched(next, subs[1..], sample, dirty || changed, s);
    }
  }

  predicate Different(a: seq<Client>, b: seq<Client>, s: Subscriber) {
    ValidSlot(a, s) && ValidSlot(b, s) && DestinationAt(a, s).state != DestinationAt(b, s).state
  }

  /** A sample is a change of state exactly if some destination shows another state after it. */
  lemma {:induction false} ChangeIffDifferent(clients: seq<Client>, subs: seq<Subscriber>, sample: Sample, dirty: bool)
    requires forall i, j :: 0 <= i < j < |subs| ==> subs[i] != subs[j]
    ensures var (next, news) := Deliver(clients, subs, sample, dirty);
      news <==> dirty || exists s :: Different(clients, next, s)
    decreases |subs|
  {
    hide DeliverOne, Judge;
    AllDelivered(clients, subs, sample, dirty);
    var (next, news) := Deliver(clients, subs, sample, dirty);
    if news && !dirty {
      DifferentFound(clients, subs, sample);
    }
  }

  lemma {:induction false} DifferentFound(clients: seq<Client>, subs: seq<Subscriber>, sample: Sample)
    requires forall i, j :: 0 <= i < j < |subs| ==> subs[i] != subs[j]
    requires Deliver(clients, subs, sample, false).1
    ensures exists s :: Different(clients, Deliver(clients, subs, sample, false).0, s)
    decreases |subs|
  {
    hide DeliverOne, Judge;
    var (next, changed) := DeliverOne(clients, subs[0], sample);
    OneDelivered(clients, subs[0], sample);
    assert subs[0] !in subs[1..];
    if changed {
      OthersUntouched(next, subs[1..], sample, true, subs[0]);
      assert Different(clients, Deliver(clients, subs, sample, false).0, subs[0]);
    } else {
      DifferentFound(next, subs[1..], sample);
      var s :| Different(next, Deliver(next, subs[1..], sample, false).0, s);
      assert Different(clients, Deliver(clients, subs, sample, false).0, s);
    }
  }

  lemma SampleFlagged(e: State, i: nat, p: Prober, sample: Sample, event: Event)
    requires i < |e.probers| && p.endpoint == e.probers[i].endpoint
    ensures Flagged(e, ApplySample(SetProber(e, i, p), i, sample, event))
  {
    hide Deliver;
    AllDelivered(e.clients, p.subscribers, sample, e.stateDirty);
  }

  // ---- the operations ---------------------------------------------------

  lemma Unchanged(e: State, r: State)
    requires r.clients == e.clients && SameTexts(e.probers, r.probers) && r.log == e.log
    requires r.dataDirty == e.dataDirty && (e.stateDirty ==> r.stateDirty)
    ensures Flagged(e, r)
  {
  }

  lemma {:induction false} ExpireFlagged(e: State, i: nat, now: nat)
    requires i < |e.probers|
    ensures Flagged(e, Expire(e, i, now))
    decreases |e.probers[i].inFlight|
  {
    hide Flagged, ApplySample;
    var p := e.probers[i];
    if p.inFlight != [] && Expired(p.inFlight[0], now) {
      SampleFlagged(e, i, p.(inFlight := p.inFlight[1..]), Silence, TimedOut(p.uid, p.inFlight[0].seqNo));
      ExpireFlagged(ExpireFront(e, i), i, now);
      FlaggedChain(e, ExpireFront(e, i), Expire(e, i, now));
    } else {
      Unchanged(e, e);
    }
  }

  lemma SendFlagged(e: State, i: nat, now: nat, sockets: Sockets)
    requires i < |e.probers|
    ensures Flagged(e, MaybeSend(e, i, now, sockets))
  {
    hide Flagged, ApplySample;
    if SendDue(e.probers[i], now) {
      var p := e.probers[i];
      var sent := SendProbe(e, i, now, sockets);
      if !Routable(p, sockets) {
        SampleFlagged(e, i, p, Silence, NoRoute(p.uid));
        assert SetProber(e, i, p) == e;
      } else if sockets.outcome(p.uid, p.sequence + 1) == Sent {
        Unchanged(e, sent);
      } else {
        SampleFlagged(e, i, p.(sequence := p.sequence + 1), Silence, SendFailed(p.uid, p.sequence + 1));
      }
      Unchanged(sent, SetProber(sent, i, Reschedule(sent.probers[i], now)));
      FlaggedChain(e, sent, MaybeSend(e, i, now, sockets));
    } else {
      Unchanged(e, e);
    }
  }

  lemma {:induction false} TickFlagged(e: State, i: nat, now: nat, sockets: Sockets)
    requires i <= |e.probers|
    ensures Flagged(e, TickFrom(e, i, now, sockets))
    decreases |e.probers| - i
  {
    hide Flagged, Expire, MaybeSend;
    if i == |e.probers| {
      Unchanged(e, e);
    } else {
      var a := Expire(e, i, now);
      var b := StartResolving(a, i, now);
      var c := TickProber(e, i, now, sockets);
      ExpireFlagged(e, i, now);
      Unchanged(a, b);
      FlaggedChain(e, a, b);
      SendFlagged(b, i, now, sockets);
      FlaggedChain(e, b, c);
      TickFlagged(c, i + 1, now, sockets);
      FlaggedChain(e, c, TickFrom(e, i, now, sockets));
    }
  }

  lemma ReplyFlagged(e: State, now: nat, reply: Reply)
    requires Indexed(e)
    ensures Flagged(e, HandleReply(e, now, reply))
  {
    hide Flagged, ApplySample;
    if Accepts(e, reply) {
      var i := e.proberByUid[reply.uid];
      var p := e.probers[i];
      var k := FindSeq(p.inFlight, reply.seqNo);
      SampleFlagged(e, i, p.(inFlight := p.inFlight[..k] + p.inFlight[k + 1..]), Answer(RoundTrip(now, reply.sentUs)),
                    Answered(p.uid, reply.seqNo, RoundTrip(now, reply.sentUs)));
    } else {
      Unchanged(e, e);
    }
  }

  lemma {:induction false} RepliesFlagged(e: State, now: nat, replies: seq<Reply>)
    requires Indexed(e)
    ensures Flagged(e, HandleReplies(e, now, replies))
    decreases |replies|
  {
    hide Flagged, HandleReply, Indexed;
    if replies == [] {
      Unchanged(e, e);
    } else {
      var a := HandleReply(e, now, replies[0]);
      ReplyFlagged(e, now, replies[0]);
      RepliesFlagged(a, now, replies[1..]);
      FlaggedChain(e, a, HandleReplies(e, now, replies));
    }
  }

  /** A lookup that failed is news, and so is one that found another address than before. */
  lemma ResolutionFlagged(e: State, now: nat, result: Result)
    requires Indexed(e)
    ensures Flagged(e, HandleResolution(e, now, result))
    ensures result.uid in e.proberByUid && result.answer.NoEndpoint? ==> HandleResolution(e, now, result).stateDirty
  {
  }

  lemma {:induction false} ResolutionsFlagged(e: State, now: nat, results: seq<Result>)
    requires Indexed(e)
    ensures Flagged(e, HandleResolutions(e, now, results))
    decreases |results|
  {
    hide Flagged, HandleResolution, Indexed;
    if results == [] {
      Unchanged(e, e);
    } else {
      var a := HandleResolution(e, now, results[0]);
      ResolutionFlagged(e, now, results[0]);
      ResolutionsFlagged(a, now, results[1..]);
      FlaggedChain(e, a, HandleResolutions(e, now, results));
    }
  }

  // ---- publication ------------------------------------------------------

  /** When something is published: news of state at once, and other news when both the publishing interval and the least
      interval of a prober are over since the last time. */
  lemma PublishedIff(l: Loop, now: nat)
    requires l.lastPublishUs <= now && l.lastReadableUs <= now
    ensures var r := Publish(l, now, false);
      var due := l.engine.stateDirty
        || (l.engine.dataDirty && now >= l.lastPublishUs + l.options.publishIntervalUs
            && now >= l.lastPublishUs + l.engine.minIntervalUs);
      if due then
        r.generation == l.generation + 1 && r.lastPublishUs == now && !r.engine.stateDirty && !r.engine.dataDirty
        && r.lastReadableUs
           == (if l.engine.stateDirty || l.lastReadableUs == 0 || now >= l.lastReadableUs + 5_000_000 then now
               else l.lastReadableUs)
      else r == l
    ensures var r := Publish(l, now, true); r.generation == l.generation + 1 && r.lastPublishUs == now
  {
  }

  lemma WindUpViews(l: Loop, x: Inputs)
    requires l.engine.stateDirty
    ensures var r := WindUp(l, x);
      r.generation == l.generation + 1 && SameView(l.engine, r.engine) && r.engine.log == l.engine.log
  {
  }

  lemma WindUpKeepsView(l: Loop, x: Inputs)
    ensures var r := WindUp(l, x);
      r.engine.clients == l.engine.clients && r.engine.probers == l.engine.probers
      && (r.generation == l.generation || r.generation == l.generation + 1)
  {
  }

  /** Whatever a turn brings: if afterwards some destination shows another state, or some prober another address, or the
      configuration was read, then the turn has published. */
  lemma ChangesArePublished(l: Loop, x: Inputs)
    requires Indexed(l.engine) && Clamped(x.loaded) && ProbersClamped(Receive(l, x).engine.probers)
    requires Turn(l, x).running
    ensures var r := Turn(l, x);
      r.generation == l.generation || r.generation == l.generation + 1
    ensures !SameView(l.engine, Turn(l, x).engine) || l.configDirty || x.hangup || x.watched ==>
        Turn(l, x).generation == l.generation + 1
  {
    hide Flagged, SameView, HandleReplies, HandleResolutions, TickFrom, RebuildProbers, Indexed, ProbersClamped,
        Clamped,
         WindUp;
    ResolutionsFlagged(l.engine, x.after, x.results);
    var resolved := HandleResolutions(l.engine, x.after, x.results);
    RepliesFlagged(resolved, x.after, x.replies);
    var heard := Receive(l, x);
    FlaggedChain(l.engine, resolved, heard.engine);
    assert heard.running;
    var ready := Reconfigure(heard, x);
    TickFlagged(ready.engine, 0, x.tickNow, x.sockets);
    var ticked := ready.(engine := Tick(ready.engine, x.tickNow, x.sockets));
    var r := WindUp(ticked, x);
    WindUpKeepsView(ticked, x);
    if heard.configDirty {
      DirtyStays(ready.engine, ticked.engine);
      WindUpViews(ticked, x);
    } else {
      FlaggedChain(l.engine, ready.engine, ticked.engine);
      if ticked.engine.stateDirty {
        WindUpViews(ticked, x);
      } else {
        ViewStays(l.engine, ticked.engine, r.engine);
      }
    }
  }

  lemma DirtyStays(e: State, r: State)
    requires Flagged(e, r) && e.stateDirty
    ensures r.stateDirty
  {
  }

  lemma ViewStays(e: State, r: State, t: State)
    requires Flagged(e, r) && !r.stateDirty && t.clients == r.clients && t.probers == r.probers
    ensures SameView(e, t)
  {
  }

  // ---- idling -----------------------------------------------------------

  /** The loop ends by itself exactly when there has been no prober for as long as the idle limit says. */
  lemma IdleEndsIff(l: Loop, now: nat)
    requires l.running && l.idleSinceUs <= now
    ensures Idle(l, now).running
      <==> !(l.engine.probers == [] && l.options.idleExitUs > 0 && l.idleSinceUs > 0
             && now >= l.idleSinceUs + l.options.idleExitUs)
  {
  }

  /** Expired files are looked for with a client time-out only, every minute, or twice in that time-out if it is
      shorter, but not twice in a second; and a file found expired leads to a reload. */
  lemma ExpiryChecked(l: Loop, now: nat, stale: bool)
    requires l.lastClientCheckUs <= now
    ensures var r := DropExpired(l, now, stale);
      var half := if l.options.clientTimeoutUs / 2 > 1_000_000 then l.options.clientTimeoutUs / 2 else 1_000_000;
      var wait := if half < 60_000_000 then half else 60_000_000;
      if l.options.clientTimeoutUs > 0 && now >= l.lastClientCheckUs + wait then
        r == l.(lastClientCheckUs := now, configDirty := l.configDirty || stale)
      else r == l
  {
  }
}
