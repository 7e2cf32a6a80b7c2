/** The subscription table between reconfigurations: it depends on the configuration alone, and every probing step,
    every reply and every resolution leaves it as it is. `Table` says that the state has the table its own configuration
    calls for; `TableFrame` is what all the steps here come down to. */
module TableSteps {
  import opened Hysteresis
  import opened Engine
  import opened ProberInvariant
  import opened Rebuild
  import opened Partition
  import opened RebuildTheorems

  // ---- the table depends on the configuration only ----------------------

  predicate SameSettings(d: Destination, x: Destination) {
    x.id == d.id && x.address == d.address && x.thresholdUs == d.thresholdUs && x.sensitivity == d.sensitivity
    && x.enabled == d.enabled && x.partTime == d.partTime
  }

  predicate SameConfigClient(a: Client, b: Client) {
    b.id == a.id && b.intervalUs == a.intervalUs && b.timeoutUs == a.timeoutUs && |b.destinations| == |a.destinations|
    && forall d :: 0 <= d < |a.destinations| ==> SameSettings(a.destinations[d], b.destinations[d])
  }

  /** Equal apart from what has been evaluated and where destinations point. */
  predicate SameConfig(a: seq<Client>, b: seq<Client>) {
    |b| == |a| && forall c :: 0 <= c < |a| ==> SameConfigClient(a[c], b[c])
  }

  lemma SlotSame(a: seq<Client>, b: seq<Client>, s: Subscriber)
    requires SameConfig(a, b)
    ensures ValidSlot(a, s) <==> ValidSlot(b, s)
    ensures ValidSlot(a, s) ==>
        SlotKey(a, s) == SlotKey(b, s) && DestinationAt(a, s).enabled == DestinationAt(b, s).enabled
  {
  }

  lemma {:induction false} SlotsFromSame(a: seq<Client>, b: seq<Client>, c: nat, d: nat)
    requires SameConfig(a, b) && c <= |a| && (c < |a| ==> d <= |a[c].destinations|)
    ensures SlotsFrom(a, c, d) == SlotsFrom(b, c, d)
    decreases |a| - c, if c < |a| then |a[c].destinations| - d else 0
  {
    if c < |a| {
      assert SameConfigClient(a[c], b[c]);
      if d == |a[c].destinations| {
        SlotsFromSame(a, b, c + 1, 0);
      } else {
        SlotsFromSame(a, b, c, d + 1);
      }
    }
  }

  lemma {:induction false} ListsSame(a: seq<Client>, b: seq<Client>, slots: seq<Subscriber>)
    requires SameConfig(a, b)
    ensures Wanted(a, slots) == Wanted(b, slots)
    ensures forall key :: SubscribersOf(a, slots, key) == SubscribersOf(b, slots, key)
  {
    hide SameConfig, SlotKey;
    if slots != [] {
      ListsSame(a, b, slots[..|slots| - 1]);
      SlotSame(a, b, slots[|slots| - 1]);
    }
  }

  lemma SameButIndicesConfig(a: seq<Client>, b: seq<Client>)
    requires SameButIndices(a, b)
    ensures SameConfig(a, b)
  {
    forall c | 0 <= c < |a| ensures SameConfigClient(a[c], b[c]) {
      assert SameClient(a[c], b[c]);
    }
  }

  // ---- the table is kept by every probing step --------------------------

  /** The state's own table: what its own configuration calls for. */
  ghost predicate Table(e: State) {
    TableFor(e, e.clients)
  }

  ghost predicate SameTargets(a: seq<Client>, b: seq<Client>) {
    SameConfig(a, b) && forall s :: ValidSlot(a, s) && ValidSlot(b, s) ==>
        DestinationAt(b, s).prober == DestinationAt(a, s).prober
  }

  /** What the table needs of one prober. */
  predicate SameRow(p: Prober, q: Prober) {
    SameStream(p, q) && q.subscribers == p.subscribers && q.maxInFlight == p.maxInFlight
  }

  lemma RowSame(p: Prober, q: Prober)
    requires SameRow(p, q)
    ensures KeyOf(q) == KeyOf(p) && q.subscribers == p.subscribers && q.intervalUs == p.intervalUs
    ensures p.intervalUs > 0 && p == Limited(p) ==> q == Limited(q)
  {
  }

  lemma TableFrame(e: State, r: State, clients: seq<Client>)
    requires TableFor(e, clients) && SameTargets(e.clients, r.clients) && |r.probers| == |e.probers|
    requires forall j :: 0 <= j < |e.probers| ==> SameRow(e.probers[j], r.probers[j])
    requires r.minIntervalUs == e.minIntervalUs
    ensures Table(r)
  {
    hide KeyOf, SubscribersOf, Wanted, SlotKey, MinInterval, InFlightLimit, SlotsFrom;
    SameButIndicesConfig(clients, e.clients);
    forall j | 0 <= j < |e.probers| { RowSame(e.probers[j], r.probers[j]); }
    hide SameRow, Limited;
    MinIntervalSame(e.probers, r.probers);
    ListsOf(clients, r.clients, e.clients);
    SameSelf(r.clients);
    forall s | ValidSlot(r.clients, s) ensures TableIndex(r, r.clients, s) {
      SlotSame(clients, e.clients, s);
      SlotSame(e.clients, r.clients, s);
      SameKeys(r.clients, r.clients, s);
      SameKeys(clients, e.clients, s);
      assert TableIndex(e, clients, s);
    }
  }

  lemma ListsOf(a: seq<Client>, c: seq<Client>, b: seq<Client>)
    requires SameConfig(a, b) && SameConfig(b, c)
    ensures Slots(a) == Slots(c) && Wanted(a, Slots(a)) == Wanted(c, Slots(c))
    ensures forall key :: SubscribersOf(a, Slots(a), key) == SubscribersOf(c, Slots(c), key)
  {
    SlotsFromSame(a, b, 0, 0);
    SlotsFromSame(b, c, 0, 0);
    ListsSame(a, b, Slots(a));
    ListsSame(b, c, Slots(a));
  }

  lemma DeliverOneTargets(clients: seq<Client>, sub: Subscriber, sample: Sample)
    ensures SameTargets(clients, DeliverOne(clients, sub, sample).0)
  {
    hide Weigh;
    var r := DeliverOne(clients, sub, sample).0;
    if ValidSlot(clients, sub) {
      JudgeKeepsSettings(DestinationAt(clients, sub), sample);
      assert forall c :: 0 <= c < |clients| ==> SameConfigClient(clients[c], r[c]);
    }
  }

  lemma JudgeKeepsSettings(d: Destination, sample: Sample)
    ensures SameSettings(d, Judge(d, sample)) && Judge(d, sample).prober == d.prober
  {
  }

  lemma TargetsTransitive(a: seq<Client>, b: seq<Client>, c: seq<Client>)
    requires SameTargets(a, b) && SameTargets(b, c)
    ensures SameTargets(a, c)
  {
    forall i | 0 <= i < |a| ensures SameConfigClient(a[i], c[i]) {
      assert SameConfigClient(a[i], b[i]) && SameConfigClient(b[i], c[i]);
    }
    forall s | ValidSlot(a, s) && ValidSlot(c, s) ensures DestinationAt(c, s).prober == DestinationAt(a, s).prober {
      SlotSame(a, b, s);
    }
  }

  lemma {:induction false} DeliverTargets(clients: seq<Client>, subs: seq<Subscriber>, sample: Sample, dirty: bool)
    ensures SameTargets(clients, Deliver(clients, subs, sample, dirty).0)
    decreases |subs|
  {
    hide SameTargets, DeliverOne;
    if subs == [] {
      TargetsSelf(clients);
    } else {
      var (next, changed) := DeliverOne(clients, subs[0], sample);
      DeliverOneTargets(clients, subs[0], sample);
      DeliverTargets(next, subs[1..], sample, dirty || changed);
      TargetsTransitive(clients, next, Deliver(next, subs[1..], sample, dirty || changed).0);
    }
  }

  lemma TargetsSelf(clients: seq<Client>)
    ensures SameTargets(clients, clients)
  {
  }

  lemma SampleKeepsTable(e: State, i: nat, sample: Sample, event: Event)
    requires Table(e) && i < |e.probers|
    ensures Table(ApplySample(e, i, sample, event))
  {
    DeliverTargets(e.clients, e.probers[i].subscribers, sample, e.stateDirty);
    hide TableFor, SameTargets, Deliver;
    TableFrame(e, ApplySample(e, i, sample, event), e.clients);
  }

  lemma SetKeepsTable(e: State, i: nat, p: Prober)
    requires Table(e) && i < |e.probers| && SameRow(e.probers[i], p)
    ensures Table(SetProber(e, i, p))
  {
    TargetsSelf(e.clients);
    hide TableFor, SameTargets;
    TableFrame(e, SetProber(e, i, p), e.clients);
  }

  lemma OthersKeepTable(e: State, r: State)
    requires Table(e) && r.clients == e.clients && r.probers == e.probers && r.minIntervalUs == e.minIntervalUs
    ensures Table(r)
  {
    TargetsSelf(e.clients);
    hide TableFor, SameTargets;
    TableFrame(e, r, e.clients);
  }

  lemma {:induction false} ExpireKeepsTable(e: State, i: nat, now: nat)
    requires Table(e) && i < |e.probers|
    ensures Table(Expire(e, i, now))
    decreases |e.probers[i].inFlight|
  {
    hide Table, ApplySample;
    var p := e.probers[i];
    if p.inFlight != [] && Expired(p.inFlight[0], now) {
      var p1 := p.(inFlight := p.inFlight[1..]);
      SetKeepsTable(e, i, p1);
      SampleKeepsTable(SetProber(e, i, p1), i, Silence, TimedOut(p.uid, p.inFlight[0].seqNo));
      ExpireKeepsTable(ExpireFront(e, i), i, now);
    }
  }

  lemma SendProbeKeepsTable(e: State, i: nat, now: nat, sockets: Sockets)
    requires Table(e) && i < |e.probers|
    ensures Table(SendProbe(e, i, now, sockets))
  {
    hide Table, ApplySample;
    var p := e.probers[i];
    SampleKeepsTable(e, i, Silence, NoRoute(p.uid));
    var p' := p.(sequence := p.sequence + 1);
    SetKeepsTable(e, i, p');
    SetKeepsTable(e, i, p'.(inFlight := p.inFlight + [InFlight(p.sequence + 1, now, now + p.timeoutUs)]));
    SampleKeepsTable(SetProber(e, i, p'), i, Silence, SendFailed(p.uid, p.sequence + 1));
  }

  lemma TickProberKeepsTable(e: State, i: nat, now: nat, sockets: Sockets)
    requires Table(e) && i < |e.probers|
    ensures Table(TickProber(e, i, now, sockets))
  {
    hide Table, Expire, SendProbe;
    var e1 := Expire(e, i, now);
    ExpireKeepsTable(e, i, now);
    var e2 := StartResolving(e1, i, now);
    if ResolveDue(e1.probers[i], now) {
      SetKeepsTable(e1, i, e1.probers[i].(resolving := true));
      OthersKeepTable(SetProber(e1, i, e1.probers[i].(resolving := true)), e2);
    }
    if SendDue(e2.probers[i], now) {
      SendProbeKeepsTable(e2, i, now, sockets);
      var e3 := SendProbe(e2, i, now, sockets);
      SetKeepsTable(e3, i, Reschedule(e3.probers[i], now));
    }
  }

  lemma HandleReplyKeepsTable(e: State, now: nat, reply: Reply)
    requires Table(e) && Indexed(e)
    ensures Table(HandleReply(e, now, reply))
  {
    hide Table, ApplySample;
    if Accepts(e, reply) {
      var i := e.proberByUid[reply.uid];
      var p := e.probers[i];
      var k := FindSeq(p.inFlight, reply.seqNo);
      var p' := p.(inFlight := p.inFlight[..k] + p.inFlight[k + 1..]);
      SetKeepsTable(e, i, p');
      SampleKeepsTable(SetProber(e, i, p'), i, Answer(RoundTrip(now, reply.sentUs)),
                       Answered(p.uid, reply.seqNo, RoundTrip(now, reply.sentUs)));
    }
  }

  lemma HandleResolutionKeepsTable(e: State, now: nat, result: Result)
    requires Table(e) && Indexed(e)
    ensures Table(HandleResolution(e, now, result))
  {
    hide Table;
    var r := HandleResolution(e, now, result);
    if result.uid in e.proberByUid {
      var i := e.proberByUid[result.uid];
      SetKeepsTable(e, i, r.probers[i]);
      OthersKeepTable(SetProber(e, i, r.probers[i]), r);
    }
  }

  /** From any previous table, a rebuild makes the state's own table. */
  lemma RebuildEstablishesTable(e: State, now: nat, numeric: string -> Endpoint)
    requires Clamped(e.clients) && ProbersClamped(e.probers) && forall u :: u in e.born ==> u < e.nextUid
    ensures Table(RebuildProbers(e, now, numeric))
  {
    var r := RebuildProbers(e, now, numeric);
    RebuildMakesTable(e, now, numeric);
    TargetsSelf(r.clients);
    hide TableFor, SameTargets, RebuildProbers;
    TableFrame(r, r, e.clients);
  }
}
