/** The class `Monitor` of daemon/src/monitor.cpp: its methods update the fields that the functions of the other modules
    take and return as values, and each of them leaves exactly what its function says, in the order of the source. */
module Monitor {
  import opened Hysteresis
  import opened Engine
  import E = Engine
  import opened ProberInvariant
  import opened Rebuild
  import Loop
  import Resolver

  class Monitor {
    const options: Loop.Options
    const resolver: Resolver.Resolver

    var clients: seq<Client>
    var probers: seq<Prober>
    var proberByUid: map<nat, nat>
    var nextUid: nat
    var minIntervalUs: nat
    var running: bool
    var configDirty: bool
    var dataDirty: bool
    var stateDirty: bool
    var lastPublishUs: nat
    var lastReadableUs: nat
    var generation: nat
    var lastClientCheckUs: nat
    var idleSinceUs: nat
    ghost var log: seq<Event>
    ghost var born: map<nat, nat>

    constructor (options: Loop.Options)
      ensures this.options == options && fresh(resolver)
      ensures Probing() == State([], [], map[], 1, 0, true, true, [], [], map[])
    {
      this.options := options;
      resolver := new Resolver.Resolver();
      clients, probers, proberByUid, nextUid, minIntervalUs := [], [], map[], 1, 0;
      running, configDirty, dataDirty, stateDirty := false, false, true, true;
      lastPublishUs, lastReadableUs, generation, lastClientCheckUs, idleSinceUs := 0, 0, 0, 0, 0;
      log, born := [], map[];
    }

    /** The fields that probing is about. */
    ghost function Probing(): State
      reads this, resolver
    {
      State(clients, probers, proberByUid, nextUid, minIntervalUs, dataDirty, stateDirty, resolver.pending, log, born)
    }

    ghost function Whole(): Loop.Loop
      reads this, resolver
    {
      Loop.Loop(Probing(), options, generation, lastPublishUs, lastReadableUs, configDirty, lastClientCheckUs,
                idleSinceUs, running)
    }

    // ---- samples --------------------------------------------------------

    /** The body of the loop of `applySample`. */
    static method JudgeDestination(before: Destination, sample: Sample) returns (d: Destination)
      ensures d == Judge(before, sample)
    {
      d := before.(sent := before.sent + 1);
      if sample.Answer? {
        d := d.(received := d.received + 1, haveRtt := true, rttUs := sample.rttUs);
      } else {
        d := d.(haveRtt := false);
      }
      var health := Classify(sample, d.thresholdUs);
      if d.state == Unknown {
        d := d.(state := health, candidate := health, streak := 0);
      } else if health == d.state {
        d := d.(candidate := health, streak := 0);
      } else {
        if health == d.candidate {
          d := d.(streak := d.streak + 1);
        } else {
          d := d.(candidate := health, streak := 1);
        }
        if d.streak > d.sensitivity {
          d := d.(state := health, streak := 0);
        }
      }
    }

    /** The body of that loop for one subscriber, with its two bounds checks. */
    method JudgeSubscriber(s: Subscriber, sample: Sample)
      modifies this`clients, this`stateDirty
      ensures var (next, changed) := DeliverOne(old(clients), s, sample);
        clients == next && stateDirty == (old(stateDirty) || changed)
    {
      hide Judge;
      if s.client < |clients| && s.destination < |clients[s.client].destinations| {
        var client := clients[s.client];
        var before := client.destinations[s.destination];
        var after := JudgeDestination(before, sample);
        clients := clients[s.client := client.(destinations := client.destinations[s.destination := after])];
        stateDirty := stateDirty || after.state != before.state;
      }
    }

    method ApplySample(i: nat, sample: Sample, ghost event: Event)
      requires i < |probers|
      modifies this`probers, this`clients, this`stateDirty, this`dataDirty, this`log
      ensures Probing() == E.ApplySample(old(Probing()), i, sample, event)
    {
      hide DeliverOne;
      var p := probers[i];
      p := p.(sent := p.sent + 1);
      if sample.Answer? {
        p := p.(received := p.received + 1);
      }
      assert p == Counted(probers[i], sample);
      probers := probers[i := p];
      var k := 0;
      while k < |p.subscribers|
        invariant 0 <= k <= |p.subscribers| && |clients| == |old(clients)|
        invariant Deliver(clients, p.subscribers[k..], sample, stateDirty)
               == Deliver(old(clients), p.subscribers, sample, old(stateDirty))
        invariant probers == old(probers)[i := p] && log == old(log) && dataDirty == old(dataDirty)
      {
        var s := p.subscribers[k];
        assert p.subscribers[k..][1..] == p.subscribers[k + 1..];
        JudgeSubscriber(s, sample);
        k := k + 1;
      }
      dataDirty := true;
      log := log + [event];
    }

    // ---- tick -----------------------------------------------------------

    method SendProbe(i: nat, now: nat, sockets: Sockets)
      requires i < |probers|
      modifies this`probers, this`clients, this`stateDirty, this`dataDirty, this`log
      ensures Probing() == E.SendProbe(old(Probing()), i, now, sockets)
    {
      var p := probers[i];
      var open := if p.endpoint.Endpoint? && p.endpoint.v6 then sockets.open6 else sockets.open4;
      if !p.endpoint.Endpoint? || !open {
        ApplySample(i, Silence, NoRoute(p.uid));
        return;
      }
      var sequence := p.sequence + 1;
      probers := probers[i := p.(sequence := sequence)];
      match sockets.outcome(p.uid, sequence)
      case Sent =>
        probers := probers[i := probers[i].(inFlight := p.inFlight + [InFlight(sequence, now, now + p.timeoutUs)])];
      case Unreachable => ApplySample(i, Silence, SendFailed(p.uid, sequence));
      case Failed => ApplySample(i, Silence, SendFailed(p.uid, sequence));
    }

    /** The expiry loop of `tick`. */
    method ExpireProbes(i: nat, now: nat)
      requires i < |probers|
      modifies this`probers, this`clients, this`stateDirty, this`dataDirty, this`log
      ensures Probing() == Expire(old(Probing()), i, now)
    {
      while probers[i].inFlight != [] && now + SEND_SLACK_US >= probers[i].inFlight[0].deadlineUs
        invariant i < |probers| && proberByUid == old(proberByUid)
        invariant Expire(Probing(), i, now) == Expire(old(Probing()), i, now)
        decreases |probers[i].inFlight|
      {
        ghost var before := Probing();
        var p := probers[i];
        probers := probers[i := p.(inFlight := p.inFlight[1..])];
        ApplySample(i, Silence, TimedOut(p.uid, p.inFlight[0].seqNo));
        assert Probing() == ExpireFront(before, i);
      }
    }

    /** The lookup of a turn of the loop of `tick`. */
    method ResolveProber(i: nat, now: nat)
      requires i < |probers|
      modifies this`probers, resolver`pending
      ensures Probing() == StartResolving(old(Probing()), i, now)
    {
      var p := probers[i];
      if !p.numeric && !p.resolving && now + SEND_SLACK_US >= p.nextResolveUs {
        probers := probers[i := p.(resolving := true)];
        resolver.Request(p.uid, p.host);
      }
    }

    /** The send of a turn of the loop of `tick`. */
    method SendWhenDue(i: nat, now: nat, sockets: Sockets)
      requires i < |probers|
      modifies this`probers, this`clients, this`stateDirty, this`dataDirty, this`log
      ensures Probing() == MaybeSend(old(Probing()), i, now, sockets)
    {
      hide E.SendProbe;
      var p := probers[i];
      if |p.inFlight| < p.maxInFlight && now + SEND_SLACK_US >= p.nextSendUs {
        SendProbe(i, now, sockets);
        p := probers[i];
        p := p.(nextSendUs := p.nextSendUs + p.intervalUs);
        if p.nextSendUs <= now {
          p := p.(nextSendUs := now + p.intervalUs);
        }
        assert p == Reschedule(probers[i], now);
        probers := probers[i := p];
      }
    }

    /** The body of the loop of `tick`. */
    method TickTurn(i: nat, now: nat, sockets: Sockets)
      requires i < |probers|
      modifies this`probers, this`clients, this`stateDirty, this`dataDirty, this`log, resolver`pending
      ensures Probing() == TickProber(old(Probing()), i, now, sockets)
    {
      hide Expire, StartResolving, MaybeSend;
      ExpireProbes(i, now);
      ResolveProber(i, now);
      SendWhenDue(i, now, sockets);
    }

    method Tick(now: nat, sockets: Sockets)
      modifies this, resolver`pending
      ensures Whole() == old(Whole()).(engine := E.Tick(old(Probing()), now, sockets))
    {
      hide TickProber;
      var i := 0;
      while i < |probers|
        invariant 0 <= i <= |probers|
        invariant Whole() == old(Whole()).(engine := Probing())
        invariant TickFrom(Probing(), i, now, sockets) == TickFrom(old(Probing()), 0, now, sockets)
        decreases |probers| - i
      {
        TickTurn(i, now, sockets);
        i := i + 1;
      }
    }

    // ---- replies and resolutions ----------------------------------------

    /** `std::find_if` over the in-flight probes. */
    static method FindProbe(inFlight: seq<InFlight>, seqNo: nat) returns (k: nat)
      ensures k == FindSeq(inFlight, seqNo)
    {
      k := 0;
      while k < |inFlight|
        invariant 0 <= k <= |inFlight|
        invariant FindSeq(inFlight, seqNo) == k + FindSeq(inFlight[k..], seqNo)
      {
        if inFlight[k].seqNo == seqNo {
          return;
        }
        assert inFlight[k..][1..] == inFlight[k + 1..];
        k := k + 1;
      }
    }

    method TakeReply(now: nat, reply: Reply)
      requires Indexed(Probing())
      modifies this`probers, this`clients, this`stateDirty, this`dataDirty, this`log
      ensures Probing() == HandleReply(old(Probing()), now, reply)
    {
      if reply.uid !in proberByUid {
        return;
      }
      var i := proberByUid[reply.uid];
      var p := probers[i];
      var k := FindProbe(p.inFlight, reply.seqNo);
      if k == |p.inFlight| {
        return;
      }
      if !Matches(p.endpoint, reply.from) {
        return;
      }
      probers := probers[i := p.(inFlight := p.inFlight[..k] + p.inFlight[k + 1..])];
      var rtt := if now > reply.sentUs then now - reply.sentUs else 0;
      ApplySample(i, Answer(rtt), Answered(p.uid, reply.seqNo, rtt));
    }

    method HandleReplies(now: nat, replies: seq<Reply>)
      requires Indexed(Probing())
      modifies this`probers, this`clients, this`stateDirty, this`dataDirty, this`log
      ensures Probing() == E.HandleReplies(old(Probing()), now, replies)
    {
      var k := 0;
      while k < |replies|
        invariant 0 <= k <= |replies| && Indexed(Probing()) && proberByUid == old(proberByUid)
        invariant E.HandleReplies(Probing(), now, replies[k..]) == E.HandleReplies(old(Probing()), now, replies)
      {
        assert replies[k..][1..] == replies[k + 1..];
        TakeReply(now, replies[k]);
        k := k + 1;
      }
    }

    method TakeResult(now: nat, result: Result)
      requires Indexed(Probing())
      modifies this`probers, this`stateDirty
      ensures Probing() == HandleResolution(old(Probing()), now, result)
    {
      if result.uid !in proberByUid {
        return;
      }
      var i := proberByUid[result.uid];
      var p := probers[i].(resolving := false);
      if result.answer.Endpoint? {
        if p.endpoint.NoEndpoint? || p.endpoint.text != result.answer.text {
          stateDirty := true;
        }
        p := p.(endpoint := result.answer, resolveFailures := 0, nextResolveUs := now + RESOLVE_TTL_US);
      } else {
        p := p.(resolveFailures := Min(p.resolveFailures + 1, 16));
        p := p.(nextResolveUs := now + Backoff(p.resolveFailures));
        stateDirty := true;
      }
      probers := probers[i := p];
    }

    /** `handleResolutions`, after the resolver's queue has been drained by the two halves of `collect`. */
    method HandleResolutions(now: nat) returns (ghost results: seq<Result>)
      requires Indexed(Probing())
      modifies this`probers, this`stateDirty, resolver
      ensures results == old(resolver.completed)
      ensures Probing() == E.HandleResolutions(old(Probing()), now, results)
      ensures resolver.State() == Resolver.AfterTake(Resolver.AfterDrain(old(resolver.State())))
    {
      resolver.ReadEvent();
      var taken := resolver.TakeCompleted();
      results := taken;
      var k := 0;
      while k < |taken|
        invariant 0 <= k <= |taken| && Indexed(Probing()) && proberByUid == old(proberByUid)
        invariant resolver.State() == Resolver.AfterTake(Resolver.AfterDrain(old(resolver.State())))
        invariant E.HandleResolutions(Probing(), now, taken[k..]) == E.HandleResolutions(old(Probing()), now, taken)
      {
        assert taken[k..][1..] == taken[k + 1..];
        TakeResult(now, taken[k]);
        k := k + 1;
      }
    }

    // ---- reconfiguration ------------------------------------------------

    /** The inner `std::find_if` of the carry-over. */
    static method CarryOne(d: Destination, olds: seq<Destination>) returns (r: Destination)
      ensures r == CarryDestination(d, olds)
    {
      var k := 0;
      while k < |olds|
        invariant 0 <= k <= |olds| && CarryDestination(d, olds) == CarryDestination(d, olds[k..])
      {
        if olds[k].id == d.id && olds[k].address == d.address {
          return CarryFields(d, olds[k]);
        }
        assert olds[k..][1..] == olds[k + 1..];
        k := k + 1;
      }
      r := d;
    }

    /** The body of the carry-over loop for one loaded client. */
    static method CarryOver(client: Client, olds: seq<Client>) returns (r: Client)
      ensures r == CarryClient(client, olds)
    {
      var k := 0;
      while k < |olds| && olds[k].id != client.id
        invariant 0 <= k <= |olds| && CarryClient(client, olds) == CarryClient(client, olds[k..])
      {
        assert olds[k..][1..] == olds[k + 1..];
        k := k + 1;
      }
      if k == |olds| {
        return client;
      }
      var destinations := CarryEach(client.destinations, olds[k].destinations);
      r := client.(destinations := destinations);
    }

    static method CarryEach(loaded: seq<Destination>, olds: seq<Destination>) returns (destinations: seq<Destination>)
      ensures destinations == CarryDestinations(loaded, olds)
    {
      destinations := loaded;
      var d := 0;
      while d < |destinations|
        invariant 0 <= d <= |destinations| == |loaded|
        invariant forall j :: 0 <= j < d ==> destinations[j] == CarryDestination(loaded[j], olds)
        invariant forall j :: d <= j < |loaded| ==> destinations[j] == loaded[j]
      {
        var carried := CarryOne(destinations[d], olds);
        destinations := destinations[d := carried];
        d := d + 1;
      }
    }

    /** Filling `previousByKey`. */
    static method IndexPrevious(previous: seq<Prober>) returns (m: map<string, nat>)
      ensures m == IndexByKey(previous)
    {
      m := map[];
      var i := 0;
      while i < |previous|
        invariant 0 <= i <= |previous| && m == IndexByKey(previous[..i])
      {
        var key := KeyOf(previous[i]);
        assert previous[..i + 1][..i] == previous[..i];
        if key !in m {
          m := m[key := i];
        }
        i := i + 1;
      }
      assert previous[..i] == previous;
    }

    /** The last loop of `rebuildProbers`: the uid index, the least interval and the in-flight limits. */
    method FinishRebuild()
      requires PositiveIntervals(probers)
      modifies this`probers, this`proberByUid, this`minIntervalUs
      ensures probers == LimitAll(old(probers)) && proberByUid == IndexByUid(old(probers))
      ensures minIntervalUs == MinInterval(old(probers))
    {
      hide InFlightLimit;
      proberByUid := map[];
      minIntervalUs := 0;
      ghost var all := probers;
      var i := 0;
      while i < |probers|
        invariant 0 <= i <= |probers| == |all|
        invariant forall j :: 0 <= j < i ==> probers[j] == Limited(all[j])
        invariant forall j :: i <= j < |all| ==> probers[j] == all[j]
        invariant proberByUid == IndexByUid(all[..i]) && minIntervalUs == MinInterval(all[..i])
      {
        var p := probers[i];
        assert p == all[i] && all[..i + 1][..i] == all[..i];
        proberByUid := proberByUid[p.uid := i];
        if minIntervalUs == 0 || p.intervalUs < minIntervalUs {
          minIntervalUs := p.intervalUs;
        }
        probers := probers[i := p.(maxInFlight := InFlightLimit(p.intervalUs, p.timeoutUs))];
        i := i + 1;
      }
      assert all[..i] == all;
    }

    /** The table as the double loop of `rebuildProbers` has left it so far. */
    ghost function Building(byKey: map<string, nat>, consumed: set<nat>): Build
      reads this
    {
      Build(clients, probers, byKey, consumed, nextUid, born)
    }

    /** The inner body of `rebuildProbers` for a key seen for the first time. */
    method OpenKey(destination: Destination, client: Client, key: string, byKey: map<string, nat>, consumed: set<nat>,
                   previous: seq<Prober>, previousByKey: map<string, nat>, now: nat, numeric: string -> Endpoint)
      returns (byKey': map<string, nat>, consumed': set<nat>)
      requires OldOk(Old(previous, previousByKey)) && ByKeyOk(Building(byKey, consumed))
      requires key == Key(destination.address, client.intervalUs, client.timeoutUs)
      modifies this`probers, this`nextUid, this`born
      ensures Building(byKey', consumed') == AddProber(old(Building(byKey, consumed)), destination.address,
                client.intervalUs, client.timeoutUs, Old(previous, previousByKey), now, numeric)
    {
      hide Key;
      consumed' := consumed;
      var prober;
      if key in previousByKey && previousByKey[key] !in consumed {
        prober := previous[previousByKey[key]].(subscribers := []);
        consumed' := consumed + {previousByKey[key]};
      } else {
        prober := NewProber(destination.address, client.intervalUs, client.timeoutUs, nextUid,
                            numeric(destination.address), now);
        born := born[nextUid := now];
        nextUid := nextUid + 1;
      }
      probers := probers + [prober];
      byKey' := byKey[key := |probers| - 1];
    }

    /** The inner body of `rebuildProbers`. */
    method EnrollOne(c: nat, d: nat, byKey: map<string, nat>, consumed: set<nat>,
                     previous: seq<Prober>, previousByKey: map<string, nat>, now: nat, numeric: string -> Endpoint)
      returns (byKey': map<string, nat>, consumed': set<nat>)
      requires OldOk(Old(previous, previousByKey)) && ByKeyOk(Building(byKey, consumed))
      requires ValidSlot(clients, Subscriber(c, d))
      modifies this`clients, this`probers, this`nextUid, this`born
      ensures Building(byKey', consumed')
           == Enroll(old(Building(byKey, consumed)), Subscriber(c, d), Old(previous, previousByKey), now, numeric)
    {
      hide Key, AddProber;
      byKey', consumed' := byKey, consumed;
      var client := clients[c];
      var destination := client.destinations[d];
      if !destination.enabled {
        clients := SetProberIndex(clients, Subscriber(c, d), -1);
        return;
      }
      var key := Key(destination.address, client.intervalUs, client.timeoutUs);
      if key !in byKey {
        byKey', consumed' := OpenKey(destination, client, key, byKey, consumed, previous, previousByKey, now, numeric);
      }
      var index := byKey'[key];
      var p := probers[index];
      probers := probers[index := p.(subscribers := p.subscribers + [Subscriber(c, d)])];
      clients := SetProberIndex(clients, Subscriber(c, d), index);
    }

    /** What the turns of the double loop keep, with slots `c`, `d` and later to come. */
    ghost predicate Enrolling(byKey: map<string, nat>, consumed: set<nat>, was: seq<Client>, c: nat, d: nat, prev: Old,
                              now: nat, numeric: string -> Endpoint, all: Build)
      reads this
      requires OldOk(prev) && c <= |was| && (c < |was| ==> d <= |was[c].destinations|)
    {
      SameButIndices(was, clients) && ByKeyOk(Building(byKey, consumed)) && AllValid(clients, SlotsFrom(was, c, d))
      && EnrollAll(Building(byKey, consumed), SlotsFrom(was, c, d), prev, now, numeric) == all
    }

    /** The inner loop of `rebuildProbers`, from destination `d` of client `c` on. */
    method EnrollClient(c: nat, byKey: map<string, nat>, consumed: set<nat>, previous: seq<Prober>,
                        previousByKey: map<string, nat>,
                        now: nat, numeric: string -> Endpoint, ghost was: seq<Client>, ghost all: Build)
      returns (byKey': map<string, nat>, consumed': set<nat>)
      requires OldOk(Old(previous, previousByKey)) && c < |was|
      requires Enrolling(byKey, consumed, was, c, 0, Old(previous, previousByKey), now, numeric, all)
      modifies this`clients, this`probers, this`nextUid, this`born
      ensures Enrolling(byKey', consumed', was, c + 1, 0, Old(previous, previousByKey), now, numeric, all)
    {
      hide SameButIndices, Enroll, ByKeyOk, EnrollAll, AllValid;
      ghost var prev := Old(previous, previousByKey);
      byKey', consumed' := byKey, consumed;
      var d := 0;
      SameCounts(was, clients, c);
      while d < |clients[c].destinations|
        invariant c < |clients| && 0 <= d <= |clients[c].destinations| == |was[c].destinations|
        invariant Enrolling(byKey', consumed', was, c, d, prev, now, numeric, all)
      {
        EnrollTurn(Building(byKey', consumed'), was, c, d, prev, now, numeric);
        byKey', consumed' := EnrollOne(c, d, byKey', consumed', previous, previousByKey, now, numeric);
        SameCounts(was, clients, c);
        d := d + 1;
      }
      assert SlotsFrom(was, c, d) == SlotsFrom(was, c + 1, 0);
    }

    /** The double loop of `rebuildProbers`. */
    method EnrollEverything(previous: seq<Prober>, previousByKey: map<string, nat>, now: nat,
                            numeric: string -> Endpoint)
      returns (byKey: map<string, nat>, consumed: set<nat>)
      requires OldOk(Old(previous, previousByKey)) && probers == []
      modifies this`clients, this`probers, this`nextUid, this`born
      ensures Building(byKey, consumed)
           == EnrollAll(old(Building(map[], {})), Slots(old(clients)), Old(previous, previousByKey), now, numeric)
    {
      ghost var was := clients;
      ghost var prev := Old(previous, previousByKey);
      ghost var all := EnrollAll(Building(map[], {}), Slots(was), prev, now, numeric);
      SameSelf(was);
      hide SameButIndices, Enroll, ByKeyOk, EnrollAll;
      byKey, consumed := map[], {};
      var c := 0;
      while c < |clients|
        invariant 0 <= c <= |clients| == |was|
        invariant Enrolling(byKey, consumed, was, c, 0, prev, now, numeric, all)
      {
        byKey, consumed := EnrollClient(c, byKey, consumed, previous, previousByKey, now, numeric, was, all);
        SameLength(was, clients);
        c := c + 1;
      }
      assert SlotsFrom(was, c, 0) == [];
      EnrollNone(Building(byKey, consumed), prev, now, numeric);
    }

    static lemma SameLength(a: seq<Client>, b: seq<Client>)
      requires SameButIndices(a, b)
      ensures |a| == |b|
    {
    }

    static ghost predicate AllValid(clients: seq<Client>, slots: seq<Subscriber>) {
      forall k :: 0 <= k < |slots| ==> ValidSlot(clients, slots[k])
    }

    static lemma SameCounts(a: seq<Client>, b: seq<Client>, c: nat)
      requires SameButIndices(a, b) && c < |a|
      ensures c < |b| && |b[c].destinations| == |a[c].destinations|
    {
      assert SameClient(a[c], b[c]);
    }

    static lemma EnrollNone(b: Build, prev: Old, now: nat, numeric: string -> Endpoint)
      requires OldOk(prev) && ByKeyOk(b)
      ensures EnrollAll(b, [], prev, now, numeric) == b
    {
    }

    /** One turn of the double loop takes the first remaining slot. */
    static lemma EnrollTurn(b: Build, was: seq<Client>, c: nat, d: nat, prev: Old, now: nat,
                            numeric: string -> Endpoint)
      requires OldOk(prev) && ByKeyOk(b) && SameButIndices(was, b.clients) && c < |was| && d < |was[c].destinations|
      requires AllValid(b.clients, SlotsFrom(was, c, d))
      ensures ValidSlot(b.clients, Subscriber(c, d))
      ensures var b' := Enroll(b, Subscriber(c, d), prev, now, numeric);
        SameButIndices(was, b'.clients) && ByKeyOk(b') && AllValid(b'.clients, SlotsFrom(was, c, d + 1))
        && EnrollAll(b, SlotsFrom(was, c, d), prev, now, numeric)
          == EnrollAll(b', SlotsFrom(was, c, d + 1), prev, now, numeric)
    {
      hide Enroll, SameButIndices, ByKeyOk;
      var slots := SlotsFrom(was, c, d);
      assert slots == [Subscriber(c, d)] + SlotsFrom(was, c, d + 1);
      assert slots[0] == Subscriber(c, d) && slots[1..] == SlotsFrom(was, c, d + 1);
      EnrollSame(b, Subscriber(c, d), prev, now, numeric);
      EnrollStaysValid(b, slots, prev, now, numeric);
      SameTransitive(was, b.clients, Enroll(b, Subscriber(c, d), prev, now, numeric).clients);
    }

    method RebuildProbers(now: nat, numeric: string -> Endpoint)
      requires Clamped(clients) && ProbersClamped(probers)
      modifies this
      ensures Probing() == Rebuild.RebuildProbers(old(Probing()), now, numeric)
      ensures Whole() == old(Whole()).(engine := Probing())
    {
      hide EnrollAll, IndexByUid, MinInterval, LimitAll, ByKeyOk, IndexByKey, Slots;
      ghost var e := Probing();
      EnrollAllKeepsClamps(StartBuild(e), Slots(e.clients), OldOf(e), now, numeric);
      var previous := probers;
      var previousByKey := IndexPrevious(previous);
      probers := [];
      var byKey, consumed := EnrollEverything(previous, previousByKey, now, numeric);
      assert Building(byKey, consumed) == Built(e, now, numeric);
      FinishRebuild();
    }

    /** The carry-over loop of `reloadClients` and what follows it. */
    method ReloadClients(loaded: seq<Client>, now: nat, numeric: string -> Endpoint)
      requires Clamped(loaded) && ProbersClamped(probers)
      modifies this
      ensures Whole() == old(Whole()).(configDirty := false, engine := Reload(old(Probing()), loaded, now, numeric))
    {
      CarryKeepsClamps(loaded, clients);
      configDirty := false;
      ghost var e := Probing();
      var renewed := loaded;
      var c := 0;
      while c < |renewed|
        invariant 0 <= c <= |renewed| == |loaded| && Whole() == old(Whole()).(configDirty := false)
        invariant forall j :: 0 <= j < c ==> renewed[j] == CarryClient(loaded[j], clients)
        invariant forall j :: c <= j < |loaded| ==> renewed[j] == loaded[j]
      {
        var carried := CarryOver(renewed[c], clients);
        renewed := renewed[c := carried];
        c := c + 1;
      }
      assert renewed == CarryAll(loaded, clients);
      clients := renewed;
      RebuildProbers(now, numeric);
      stateDirty := true;
    }

    // ---- publishing and the loop ----------------------------------------

    method Publish(now: nat, force: bool)
      modifies this
      ensures Whole() == Loop.Publish(old(Whole()), now, force)
    {
      if !force && !stateDirty {
        if !dataDirty {
          return;
        }
        if Loop.Since(now, lastPublishUs) < Loop.Max(options.publishIntervalUs, minIntervalUs) {
          return;
        }
      }
      generation := generation + 1;
      if stateDirty || lastReadableUs == 0 || Loop.Since(now, lastReadableUs) >= Loop.READABLE_PUBLISH_INTERVAL_US {
        lastReadableUs := now;
      }
      lastPublishUs := now;
      dataDirty := false;
      stateDirty := false;
    }

    method NextDeadline() returns (deadline: nat)
      ensures deadline == Loop.NextDeadline(Whole())
    {
      deadline := NEVER_US;
      NeverIsLast(probers);
      var i := 0;
      while i < |probers|
        invariant 0 <= i <= |probers| && deadline <= NEVER_US
        invariant Min(deadline, ProbersDeadline(probers[i..])) == ProbersDeadline(probers)
      {
        var p := probers[i];
        assert probers[i..][1..] == probers[i + 1..];
        if p.inFlight != [] {
          deadline := Min(deadline, p.inFlight[0].deadlineUs);
        }
        deadline := Min(deadline, p.nextSendUs);
        if !p.numeric && !p.resolving {
          deadline := Min(deadline, p.nextResolveUs);
        }
        i := i + 1;
      }
      assert probers[i..] == [];
      if dataDirty || stateDirty {
        deadline := Min(deadline, lastPublishUs + Loop.Max(options.publishIntervalUs, minIntervalUs));
      }
      if options.clientTimeoutUs != 0 && clients != [] {
        deadline := Min(deadline, lastClientCheckUs + Loop.ClientCheckIntervalUs(options));
      }
      if options.idleExitUs != 0 && idleSinceUs != 0 {
        deadline := Min(deadline, idleSinceUs + options.idleExitUs);
      }
    }

    static lemma {:induction false} NeverIsLast(probers: seq<Prober>)
      ensures ProbersDeadline(probers) <= NEVER_US
    {
      if probers != [] {
        NeverIsLast(probers[1..]);
      }
    }

    /** `dropExpiredClients`; `stale` says whether it found and removed an expired file. */
    method DropExpiredClients(now: nat, stale: bool)
      modifies this`lastClientCheckUs, this`configDirty
      ensures Whole() == Loop.DropExpired(old(Whole()), now, stale)
    {
      if options.clientTimeoutUs == 0 || Loop.Since(now, lastClientCheckUs) < Loop.ClientCheckIntervalUs(options) {
        return;
      }
      lastClientCheckUs := now;
      if stale {
        configDirty := true;
      }
    }

    /** The idle bookkeeping of `run`. */
    method Idle(now: nat)
      modifies this`idleSinceUs, this`running
      ensures Whole() == Loop.Idle(old(Whole()), now)
    {
      if probers == [] {
        if idleSinceUs == 0 {
          idleSinceUs := now;
        }
        if options.idleExitUs != 0 && Loop.Since(now, idleSinceUs) >= options.idleExitUs {
          running := false;
        }
      } else {
        idleSinceUs := 0;
      }
    }

    /** The first part of a turn of the loop of `run`: signals, watched files, resolver results, then replies. */
    method Receive(x: Loop.Inputs)
      requires Indexed(Probing()) && (x.results == [] || x.results == resolver.completed)
      modifies this, resolver
      ensures Whole() == Loop.Receive(old(Whole()), x)
    {
      hide E.HandleReplies, HandleResolution;
      if x.hangup || x.watched {
        configDirty := true;
      }
      if x.terminate {
        running := false;
      }
      if x.results != [] {
        var results := HandleResolutions(x.after);
      }
      if running {
        HandleReplies(x.after, x.replies);
      }
    }

    /** One turn of the loop of `run`, after `epoll_wait`. */
    method Turn(x: Loop.Inputs)
      requires Indexed(Probing()) && (x.results == [] || x.results == resolver.completed)
      requires Clamped(x.loaded) && ProbersClamped(Loop.Receive(Whole(), x).engine.probers)
      modifies this, resolver
      ensures Whole() == Loop.Turn(old(Whole()), x)
    {
      hide Loop.Receive, Loop.Finish, Reload, Clamped, ProbersClamped;
      Receive(x);
      if running {
        if configDirty {
          ReloadClients(x.loaded, x.reloadNow, x.numeric);
        }
        FinishTurn(x);
      }
    }

    /** The end of a turn of the loop of `run`: tick, housekeeping, idling, publishing. */
    method FinishTurn(x: Loop.Inputs)
      modifies this, resolver`pending
      ensures Whole() == Loop.Finish(old(Whole()), x)
    {
      hide Loop.DropExpired, Loop.Idle, Loop.Publish, E.Tick;
      Tick(x.tickNow, x.sockets);
      DropExpiredClients(x.after, x.stale);
      Idle(x.after);
      Publish(x.publishNow, false);
    }
  }
}
