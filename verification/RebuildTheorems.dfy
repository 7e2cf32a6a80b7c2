/** Reconfiguration: the table that rebuilding makes of any configuration, the exact partition of the destinations among
    its probers, what becomes of the old probers, and the invariants kept. */
module RebuildTheorems {
  import opened Engine
  import opened ProberInvariant
  import opened EngineInvariant
  import opened Rebuild
  import opened Partition

  // ---- the exact partition ----------------------------------------------

  /** A destination is probed by the one stream with its address, interval and timeout, or by none if disabled. */
  ghost predicate RightlySubscribed(e: State, s: Subscriber)
    requires ValidSlot(e.clients, s)
  {
    var d, client := DestinationAt(e.clients, s), e.clients[s.client];
    if d.enabled then
      0 <= d.prober < |e.probers|
      && e.probers[d.prober].host == d.address && e.probers[d.prober].intervalUs == client.intervalUs
      && e.probers[d.prober].timeoutUs == client.timeoutUs
      && forall j :: 0 <= j < |e.probers| ==> (s in e.probers[j].subscribers <==> j == d.prober)
    else
      d.prober == -1 && forall j :: 0 <= j < |e.probers| ==> s !in e.probers[j].subscribers
  }

  predicate SameStream(p: Prober, q: Prober) {
    p.host == q.host && p.intervalUs == q.intervalUs && p.timeoutUs == q.timeoutUs
  }

  ghost predicate ExactPartition(e: State) {
    (forall s :: ValidSlot(e.clients, s) ==> RightlySubscribed(e, s))
    && (forall j :: 0 <= j < |e.probers| ==>
          e.probers[j].subscribers != [] && Distinct(e.probers[j].subscribers)
          && forall s :: s in e.probers[j].subscribers ==> ValidSlot(e.clients, s))
    && (forall i, j :: 0 <= i < j < |e.probers| ==> !SameStream(e.probers[i], e.probers[j]))
  }

  /** The exact table that `clients` call for: keys in order of first use, subscribers in order, indices set. */
  ghost predicate TableFor(e: State, clients: seq<Client>) {
    var slots, wanted := Slots(clients), Wanted(clients, Slots(clients));
    SameButIndices(clients, e.clients)
    && |e.probers| == |wanted| && Distinct(wanted)
    && (forall j :: 0 <= j < |wanted| ==> KeyOf(e.probers[j]) == wanted[j])
    && (forall j :: 0 <= j < |wanted| ==> e.probers[j].subscribers == SubscribersOf(clients, slots, wanted[j]))
    && (forall s :: ValidSlot(clients, s) ==> TableIndex(e, clients, s))
    && (forall j :: 0 <= j < |wanted| ==> e.probers[j].intervalUs > 0 && e.probers[j] == Limited(e.probers[j]))
    && e.minIntervalUs == MinInterval(e.probers)
  }

  ghost predicate TableIndex(e: State, clients: seq<Client>, s: Subscriber)
    requires ValidSlot(clients, s) && SameButIndices(clients, e.clients)
  {
    SameKeys(clients, e.clients, s);
    var prober := DestinationAt(e.clients, s).prober;
    if DestinationAt(clients, s).enabled then
      0 <= prober < |e.probers| && KeyOf(e.probers[prober]) == SlotKey(clients, s)
    else prober == -1
  }

  lemma {:induction false} MinIntervalSame(a: seq<Prober>, b: seq<Prober>)
    requires |a| == |b| && forall j :: 0 <= j < |a| ==> a[j].intervalUs == b[j].intervalUs
    ensures MinInterval(a) == MinInterval(b)
  {
    if a != [] {
      MinIntervalSame(a[..|a| - 1], b[..|b| - 1]);
    }
  }

  lemma LimitedKeeps(b: Build)
    requires PositiveIntervals(b.probers)
    ensures forall j :: 0 <= j < |b.probers| ==>
      KeyOf(LimitAll(b.probers)[j]) == KeyOf(b.probers[j]) && LimitAll(b.probers)[j].uid == b.probers[j].uid
      && LimitAll(b.probers)[j].subscribers == b.probers[j].subscribers
      && Limited(LimitAll(b.probers)[j]) == LimitAll(b.probers)[j]
    ensures MinInterval(LimitAll(b.probers)) == MinInterval(b.probers)
  {
    hide Key;
    MinIntervalSame(LimitAll(b.probers), b.probers);
  }

  /** From any previous table, the new one is exactly the one the clients call for. */
  lemma RebuildMakesTable(e: State, now: nat, numeric: string -> Endpoint)
    requires Clamped(e.clients) && ProbersClamped(e.probers) && forall u :: u in e.born ==> u < e.nextUid
    ensures TableFor(RebuildProbers(e, now, numeric), e.clients)
  {
    EnrollAllKeepsClamps(StartBuild(e), Slots(e.clients), OldOf(e), now, numeric);
    BuiltPartitions(e, now, numeric);
    hide Partitioned, Origins, TableFor, EnrollAll, Slots, Wanted, LimitAll, MinInterval, IndexByUid;
    BuildMakesTable(Built(e, now, numeric), RebuildProbers(e, now, numeric), e.clients);
  }

  lemma BuildMakesTable(b: Build, r: State, clients: seq<Client>)
    requires Partitioned(b, clients, Slots(clients), Wanted(clients, Slots(clients))) && ProbersClamped(b.probers)
    requires r.clients == b.clients && r.probers == LimitAll(b.probers) && r.minIntervalUs == MinInterval(b.probers)
    ensures TableFor(r, clients)
  {
    hide KeyOf, SubscribersOf, Wanted, SlotKey, Slots, MinInterval, InFlightLimit;
    LimitedKeeps(b);
    forall s | ValidSlot(clients, s) ensures TableIndex(r, clients, s) {
      BuildIndex(b, r, clients, s);
    }
  }

  lemma BuildIndex(b: Build, r: State, clients: seq<Client>, s: Subscriber)
    requires Partitioned(b, clients, Slots(clients), Wanted(clients, Slots(clients))) && ProbersClamped(b.probers)
    requires r.clients == b.clients && r.probers == LimitAll(b.probers) && ValidSlot(clients, s)
    ensures TableIndex(r, clients, s)
  {
    hide KeyOf, SubscribersOf, Wanted, SlotKey, Slots, MinInterval, InFlightLimit, SameButIndices;
    LimitedKeeps(b);
    SlotVisited(clients, s);
    var i :| 0 <= i < |Slots(clients)| && Slots(clients)[i] == s;
    assert IndexRight(b, clients, s);
    SameKeys(clients, b.clients, s);
    if DestinationAt(clients, s).enabled {
      WantedIff(clients, Slots(clients), SlotKey(clients, s));
      assert Wants(clients, s, SlotKey(clients, s));
      assert s in SubscribersOf(clients, Slots(clients), SlotKey(clients, s));
      KeysKnown(b, clients, Slots(clients), Wanted(clients, Slots(clients)), SlotKey(clients, s));
    }
  }

  lemma SlotVisited(clients: seq<Client>, s: Subscriber)
    requires ValidSlot(clients, s)
    ensures s in Slots(clients)
  {
    SlotsFromExact(clients, 0, 0, s);
  }

  /** Such a table is an exact partition of the enabled destinations. */
  lemma TableIsPartition(e: State, clients: seq<Client>)
    requires TableFor(e, clients)
    ensures ExactPartition(e)
  {
    hide KeyOf, SubscribersOf, Wanted, SlotKey, Slots, SameButIndices, InFlightLimit, MinInterval;
    var slots, wanted := Slots(clients), Wanted(clients, Slots(clients));
    forall s | ValidSlot(e.clients, s) ensures RightlySubscribed(e, s) {
      SubscribedRightly(e, clients, s);
    }
    forall j | 0 <= j < |e.probers|
      ensures e.probers[j].subscribers != [] && Distinct(e.probers[j].subscribers)
        && forall s :: s in e.probers[j].subscribers ==> ValidSlot(e.clients, s)
    {
      WantedIff(clients, slots, wanted[j]);
      SlotsAreDistinct(clients);
      forall s | s in e.probers[j].subscribers ensures ValidSlot(e.clients, s) {
        SameKeys(clients, e.clients, s);
      }
    }
    forall i, j | 0 <= i < j < |e.probers| ensures !SameStream(e.probers[i], e.probers[j]) {
      StreamIsKey(e.probers[i], e.probers[j]);
    }
  }

  lemma SlotsAreDistinct(clients: seq<Client>)
    ensures Distinct(Slots(clients))
  {
    SlotsFromDistinct(clients, 0, 0);
  }

  lemma StreamIsKey(p: Prober, q: Prober)
    ensures SameStream(p, q) <==> KeyOf(p) == KeyOf(q)
  {
    if KeyOf(p) == KeyOf(q) {
      KeyInjective(p.host, p.intervalUs, p.timeoutUs, q.host, q.intervalUs, q.timeoutUs);
    }
  }

  lemma SubscribedRightly(e: State, clients: seq<Client>, s: Subscriber)
    requires TableFor(e, clients) && ValidSlot(e.clients, s)
    ensures RightlySubscribed(e, s)
  {
    hide KeyOf, SubscribersOf, Wanted, Slots, InFlightLimit, MinInterval, SameButIndices;
    var slots, wanted := Slots(clients), Wanted(clients, Slots(clients));
    SameKeys(clients, e.clients, s);
    assert TableIndex(e, clients, s);
    var d := DestinationAt(e.clients, s);
    SlotVisited(clients, s);
    forall j | 0 <= j < |e.probers| ensures s in e.probers[j].subscribers <==> d.enabled && j == d.prober {
      WantedIff(clients, slots, wanted[j]);
      assert s in e.probers[j].subscribers <==> Wants(clients, s, wanted[j]);
    }
    if d.enabled {
      StreamOfSlot(e.probers[d.prober], e.clients, s);
    }
  }

  lemma StreamOfSlot(p: Prober, clients: seq<Client>, s: Subscriber)
    requires ValidSlot(clients, s) && KeyOf(p) == SlotKey(clients, s)
    ensures p.host == DestinationAt(clients, s).address && p.intervalUs == clients[s.client].intervalUs
    ensures p.timeoutUs == clients[s.client].timeoutUs
  {
    KeyInjective(p.host, p.intervalUs, p.timeoutUs, DestinationAt(clients, s).address, clients[s.client].intervalUs,
                 clients[s.client].timeoutUs);
  }

  // ---- survivors --------------------------------------------------------

  ghost predicate FirstOfStream(e: State, i: nat, p: Prober) {
    i < |e.probers| && SameStream(e.probers[i], p) && forall k :: 0 <= k < i ==> !SameStream(e.probers[k], p)
  }

  /** A prober of the new table continues the first old prober of its stream, state and uid and all;
      if there was none, it is new and has a uid never used before. */
  ghost predicate Survives(e: State, r: State, j: nat, now: nat, numeric: string -> Endpoint)
    requires j < |r.probers|
  {
    (forall i: nat :: FirstOfStream(e, i, r.probers[j]) ==>
      r.probers[j] == e.probers[i].(subscribers := r.probers[j].subscribers))
    && ((forall i :: 0 <= i < |e.probers| ==> !SameStream(e.probers[i], r.probers[j])) ==>
      r.probers[j].uid >= e.nextUid && StartsAfresh(r.probers[j], now, numeric))
  }

  /** Nothing sent, nothing outstanding, due at once; an address literal needs no lookup. */
  predicate StartsAfresh(p: Prober, now: nat, numeric: string -> Endpoint) {
    p.endpoint == numeric(p.host) && p.numeric == p.endpoint.Endpoint? && !p.resolving
    && p.sequence == 0 && p.inFlight == [] && p.sent == 0 && p.received == 0 && p.nextSendUs == now
    && p.resolveFailures == 0 && (!p.numeric ==> p.nextResolveUs == now)
  }

  lemma LimitIsKept(p: Prober, subs: seq<Subscriber>)
    requires Configured(p)
    ensures p.intervalUs > 0 && Limited(p.(subscribers := subs)) == p.(subscribers := subs)
  {
  }

  lemma RebuildSurvivors(e: State, now: nat, numeric: string -> Endpoint, clock: nat)
    requires Inv(e, clock) && Clamped(e.clients)
    ensures ProbersClamped(e.probers)
    ensures var r := RebuildProbers(e, now, numeric);
      forall j :: 0 <= j < |r.probers| ==> Survives(e, r, j, now, numeric)
  {
    hide Inv, Partitioned, InFlightLimit, SameStream, Wanted, Slots, Survives;
    ProbersAreClamped(e, clock);
    BornBelow(e, clock);
    EnrollAllKeepsClamps(StartBuild(e), Slots(e.clients), OldOf(e), now, numeric);
    var b := Built(e, now, numeric);
    var r := RebuildProbers(e, now, numeric);
    BuiltPartitions(e, now, numeric);
    forall j | 0 <= j < |r.probers| ensures Survives(e, r, j, now, numeric) {
      hide Built;
      assert Origin(b.probers[j], OldOf(e), e.nextUid, b, now, numeric);
      LimitedKeeps(b);
      IndexByKeyFinds(e.probers);
      OriginSurvives(e, r, b, j, now, numeric, clock);
    }
  }

  lemma ProbersAreClamped(e: State, clock: nat)
    requires Inv(e, clock)
    ensures ProbersClamped(e.probers)
  {
    hide Ledger, Ordered, Paced;
  }

  lemma BornBelow(e: State, clock: nat)
    requires Inv(e, clock)
    ensures forall u :: u in e.born ==> u < e.nextUid
    ensures forall i :: 0 <= i < |e.probers| ==> e.probers[i].uid < e.nextUid
  {
    hide Verdicts, Samples, Sound;
  }

  lemma InvIndexes(e: State, clock: nat)
    requires Inv(e, clock)
    ensures Indexed(e)
    ensures ProbersClamped(e.probers)
    ensures forall u :: u in e.born ==> u < e.nextUid
  {
    ProbersAreClamped(e, clock);
    BornBelow(e, clock);
  }

  lemma OriginSurvives(e: State, r: State, b: Build, j: nat, now: nat, numeric: string -> Endpoint, clock: nat)
    requires Inv(e, clock) && j < |b.probers| == |r.probers| && b.probers[j].intervalUs > 0
    requires r.probers[j] == Limited(b.probers[j])
    requires Origin(b.probers[j], OldOf(e), e.nextUid, b, now, numeric)
    ensures Survives(e, r, j, now, numeric)
  {
    hide Verdicts, Samples, Ledger, Ordered, Paced, InFlightLimit, IndexByKey, Key, SameStream;
    var m := IndexByKey(e.probers);
    IndexByKeyFinds(e.probers);
    var p := b.probers[j];
    assert KeyOf(r.probers[j]) == KeyOf(p);
    hide KeyOf;
    forall i | 0 <= i < |e.probers|
      ensures SameStream(e.probers[i], r.probers[j]) <==> KeyOf(e.probers[i]) == KeyOf(p)
    {
      StreamIsKey(e.probers[i], r.probers[j]);
    }
    if KeyOf(p) in m {
      var i0 := m[KeyOf(p)];
      assert Sound(e.probers[i0], e.log, e.born, clock);
      LimitIsKept(e.probers[i0], p.subscribers);
      assert SameStream(e.probers[i0], r.probers[j]);
      forall i: nat | FirstOfStream(e, i, r.probers[j]) ensures i == i0 {
        assert KeyOf(e.probers[i]) == KeyOf(p);
      }
    }
  }

  // ---- the invariants survive too ---------------------------------------

  lemma {:induction false} IndexByUidExact(probers: seq<Prober>)
    requires forall i, j :: 0 <= i < j < |probers| ==> probers[i].uid != probers[j].uid
    ensures forall i :: 0 <= i < |probers| ==>
        probers[i].uid in IndexByUid(probers) && IndexByUid(probers)[probers[i].uid] == i
    ensures forall u :: u in IndexByUid(probers) ==>
        IndexByUid(probers)[u] < |probers| && probers[IndexByUid(probers)[u]].uid == u
  {
    if probers != [] {
      IndexByUidExact(probers[..|probers| - 1]);
    }
  }

  lemma NewProberSound(p: Prober, log: seq<Event>, born: map<nat, nat>, now: nat, numeric: string -> Endpoint)
    requires p.intervalUs >= 100_000 && p.timeoutUs >= 50_000
    requires p
      == NewProber(p.host, p.intervalUs, p.timeoutUs, p.uid, numeric(p.host), now).(subscribers := p.subscribers)
    requires p.uid in born && born[p.uid] == now && Samples(log, p.uid) == 0
    ensures Sound(Limited(p), log, born, now)
  {
    hide Samples, Verdicts, Answers, NoRoutes, InFlightLimit;
    forall k: nat ensures Verdicts(log, p.uid, k) == 0 && NoRoutes(log, p.uid) == 0 && Answers(log, p.uid) == 0 {
      NoSamplesNoVerdicts(log, p.uid, k);
    }
    NoSamplesNoVerdicts(log, p.uid, 0);
    assert forall k: nat :: !Flying(Limited(p), k);
    assert Attempts(Limited(p), log) == 0;
  }

  lemma OldProberSound(p: Prober, subs: seq<Subscriber>, log: seq<Event>, born: map<nat, nat>, born': map<nat, nat>,
                       clock: nat, now: nat)
    requires Sound(p, log, born, clock) && clock <= now && p.uid in born' && born'[p.uid] == born[p.uid]
    ensures p.intervalUs > 0 && Sound(Limited(p.(subscribers := subs)), log, born', now)
  {
    hide Samples, Verdicts, Answers, NoRoutes, InFlightLimit;
    var q := Limited(p.(subscribers := subs));
    assert forall k: nat :: Flying(q, k) <==> Flying(p, k);
  }

  /** The uids of the new table: continued ones below `e.nextUid`, new ones above, all different. */
  lemma UidsDistinct(e: State, b: Build, now: nat, numeric: string -> Endpoint, clock: nat, i: nat, j: nat)
    requires Inv(e, clock) && Origins(b, OldOf(e), e, now, numeric) && i < j < |b.probers|
    requires KeyOf(b.probers[i]) != KeyOf(b.probers[j])
    ensures b.probers[i].uid != b.probers[j].uid
  {
    hide Verdicts, Samples, Sound, IndexByKey, KeyOf, NewProber;
    BornBelow(e, clock);
    IndexByKeyFinds(e.probers);
    assert Origin(b.probers[i], OldOf(e), e.nextUid, b, now, numeric);
    assert Origin(b.probers[j], OldOf(e), e.nextUid, b, now, numeric);
  }

  lemma RebuildKeepsInv(e: State, now: nat, numeric: string -> Endpoint, clock: nat)
    requires Inv(e, clock) && Clamped(e.clients) && clock <= now
    ensures ProbersClamped(e.probers)
    ensures Inv(RebuildProbers(e, now, numeric), now)
  {
    ProbersAreClamped(e, clock);
    BornBelow(e, clock);
    EnrollAllKeepsClamps(StartBuild(e), Slots(e.clients), OldOf(e), now, numeric);
    BuiltPartitions(e, now, numeric);
    BuiltDistinctKeys(Built(e, now, numeric), e.clients, Slots(e.clients), Wanted(e.clients, Slots(e.clients)));
    hide Inv, Partitioned, Origins, EnrollAll, Slots, Wanted, LimitAll, MinInterval, IndexByUid, KeyOf;
    BuildKeepsInv(e, Built(e, now, numeric), RebuildProbers(e, now, numeric), now, numeric, clock);
  }

  lemma BuildKeepsInv(e: State, b: Build, r: State, now: nat, numeric: string -> Endpoint, clock: nat)
    requires Inv(e, clock) && clock <= now && Origins(b, OldOf(e), e, now, numeric) && ProbersClamped(b.probers)
    requires forall i, j :: 0 <= i < j < |b.probers| ==> KeyOf(b.probers[i]) != KeyOf(b.probers[j])
    requires r == e.(clients := b.clients, probers := LimitAll(b.probers), proberByUid := IndexByUid(b.probers),
                     nextUid := b.nextUid, minIntervalUs := MinInterval(b.probers), born := b.born)
    ensures Inv(r, now)
  {
    hide Sound, Verdicts, Samples, IndexByUid, InFlightLimit, KeyOf, MinInterval, Origins;
    forall i, j | 0 <= i < j < |b.probers| ensures b.probers[i].uid != b.probers[j].uid {
      UidsDistinct(e, b, now, numeric, clock, i, j);
    }
    IndexByUidExact(b.probers);
    assert IndexExact(r);
    forall j | 0 <= j < |r.probers| ensures Sound(r.probers[j], r.log, r.born, now) && r.probers[j].uid < b.nextUid {
      OriginSound(e, b, j, now, numeric, clock);
    }
    LaterUids(e, b, now, numeric, clock);
    UidsBelow(r, b.nextUid);
  }

  lemma UidsBelow(r: State, limit: nat)
    requires IndexExact(r) && forall j :: 0 <= j < |r.probers| ==> r.probers[j].uid < limit
    ensures forall u :: u >= limit ==> u !in r.proberByUid
  {
  }

  lemma BuiltDistinctKeys(b: Build, clients: seq<Client>, done: seq<Subscriber>, wanted: seq<string>)
    requires Partitioned(b, clients, done, wanted)
    ensures forall i, j :: 0 <= i < j < |b.probers| ==> KeyOf(b.probers[i]) != KeyOf(b.probers[j])
  {
    hide KeyOf, SubscribersOf;
  }

  lemma OriginSound(e: State, b: Build, j: nat, now: nat, numeric: string -> Endpoint, clock: nat)
    requires Inv(e, clock) && clock <= now && Origins(b, OldOf(e), e, now, numeric) && j < |b.probers|
    requires ProbersClamped(b.probers)
    ensures Sound(Limited(b.probers[j]), e.log, b.born, now) && b.probers[j].uid < b.nextUid
  {
    hide Verdicts, Samples, Sound, IndexByKey, KeyOf, NewProber, Limited;
    BornBelow(e, clock);
    IndexByKeyFinds(e.probers);
    var p := b.probers[j];
    assert Origin(p, OldOf(e), e.nextUid, b, now, numeric);
    if KeyOf(p) in IndexByKey(e.probers) {
      var q := e.probers[IndexByKey(e.probers)[KeyOf(p)]];
      BornOf(q, e.log, e.born, clock);
      OldProberSound(q, p.subscribers, e.log, e.born, b.born, clock, now);
      assert p == q.(subscribers := p.subscribers);
    } else {
      NewProberSound(p, e.log, b.born, now, numeric);
    }
  }

  lemma BornOf(p: Prober, log: seq<Event>, born: map<nat, nat>, clock: nat)
    requires Sound(p, log, born, clock)
    ensures p.uid in born
  {
  }

  lemma LaterUids(e: State, b: Build, now: nat, numeric: string -> Endpoint, clock: nat)
    requires Inv(e, clock) && Origins(b, OldOf(e), e, now, numeric)
    ensures forall u :: u >= b.nextUid ==> Samples(e.log, u) == 0 && u !in b.born
  {
    hide Verdicts, Samples, Sound, IndexByKey, KeyOf, NewProber, Origin;
  }

  lemma ReloadKeepsInv(e: State, loaded: seq<Client>, now: nat, numeric: string -> Endpoint, clock: nat)
    requires Inv(e, clock) && Clamped(loaded) && clock <= now
    ensures ProbersClamped(e.probers)
    ensures Inv(Reload(e, loaded, now, numeric), now)
  {
    hide Sound, Verdicts, Samples, RebuildProbers;
    CarryKeepsClamps(loaded, e.clients);
    RebuildKeepsInv(e.(clients := CarryAll(loaded, e.clients)), now, numeric, clock);
  }
}
