/** Reloading an unchanged configuration with unique ids is the identity: carrying over gives every destination its
    state back, and every prober is found again by its key. */
module ReloadIdentity {
  import opened Hysteresis
  import opened Engine
  import opened ProberInvariant
  import opened EngineInvariant
  import opened Rebuild
  import opened Partition
  import opened RebuildTheorems
  import opened TableSteps

  // ---- an unchanged reload ----------------------------------------------

  /** What `loadClientFile` makes of a configuration that has not changed. */
  ghost predicate Unchanged(loaded: seq<Client>, clients: seq<Client>) {
    SameConfig(clients, loaded)
    && forall s :: ValidSlot(loaded, s) ==> Unevaluated(DestinationAt(loaded, s))
  }

  /** Client ids are file names, so unique; ids and addresses are unique within each client. */
  ghost predicate UniqueIds(clients: seq<Client>) {
    (forall i, j :: 0 <= i < j < |clients| ==> clients[i].id != clients[j].id)
    && forall c :: 0 <= c < |clients| ==> UniqueDestinations(clients[c].destinations)
  }

  ghost predicate UniqueDestinations(ds: seq<Destination>) {
    forall i, j :: 0 <= i < j < |ds| ==> !(ds[i].id == ds[j].id && ds[i].address == ds[j].address)
  }

  lemma {:induction false} CarriesItself(d: Destination, olds: seq<Destination>, i: nat)
    requires i < |olds| && UniqueDestinations(olds) && olds[i].id == d.id && olds[i].address == d.address
    ensures CarryDestination(d, olds) == CarryFields(d, olds[i])
  {
    if i > 0 {
      assert !(olds[0].id == olds[i].id && olds[0].address == olds[i].address);
      assert forall j, k :: 0 <= j < k < |olds[1..]| ==> olds[1..][j] == olds[j + 1] && olds[1..][k] == olds[k + 1];
      CarriesItself(d, olds[1..], i - 1);
    }
  }

  lemma {:induction false} CarriesItsClient(client: Client, olds: seq<Client>, i: nat)
    requires i < |olds| && olds[i].id == client.id
    requires forall j, k :: 0 <= j < k < |olds| ==> olds[j].id != olds[k].id
    ensures CarryClient(client, olds)
      == client.(destinations := CarryDestinations(client.destinations, olds[i].destinations))
  {
    if i > 0 {
      assert olds[0].id != olds[i].id;
      assert forall j, k :: 0 <= j < k < |olds[1..]| ==> olds[1..][j] == olds[j + 1] && olds[1..][k] == olds[k + 1];
      CarriesItsClient(client, olds[1..], i - 1);
    }
  }

  /** Everything evaluated is carried over; only the prober indices are blank until the rebuild. */
  lemma CarryRestores(loaded: seq<Client>, clients: seq<Client>)
    requires Unchanged(loaded, clients) && UniqueIds(clients)
    ensures SameButIndices(CarryAll(loaded, clients), clients)
  {
    var r := CarryAll(loaded, clients);
    forall c | 0 <= c < |r| ensures SameClient(r[c], clients[c]) {
      assert SameConfigClient(clients[c], loaded[c]);
      CarriesItsClient(loaded[c], clients, c);
      forall d | 0 <= d < |r[c].destinations|
        ensures clients[c].destinations[d] == r[c].destinations[d].(prober := clients[c].destinations[d].prober)
      {
        CarriesItself(loaded[c].destinations[d], clients[c].destinations, d);
        assert Unevaluated(DestinationAt(loaded, Subscriber(c, d)));
      }
    }
  }

  /** Reloading a configuration that has not changed leaves probers, schedules, queues and evaluated states exactly as
      they were; it only asks for a publication. */
  lemma UnchangedReload(e: State, loaded: seq<Client>, now: nat, numeric: string -> Endpoint, clock: nat)
    requires Inv(e, clock) && Table(e) && Clamped(loaded) && clock <= now
    requires Unchanged(loaded, e.clients) && UniqueIds(e.clients)
    ensures ProbersClamped(e.probers)
    ensures Reload(e, loaded, now, numeric) == e.(stateDirty := true)
  {
    ProbersAreClamped(e, clock);
    BornBelow(e, clock);
    CarryKeepsClamps(loaded, e.clients);
    CarryRestores(loaded, e.clients);
    var e1 := e.(clients := CarryAll(loaded, e.clients));
    ClientsAside(e, CarryAll(loaded, e.clients), clock);
    hide Inv, TableFor, SameButIndices, RebuildProbers;
    SameTableAgain(e, e1, now, numeric, clock);
  }

  /** Two tables for the same configuration agree on keys, subscribers and destinations. */
  lemma TablesAgree(e: State, r: State, clients: seq<Client>)
    requires TableFor(e, e.clients) && TableFor(r, clients) && SameButIndices(clients, e.clients)
    ensures |r.probers| == |e.probers|
    ensures forall j :: 0 <= j < |e.probers| ==>
      KeyOf(r.probers[j]) == KeyOf(e.probers[j]) && r.probers[j].subscribers == e.probers[j].subscribers
    ensures forall i, j :: 0 <= i < j < |e.probers| ==> KeyOf(e.probers[i]) != KeyOf(e.probers[j])
    ensures r.clients == e.clients
  {
    hide KeyOf, SubscribersOf, Wanted, SlotKey, MinInterval, InFlightLimit, SlotsFrom;
    SameButIndicesConfig(clients, e.clients);
    SameSelf(clients);
    SameButIndicesConfig(clients, clients);
    ListsOf(clients, e.clients, clients);
    forall s | ValidSlot(clients, s)
      ensures ValidSlot(r.clients, s) && ValidSlot(e.clients, s)
      ensures DestinationAt(r.clients, s).prober == DestinationAt(e.clients, s).prober
    {
      SameIndex(e, r, clients, s);
    }
    SameClients(e.clients, r.clients, clients);
  }

  lemma SameIndex(e: State, r: State, clients: seq<Client>, s: Subscriber)
    requires TableFor(e, e.clients) && TableFor(r, clients) && SameButIndices(clients, e.clients)
    requires ValidSlot(clients, s)
    requires Wanted(clients, Slots(clients)) == Wanted(e.clients, Slots(e.clients))
    ensures ValidSlot(r.clients, s) && ValidSlot(e.clients, s)
    ensures DestinationAt(r.clients, s).prober == DestinationAt(e.clients, s).prober
  {
    hide KeyOf, SubscribersOf, Wanted, SlotKey, MinInterval, InFlightLimit, SlotsFrom;
    SameKeys(clients, e.clients, s);
    SameKeys(clients, r.clients, s);
    SameKeys(e.clients, e.clients, s);
    assert TableIndex(e, e.clients, s) && TableIndex(r, clients, s);
    if DestinationAt(clients, s).enabled {
      var wanted := Wanted(clients, Slots(clients));
      var i, j := DestinationAt(e.clients, s).prober, DestinationAt(r.clients, s).prober;
      assert wanted[i] == wanted[j];
    }
  }

  lemma SameClients(a: seq<Client>, b: seq<Client>, clients: seq<Client>)
    requires SameButIndices(clients, a) && SameButIndices(clients, b)
    requires forall s :: ValidSlot(clients, s) ==>
      ValidSlot(a, s) && ValidSlot(b, s) && DestinationAt(a, s).prober == DestinationAt(b, s).prober
    ensures a == b
  {
    forall c | 0 <= c < |clients| ensures a[c] == b[c] {
      assert SameClient(clients[c], a[c]) && SameClient(clients[c], b[c]);
      forall d | 0 <= d < |clients[c].destinations| ensures a[c].destinations[d] == b[c].destinations[d] {
        var s := Subscriber(c, d);
        assert ValidSlot(clients, s);
        assert DestinationAt(a, s).prober == DestinationAt(b, s).prober;
      }
      assert a[c].destinations == b[c].destinations;
    }
  }

  lemma SameProbers(e: State, r: State, now: nat, numeric: string -> Endpoint)
    requires |r.probers| == |e.probers|
    requires forall j :: 0 <= j < |e.probers| ==>
      KeyOf(r.probers[j]) == KeyOf(e.probers[j]) && r.probers[j].subscribers == e.probers[j].subscribers
    requires forall i, j :: 0 <= i < j < |e.probers| ==> KeyOf(e.probers[i]) != KeyOf(e.probers[j])
    requires forall j :: 0 <= j < |r.probers| ==> Survives(e, r, j, now, numeric)
    ensures r.probers == e.probers
  {
    hide KeyOf;
    forall j | 0 <= j < |e.probers| ensures r.probers[j] == e.probers[j] {
      assert Survives(e, r, j, now, numeric);
      hide SameStream;
      forall k | 0 <= k <= j ensures SameStream(e.probers[k], r.probers[j]) <==> k == j {
        StreamIsKey(e.probers[k], r.probers[j]);
      }
      assert FirstOfStream(e, j, r.probers[j]);
    }
  }

  /** When every key was there before, no uid is given out. */
  lemma NoNewUids(e: State, now: nat, numeric: string -> Endpoint, clock: nat)
    requires Inv(e, clock) && Clamped(e.clients) && ProbersClamped(e.probers)
    requires var r := RebuildProbers(e, now, numeric);
      |r.probers| == |e.probers| && forall j :: 0 <= j < |e.probers| ==> KeyOf(r.probers[j]) == KeyOf(e.probers[j])
    ensures RebuildProbers(e, now, numeric).nextUid == e.nextUid && RebuildProbers(e, now, numeric).born == e.born
  {
    BornBelow(e, clock);
    EnrollAllKeepsClamps(StartBuild(e), Slots(e.clients), OldOf(e), now, numeric);
    BuiltPartitions(e, now, numeric);
    var b := Built(e, now, numeric);
    var r := RebuildProbers(e, now, numeric);
    hide Inv, Partitioned, EnrollAll, Slots, Wanted, MinInterval, IndexByUid, KeyOf, InFlightLimit, Origin, IndexByKey;
    LimitedKeeps(b);
    IndexByKeyFinds(e.probers);
    forall j | 0 <= j < |b.probers| ensures KeyOf(b.probers[j]) in OldOf(e).byKey {
      assert KeyOf(r.probers[j]) == KeyOf(b.probers[j]);
    }
  }

  lemma SameIndexMap(e: State, r: State)
    requires IndexExact(e) && IndexExact(r) && r.probers == e.probers
    ensures r.proberByUid == e.proberByUid
  {
    forall u | u in r.proberByUid ensures u in e.proberByUid && e.proberByUid[u] == r.proberByUid[u] {
      assert e.probers[r.proberByUid[u]].uid == u;
    }
    forall u | u in e.proberByUid ensures u in r.proberByUid {
      assert r.probers[e.proberByUid[u]].uid == u;
    }
  }

  lemma SameTableAgain(e: State, e1: State, now: nat, numeric: string -> Endpoint, clock: nat)
    requires Inv(e, clock) && Inv(e1, clock) && Table(e) && Clamped(e1.clients) && e1 == e.(clients := e1.clients)
    requires clock <= now
    requires SameButIndices(e1.clients, e.clients)
    ensures ProbersClamped(e1.probers) && RebuildProbers(e1, now, numeric) == e
  {
    ProbersAreClamped(e1, clock);
    BornBelow(e1, clock);
    var r := RebuildProbers(e1, now, numeric);
    RebuildMakesTable(e1, now, numeric);
    RebuildSurvivors(e1, now, numeric, clock);
    RebuildKeepsInv(e1, now, numeric, clock);
    assert r == e1.(clients := r.clients, probers := r.probers, proberByUid := r.proberByUid, nextUid := r.nextUid,
                    minIntervalUs := r.minIntervalUs, born := r.born);
    assert r.minIntervalUs == MinInterval(r.probers) && e.minIntervalUs == MinInterval(e.probers);
    hide AllSound, HistorySound, RebuildProbers, Survives, TableFor, SameButIndices, KeyOf, MinInterval;
    TablesAgree(e, r, e1.clients);
    SurvivesSame(e, e1, r, now, numeric);
    SameProbers(e, r, now, numeric);
    NoNewUids(e1, now, numeric, clock);
    SameIndexMap(e, r);
  }

  lemma SurvivesSame(e: State, e1: State, r: State, now: nat, numeric: string -> Endpoint)
    requires e1 == e.(clients := e1.clients) && forall j :: 0 <= j < |r.probers| ==> Survives(e1, r, j, now, numeric)
    ensures forall j :: 0 <= j < |r.probers| ==> Survives(e, r, j, now, numeric)
  {
    forall j | 0 <= j < |r.probers| ensures Survives(e, r, j, now, numeric) {
      assert Survives(e1, r, j, now, numeric);
      forall i: nat ensures FirstOfStream(e, i, r.probers[j]) <==> FirstOfStream(e1, i, r.probers[j]) {}
    }
  }
}
