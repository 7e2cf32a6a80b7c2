/** Reconfiguration: `proberKey`, the carry-over in `reloadClients`, and `rebuildProbers`. */
module Rebuild {
  import opened Text
  import opened Hysteresis
  import opened Engine
  import opened ProberInvariant

  const SEPARATOR := "\U{1f}"

  /** `proberKey` */
  function Key(host: string, intervalUs: nat, timeoutUs: nat): string {
    host + SEPARATOR + Decimal(intervalUs) + SEPARATOR + Decimal(timeoutUs)
  }

  function KeyOf(p: Prober): string {
    Key(p.host, p.intervalUs, p.timeoutUs)
  }

  lemma NoSeparator(n: nat)
    ensures forall i :: 0 <= i < |Decimal(n)| ==> Decimal(n)[i] != SEPARATOR[0]
  {
    assert AllDigits(Digits(n));
  }

  /** Two texts split at their last separator. */
  lemma SplitLast(a: string, b: string, x: string, y: string)
    requires a + SEPARATOR + x == b + SEPARATOR + y
    requires (forall i :: 0 <= i < |x| ==> x[i] != SEPARATOR[0]) && (forall i :: 0 <= i < |y| ==> y[i] != SEPARATOR[0])
    ensures a == b && x == y
  {
    var s := a + SEPARATOR + x;
    assert s[|a|] == SEPARATOR[0] && s[|b|] == SEPARATOR[0] by {
      assert s == b + SEPARATOR + y;
    }
    assert s[..|a|] == a && s[|a| + 1..] == x;
    assert s[..|b|] == b && s[|b| + 1..] == y by {
      assert s == b + SEPARATOR + y;
    }
  }

  /** The key determines address, interval and timeout, even for a host that contains the separator. */
  lemma KeyInjective(h1: string, i1: nat, t1: nat, h2: string, i2: nat, t2: nat)
    requires Key(h1, i1, t1) == Key(h2, i2, t2)
    ensures h1 == h2 && i1 == i2 && t1 == t2
  {
    NoSeparator(i1);
    NoSeparator(i2);
    NoSeparator(t1);
    NoSeparator(t2);
    SplitLast(h1 + SEPARATOR + Decimal(i1), h2 + SEPARATOR + Decimal(i2), Decimal(t1), Decimal(t2));
    SplitLast(h1, h2, Decimal(i1), Decimal(i2));
    DecimalInjective(i1, i2);
    DecimalInjective(t1, t2);
  }

  // ---- carrying evaluated states over -----------------------------------

  /** A destination as `loadClientFile` leaves it: nothing evaluated yet. */
  predicate Unevaluated(d: Destination) {
    d == d.(prober := -1, state := Unknown, candidate := Unknown, streak := 0, haveRtt := false, rttUs := 0,
            sent := 0, received := 0)
  }

  /** The runtime fields that `reloadClients` copies. */
  function CarryFields(d: Destination, prev: Destination): Destination {
    d.(state := prev.state, candidate := prev.candidate, streak := prev.streak, haveRtt := prev.haveRtt,
       rttUs := prev.rttUs,
       sent := prev.sent, received := prev.received)
  }

  /** The first destination with that id and address, if any. */
  function CarryDestination(d: Destination, olds: seq<Destination>): Destination {
    if olds == [] then d
    else if olds[0].id == d.id && olds[0].address == d.address then CarryFields(d, olds[0])
    else CarryDestination(d, olds[1..])
  }

  function CarryDestinations(ds: seq<Destination>, olds: seq<Destination>): (r: seq<Destination>)
    ensures |r| == |ds| && forall i :: 0 <= i < |ds| ==> r[i] == CarryDestination(ds[i], olds)
  {
    seq(|ds|, i requires 0 <= i < |ds| => CarryDestination(ds[i], olds))
  }

  /** The first client with that id, if any. */
  function CarryClient(client: Client, olds: seq<Client>): Client {
    if olds == [] then client
    else if olds[0].id == client.id then
      client.(destinations := CarryDestinations(client.destinations, olds[0].destinations))
    else CarryClient(client, olds[1..])
  }

  function CarryAll(loaded: seq<Client>, olds: seq<Client>): (r: seq<Client>)
    ensures |r| == |loaded| && forall i :: 0 <= i < |loaded| ==> r[i] == CarryClient(loaded[i], olds)
  {
    seq(|loaded|, i requires 0 <= i < |loaded| => CarryClient(loaded[i], olds))
  }

  // ---- rebuilding the probers -------------------------------------------

  /** The previous table and its index by key. */
  datatype Old = Old(probers: seq<Prober>, byKey: map<string, nat>)

  predicate OldOk(prev: Old) {
    forall k :: k in prev.byKey ==> prev.byKey[k] < |prev.probers|
  }

  /** Filling `previousByKey`: `emplace` keeps the first of equal keys. */
  function IndexByKey(previous: seq<Prober>): (m: map<string, nat>)
    ensures forall k :: k in m ==> m[k] < |previous|
  {
    if previous == [] then map[]
    else
      var n := |previous| - 1;
      var m := IndexByKey(previous[..n]);
      if KeyOf(previous[n]) in m then m else m[KeyOf(previous[n]) := n]
  }

  /** The index finds a prober with the key, and finds one for every key there is. */
  lemma {:induction false} IndexByKeyFinds(previous: seq<Prober>)
    ensures var m := IndexByKey(previous);
      (forall k :: k in m ==> KeyOf(previous[m[k]]) == k)
      && (forall i :: 0 <= i < |previous| ==> KeyOf(previous[i]) in m && m[KeyOf(previous[i])] <= i)
  {
    hide KeyOf;
    if previous != [] {
      var n := |previous| - 1;
      IndexByKeyFinds(previous[..n]);
      var front, m := IndexByKey(previous[..n]), IndexByKey(previous);
      assert m == if KeyOf(previous[n]) in front then front else front[KeyOf(previous[n]) := n];
      hide IndexByKey;
      assert forall i :: 0 <= i < n ==> previous[..n][i] == previous[i];
    }
  }

  /** The state of the double loop of `rebuildProbers`. */
  datatype Build = Build(
    clients: seq<Client>, probers: seq<Prober>, byKey: map<string, nat>, consumed: set<nat>, nextUid: nat,
    born: map<nat, nat>)

  predicate ByKeyOk(b: Build) {
    forall k :: k in b.byKey ==> b.byKey[k] < |b.probers|
  }

  predicate ValidSlot(clients: seq<Client>, s: Subscriber) {
    s.client < |clients| && s.destination < |clients[s.client].destinations|
  }

  function DestinationAt(clients: seq<Client>, s: Subscriber): Destination
    requires ValidSlot(clients, s)
  {
    clients[s.client].destinations[s.destination]
  }

  function SlotKey(clients: seq<Client>, s: Subscriber): string
    requires ValidSlot(clients, s)
  {
    Key(DestinationAt(clients, s).address, clients[s.client].intervalUs, clients[s.client].timeoutUs)
  }

  function SetProberIndex(clients: seq<Client>, s: Subscriber, prober: int): (r: seq<Client>)
    requires ValidSlot(clients, s)
    ensures |r| == |clients|
  {
    var client := clients[s.client];
    var d := client.destinations[s.destination];
    clients[s.client := client.(destinations := client.destinations[s.destination := d.(prober := prober)])]
  }

  /** A prober that did not exist before. */
  function NewProber(host: string, intervalUs: nat, timeoutUs: nat, uid: nat, endpoint: Endpoint, now: nat): Prober {
    Prober(host, intervalUs, timeoutUs, uid, endpoint, endpoint.Endpoint?, false,
           if endpoint.Endpoint? then 0 else now, 0, now, 0, [], 1, 0, 0, [])
  }

  /** A prober for a key seen for the first time: recycled if the previous table had it, new otherwise. */
  function AddProber(b: Build, host: string, intervalUs: nat, timeoutUs: nat, prev: Old, now: nat,
                     numeric: string -> Endpoint): (r: Build)
    requires OldOk(prev) && ByKeyOk(b)
    ensures ByKeyOk(r) && Key(host, intervalUs, timeoutUs) in r.byKey
  {
    var key := Key(host, intervalUs, timeoutUs);
    var b' := b.(byKey := b.byKey[key := |b.probers|]);
    if key in prev.byKey && prev.byKey[key] !in b.consumed then
      b'.(probers := b.probers + [prev.probers[prev.byKey[key]].(subscribers := [])],
          consumed := b.consumed + {prev.byKey[key]})
    else
      b'.(probers := b.probers + [NewProber(host, intervalUs, timeoutUs, b.nextUid, numeric(host), now)],
          nextUid := b.nextUid + 1, born := b.born[b.nextUid := now])
  }

  /** One turn of the inner loop. */
  function Enroll(b: Build, s: Subscriber, prev: Old, now: nat, numeric: string -> Endpoint): (r: Build)
    requires OldOk(prev) && ByKeyOk(b) && ValidSlot(b.clients, s)
    ensures ByKeyOk(r)
  {
    var client, d := b.clients[s.client], DestinationAt(b.clients, s);
    if !d.enabled then b.(clients := SetProberIndex(b.clients, s, -1))
    else
      var key := SlotKey(b.clients, s);
      var b1 := if key in b.byKey then b
        else AddProber(b, d.address, client.intervalUs, client.timeoutUs, prev, now, numeric);
      Subscribe(b1, s, b1.byKey[key])
  }

  function Subscribe(b: Build, s: Subscriber, index: nat): (r: Build)
    requires ByKeyOk(b) && ValidSlot(b.clients, s) && index < |b.probers|
    ensures ByKeyOk(r)
  {
    var p := b.probers[index];
    b.(probers := b.probers[index := p.(subscribers := p.subscribers + [s])],
       clients := SetProberIndex(b.clients, s, index))
  }

  /** All positions of the double loop from (c, d) on. */
  function SlotsFrom(clients: seq<Client>, c: nat, d: nat): (r: seq<Subscriber>)
    requires c <= |clients| && (c < |clients| ==> d <= |clients[c].destinations|)
    ensures forall k :: 0 <= k < |r| ==> ValidSlot(clients, r[k])
    decreases |clients| - c, if c < |clients| then |clients[c].destinations| - d else 0
  {
    if c == |clients| then []
    else if d == |clients[c].destinations| then SlotsFrom(clients, c + 1, 0)
    else [Subscriber(c, d)] + SlotsFrom(clients, c, d + 1)
  }

  function Slots(clients: seq<Client>): (r: seq<Subscriber>)
    ensures forall k :: 0 <= k < |r| ==> ValidSlot(clients, r[k])
  {
    SlotsFrom(clients, 0, 0)
  }

  /** `after` differs from `before` only in the prober indices of destinations. */
  ghost predicate SameButIndices(before: seq<Client>, after: seq<Client>) {
    |after| == |before|
    && forall c :: 0 <= c < |before| ==> SameClient(before[c], after[c])
  }

  ghost predicate SameClient(before: Client, after: Client) {
    after.id == before.id && after.intervalUs == before.intervalUs && after.timeoutUs == before.timeoutUs
    && |after.destinations| == |before.destinations|
    && forall d :: 0 <= d < |before.destinations| ==>
      after.destinations[d] == before.destinations[d].(prober := after.destinations[d].prober)
  }

  lemma SetProberIndexSame(clients: seq<Client>, s: Subscriber, prober: int)
    requires ValidSlot(clients, s)
    ensures SameButIndices(clients, SetProberIndex(clients, s, prober))
    ensures DestinationAt(SetProberIndex(clients, s, prober), s) == DestinationAt(clients, s).(prober := prober)
    ensures forall t :: ValidSlot(clients, t) && t != s ==>
        DestinationAt(SetProberIndex(clients, s, prober), t) == DestinationAt(clients, t)
  {
  }

  lemma SameSelf(clients: seq<Client>)
    ensures SameButIndices(clients, clients)
  {
  }

  lemma SameTransitive(a: seq<Client>, b: seq<Client>, c: seq<Client>)
    requires SameButIndices(a, b) && SameButIndices(b, c)
    ensures SameButIndices(a, c)
  {
  }

  lemma SameKeys(a: seq<Client>, b: seq<Client>, s: Subscriber)
    requires SameButIndices(a, b)
    ensures ValidSlot(a, s) <==> ValidSlot(b, s)
    ensures ValidSlot(a, s) ==>
        SlotKey(b, s) == SlotKey(a, s) && DestinationAt(b, s).enabled == DestinationAt(a, s).enabled
  {
  }

  lemma EnrollSame(b: Build, s: Subscriber, prev: Old, now: nat, numeric: string -> Endpoint)
    requires OldOk(prev) && ByKeyOk(b) && ValidSlot(b.clients, s)
    ensures SameButIndices(b.clients, Enroll(b, s, prev, now, numeric).clients)
  {
    hide SetProberIndex, Key, SameButIndices;
    if !DestinationAt(b.clients, s).enabled {
      SetProberIndexSame(b.clients, s, -1);
    } else {
      var client, d := b.clients[s.client], DestinationAt(b.clients, s);
      var key := SlotKey(b.clients, s);
      var b1 := if key in b.byKey then b
        else AddProber(b, d.address, client.intervalUs, client.timeoutUs, prev, now, numeric);
      SetProberIndexSame(b.clients, s, b1.byKey[key]);
    }
  }

  /** The double loop. */
  function EnrollAll(b: Build, slots: seq<Subscriber>, prev: Old, now: nat, numeric: string -> Endpoint): (r: Build)
    requires OldOk(prev) && ByKeyOk(b) && forall k :: 0 <= k < |slots| ==> ValidSlot(b.clients, slots[k])
    ensures ByKeyOk(r)
    decreases |slots|
  {
    if slots == [] then b
    else
      EnrollStaysValid(b, slots, prev, now, numeric);
      EnrollAll(Enroll(b, slots[0], prev, now, numeric), slots[1..], prev, now, numeric)
  }

  // ---- the loop after it ------------------------------------------------

  function Limited(p: Prober): Prober
    requires p.intervalUs > 0
  {
    p.(maxInFlight := InFlightLimit(p.intervalUs, p.timeoutUs))
  }

  /** `m_minIntervalUs`: the least interval, or 0 without probers. */
  function MinInterval(probers: seq<Prober>): nat {
    if probers == [] then 0
    else
      var front, last := MinInterval(probers[..|probers| - 1]), probers[|probers| - 1].intervalUs;
      if front == 0 || last < front then last else front
  }

  function IndexByUid(probers: seq<Prober>): map<nat, nat> {
    if probers == [] then map[]
    else IndexByUid(probers[..|probers| - 1])[probers[|probers| - 1].uid := |probers| - 1]
  }

  predicate PositiveIntervals(probers: seq<Prober>) {
    forall j :: 0 <= j < |probers| ==> probers[j].intervalUs > 0
  }

  function LimitAll(probers: seq<Prober>): (r: seq<Prober>)
    requires PositiveIntervals(probers)
    ensures |r| == |probers| && forall j :: 0 <= j < |probers| ==> r[j] == Limited(probers[j])
  {
    seq(|probers|, j requires 0 <= j < |probers| => Limited(probers[j]))
  }

  function StartBuild(e: State): Build {
    Build(e.clients, [], map[], {}, e.nextUid, e.born)
  }

  function OldOf(e: State): (prev: Old)
    ensures OldOk(prev)
  {
    Old(e.probers, IndexByKey(e.probers))
  }

  function Built(e: State, now: nat, numeric: string -> Endpoint): Build {
    EnrollAll(StartBuild(e), Slots(e.clients), OldOf(e), now, numeric)
  }

  /** The clamps of `loadClientFile`. */
  predicate Clamped(clients: seq<Client>) {
    forall c :: 0 <= c < |clients| ==> clients[c].intervalUs >= 100_000 && clients[c].timeoutUs >= 50_000
  }

  predicate ProbersClamped(probers: seq<Prober>) {
    forall j :: 0 <= j < |probers| ==> probers[j].intervalUs >= 100_000 && probers[j].timeoutUs >= 50_000
  }

  lemma EnrollKeepsClamps(b: Build, s: Subscriber, prev: Old, now: nat, numeric: string -> Endpoint)
    requires OldOk(prev) && ByKeyOk(b) && ValidSlot(b.clients, s)
    requires Clamped(b.clients) && ProbersClamped(b.probers) && ProbersClamped(prev.probers)
    ensures var r := Enroll(b, s, prev, now, numeric);
      Clamped(r.clients) && ProbersClamped(r.probers)
  {
    hide Key;
  }

  lemma {:induction false} EnrollAllKeepsClamps(b: Build, slots: seq<Subscriber>, prev: Old, now: nat,
                                                numeric: string -> Endpoint)
    requires OldOk(prev) && ByKeyOk(b) && forall k :: 0 <= k < |slots| ==> ValidSlot(b.clients, slots[k])
    requires Clamped(b.clients) && ProbersClamped(b.probers) && ProbersClamped(prev.probers)
    ensures var r := EnrollAll(b, slots, prev, now, numeric);
      Clamped(r.clients) && ProbersClamped(r.probers)
    decreases |slots|
  {
    if slots != [] {
      EnrollKeepsClamps(b, slots[0], prev, now, numeric);
      EnrollStaysValid(b, slots, prev, now, numeric);
      EnrollAllKeepsClamps(Enroll(b, slots[0], prev, now, numeric), slots[1..], prev, now, numeric);
    }
  }

  lemma EnrollStaysValid(b: Build, slots: seq<Subscriber>, prev: Old, now: nat, numeric: string -> Endpoint)
    requires slots != [] && OldOk(prev) && ByKeyOk(b) && forall k :: 0 <= k < |slots| ==> ValidSlot(b.clients, slots[k])
    ensures forall k :: 0 <= k < |slots[1..]| ==>
        ValidSlot(Enroll(b, slots[0], prev, now, numeric).clients, slots[1..][k])
  {
    EnrollSame(b, slots[0], prev, now, numeric);
    forall k | 0 <= k < |slots[1..]| ensures ValidSlot(Enroll(b, slots[0], prev, now, numeric).clients, slots[1..][k]) {
      SameKeys(b.clients, Enroll(b, slots[0], prev, now, numeric).clients, slots[k + 1]);
    }
  }

  /** `rebuildProbers` */
  function RebuildProbers(e: State, now: nat, numeric: string -> Endpoint): State
    requires Clamped(e.clients) && ProbersClamped(e.probers)
  {
    EnrollAllKeepsClamps(StartBuild(e), Slots(e.clients), OldOf(e), now, numeric);
    var b := Built(e, now, numeric);
    e.(clients := b.clients, probers := LimitAll(b.probers), proberByUid := IndexByUid(b.probers),
       nextUid := b.nextUid, minIntervalUs := MinInterval(b.probers), born := b.born)
  }

  /** `reloadClients`, given what was loaded: sorted by client id, one client for each file name. */
  function Reload(e: State, loaded: seq<Client>, now: nat, numeric: string -> Endpoint): State
    requires Clamped(loaded) && ProbersClamped(e.probers)
  {
    CarryKeepsClamps(loaded, e.clients);
    RebuildProbers(e.(clients := CarryAll(loaded, e.clients)), now, numeric).(stateDirty := true)
  }

  lemma {:induction false} CarryClientKeeps(client: Client, olds: seq<Client>)
    ensures var r := CarryClient(client, olds);
      r.id == client.id && r.intervalUs == client.intervalUs && r.timeoutUs == client.timeoutUs
      && |r.destinations| == |client.destinations|
  {
    if olds != [] {
      CarryClientKeeps(client, olds[1..]);
    }
  }

  lemma CarryKeepsClamps(loaded: seq<Client>, olds: seq<Client>)
    requires Clamped(loaded)
    ensures Clamped(CarryAll(loaded, olds))
  {
    forall c | 0 <= c < |loaded|
      ensures CarryAll(loaded, olds)[c].intervalUs >= 100_000 && CarryAll(loaded, olds)[c].timeoutUs >= 50_000
    {
      CarryClientKeeps(loaded[c], olds);
    }
  }
}
