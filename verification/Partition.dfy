/** What the double loop of `rebuildProbers` establishes from any previous table: an exact partition of the enabled
    destinations. `Partitioned` says how far it is with some slots visited, `Origins` where the probers so far came
    from; each kind of turn keeps both, and `BuiltPartitions` is the end of it. */
module Partition {
  import opened Engine
  import opened Rebuild

  // ---- the double loop visits every destination once --------------------

  lemma {:induction false} SlotsFromExact(clients: seq<Client>, c: nat, d: nat, s: Subscriber)
    requires c <= |clients| && (c < |clients| ==> d <= |clients[c].destinations|)
    ensures s in SlotsFrom(clients, c, d) <==>
        ValidSlot(clients, s) && (s.client > c || (s.client == c && s.destination >= d))
    decreases |clients| - c, if c < |clients| then |clients[c].destinations| - d else 0
  {
    if c < |clients| {
      if d == |clients[c].destinations| {
        SlotsFromExact(clients, c + 1, 0, s);
      } else {
        SlotsFromExact(clients, c, d + 1, s);
      }
    }
  }

  predicate Distinct<T(==)>(s: seq<T>) {
    forall i, j :: 0 <= i < j < |s| ==> s[i] != s[j]
  }

  lemma {:induction false} SlotsFromDistinct(clients: seq<Client>, c: nat, d: nat)
    requires c <= |clients| && (c < |clients| ==> d <= |clients[c].destinations|)
    ensures Distinct(SlotsFrom(clients, c, d))
    decreases |clients| - c, if c < |clients| then |clients[c].destinations| - d else 0
  {
    if c < |clients| {
      if d == |clients[c].destinations| {
        SlotsFromDistinct(clients, c + 1, 0);
      } else {
        SlotsFromDistinct(clients, c, d + 1);
        var rest := SlotsFrom(clients, c, d + 1);
        SlotsFromExact(clients, c, d + 1, Subscriber(c, d));
        assert forall j :: 0 <= j < |rest| ==> rest[j] in rest;
      }
    }
  }

  // ---- the partition, as a specification --------------------------------

  /** Destination `s` is enabled and belongs to the probe stream `key`. */
  predicate Wants(clients: seq<Client>, s: Subscriber, key: string) {
    ValidSlot(clients, s) && DestinationAt(clients, s).enabled && SlotKey(clients, s) == key
  }

  /** The subscribers of `key`, in the order of the double loop. */
  function SubscribersOf(clients: seq<Client>, slots: seq<Subscriber>, key: string): seq<Subscriber> {
    if slots == [] then []
    else
      var front, last := SubscribersOf(clients, slots[..|slots| - 1], key), slots[|slots| - 1];
      if Wants(clients, last, key) then front + [last] else front
  }

  /** The keys wanted by some enabled destination, in the order in which they are first wanted. */
  function Wanted(clients: seq<Client>, slots: seq<Subscriber>): seq<string> {
    if slots == [] then []
    else
      var front, last := Wanted(clients, slots[..|slots| - 1]), slots[|slots| - 1];
      if ValidSlot(clients, last) && DestinationAt(clients, last).enabled && SlotKey(clients, last) !in front
      then front + [SlotKey(clients, last)] else front
  }

  lemma DistinctParts(s: seq<Subscriber>)
    requires s != [] && Distinct(s)
    ensures Distinct(s[..|s| - 1]) && s[|s| - 1] !in s[..|s| - 1]
  {
  }

  lemma DistinctMore(s: seq<Subscriber>, x: Subscriber)
    requires Distinct(s) && x !in s
    ensures Distinct(s + [x])
  {
    forall i, j | 0 <= i < j < |s + [x]| ensures (s + [x])[i] != (s + [x])[j] {
      assert (s + [x])[i] == s[i] && s[i] in s;
    }
  }

  lemma {:induction false} WantedIff(clients: seq<Client>, slots: seq<Subscriber>, key: string)
    ensures key in Wanted(clients, slots) <==> SubscribersOf(clients, slots, key) != []
    ensures forall s :: s in SubscribersOf(clients, slots, key) <==> s in slots && Wants(clients, s, key)
    ensures Distinct(slots) ==> Distinct(SubscribersOf(clients, slots, key))
  {
    hide SlotKey, ValidSlot;
    if slots != [] {
      var front, last := slots[..|slots| - 1], slots[|slots| - 1];
      WantedIff(clients, front, key);
      assert slots == front + [last];
      if Distinct(slots) {
        DistinctParts(slots);
        var subs := SubscribersOf(clients, front, key);
        if last !in subs {
          DistinctMore(subs, last);
        }
      }
      hide Distinct;
    }
  }

  // ---- the invariant of the double loop ---------------------------------

  /** With the destinations `done` visited and the keys `wanted` opened: one prober for each key, subscribed to
      by exactly the destinations that want it. */
  ghost predicate Partitioned(b: Build, clients: seq<Client>, done: seq<Subscriber>, wanted: seq<string>) {
    SameButIndices(clients, b.clients)
    && |b.probers| == |wanted| && Distinct(wanted)
    && (forall j :: 0 <= j < |wanted| ==>
        KeyOf(b.probers[j]) == wanted[j] && wanted[j] in b.byKey && b.byKey[wanted[j]] == j)
    && (forall k :: k in b.byKey ==> b.byKey[k] < |wanted| && wanted[b.byKey[k]] == k)
    && (forall j :: 0 <= j < |wanted| ==> b.probers[j].subscribers == SubscribersOf(clients, done, wanted[j]))
    && IndicesRight(b, clients, done)
  }

  /** Every visited destination points to its prober, or nowhere if it is disabled. */
  ghost predicate IndicesRight(b: Build, clients: seq<Client>, done: seq<Subscriber>) {
    SameButIndices(clients, b.clients)
    && forall i :: 0 <= i < |done| ==> ValidSlot(clients, done[i]) && IndexRight(b, clients, done[i])
  }

  ghost predicate IndexRight(b: Build, clients: seq<Client>, s: Subscriber)
    requires ValidSlot(clients, s) && SameButIndices(clients, b.clients)
  {
    SameKeys(clients, b.clients, s);
    DestinationAt(b.clients, s).prober
      == if !DestinationAt(clients, s).enabled then -1
         else if SlotKey(clients, s) in b.byKey then b.byKey[SlotKey(clients, s)] else -2
  }

  /** Where a prober comes from: the previous table if that had the key, otherwise nowhere. */
  ghost predicate Origin(p: Prober, prev: Old, firstUid: nat, b: Build, now: nat, numeric: string -> Endpoint)
    requires OldOk(prev)
  {
    if KeyOf(p) in prev.byKey then p == prev.probers[prev.byKey[KeyOf(p)]].(subscribers := p.subscribers)
    else
      p == NewProber(p.host, p.intervalUs, p.timeoutUs, p.uid, numeric(p.host), now).(subscribers := p.subscribers)
      && firstUid <= p.uid < b.nextUid && p.uid in b.born && b.born[p.uid] == now
  }

  ghost predicate Origins(b: Build, prev: Old, e: State, now: nat, numeric: string -> Endpoint)
    requires OldOk(prev)
  {
    e.nextUid <= b.nextUid
    && (forall j :: 0 <= j < |b.probers| ==> Origin(b.probers[j], prev, e.nextUid, b, now, numeric))
    && (forall i, j ::
          0 <= i < j < |b.probers| && KeyOf(b.probers[i]) !in prev.byKey && KeyOf(b.probers[j]) !in prev.byKey ==>
          b.probers[i].uid < b.probers[j].uid)
    && (forall i :: i in b.consumed ==> i < |prev.probers| && KeyOf(prev.probers[i]) in b.byKey)
    && (forall u :: u in e.born ==> u in b.born && b.born[u] == e.born[u])
    && (forall u :: u in b.born ==> u in e.born || e.nextUid <= u < b.nextUid)
    && ((forall j :: 0 <= j < |b.probers| ==> KeyOf(b.probers[j]) in prev.byKey) ==>
        b.nextUid == e.nextUid && b.born == e.born)
  }

  ghost predicate PreviousIndexed(prev: Old) {
    OldOk(prev) && forall k :: k in prev.byKey ==> KeyOf(prev.probers[prev.byKey[k]]) == k
  }

  // ---- its steps --------------------------------------------------------

  lemma SubscribersStep(clients: seq<Client>, done: seq<Subscriber>, s: Subscriber, key: string)
    ensures SubscribersOf(clients, done + [s], key)
         == if Wants(clients, s, key) then SubscribersOf(clients, done, key) + [s]
           else SubscribersOf(clients, done, key)
  {
    assert (done + [s])[..|done|] == done;
  }

  lemma DisabledStep(b: Build, clients: seq<Client>, done: seq<Subscriber>, wanted: seq<string>, s: Subscriber)
    requires Partitioned(b, clients, done, wanted) && ValidSlot(clients, s) && s !in done
    requires !DestinationAt(clients, s).enabled
    ensures ValidSlot(b.clients, s)
    ensures Partitioned(b.(clients := SetProberIndex(b.clients, s, -1)), clients, done + [s], wanted)
  {
    hide SlotKey, SubscribersOf, KeyOf, SetProberIndex, Distinct;
    SameKeys(clients, b.clients, s);
    var b' := b.(clients := SetProberIndex(b.clients, s, -1));
    SetProberIndexSame(b.clients, s, -1);
    SameTransitive(clients, b.clients, b'.clients);
    forall key { SubscribersStep(clients, done, s, key); }
    IndicesStep(b, b', clients, done, s, -1);
  }

  lemma IndicesStep(b: Build, b': Build, clients: seq<Client>, done: seq<Subscriber>, s: Subscriber, index: int)
    requires IndicesRight(b, clients, done) && ValidSlot(clients, s) && s !in done && ValidSlot(b.clients, s)
    requires b'.clients == SetProberIndex(b.clients, s, index) && b'.byKey == b.byKey
    requires index == if !DestinationAt(clients, s).enabled then -1
      else if SlotKey(clients, s) in b.byKey then b.byKey[SlotKey(clients, s)] else -2
    ensures IndicesRight(b', clients, done + [s])
  {
    hide SlotKey, SetProberIndex;
    SetProberIndexSame(b.clients, s, index);
    SameTransitive(clients, b.clients, b'.clients);
    forall i | 0 <= i < |done + [s]|
      ensures ValidSlot(clients, (done + [s])[i]) && IndexRight(b', clients, (done + [s])[i])
    {
      var t := (done + [s])[i];
      SameKeys(clients, b.clients, t) ;
      SameKeys(clients, b'.clients, t);
      if i < |done| {
        assert t == done[i] && t in done;
      }
    }
  }

  /** Subscribing to an open key. */
  lemma SubscribeStep(b: Build, clients: seq<Client>, done: seq<Subscriber>, wanted: seq<string>, s: Subscriber,
                      index: nat)
    requires Partitioned(b, clients, done, wanted) && ByKeyOk(b)
    requires ValidSlot(clients, s) && s !in done && DestinationAt(clients, s).enabled
    requires SlotKey(clients, s) in b.byKey && index == b.byKey[SlotKey(clients, s)] < |b.probers|
    ensures ValidSlot(b.clients, s)
    ensures Partitioned(Subscribe(b, s, index), clients, done + [s], wanted)
  {
    SameKeys(clients, b.clients, s);
    var b' := Subscribe(b, s, index);
    hide SubscribersOf, SetProberIndex, SlotKey, Key;
    SetProberIndexSame(b.clients, s, index);
    SameTransitive(clients, b.clients, b'.clients);
    assert wanted[index] == SlotKey(clients, s);
    forall j | 0 <= j < |wanted| ensures b'.probers[j].subscribers == SubscribersOf(clients, done + [s], wanted[j]) {
      SubscribersStep(clients, done, s, wanted[j]);
      if j != index {
        assert wanted[j] != wanted[index];
      }
    }
    IndicesStep(b, b', clients, done, s, index);
  }

  /** Opening a key that no visited destination wants. */
  lemma OpenStep(b: Build, b': Build, clients: seq<Client>, done: seq<Subscriber>, wanted: seq<string>, p: Prober)
    requires Partitioned(b, clients, done, wanted)
    requires KeyOf(p) !in b.byKey && SubscribersOf(clients, done, KeyOf(p)) == [] && p.subscribers == []
    requires b'.clients == b.clients && b'.probers == b.probers + [p] && b'.byKey == b.byKey[KeyOf(p) := |b.probers|]
    requires forall i :: 0 <= i < |done| ==> ValidSlot(clients, done[i]) && !Wants(clients, done[i], KeyOf(p))
    ensures Partitioned(b', clients, done, wanted + [KeyOf(p)])
  {
    hide SubscribersOf, KeyOf, SlotKey, DestinationAt;
    assert KeyOf(p) !in wanted;
    forall i | 0 <= i < |done| ensures IndexRight(b', clients, done[i]) {
      SameKeys(clients, b.clients, done[i]);
    }
  }

  /** Subscribers are no part of where a prober comes from. */
  lemma ResubscribedOrigin(p: Prober, q: Prober, prev: Old, firstUid: nat, b: Build, b': Build, now: nat,
                           numeric: string -> Endpoint)
    requires OldOk(prev) && Origin(p, prev, firstUid, b, now, numeric)
    requires q == p.(subscribers := q.subscribers) && b'.nextUid == b.nextUid && b'.born == b.born
    ensures KeyOf(q) == KeyOf(p) && Origin(q, prev, firstUid, b', now, numeric)
  {
    hide Key, NewProber;
  }

  lemma SubscribeOrigins(b: Build, s: Subscriber, index: nat, prev: Old, e: State, now: nat,
                         numeric: string -> Endpoint)
    requires OldOk(prev) && ByKeyOk(b) && ValidSlot(b.clients, s) && index < |b.probers|
    requires Origins(b, prev, e, now, numeric)
    ensures Origins(Subscribe(b, s, index), prev, e, now, numeric)
  {
    hide SetProberIndex, KeyOf, NewProber, Origin;
    var b' := Subscribe(b, s, index);
    assert |b'.probers| == |b.probers|;
    forall j | 0 <= j < |b.probers|
      ensures KeyOf(b'.probers[j]) == KeyOf(b.probers[j]) && b'.probers[j].uid == b.probers[j].uid
      ensures Origin(b'.probers[j], prev, e.nextUid, b', now, numeric)
    {
      assert b'.probers[j] == b.probers[j].(subscribers := b'.probers[j].subscribers);
      ResubscribedOrigin(b.probers[j], b'.probers[j], prev, e.nextUid, b, b', now, numeric);
    }
    hide Subscribe;
  }

  lemma RecycleOrigins(b: Build, b': Build, key: string, prev: Old, e: State, now: nat, numeric: string -> Endpoint)
    requires PreviousIndexed(prev) && Origins(b, prev, e, now, numeric) && key in prev.byKey && key !in b.byKey
    requires b' == b.(byKey := b.byKey[key := |b.probers|],
                      probers := b.probers + [prev.probers[prev.byKey[key]].(subscribers := [])],
                      consumed := b.consumed + {prev.byKey[key]})
    ensures Origins(b', prev, e, now, numeric) && KeyOf(b'.probers[|b.probers|]) == key
  {
    hide Key, NewProber;
    var p := prev.probers[prev.byKey[key]].(subscribers := []);
    assert KeyOf(p) == key;
    hide KeyOf;
    forall j | 0 <= j < |b'.probers| ensures Origin(b'.probers[j], prev, e.nextUid, b', now, numeric) {
      if j < |b.probers| {
        assert b'.probers[j] == b.probers[j] && Origin(b.probers[j], prev, e.nextUid, b, now, numeric);
      }
    }
    if forall j :: 0 <= j < |b'.probers| ==> KeyOf(b'.probers[j]) in prev.byKey {
      assert forall j :: 0 <= j < |b.probers| ==> b'.probers[j] == b.probers[j];
    }
  }

  /** The probers that were there before a fresh one: still of the same origin, with smaller uids. */
  lemma FreshOrigin(b: Build, b': Build, p: Prober, prev: Old, e: State, now: nat, numeric: string -> Endpoint)
    requires PreviousIndexed(prev) && Origins(b, prev, e, now, numeric) && p.uid == b.nextUid
    requires b' == b.(byKey := b.byKey[KeyOf(p) := |b.probers|], probers := b.probers + [p],
                      nextUid := b.nextUid + 1, born := b.born[b.nextUid := now])
    ensures forall j :: 0 <= j < |b.probers| ==> Origin(b'.probers[j], prev, e.nextUid, b', now, numeric)
    ensures forall j :: 0 <= j < |b.probers| && KeyOf(b'.probers[j]) !in prev.byKey ==> b'.probers[j].uid < p.uid
  {
    hide KeyOf, NewProber;
    forall j | 0 <= j < |b.probers|
      ensures Origin(b'.probers[j], prev, e.nextUid, b', now, numeric)
      ensures KeyOf(b'.probers[j]) !in prev.byKey ==> b'.probers[j].uid < p.uid
    {
      assert b'.probers[j] == b.probers[j] && Origin(b.probers[j], prev, e.nextUid, b, now, numeric);
    }
  }

  lemma FreshOrigins(b: Build, b': Build, p: Prober, prev: Old, e: State, now: nat, numeric: string -> Endpoint)
    requires PreviousIndexed(prev) && Origins(b, prev, e, now, numeric) && KeyOf(p) !in prev.byKey
    requires KeyOf(p) !in b.byKey
    requires forall u :: u in e.born ==> u < e.nextUid
    requires p == NewProber(p.host, p.intervalUs, p.timeoutUs, b.nextUid, numeric(p.host), now)
    requires b' == b.(byKey := b.byKey[KeyOf(p) := |b.probers|], probers := b.probers + [p],
                      nextUid := b.nextUid + 1, born := b.born[b.nextUid := now])
    ensures Origins(b', prev, e, now, numeric)
  {
    assert p.uid == b.nextUid && p.subscribers == [];
    hide KeyOf, NewProber;
    assert Origin(p, prev, e.nextUid, b', now, numeric);
    FreshOrigin(b, b', p, prev, e, now, numeric);
    hide Origin;
    assert b'.probers[|b.probers|] == p;
  }

  /** A new key finds its prober in the previous table, never consumed before, or gets a fresh uid. */
  lemma AddProberEffect(b: Build, host: string, intervalUs: nat, timeoutUs: nat, prev: Old, e: State, now: nat,
                        numeric: string -> Endpoint) returns (p: Prober)
    requires PreviousIndexed(prev) && ByKeyOk(b) && Origins(b, prev, e, now, numeric)
    requires Key(host, intervalUs, timeoutUs) !in b.byKey
    requires forall u :: u in e.born ==> u < e.nextUid
    ensures var r := AddProber(b, host, intervalUs, timeoutUs, prev, now, numeric);
      Origins(r, prev, e, now, numeric) && r.probers == b.probers + [p] && r.clients == b.clients
      && r.byKey == b.byKey[KeyOf(p) := |b.probers|]
    ensures KeyOf(p) == Key(host, intervalUs, timeoutUs) && p.subscribers == []
  {
    var key := Key(host, intervalUs, timeoutUs);
    var r := AddProber(b, host, intervalUs, timeoutUs, prev, now, numeric);
    p := r.probers[|b.probers|];
    if key in prev.byKey {
      assert prev.byKey[key] !in b.consumed;
      RecycleOrigins(b, r, key, prev, e, now, numeric);
    } else {
      FreshOrigins(b, r, p, prev, e, now, numeric);
    }
  }

  lemma WantedStep(clients: seq<Client>, done: seq<Subscriber>, s: Subscriber)
    requires ValidSlot(clients, s)
    ensures Wanted(clients, done + [s])
         == if DestinationAt(clients, s).enabled && SlotKey(clients, s) !in Wanted(clients, done)
            then Wanted(clients, done) + [SlotKey(clients, s)] else Wanted(clients, done)
  {
    assert (done + [s])[..|done|] == done;
  }

  /** One turn of the double loop. */
  lemma EnrollStep(b: Build, clients: seq<Client>, done: seq<Subscriber>, s: Subscriber, prev: Old, e: State, now: nat,
                   numeric: string -> Endpoint)
    requires PreviousIndexed(prev) && ByKeyOk(b) && ValidSlot(clients, s) && s !in done
    requires forall u :: u in e.born ==> u < e.nextUid
    requires Partitioned(b, clients, done, Wanted(clients, done)) && Origins(b, prev, e, now, numeric)
    ensures ValidSlot(b.clients, s)
    ensures Partitioned(Enroll(b, s, prev, now, numeric), clients, done + [s], Wanted(clients, done + [s]))
    ensures Origins(Enroll(b, s, prev, now, numeric), prev, e, now, numeric)
  {
    hide Partitioned, Origins, SubscribersOf, Wants, SlotKey;
    SameClients(b, clients, done, Wanted(clients, done));
    SameKeys(clients, b.clients, s);
    WantedStep(clients, done, s);
    if !DestinationAt(clients, s).enabled {
      DisabledStep(b, clients, done, Wanted(clients, done), s);
      OriginsOfSame(b, b.(clients := SetProberIndex(b.clients, s, -1)), prev, e, now, numeric);
    } else {
      EnabledStep(b, clients, done, s, prev, e, now, numeric);
    }
  }

  lemma OriginsOfSame(b: Build, b': Build, prev: Old, e: State, now: nat, numeric: string -> Endpoint)
    requires OldOk(prev) && Origins(b, prev, e, now, numeric) && b' == b.(clients := b'.clients)
    ensures Origins(b', prev, e, now, numeric)
  {
    hide KeyOf, NewProber;
    forall j | 0 <= j < |b'.probers| ensures Origin(b'.probers[j], prev, e.nextUid, b', now, numeric) {
      assert Origin(b.probers[j], prev, e.nextUid, b, now, numeric);
    }
  }

  lemma EnabledStep(b: Build, clients: seq<Client>, done: seq<Subscriber>, s: Subscriber, prev: Old, e: State,
                    now: nat, numeric: string -> Endpoint)
    requires PreviousIndexed(prev) && ByKeyOk(b) && ValidSlot(clients, s) && s !in done
    requires DestinationAt(clients, s).enabled
    requires forall u :: u in e.born ==> u < e.nextUid
    requires Partitioned(b, clients, done, Wanted(clients, done)) && Origins(b, prev, e, now, numeric)
    ensures ValidSlot(b.clients, s)
    ensures Partitioned(Enroll(b, s, prev, now, numeric), clients, done + [s], Wanted(clients, done + [s]))
    ensures Origins(Enroll(b, s, prev, now, numeric), prev, e, now, numeric)
  {
    hide Partitioned, Origins, AddProber, Subscribe, SubscribersOf;
    SameClients(b, clients, done, Wanted(clients, done));
    SameKeys(clients, b.clients, s);
    WantedStep(clients, done, s);
    var key := SlotKey(clients, s);
    KeysKnown(b, clients, done, Wanted(clients, done), key);
    if key in b.byKey {
      SubscribeStep(b, clients, done, Wanted(clients, done), s, b.byKey[key]);
      SubscribeOrigins(b, s, b.byKey[key], prev, e, now, numeric);
    } else {
      var client, d := b.clients[s.client], DestinationAt(b.clients, s);
      var b1 := AddProber(b, d.address, client.intervalUs, client.timeoutUs, prev, now, numeric);
      var p := AddProberEffect(b, d.address, client.intervalUs, client.timeoutUs, prev, e, now, numeric);
      assert KeyOf(p) == key;
      WantedIff(clients, done, key);
      AllVisited(b, clients, done, Wanted(clients, done));
      forall i | 0 <= i < |done| ensures ValidSlot(clients, done[i]) && !Wants(clients, done[i], key) {
        assert done[i] in done;
      }
      OpenStep(b, b1, clients, done, Wanted(clients, done), p);
      SubscribeStep(b1, clients, done, Wanted(clients, done) + [key], s, b1.byKey[key]);
      SubscribeOrigins(b1, s, b1.byKey[key], prev, e, now, numeric);
    }
  }

  lemma SameClients(b: Build, clients: seq<Client>, done: seq<Subscriber>, wanted: seq<string>)
    requires Partitioned(b, clients, done, wanted)
    ensures SameButIndices(clients, b.clients)
  {
  }

  lemma KeysKnown(b: Build, clients: seq<Client>, done: seq<Subscriber>, wanted: seq<string>, key: string)
    requires Partitioned(b, clients, done, wanted)
    ensures key in b.byKey <==> key in wanted
  {
  }

  lemma AllVisited(b: Build, clients: seq<Client>, done: seq<Subscriber>, wanted: seq<string>)
    requires Partitioned(b, clients, done, wanted)
    ensures forall i :: 0 <= i < |done| ==> ValidSlot(clients, done[i])
  {
  }

  /** The whole double loop, from any point of it. */
  lemma {:induction false} EnrollAllPartitions(b: Build, clients: seq<Client>, done: seq<Subscriber>,
                                               slots: seq<Subscriber>, prev: Old, e: State, now: nat,
                                               numeric: string -> Endpoint)
    requires PreviousIndexed(prev) && ByKeyOk(b) && Distinct(done + slots)
    requires forall k :: 0 <= k < |slots| ==> ValidSlot(clients, slots[k]) && ValidSlot(b.clients, slots[k])
    requires forall u :: u in e.born ==> u < e.nextUid
    requires Partitioned(b, clients, done, Wanted(clients, done)) && Origins(b, prev, e, now, numeric)
    ensures var r := EnrollAll(b, slots, prev, now, numeric);
      Partitioned(r, clients, done + slots, Wanted(clients, done + slots)) && Origins(r, prev, e, now, numeric)
    decreases |slots|
  {
    hide Partitioned, Origins, Enroll, Wanted, ValidSlot;
    if slots == [] {
      assert done + slots == done;
    } else {
      var s := slots[0];
      assert s !in done by {
        assert (done + slots)[|done|] == s;
        assert forall i :: 0 <= i < |done| ==> (done + slots)[i] == done[i];
      }
      EnrollStep(b, clients, done, s, prev, e, now, numeric);
      EnrollStaysValid(b, slots, prev, now, numeric);
      assert done + [s] + slots[1..] == done + slots;
      EnrollAllPartitions(Enroll(b, s, prev, now, numeric), clients, done + [s], slots[1..], prev, e, now, numeric);
    }
  }

  /** What the double loop makes of any previous table. */
  lemma BuiltPartitions(e: State, now: nat, numeric: string -> Endpoint)
    requires forall u :: u in e.born ==> u < e.nextUid
    ensures var b := Built(e, now, numeric);
      Partitioned(b, e.clients, Slots(e.clients), Wanted(e.clients, Slots(e.clients)))
      && Origins(b, OldOf(e), e, now, numeric)
  {
    hide Partitioned, Origins, KeyOf, SlotsFrom, IndexByKey, EnrollAll, Wanted, Distinct;
    SlotsFromDistinct(e.clients, 0, 0);
    PreviousIsIndexed(e);
    StartPartitioned(e, now, numeric);
    assert [] + Slots(e.clients) == Slots(e.clients);
    EnrollAllPartitions(StartBuild(e), e.clients, [], Slots(e.clients), OldOf(e), e, now, numeric);
  }

  lemma PreviousIsIndexed(e: State)
    ensures PreviousIndexed(OldOf(e))
  {
    IndexByKeyFinds(e.probers);
  }

  lemma StartPartitioned(e: State, now: nat, numeric: string -> Endpoint)
    ensures Partitioned(StartBuild(e), e.clients, [], Wanted(e.clients, []))
    ensures Origins(StartBuild(e), OldOf(e), e, now, numeric)
  {
    hide KeyOf, IndexByKey;
    assert SameButIndices(e.clients, e.clients) by {
      hide *;
      SameSelf(e.clients);
    }
  }
}
