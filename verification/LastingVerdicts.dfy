/** Verdicts across reconfigurations: a destination that the configuration keeps, with its threshold and sensitivity,
    goes on from the samples that it has had. */
module LastingVerdicts {
  import opened Hysteresis
  import opened Engine
  import opened Rebuild
  import opened RebuildTheorems
  import opened ReloadIdentity
  import opened System
  import opened SystemTheorems
  import opened Histories
  import EngineInvariant

  /** The loaded destination at `t` is the one at `s`, as far as its history goes: the same client, id and address,
      and the same threshold and sensitivity. */
  predicate KeptAt(clients: seq<Client>, s: Subscriber, loaded: seq<Client>, t: Subscriber) {
    ValidSlot(clients, s) && ValidSlot(loaded, t) && loaded[t.client].id == clients[s.client].id
    && var d, x := DestinationAt(clients, s), DestinationAt(loaded, t);
       x.id == d.id && x.address == d.address && x.thresholdUs == d.thresholdUs && x.sensitivity == d.sensitivity
  }

  lemma CarriedStands(clients: seq<Client>, s: Subscriber, loaded: seq<Client>, t: Subscriber)
    requires UniqueIds(clients) && KeptAt(clients, s, loaded, t)
    ensures var r := CarryAll(loaded, clients);
      ValidSlot(r, t) && StandsAlike(DestinationAt(clients, s), DestinationAt(r, t))
  {
    hide StandsAlike;
    CarriesItsClient(loaded[t.client], clients, s.client);
    CarriesItself(DestinationAt(loaded, t), clients[s.client].destinations, s.destination);
    CarriedAlike(DestinationAt(loaded, t), DestinationAt(clients, s));
  }

  lemma CarriedAlike(d: Destination, prev: Destination)
    requires d.thresholdUs == prev.thresholdUs && d.sensitivity == prev.sensitivity
    ensures StandsAlike(prev, CarryFields(d, prev))
  {
  }

  lemma IndexedAlike(a: seq<Client>, b: seq<Client>, t: Subscriber)
    requires SameButIndices(a, b) && ValidSlot(a, t)
    ensures ValidSlot(b, t) && StandsAlike(DestinationAt(a, t), DestinationAt(b, t))
  {
    assert SameClient(a[t.client], b[t.client]);
  }

  /** A reload keeps the history of every destination that it keeps. */
  lemma ReloadShows(w: System, now: nat, loaded: seq<Client>, numeric: string -> Endpoint, s: Subscriber, t: Subscriber,
                    h: seq<Sample>)
    requires SystemInv(w, numeric) && Enabled(w, Configure(now, loaded))
    requires UniqueIds(w.engine.clients) && KeptAt(w.engine.clients, s, loaded, t)
    requires ShowsHistory(DestinationAt(w.engine.clients, s), h)
    ensures ProbersClamped(w.engine.probers)
    ensures var r := Reload(w.engine, loaded, now, numeric);
      ValidSlot(r.clients, t) && ShowsHistory(DestinationAt(r.clients, t), h)
  {
    hide ShowsHistory, StandsAlike, CarryAll, RebuildProbers, SameButIndices, UniqueIds, KeptAt;
    var e := w.engine;
    InvIndexes(e, w.clock);
    var e1 := e.(clients := CarryAll(loaded, e.clients));
    ClientsAsideInv(w, loaded, numeric);
    CarryKeepsClamps(loaded, e.clients);
    RebuildAll(e1, now, numeric, w.clock);
    CarriedStands(e.clients, s, loaded, t);
    KeptSlot(e.clients, s, loaded, t);
    ShowsAlike(DestinationAt(e.clients, s), DestinationAt(e1.clients, t), h);
    var r := RebuildProbers(e1, now, numeric);
    IndexedAlike(e1.clients, r.clients, t);
    ShowsAlike(DestinationAt(e1.clients, t), DestinationAt(r.clients, t), h);
  }

  lemma KeptSlot(clients: seq<Client>, s: Subscriber, loaded: seq<Client>, t: Subscriber)
    requires KeptAt(clients, s, loaded, t)
    ensures ValidSlot(clients, s) && ValidSlot(loaded, t)
  {
  }

  lemma ClientsAsideInv(w: System, loaded: seq<Client>, numeric: string -> Endpoint)
    requires SystemInv(w, numeric)
    ensures EngineInvariant.Inv(w.engine.(clients := CarryAll(loaded, w.engine.clients)), w.clock)
  {
    EngineInvariant.ClientsAside(w.engine, CarryAll(loaded, w.engine.clients), w.clock);
  }

  // ---- following one destination ----------------------------------------

  /** `slots` follows one destination from instant `k` on: it stays where it is, and moves at a reconfiguration to
      where the loaded configuration has it. */
  ghost predicate Follows(trace: seq<System>, steps: seq<Step>, k: nat, slots: seq<Subscriber>)
    requires k + |slots| <= |trace| == |steps| + 1 && slots != []
  {
    ValidSlot(trace[k].engine.clients, slots[0])
    && forall j :: 0 <= j < |slots| - 1 ==>
        FollowsStep(trace[k + j].engine.clients, steps[k + j], slots[j], slots[j + 1])
  }

  ghost predicate FollowsStep(clients: seq<Client>, step: Step, s: Subscriber, t: Subscriber) {
    if step.Configure? then UniqueIds(clients) && KeptAt(clients, s, step.loaded, t) else t == s
  }

  /** The samples of its prober, whichever it was, from each of these states to the next. */
  ghost function SamplesAlong(es: seq<State>, slots: seq<Subscriber>): seq<Sample>
    requires |slots| <= |es|
    decreases |slots|
  {
    if |slots| <= 1 then []
    else
      var n, s := |slots| - 2, slots[|slots| - 2];
      SamplesAlong(es, slots[..n + 1])
      + if ValidSlot(es[n].clients, s) then NewSamples(es[n], es[n + 1], DestinationAt(es[n].clients, s).prober) else []
  }

  /** The engine at every instant from `k` on. */
  ghost function EnginesFrom(trace: seq<System>, k: nat): (r: seq<State>)
    requires k <= |trace|
    ensures |r| == |trace| - k && forall j :: 0 <= j < |r| ==> r[j] == trace[k + j].engine
  {
    seq(|trace| - k, j requires 0 <= j < |trace| - k => trace[k + j].engine)
  }

  lemma StepShows(w: System, step: Step, numeric: string -> Endpoint, s: Subscriber, t: Subscriber, h: seq<Sample>)
    requires SystemInv(w, numeric) && Enabled(w, step) && ValidSlot(w.engine.clients, s)
    requires FollowsStep(w.engine.clients, step, s, t) && ShowsHistory(DestinationAt(w.engine.clients, s), h)
    ensures ProbersClamped(w.engine.probers) && Indexed(w.engine)
    ensures var e, r := w.engine, Next(w, step, numeric).engine;
      ValidSlot(r.clients, t)
      && ShowsHistory(DestinationAt(r.clients, t), h + NewSamples(e, r, DestinationAt(e.clients, s).prober))
  {
    hide SystemInv, Enabled, Next, ShowsHistory, JudgeAll, SamplesOf, FollowsStep, NewSamples;
    StepKeepsSystemInv(w, step, numeric);
    if step.Configure? {
      ConfigureShows(w, step, numeric, s, t, h);
    } else {
      StaysInPlace(w.engine.clients, step, s, t);
      var more := StepHeard(w, step, numeric, s);
      HeardIsNew(w.engine, Next(w, step, numeric).engine, s, more);
      ShowsMore(DestinationAt(w.engine.clients, s), h, more);
    }
  }

  lemma StaysInPlace(clients: seq<Client>, step: Step, s: Subscriber, t: Subscriber)
    requires FollowsStep(clients, step, s, t) && !step.Configure?
    ensures t == s
  {
  }

  lemma HeardIsNew(e: State, r: State, s: Subscriber, more: seq<Sample>)
    requires Heard(e, r, s, more)
    ensures ValidSlot(e.clients, s) && ValidSlot(r.clients, s)
    ensures NewSamples(e, r, DestinationAt(e.clients, s).prober) == more
    ensures DestinationAt(r.clients, s) == JudgeAll(DestinationAt(e.clients, s), more)
  {
    hide SamplesOf, JudgeAll, ValidSlot;
  }

  lemma ReloadSilent(e: State, loaded: seq<Client>, now: nat, numeric: string -> Endpoint)
    requires Clamped(loaded) && ProbersClamped(e.probers)
    ensures Reload(e, loaded, now, numeric).log == e.log
  {
  }

  lemma ConfigureShows(w: System, step: Step, numeric: string -> Endpoint, s: Subscriber, t: Subscriber,
                       h: seq<Sample>)
    requires SystemInv(w, numeric) && Enabled(w, step) && ValidSlot(w.engine.clients, s) && step.Configure?
    requires FollowsStep(w.engine.clients, step, s, t) && ShowsHistory(DestinationAt(w.engine.clients, s), h)
    ensures ProbersClamped(w.engine.probers) && Indexed(w.engine)
    ensures var e, r := w.engine, Next(w, step, numeric).engine;
      ValidSlot(r.clients, t)
      && ShowsHistory(DestinationAt(r.clients, t), h + NewSamples(e, r, DestinationAt(e.clients, s).prober))
  {
    hide SystemInv, ShowsHistory, SamplesOf, RebuildProbers, CarryAll, UniqueIds, KeptAt, ValidSlot;
    StepKeepsSystemInv(w, step, numeric);
    ReloadShows(w, step.now, step.loaded, numeric, s, t, h);
    var e, r := w.engine, Next(w, step, numeric).engine;
    ReloadSilent(e, step.loaded, step.now, numeric);
    assert NewSamples(e, r, DestinationAt(e.clients, s).prober) == [];
    assert h + [] == h;
  }

  /** Over any part of any run, reconfigurations and all: a destination that the configuration keeps, with its threshold
      and sensitivity, shows the verdict of the samples that its probers have had, in their order, from the first on. */
  lemma {:induction false} RunKeepsVerdict(trace: seq<System>, steps: seq<Step>, numeric: string -> Endpoint, k: nat,
                                           slots: seq<Subscriber>, h: seq<Sample>)
    requires Run(trace, steps, numeric) && slots != [] && k + |slots| <= |trace| && Follows(trace, steps, k, slots)
    requires ShowsHistory(DestinationAt(trace[k].engine.clients, slots[0]), h)
    ensures var e, s := trace[k + |slots| - 1].engine, slots[|slots| - 1];
      ValidSlot(e.clients, s)
      && ShowsHistory(DestinationAt(e.clients, s), h + SamplesAlong(EnginesFrom(trace, k), slots))
      && ShowsMeasured(DestinationAt(e.clients, s), h + SamplesAlong(EnginesFrom(trace, k), slots))
    decreases |slots|
  {
    hide SystemInv, Next, Enabled, ShowsHistory, ShowsMeasured, FollowsStep, NewSamples, ValidSlot;
    var n := |slots| - 1;
    if n == 0 {
      assert h + [] == h;
    } else {
      var front := slots[..n];
      RunKeepsVerdict(trace, steps, numeric, k, front, h);
      var w := trace[k + n - 1];
      RunInvariant(trace, steps, numeric, k + n - 1);
      var s, along := slots[n - 1], SamplesAlong(EnginesFrom(trace, k), front);
      assert FollowsStep(w.engine.clients, steps[k + n - 1], s, slots[n]);
      StepShows(w, steps[k + n - 1], numeric, s, slots[n], h + along);
      assert Leads(w, steps[k + n - 1], trace[k + n], numeric);
      var more := NewSamples(w.engine, trace[k + n].engine, DestinationAt(w.engine.clients, s).prober);
      assert SamplesAlong(EnginesFrom(trace, k), slots) == along + more;
      assert h + along + more == h + (along + more);
    }
    HistoryIsMeasured(DestinationAt(trace[k + n].engine.clients, slots[n]),
                      h + SamplesAlong(EnginesFrom(trace, k), slots));
  }
}
