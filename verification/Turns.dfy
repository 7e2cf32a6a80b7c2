/** Whole runs of the event loop: what holds after every turn of them, when answers are inside the maximum wait, and
    how turns from a cold start and the work of the resolver's thread between them are steps of the whole daemon. */
module Turns {
  import opened Engine
  import opened EngineInvariant
  import opened Scheduling
  import opened Rebuild
  import opened RebuildTheorems
  import opened System
  import opened SystemTheorems
  import opened Loop

  // ---- runs of the loop -------------------------------------------------

  /** Each state leads to the next by one turn, and each turn begins after the one before it has ended. */
  ghost predicate LoopRun(ls: seq<Loop>, xs: seq<Inputs>, start: nat) {
    |ls| == |xs| + 1 && forall k :: 0 <= k < |xs| ==>
      InOrder(xs[k], EndOf(xs, k, start)) && Clamped(xs[k].loaded) && TurnLeads(ls[k], xs[k], ls[k + 1])
  }

  /** The last clock reading of the first `k` turns. */
  function EndOf(xs: seq<Inputs>, k: nat, start: nat): nat
    requires k <= |xs|
  {
    if k == 0 then start else xs[k - 1].publishNow
  }

  ghost predicate TurnLeads(l: Loop, x: Inputs, r: Loop)
    requires Clamped(x.loaded)
  {
    Indexed(l.engine) && ProbersClamped(Receive(l, x).engine.probers) ==> r == Turn(l, x)
  }

  /** After every turn of every run of the loop, from any sound state: the invariant holds, and as long as the loop
      goes on the next deadline is ahead exactly if no prober sits at its cap with a send overdue, changes of state
      are published and other news waits no longer than the publishing interval. */
  lemma {:induction false} RunProgress(ls: seq<Loop>, xs: seq<Inputs>, start: nat, k: nat)
    requires LoopRun(ls, xs, start) && k < |ls| && Inv(ls[0].engine, start) && Remembered(ls[0], start)
    ensures Inv(ls[k].engine, EndOf(xs, k, start)) && Remembered(ls[k], EndOf(xs, k, start))
    ensures k > 0 && ls[k].running ==> Progressed(ls[k], xs[k - 1])
  {
    hide Inv, Remembered, Progressed, Clamped, InOrder, Turn, Receive;
    if k > 0 {
      RunProgress(ls, xs, start, k - 1);
      TurnProgress(ls[k - 1], xs[k - 1], EndOf(xs, k - 1, start));
      assert TurnLeads(ls[k - 1], xs[k - 1], ls[k]);
    }
  }

  // ---- answers inside the maximum wait ----------------------------------

  /** What a turn handles before its replies. */
  function Resolved(l: Loop, x: Inputs): State
    requires Indexed(l.engine)
  {
    HandleResolutions(l.engine, x.after, x.results)
  }

  lemma TurnLeavesNoneDue(l: Loop, x: Inputs, clock: nat)
    requires Inv(l.engine, clock) && InOrder(x, clock) && Clamped(x.loaded)
    requires Indexed(l.engine) && ProbersClamped(Receive(l, x).engine.probers) && Turn(l, x).running
    ensures NoneDue(Turn(l, x).engine, x.tickNow + SEND_SLACK_US)
  {
    hide Inv, HandleReplies, HandleResolutions, Reload, ProbersClamped, Clamped, Tick, Indexed, Settled;
    ResolutionsKeepInv(l.engine, x.after, x.results, clock);
    HandleRepliesKeepInv(Resolved(l, x), x.after, x.replies, x.after);
    var heard := Receive(l, x);
    assert heard.running;
    ReloadKeepsInv(heard.engine, x.loaded, x.reloadNow, x.numeric, x.after);
    TimeKeepsInv(heard.engine, x.after, x.reloadNow);
    var ready := Reconfigure(heard, x);
    WholeTickSettles(ready.engine, x.tickNow, x.sockets, x.reloadNow);
    var e := Tick(ready.engine, x.tickNow, x.sockets);
    SettledNotDue(e, x.tickNow);
    assert Turn(l, x).engine.probers == e.probers;
  }

  lemma SettledNotDue(e: State, now: nat)
    requires forall i :: 0 <= i < |e.probers| ==> Settled(e.probers[i], now)
    ensures NoneDue(e, now + SEND_SLACK_US)
  {
    forall i, k | 0 <= i < |e.probers| && 0 <= k < |e.probers[i].inFlight|
      ensures now + SEND_SLACK_US < e.probers[i].inFlight[k].deadlineUs
    {
      assert Settled(e.probers[i], now);
    }
  }

  /** In every run of the loop: an echo handled in a turn that begins no later than 2 ms after the tick of the turn
      before is inside the maximum wait, at whatever place of the batch it stands. */
  lemma PromptTurnAnswersInTime(ls: seq<Loop>, xs: seq<Inputs>, start: nat, k: nat, n: nat)
    requires LoopRun(ls, xs, start) && Inv(ls[0].engine, start) && Remembered(ls[0], start)
    requires 0 < k < |xs| && ls[k].running && xs[k].after <= xs[k - 1].tickNow + SEND_SLACK_US && n < |xs[k].replies|
    ensures Indexed(ls[k].engine)
    ensures var before := HandleReplies(Resolved(ls[k], xs[k]), xs[k].after, xs[k].replies[..n]);
      Echoes(before, xs[k].replies[n]) ==> InTime(before, xs[k].after, xs[k].replies[n])
  {
    hide Inv, Clamped, Turn, Receive, Progressed, NoneDue, InTime, Echoes, HandleReplies, HandleResolutions, Indexed;
    hide ProbersClamped, Remembered;
    RunProgress(ls, xs, start, k - 1);
    RunProgress(ls, xs, start, k);
    var t := xs[k - 1].tickNow + SEND_SLACK_US;
    TurnProgress(ls[k - 1], xs[k - 1], EndOf(xs, k - 1, start));
    assert TurnLeads(ls[k - 1], xs[k - 1], ls[k]);
    TurnLeavesNoneDue(ls[k - 1], xs[k - 1], EndOf(xs, k - 1, start));
    InvIndexes(ls[k].engine, EndOf(xs, k, start));
    ResolutionsKeepNoneDue(ls[k].engine, xs[k].after, xs[k].results, t);
    ResolutionsKeepInv(ls[k].engine, xs[k].after, xs[k].results, EndOf(xs, k, start));
    EchoesInTime(Resolved(ls[k], xs[k]), xs[k].after, xs[k].replies, n, xs[k].after, t);
  }

  // ---- turns as steps of the daemon -------------------------------------

  /** The steps can be taken from `s` one after the other, and lead to `t`. */
  ghost predicate Path(s: System, steps: seq<Step>, t: System, numeric: string -> Endpoint)
    decreases |steps|
  {
    if steps == [] then s == t
    else
      Enabled(s, steps[0]) && ProbersClamped(s.engine.probers) && Indexed(s.engine)
      && Path(Next(s, steps[0], numeric), steps[1..], t, numeric)
  }

  lemma {:induction false} PathJoins(s: System, a: seq<Step>, t: System, b: seq<Step>, u: System,
                                     numeric: string -> Endpoint)
    requires Path(s, a, t, numeric) && Path(t, b, u, numeric)
    ensures Path(s, a + b, u, numeric)
    decreases |a|
  {
    hide Enabled, Next;
    if a == [] {
      assert a + b == b;
    } else {
      assert (a + b)[1..] == a[1..] + b;
      PathJoins(Next(s, a[0], numeric), a[1..], t, b, u, numeric);
    }
  }

  lemma PathOne(s: System, step: Step, numeric: string -> Endpoint)
    requires Enabled(s, step) && ProbersClamped(s.engine.probers) && Indexed(s.engine)
    ensures Path(s, [step], Next(s, step, numeric), numeric)
  {
    assert [step][1..] == [];
  }

  /** Where a part of a turn has led the daemon: to this engine, with the loop not inside `collect`. */
  ghost predicate At(t: System, e: State, now: nat, numeric: string -> Endpoint) {
    t.engine == e && t.clock <= now && !t.draining && SystemInv(t, numeric)
  }

  /** What the resolver's thread and its queues are left with: untouched, or drained by the turn. */
  predicate ThreadLeft(s: System, t: System, drained: bool) {
    t.worker == s.worker && t.lookups == s.lookups
    && t.completed == (if drained then [] else s.completed) && t.counter == (if drained then 0 else s.counter)
  }

  /** A turn that drains the resolver is given what is completed, which may be nothing; any other is given nothing. */
  predicate Brings(x: Inputs, drains: bool, completed: seq<Result>) {
    x.results == if drains then completed else []
  }

  lemma ReceivedAt(s: System, l: Loop, x: Inputs, drains: bool) returns (steps: seq<Step>, t: System)
    requires At(s, l.engine, x.after, x.numeric) && Brings(x, drains, s.completed)
    ensures Indexed(l.engine) && Path(s, steps, t, x.numeric) && At(t, Receive(l, x).engine, x.after, x.numeric)
    ensures ThreadLeft(s, t, drains)
  {
    hide SystemInv, HandleReplies, HandleResolutions, ProbersClamped;
    steps, t := [], s;
    Bounds(s, x.numeric);
    if drains {
      steps, t := Then(s, steps, t, ReadEvent, x.numeric);
      assert t.completed == s.completed && t.engine == s.engine;
      steps, t := Then(s, steps, t, HandleResults(x.after), x.numeric);
    } else {
      assert HandleResolutions(l.engine, x.after, []) == l.engine by { NoResults(l.engine, x.after); }
    }
    Bounds(t, x.numeric);
    if l.running && !x.terminate {
      steps, t := Then(s, steps, t, Replies(x.after, x.replies), x.numeric);
    }
  }

  lemma NoResults(e: State, now: nat)
    requires Indexed(e)
    ensures HandleResolutions(e, now, []) == e
  {
  }

  lemma Bounds(s: System, numeric: string -> Endpoint)
    requires SystemInv(s, numeric)
    ensures ProbersClamped(s.engine.probers) && Indexed(s.engine)
  {
    hide Inv;
    InvIndexes(s.engine, s.clock);
  }

  /** One step more. */
  lemma Then(s: System, steps: seq<Step>, t: System, step: Step, numeric: string -> Endpoint)
    returns (more: seq<Step>, u: System)
    requires Path(s, steps, t, numeric) && SystemInv(t, numeric) && Enabled(t, step)
    ensures ProbersClamped(t.engine.probers) && Indexed(t.engine)
    ensures Path(s, more, u, numeric) && u == Next(t, step, numeric) && SystemInv(u, numeric)
  {
    hide SystemInv, Enabled, Next, Path;
    StepKeepsSystemInv(t, step, numeric);
    PathOne(t, step, numeric);
    u := Next(t, step, numeric);
    more := steps + [step];
    PathJoins(s, steps, t, [step], u, numeric);
  }

  /** A tick from prober `i` on, one prober at a time. */
  lemma {:induction false} TickedAt(s: System, steps: seq<Step>, t: System, i: nat, now: nat, sockets: Sockets,
                                    numeric: string -> Endpoint)
    returns (more: seq<Step>, u: System)
    requires Path(s, steps, t, numeric) && i <= |t.engine.probers| && At(t, t.engine, now, numeric)
    ensures Path(s, more, u, numeric) && At(u, TickFrom(t.engine, i, now, sockets), now, numeric)
    ensures ThreadLeft(t, u, false)
    decreases |t.engine.probers| - i
  {
    hide SystemInv, TickProber, Path;
    if i == |t.engine.probers| {
      more, u := steps, t;
    } else {
      more, u := Then(s, steps, t, TickOne(i, now, sockets), numeric);
      more, u := TickedAt(s, more, u, i + 1, now, sockets, numeric);
    }
  }

  lemma TurnSteps(s: System, l: Loop, x: Inputs, drains: bool) returns (steps: seq<Step>, t: System)
    requires At(s, l.engine, x.after, x.numeric) && Brings(x, drains, s.completed)
    requires InOrder(x, s.clock) && Clamped(x.loaded) && Fresh(x.loaded)
    ensures Indexed(l.engine) && ProbersClamped(Receive(l, x).engine.probers)
    ensures Path(s, steps, t, x.numeric) && At(t, Turn(l, x).engine, x.publishNow, x.numeric)
    ensures ThreadLeft(s, t, drains)
  {
    hide SystemInv, Path, Receive, Reload, Clamped, Fresh, TickFrom, Indexed, ProbersClamped;
    steps, t := ReceivedAt(s, l, x, drains);
    Bounds(t, x.numeric);
    var heard := Receive(l, x);
    if heard.running {
      if heard.configDirty {
        steps, t := Then(s, steps, t, Configure(x.reloadNow, x.loaded), x.numeric);
      }
      var ready := Reconfigure(heard, x);
      assert t.engine == ready.engine;
      steps, t := TickedAt(s, steps, t, 0, x.tickNow, x.sockets, x.numeric);
      var ticked := Tick(ready.engine, x.tickNow, x.sockets);
      var r := Finish(ready, x);
      assert r.engine == ticked || r.engine == ticked.(dataDirty := false, stateDirty := false);
      if r.engine != ticked {
        steps, t := Then(s, steps, t, Published, x.numeric);
      }
    }
  }

  /** Every turn of the loop is a sequence of steps of the daemon. */
  lemma TurnIsRun(s: System, l: Loop, x: Inputs, drains: bool)
    requires At(s, l.engine, x.after, x.numeric) && Brings(x, drains, s.completed)
    requires InOrder(x, s.clock) && Clamped(x.loaded) && Fresh(x.loaded)
    ensures Indexed(l.engine) && ProbersClamped(Receive(l, x).engine.probers)
    ensures exists steps, t :: Path(s, steps, t, x.numeric) && At(t, Turn(l, x).engine, x.publishNow, x.numeric)
  {
    hide At, Path, Receive, Clamped, Fresh, InOrder;
    var steps, t := TurnSteps(s, l, x, drains);
  }
}
