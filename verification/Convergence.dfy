/** How widgets come to agree on a value. */
module Convergence {
  import opened SharedStore

  predicate EditFree(steps: seq<Step>) {
    forall k :: 0 <= k < |steps| ==> !steps[k].Edit? && !steps[k].KeepOwn?
  }

  /** Adopted, and that adopted again, it stays the same. A value in its own spelling is one of these. */
  predicate Settles(json: string, payload: Payload) {
    OwnSpelling(payload.canon(json), payload)
  }

  ghost predicate Settled(s: World, payload: Payload) {
    Settles(s.file.json, payload)
    && forall i :: 0 <= i < |s.widgets| ==>
        Settles(s.widgets[i].local, payload) && (s.widgets[i].ready ==> s.widgets[i].local in s.widgets[i].held)
  }

  /** Every widget's value is in its own spelling; the shared one need not be. */
  ghost predicate OwnLocals(s: World, payload: Payload) {
    forall i :: 0 <= i < |s.widgets| ==> OwnSpelling(s.widgets[i].local, payload)
  }

  /** Nothing is left to publish but another spelling: whoever agrees with the file's revision holds its value, in one
      spelling or the other. `everyone` counts widgets that take no part, too. */
  ghost predicate Tame(s: World, payload: Payload, everyone: bool) {
    forall i :: 0 <= i < |s.widgets| && (everyone || Takes(s.widgets[i])) ==>
        s.widgets[i].synced < s.file.revision || Holds(s.widgets[i], s.file, payload)
  }

  predicate Holds(w: Widget, file: Shared, payload: Payload) {
    w.local == file.json || w.local == payload.canon(file.json)
  }

  /** Nothing at all is left to publish. */
  ghost predicate Calm(s: World, payload: Payload, everyone: bool) {
    OwnSpelling(s.file.json, payload) && Tame(s, payload, everyone)
  }

  /** A synchronisation that writes nothing leaves the widget agreeing with the file. */
  predicate Agrees(w: Widget, file: Shared, payload: Payload) {
    w.synced == file.revision && w.pending == 0 && w.baseline == file.json && w.local in w.held
    && Holds(w, file, payload)
  }

  lemma SyncAgrees(w: Widget, file: Shared, now: int, payload: Payload)
    requires Takes(w) && w.synced <= file.revision && w.pending <= file.revision && w.local in w.held
    ensures var r := Sync(w, file, now, payload);
      (r.writes == [] ==> Agrees(r.widget, file, payload))
      && (r.writes != [] ==>
            r.writes == [Shared(file.revision + 1, w.local)] && w.local != file.json && r.widget.local == w.local
            && w.synced == file.revision)
      && (Agrees(w, file, payload) ==> if w.local == file.json then r == Outcome(w, []) else r.writes != [])
  {
  }

  // ---- how often the file is written ------------------------------------

  lemma NoWrites(s: World, everyone: bool)
    requires Behind(s, everyone)
    ensures s.writes == []
  {
  }

  lemma StepKeepsSettled(s: World, step: Step, payload: Payload)
    requires s.writes == [] && Settled(s, payload) && Enabled(s, step, payload) && !step.Edit? && !step.KeepOwn?
    ensures Settled(Next(s, step, payload), payload)
  {
  }

  /** What widgets hold after a step they held before, or adopted in it. */
  lemma StepLocals(s: World, step: Step, payload: Payload)
    requires Enabled(s, step, payload) && !step.Edit? && !step.KeepOwn?
    ensures var t := Next(s, step, payload);
      |t.widgets| == |s.widgets|
      && forall i :: 0 <= i < |t.widgets| ==>
          t.widgets[i].local == s.widgets[i].local || t.widgets[i].local == payload.canon(s.file.json)
  {
  }

  /** Any write is some widget's value, and leaves the others behind and only another spelling to publish, if that; and
      once there is only that, it is the last. */
  lemma StepEffect(s: World, step: Step, payload: Payload, everyone: bool)
    requires Behind(s, everyone) && Settled(s, payload) && Enabled(s, step, payload)
    requires !step.Edit? && !step.KeepOwn? && (everyone || step.Synchronise?) && (step.Synchronise? ==> step.prompt)
    ensures var t := Next(s, step, payload);
      (t.file == s.file && Tame(s, payload, everyone) ==> Tame(t, payload, everyone))
      && (t.file != s.file ==> Tame(t, payload, everyone) && Offered(s, t.file))
      && (t.file != s.file && Tame(s, payload, everyone) ==>
            Respelt(s.file, t.file, payload) && Calm(t, payload, everyone))
  {
    if step.Synchronise? && Takes(s.widgets[step.i]) {
      SyncAgrees(s.widgets[step.i], s.file, step.now, payload);
    }
  }

  /** The next revision, with the value of some widget that differs. */
  predicate Offered(s: World, file: Shared) {
    file.revision == s.file.revision + 1 && file.json != s.file.json
    && exists i :: 0 <= i < |s.widgets| && file.json == s.widgets[i].local
  }

  /** The next revision, with another spelling of the same. */
  predicate Respelt(file: Shared, next: Shared, payload: Payload) {
    next == Shared(file.revision + 1, payload.canon(file.json)) && next.json != file.json
  }

  lemma StepKeeps(s: World, step: Step, payload: Payload, everyone: bool)
    requires s.writes == [] && Settled(s, payload) && Enabled(s, step, payload)
    requires !step.Edit? && !step.KeepOwn? && (everyone || step.Synchronise?) && (step.Synchronise? ==> step.prompt)
    ensures var t := Next(s, step, payload);
      t.writes == [] && Settled(t, payload) && (Behind(s, everyone) ==> Behind(t, everyone))
      && s.file.revision <= t.file.revision
  {
    hide Settled;
    StepKeepsBehind(s, step, payload, everyone);
    StepKeepsSettled(s, step, payload);
  }

  /** With only another spelling to publish, at most that is published. */
  lemma {:induction false} TameRun(s: World, steps: seq<Step>, payload: Payload, everyone: bool)
    requires Behind(s, everyone) && Settled(s, payload) && Tame(s, payload, everyone) && Runs(s, steps, payload)
    requires Prompt(steps) && EditFree(steps) && (everyone || OnlySyncs(steps))
    ensures var r := Run(s, steps, payload);
      Tame(r, payload, everyone)
      && (r.file == s.file || (Respelt(s.file, r.file, payload) && Calm(r, payload, everyone)))
    decreases |steps|
  {
    hide Behind, Settled, Tame, Next, Enabled, Offered;
    if steps != [] {
      var t := Next(s, steps[0], payload);
      NoWrites(s, everyone);
      StepKeeps(s, steps[0], payload, everyone);
      StepEffect(s, steps[0], payload, everyone);
      TameRun(t, steps[1..], payload, everyone);
    }
  }

  /** Once calm, nothing is written until the next edit. */
  lemma CalmStays(s: World, steps: seq<Step>, payload: Payload)
    requires Behind(s, true) && Settled(s, payload) && Calm(s, payload, true)
    requires Runs(s, steps, payload) && Prompt(steps) && EditFree(steps)
    ensures Run(s, steps, payload).file == s.file && Calm(Run(s, steps, payload), payload, true)
  {
    hide Settled, Tame, Run, Runs;
    TameRun(s, steps, payload, true);
  }

  /** What the file may hold after the last edit: what it held, or some widget's value or another spelling of what it
      held, written once, or another spelling of some widget's value, written after that value itself. */
  ghost predicate Published(s: World, file: Shared, payload: Payload) {
    file == s.file || Offered(s, file) || Respelt(s.file, file, payload) || TwicePublished(s, file, payload)
  }

  ghost predicate TwicePublished(s: World, file: Shared, payload: Payload) {
    exists first :: Offered(s, first) && Respelt(first, file, payload)
  }

  lemma PublishedLater(s: World, t: World, file: Shared, payload: Payload)
    requires Settled(s, payload) && t.file == s.file && Published(t, file, payload) && |t.widgets| == |s.widgets|
    requires forall i :: 0 <= i < |t.widgets| ==>
        t.widgets[i].local == s.widgets[i].local || t.widgets[i].local == payload.canon(s.file.json)
    ensures Published(s, file, payload)
  {
    forall first | Offered(t, first) && first.json != payload.canon(s.file.json) ensures Offered(s, first) {
      var i :| 0 <= i < |t.widgets| && first.json == t.widgets[i].local;
      assert first.json == s.widgets[i].local;
    }
  }

  /** After the last edit, whatever else goes on, the file is written at most twice, and nothing is made up: the second
      time it is another spelling of what some widget wrote the first time. */
  lemma {:induction false} FewPublishes(s: World, steps: seq<Step>, payload: Payload, everyone: bool)
    requires Behind(s, everyone) && Settled(s, payload) && Runs(s, steps, payload) && Prompt(steps) && EditFree(steps)
    requires everyone || OnlySyncs(steps)
    ensures var r := Run(s, steps, payload);
      Published(s, r.file, payload) && (r.file != s.file ==> Tame(r, payload, everyone))
    decreases |steps|
  {
    hide Behind, Settled, Tame, Next, Enabled, Offered, Respelt;
    if steps != [] {
      var t := Next(s, steps[0], payload);
      NoWrites(s, everyone);
      StepKeeps(s, steps[0], payload, everyone);
      StepEffect(s, steps[0], payload, everyone);
      if t.file == s.file {
        FewPublishes(t, steps[1..], payload, everyone);
        StepLocals(s, steps[0], payload);
        PublishedLater(s, t, Run(s, steps, payload).file, payload);
      } else {
        TameRun(t, steps[1..], payload, everyone);
      }
    }
  }

  /** Once at most, if every widget's value is in its own spelling; and that is what the file then holds. */
  lemma OnePublish(s: World, steps: seq<Step>, payload: Payload, everyone: bool)
    requires Behind(s, everyone) && Settled(s, payload) && Runs(s, steps, payload) && Prompt(steps) && EditFree(steps)
    requires OwnLocals(s, payload) && (everyone || OnlySyncs(steps))
    ensures var r := Run(s, steps, payload);
      r.file == s.file || (r.file.revision == s.file.revision + 1 && OwnSpelling(r.file.json, payload))
  {
    FewPublishes(s, steps, payload, everyone);
  }

  /** Two publications and four rounds do happen: one widget is edited to `a`, which the other adopts and publishes as
      it spells it, and after three rounds that has not been confirmed. */
  lemma FourRoundsHappen(payload: Payload, a: string, c: string)
    requires Settles(a, payload) && !OwnSpelling(a, payload) && OwnSpelling(c, payload) && a != c
    requires a != payload.emptyJson
    ensures var s := Next(World(Shared(1, c), [Agreed(c), Agreed(c)], []), Edit(0, a), payload);
      var r := Round10(Round10(Round10(s, payload), payload), payload);
      Behind(s, true) && Settled(s, payload) && r.file == Shared(3, payload.canon(a)) && !InStep(r.widgets[1], r.file)
  {
    var b := payload.canon(a);
    var s := Next(World(Shared(1, c), [Agreed(c), Agreed(c)], []), Edit(0, a), payload);
    var v := Widget(true, true, b, 2, a, 0, 0, {c, b});
    var s1 := Round10(s, payload);
    assert s1.file == Shared(2, a) && s1.widgets[1] == Agreed(c) && s1.widgets[0].pending == 2;
    var s2 := Round10(s1, payload);
    assert {c} + {b} == {c, b};
    assert s2.file == Shared(2, a) && s2.widgets[1] == v;
    var s3 := Round10(s2, payload);
    assert s3.file == Shared(3, b) && s3.widgets[1] == v.(pending := 3);
  }

  /** Both synchronise, the second widget first. */
  function Round10(s: World, payload: Payload): (r: World)
    requires |s.widgets| == 2
    ensures |r.widgets| == 2
  {
    Next(Next(s, Synchronise(1, 0, true), payload), Synchronise(0, 0, true), payload)
  }

  // ---- rounds -----------------------------------------------------------

  /** In step with the file: the same value, the same revision, nothing awaited. */
  predicate InStep(w: Widget, file: Shared) {
    w.local == file.json && w.synced == file.revision && w.pending == 0 && w.baseline == w.local && w.local in w.held
  }

  predicate Visits(steps: seq<Step>, i: nat) {
    exists k :: 0 <= k < |steps| && steps[k].Synchronise? && steps[k].i == i
  }

  /** Every widget that takes part synchronises at least once. */
  ghost predicate Round(s: World, steps: seq<Step>) {
    OnlySyncs(steps) && forall i :: 0 <= i < |s.widgets| && Takes(s.widgets[i]) ==> Visits(steps, i)
  }

  lemma VisitsLater(steps: seq<Step>, i: nat)
    requires steps != [] && OnlySyncs(steps)
    ensures Visits(steps, i) ==> steps[0].i == i || Visits(steps[1..], i)
  {
    if Visits(steps, i) && steps[0].i != i {
      var k :| 0 <= k < |steps| && steps[k].Synchronise? && steps[k].i == i;
      assert steps[1..][k - 1] == steps[k];
    }
  }

  ghost predicate AllInStep(s: World) {
    forall i :: 0 <= i < |s.widgets| && Takes(s.widgets[i]) ==> InStep(s.widgets[i], s.file)
  }

  ghost predicate AllAgree(s: World, payload: Payload) {
    forall i :: 0 <= i < |s.widgets| && Takes(s.widgets[i]) ==> Agrees(s.widgets[i], s.file, payload)
  }

  lemma SyncEffect(s: World, i: nat, now: int, payload: Payload)
    requires Behind(s, false) && Settled(s, payload) && i < |s.widgets|
    ensures var r := Next(s, Synchronise(i, now, true), payload);
      |r.widgets| == |s.widgets| && (Takes(s.widgets[i]) && r.file == s.file ==> Agrees(r.widgets[i], s.file, payload))
      && (Takes(s.widgets[i]) && Agrees(s.widgets[i], s.file, payload) && s.widgets[i].local != s.file.json ==>
            r.file != s.file)
  {
    if Takes(s.widgets[i]) {
      SyncAgrees(s.widgets[i], s.file, now, payload);
    }
  }

  /** In step means resting. */
  lemma SyncRests(s: World, i: nat, now: int, payload: Payload)
    requires i < |s.widgets| && (Takes(s.widgets[i]) ==> InStep(s.widgets[i], s.file))
    ensures Next(s, Synchronise(i, now, true), payload) == s
  {
    assert s.widgets[i := s.widgets[i]] == s.widgets;
    assert Sync(s.widgets[i], s.file, now, payload) == Outcome(s.widgets[i], []);
    assert s.writes + [] == s.writes;
  }

  lemma {:induction false} NothingMoves(s: World, steps: seq<Step>, payload: Payload)
    requires AllInStep(s) && Runs(s, steps, payload) && OnlySyncs(steps)
    ensures Run(s, steps, payload) == s
    decreases |steps|
  {
    hide InStep, Takes, Next;
    if steps != [] {
      assert steps[0] == Synchronise(steps[0].i, steps[0].now, true) && steps[0].i < |s.widgets|;
      SyncRests(s, steps[0].i, steps[0].now, payload);
      NothingMoves(s, steps[1..], payload);
    }
  }

  lemma SyncStays(s: World, i: nat, now: int, payload: Payload)
    requires i < |s.widgets|
    ensures var r := Next(s, Synchronise(i, now, true), payload);
      |r.widgets| == |s.widgets|
      && (forall j :: 0 <= j < |s.widgets| ==> Takes(r.widgets[j]) == Takes(s.widgets[j]))
      && (forall j :: 0 <= j < |s.widgets| && j != i ==> r.widgets[j] == s.widgets[j])
  {
  }

  lemma {:induction false} RunStays(s: World, steps: seq<Step>, payload: Payload)
    requires s.writes == [] && Settled(s, payload) && Runs(s, steps, payload) && OnlySyncs(steps)
    ensures var r := Run(s, steps, payload);
      r.writes == [] && Settled(r, payload) && (Behind(s, false) ==> Behind(r, false))
      && (OwnLocals(s, payload) ==> OwnLocals(r, payload)) && |r.widgets| == |s.widgets|
      && forall i :: 0 <= i < |s.widgets| ==> Takes(r.widgets[i]) == Takes(s.widgets[i])
    decreases |steps|
  {
    hide Behind, Settled, Takes, OwnLocals, Next;
    if steps != [] {
      assert steps[0] == Synchronise(steps[0].i, steps[0].now, true) && steps[0].i < |s.widgets|;
      StepKeeps(s, steps[0], payload, false);
      SyncStays(s, steps[0].i, steps[0].now, payload);
      StepKeepsOwn(s, steps[0], payload);
      RunStays(Next(s, steps[0], payload), steps[1..], payload);
    }
  }

  lemma StepKeepsOwn(s: World, step: Step, payload: Payload)
    requires Settled(s, payload) && Enabled(s, step, payload) && !step.Edit? && !step.KeepOwn?
    ensures OwnLocals(s, payload) ==> OwnLocals(Next(s, step, payload), payload)
  {
    StepLocals(s, step, payload);
  }

  /** While the file stays as it is, whoever synchronises agrees with it and goes on agreeing. */
  lemma {:induction false} QuietRun(s: World, steps: seq<Step>, payload: Payload, i: nat)
    requires Behind(s, false) && Settled(s, payload) && Runs(s, steps, payload) && OnlySyncs(steps)
    requires i < |s.widgets| && Takes(s.widgets[i]) && (Visits(steps, i) || Agrees(s.widgets[i], s.file, payload))
    requires Run(s, steps, payload).file == s.file
    ensures var r := Run(s, steps, payload); i < |r.widgets| && Agrees(r.widgets[i], r.file, payload)
    ensures Visits(steps, i) && Agrees(s.widgets[i], s.file, payload) ==> s.widgets[i].local == s.file.json
    decreases |steps|
  {
    hide Behind, Settled, Takes, Agrees, Next;
    if steps != [] {
      assert steps[0] == Synchronise(steps[0].i, steps[0].now, true) && steps[0].i < |s.widgets|;
      var t := Next(s, steps[0], payload);
      NoWrites(s, false);
      StepKeeps(s, steps[0], payload, false);
      NeverAhead(s, [steps[0]], payload, false);
      NeverAhead(t, steps[1..], payload, false);
      assert t.file == s.file;
      SyncEffect(s, steps[0].i, steps[0].now, payload);
      SyncStays(s, steps[0].i, steps[0].now, payload);
      VisitsLater(steps, i);
      QuietRun(t, steps[1..], payload, i);
    }
  }

  /** Any number of rounds, one after another. */
  ghost predicate Rounds(s: World, rounds: seq<seq<Step>>, payload: Payload)
    decreases |rounds|
  {
    rounds == []
    || (Runs(s, rounds[0], payload) && Round(s, rounds[0]) && Rounds(Run(s, rounds[0], payload), rounds[1..], payload))
  }

  ghost function AfterRounds(s: World, rounds: seq<seq<Step>>, payload: Payload): World
    requires Rounds(s, rounds, payload)
    decreases |rounds|
  {
    if rounds == [] then s else AfterRounds(Run(s, rounds[0], payload), rounds[1..], payload)
  }

  /** A round that writes nothing leaves all agreeing with the file, and did not find anyone with another spelling. */
  lemma QuietRound(s: World, steps: seq<Step>, payload: Payload)
    requires Behind(s, false) && Settled(s, payload) && Runs(s, steps, payload) && Round(s, steps)
    requires Run(s, steps, payload).file == s.file
    ensures AllAgree(Run(s, steps, payload), payload)
    ensures AllAgree(s, payload) ==> AllInStep(s)
  {
    hide Behind, Settled, Takes, Visits, Agrees, Run, Runs, InStep;
    NoWrites(s, false);
    RunStays(s, steps, payload);
    forall i | 0 <= i < |s.widgets| && Takes(s.widgets[i])
      ensures Agrees(Run(s, steps, payload).widgets[i], s.file, payload)
      ensures Agrees(s.widgets[i], s.file, payload) ==> InStep(s.widgets[i], s.file)
    {
      QuietRun(s, steps, payload, i);
      AgreesInStep(s.widgets[i], s.file, payload);
    }
  }

  lemma AgreesInStep(w: Widget, file: Shared, payload: Payload)
    ensures Agrees(w, file, payload) && (w.local == file.json || OwnSpelling(file.json, payload)) ==> InStep(w, file)
  {
  }

  lemma {:induction false} InStepRounds(s: World, rounds: seq<seq<Step>>, payload: Payload)
    requires AllInStep(s) && Rounds(s, rounds, payload)
    ensures AfterRounds(s, rounds, payload) == s
    decreases |rounds|
  {
    hide AllInStep, Run, Runs, Visits, Takes;
    if rounds != [] {
      NothingMoves(s, rounds[0], payload);
      InStepRounds(s, rounds[1..], payload);
    }
  }

  lemma OwnAgree(s: World, payload: Payload)
    requires AllAgree(s, payload) && OwnSpelling(s.file.json, payload)
    ensures AllInStep(s)
  {
    hide Agrees, InStep, OwnSpelling;
    forall i | 0 <= i < |s.widgets| && Takes(s.widgets[i]) ensures InStep(s.widgets[i], s.file) {
      AgreesInStep(s.widgets[i], s.file, payload);
    }
  }

  lemma AgreeIsTame(s: World, payload: Payload)
    requires AllAgree(s, payload)
    ensures Tame(s, payload, false)
  {
  }

  /** One round is enough when nothing is left to publish, */
  lemma CalmRounds(s: World, rounds: seq<seq<Step>>, payload: Payload)
    requires Behind(s, false) && Settled(s, payload) && Calm(s, payload, false) && Rounds(s, rounds, payload)
    requires |rounds| >= 1
    ensures AllInStep(AfterRounds(s, rounds, payload))
  {
    hide Behind, Settled, Tame, AllAgree, AllInStep, Run, Runs, Visits, Takes;
    TameRun(s, rounds[0], payload, false);
    QuietRound(s, rounds[0], payload);
    var t := Run(s, rounds[0], payload);
    OwnAgree(t, payload);
    InStepRounds(t, rounds[1..], payload);
  }

  /** two when all agree but for the spelling, */
  lemma AgreedRounds(s: World, rounds: seq<seq<Step>>, payload: Payload)
    requires Behind(s, false) && Settled(s, payload) && AllAgree(s, payload) && Rounds(s, rounds, payload)
    requires |rounds| >= 2
    ensures AllInStep(AfterRounds(s, rounds, payload))
  {
    hide Behind, Settled, Tame, AllAgree, AllInStep, Run, Runs, Visits, Takes;
    AgreeIsTame(s, payload);
    TameRun(s, rounds[0], payload, false);
    NoWrites(s, false);
    RunStays(s, rounds[0], payload);
    if Run(s, rounds[0], payload).file == s.file {
      QuietRound(s, rounds[0], payload);
      InStepRounds(s, rounds, payload);
    } else {
      CalmRounds(Run(s, rounds[0], payload), rounds[1..], payload);
    }
  }

  /** and three when only another spelling is left to publish. */
  lemma TameRounds(s: World, rounds: seq<seq<Step>>, payload: Payload)
    requires Behind(s, false) && Settled(s, payload) && Tame(s, payload, false) && Rounds(s, rounds, payload)
    requires |rounds| >= 3
    ensures AllInStep(AfterRounds(s, rounds, payload))
  {
    hide Behind, Settled, Tame, AllAgree, AllInStep, Run, Runs, Visits, Takes;
    TameRun(s, rounds[0], payload, false);
    NoWrites(s, false);
    RunStays(s, rounds[0], payload);
    var t := Run(s, rounds[0], payload);
    if t.file == s.file {
      QuietRound(s, rounds[0], payload);
      AgreedRounds(t, rounds[1..], payload);
    } else {
      CalmRounds(t, rounds[1..], payload);
    }
  }

  /** How many rounds it takes: two with everything in its own spelling, three if only the file is not, four
      otherwise. */
  ghost function RoundsDue(s: World, payload: Payload): nat {
    if !OwnLocals(s, payload) then 4 else if OwnSpelling(s.file.json, payload) then 2 else 3
  }

  /** After so many rounds all widgets that take part hold the file's value at the file's revision, and nothing moves
      any more, however often they synchronise. */
  lemma Agreement(s: World, rounds: seq<seq<Step>>, rest: seq<Step>, payload: Payload)
    requires Behind(s, false) && Settled(s, payload) && Rounds(s, rounds, payload) && |rounds| >= RoundsDue(s, payload)
    requires Runs(AfterRounds(s, rounds, payload), rest, payload) && OnlySyncs(rest)
    ensures var settled := AfterRounds(s, rounds, payload);
      AllInStep(settled) && Run(settled, rest, payload) == settled
  {
    hide Behind, Settled, Tame, AllAgree, AllInStep, Run, Runs, Visits, Takes, Published, OwnLocals;
    var t := Run(s, rounds[0], payload);
    NoWrites(s, false);
    RunStays(s, rounds[0], payload);
    if t.file == s.file {
      QuietRound(s, rounds[0], payload);
      if |rounds| == 2 {
        OwnAgree(t, payload);
        InStepRounds(t, rounds[1..], payload);
      } else {
        AgreedRounds(t, rounds[1..], payload);
      }
    } else {
      FewPublishes(s, rounds[0], payload, false);
      if OwnLocals(s, payload) {
        OnePublish(s, rounds[0], payload, false);
        CalmRounds(t, rounds[1..], payload);
      } else {
        TameRounds(t, rounds[1..], payload);
      }
    }
    NothingMoves(AfterRounds(s, rounds, payload), rest, payload);
  }

  // ---- widgets ahead of the file ----------------------------------------

  /** How far a widget is from being behind the file: it may wait for a write that is not there, and have agreed with a
      revision that is not there any more. */
  function Lag(w: Widget, file: Shared): nat {
    if w.pending > file.revision then 3
    else if w.synced <= file.revision then 0
    else if file.revision > 0 then 1
    else 2
  }

  /** After 5 seconds, or when it does not wait, a synchronisation brings it nearer. */
  lemma SyncCatchesUp(w: Widget, file: Shared, now: int, payload: Payload)
    requires Takes(w) && (w.pending > file.revision ==> now - w.since > 5000)
    ensures var r := Sync(w, file, now, payload);
      var lag := Lag(r.widget, if r.writes == [] then file else r.writes[0]);
      lag < Lag(w, file) || lag == 0
  {
  }

  /** These synchronisations of the widget come more than 5 seconds after it began to wait. */
  predicate Late(steps: seq<Step>, i: nat, w: Widget) {
    forall k :: 0 <= k < |steps| && steps[k].Synchronise? && steps[k].i == i ==>
      steps[k].now - w.since > 5000
  }

  predicate Waiting(w: Widget, file: Shared) {
    w.pending > file.revision
  }

  lemma SyncLag(s: World, steps: seq<Step>, i: nat, payload: Payload)
    requires s.writes == [] && steps != [] && OnlySyncs(steps) && Enabled(s, steps[0], payload)
    requires i < |s.widgets| && Takes(s.widgets[i])
    requires Waiting(s.widgets[i], s.file) ==> Late(steps, i, s.widgets[i])
    ensures var t := Next(s, steps[0], payload);
      var lag := Lag(t.widgets[i], t.file);
      lag <= Lag(s.widgets[i], s.file) && (steps[0].i == i ==> lag < Lag(s.widgets[i], s.file) || lag == 0)
      && (Waiting(t.widgets[i], t.file) ==> Late(steps[1..], i, t.widgets[i]))
  {
    assert steps[0] == Synchronise(steps[0].i, steps[0].now, true);
    assert forall k :: 0 <= k < |steps| - 1 ==> steps[1..][k] == steps[k + 1];
    if steps[0].i == i {
      SyncCatchesUp(s.widgets[i], s.file, steps[0].now, payload);
    }
  }

  lemma {:induction false} LagRun(s: World, steps: seq<Step>, i: nat, payload: Payload)
    requires s.writes == [] && Settled(s, payload) && Runs(s, steps, payload) && OnlySyncs(steps)
    requires i < |s.widgets| && Takes(s.widgets[i])
    requires Waiting(s.widgets[i], s.file) ==> Late(steps, i, s.widgets[i])
    ensures var r := Run(s, steps, payload);
      i < |r.widgets|
      && var lag := Lag(r.widgets[i], r.file);
         lag <= Lag(s.widgets[i], s.file) && (Visits(steps, i) ==> lag < Lag(s.widgets[i], s.file) || lag == 0)
    decreases |steps|
  {
    hide Settled, Takes, Next, Lag, Late, Waiting;
    if steps != [] {
      assert steps[0] == Synchronise(steps[0].i, steps[0].now, true) && steps[0].i < |s.widgets|;
      StepKeeps(s, steps[0], payload, false);
      SyncStays(s, steps[0].i, steps[0].now, payload);
      SyncLag(s, steps, i, payload);
      VisitsLater(steps, i);
      LagRun(Next(s, steps[0], payload), steps[1..], i, payload);
    }
  }

  /** Nobody that takes part is further from being behind the file. */
  ghost predicate Lagging(s: World, n: nat) {
    s.writes == [] && forall i :: 0 <= i < |s.widgets| && Takes(s.widgets[i]) ==> Lag(s.widgets[i], s.file) <= n
  }

  /** Every wait has lasted for more than 5 seconds. */
  ghost predicate LateRound(s: World, steps: seq<Step>) {
    forall i :: 0 <= i < |s.widgets| && Takes(s.widgets[i]) && Waiting(s.widgets[i], s.file) ==>
      Late(steps, i, s.widgets[i])
  }

  lemma LagRound(s: World, steps: seq<Step>, n: nat, payload: Payload)
    requires Lagging(s, n + 1) && Settled(s, payload) && Runs(s, steps, payload) && Round(s, steps)
    requires LateRound(s, steps)
    ensures Lagging(Run(s, steps, payload), n) && Settled(Run(s, steps, payload), payload)
    ensures OwnLocals(s, payload) ==> OwnLocals(Run(s, steps, payload), payload)
  {
    hide Settled, OwnLocals, Behind, Run, Runs, Visits, Takes, Lag, Late, Waiting;
    RunStays(s, steps, payload);
    var r := Run(s, steps, payload);
    forall i | 0 <= i < |r.widgets| && Takes(r.widgets[i]) ensures Lag(r.widgets[i], r.file) <= n {
      LagRun(s, steps, i, payload);
    }
  }

  lemma NoneWaits(s: World, steps: seq<Step>)
    requires Lagging(s, 2)
    ensures LateRound(s, steps)
  {
  }

  lemma NoneLags(s: World)
    requires Lagging(s, 0)
    ensures Behind(s, false)
  {
    forall i | 0 <= i < |s.widgets| && Takes(s.widgets[i])
      ensures s.widgets[i].synced <= s.file.revision && s.widgets[i].pending <= s.file.revision
    {
      assert Lag(s.widgets[i], s.file) <= 0;
    }
  }

  lemma AllLag(s: World)
    requires s.writes == []
    ensures Lagging(s, 3)
  {
  }

  lemma LaggingLess(s: World)
    requires Lagging(s, 1)
    ensures Lagging(s, 2)
  {
  }

  /** From any state without writes under way, however far widgets are ahead of the file and whatever they wait for:
      with a first round after their waits have timed out, all hold the file's value after six rounds (seven if some
      value is not in its own spelling), and nothing moves any more. */
  lemma AgreementAnyway(s: World, rounds: seq<seq<Step>>, rest: seq<Step>, payload: Payload)
    requires s.writes == [] && Settled(s, payload) && Rounds(s, rounds, payload)
    requires |rounds| >= (if OwnLocals(s, payload) then 6 else 7) && LateRound(s, rounds[0])
    requires Runs(AfterRounds(s, rounds, payload), rest, payload) && OnlySyncs(rest)
    ensures var settled := AfterRounds(s, rounds, payload);
      AllInStep(settled) && Run(settled, rest, payload) == settled
  {
    hide Settled, OwnLocals, Behind, Run, Runs, Round, Lagging, LateRound, AllInStep;
    AllLag(s);
    LagRound(s, rounds[0], 2, payload);
    var s1, rounds1 := Run(s, rounds[0], payload), rounds[1..];
    assert Rounds(s1, rounds1, payload) && AfterRounds(s, rounds, payload) == AfterRounds(s1, rounds1, payload);
    NoneWaits(s1, rounds1[0]);
    LagRound(s1, rounds1[0], 1, payload);
    var s2, rounds2 := Run(s1, rounds1[0], payload), rounds1[1..];
    assert Rounds(s2, rounds2, payload) && AfterRounds(s1, rounds1, payload) == AfterRounds(s2, rounds2, payload);
    LaggingLess(s2);
    NoneWaits(s2, rounds2[0]);
    LagRound(s2, rounds2[0], 0, payload);
    var s3, rounds3 := Run(s2, rounds2[0], payload), rounds2[1..];
    assert Rounds(s3, rounds3, payload) && AfterRounds(s2, rounds2, payload) == AfterRounds(s3, rounds3, payload);
    NoneLags(s3);
    Agreement(s3, rounds3, rest, payload);
  }
}
