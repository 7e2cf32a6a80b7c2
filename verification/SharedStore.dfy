/** One setting shared by every widget: package/contents/ui/SharedStore.qml. */
module SharedStore {
  import opened Base64

  const PENDING_TIMEOUT_MS := 5000

  /** What the file holds, as `read` gives it. */
  datatype Shared = Shared(revision: nat, json: string)

  /** The payload's own part: the spelling of an adopted value, and of "nothing here". */
  datatype Payload = Payload(canon: string -> string, emptyJson: string)

  /** One widget's store, its owner's two configuration values `local` and `synced`, and a record of the past:
      `held`, the values it has had since it became ready. */
  datatype Widget = Widget(
    active: bool, ready: bool, local: string, synced: nat, baseline: string, pending: nat, since: int,
    held: set<string>)

  datatype Outcome = Outcome(widget: Widget, writes: seq<Shared>)

  // ---- one synchronisation ----------------------------------------------

  function SetLocal(w: Widget, value: string): Widget {
    w.(local := value, held := if w.ready then w.held + {value} else w.held)
  }

  /** Raising `adopt`: the owner stores the value and spells it in its own way. */
  function Adopt(w: Widget, json: string, payload: Payload): Widget {
    SetLocal(w.(baseline := json), payload.canon(json))
  }

  function Publish(w: Widget, revision: nat, now: int): Outcome {
    Outcome(w.(pending := revision, since := now), [Shared(revision, w.local)])
  }

  predicate WouldWipe(w: Widget, file: Shared, payload: Payload) {
    w.local == payload.emptyJson && file.json != payload.emptyJson && w.local == w.baseline
  }

  /** `sync` */
  function Sync(w: Widget, file: Shared, now: int, payload: Payload): (r: Outcome)
    ensures |r.writes| <= 1
  {
    if !w.active || !w.ready then Outcome(w, [])
    else if w.pending != 0 then
      if file.revision >= w.pending then
        var confirmed := w.(pending := 0, synced := file.revision);
        Outcome(if file.json != w.local then Adopt(confirmed, file.json, payload)
                else confirmed.(baseline := w.local), [])
      else Outcome(if now - w.since > PENDING_TIMEOUT_MS then w.(pending := 0) else w, [])
    else if file.json == w.local then Outcome(w.(baseline := w.local, synced := file.revision), [])
    else if file.revision == 0 then Publish(w, 1, now)
    else if w.synced == file.revision && !WouldWipe(w, file, payload) then Publish(w, file.revision + 1, now)
    else Outcome(Adopt(w, file.json, payload).(synced := file.revision), [])
  }

  /** What `Qt.btoa` and `Qt.atob` make of a text around base64: its bytes, and the text of some bytes. */
  datatype Codec = Codec(toBytes: string -> string, fromBytes: string -> string)

  /** The text comes back through the file. */
  predicate Transparent(codec: Codec, json: string) {
    codec.toBytes(json) != "" && codec.fromBytes(codec.toBytes(json)) == json
  }

  /** The file. */
  class SharedFile {
    const codec: Codec
    var revision: int
    var payload: string

    ghost predicate Valid()
      reads this
    {
      (forall json :: IsBytes(codec.toBytes(json))) && IsBytes(payload) && (payload != "" ==> Decode(payload).Bytes?)
    }

    constructor (codec: Codec)
      requires forall json :: IsBytes(codec.toBytes(json))
      ensures this.codec == codec && Valid() && payload == "" && revision == 0
    {
      this.codec, revision, payload := codec, 0, "";
    }

    /** `read` */
    function Contents(emptyJson: string): Shared
      reads this
      requires Valid()
    {
      Shared(if revision > 0 then revision else 0, if |payload| > 0 then codec.fromBytes(Decode(payload).s)
             else emptyJson)
    }

    /** What `read` gives for a written text: the text itself if the codec is transparent for it, and nothing for no
        bytes. */
    function ReadBack(json: string, emptyJson: string): (r: string)
      ensures Transparent(codec, json) ==> r == json
    {
      if codec.toBytes(json) == "" then emptyJson else codec.fromBytes(codec.toBytes(json))
    }

    /** `write`, once it has landed, for any text. */
    method Write(revision: nat, json: string)
      requires Valid()
      modifies this
      ensures Valid() && forall emptyJson :: Contents(emptyJson) == Shared(revision, ReadBack(json, emptyJson))
    {
      var bytes := codec.toBytes(json);
      this.revision := revision;
      payload := Base64Encode(bytes);
      EncodedBytes(bytes);
      hide Encode, Decode, IsBytes;
    }
  }

  lemma EncodedBytes(bytes: string)
    requires IsBytes(bytes)
    ensures IsBytes(Encode(bytes)) && Decode(Encode(bytes)) == Bytes(bytes) && (Encode(bytes) == "" <==> bytes == "")
  {
    DecodeInverts(bytes);
    EncodedLength(bytes);
    EncodedAlphabet(bytes);
    hide Encode, Decode;
  }

  /** One widget's store, and the two signals its owner answers. */
  class Store {
    const payload: Payload
    const file: SharedFile
    var active: bool
    var ready: bool
    var localJson: string
    var syncedRevision: nat
    var baseline: string
    var pendingRevision: nat
    var pendingSince: int
    ghost var held: set<string>

    constructor (payload: Payload, file: SharedFile, active: bool, localJson: string, syncedRevision: nat)
      ensures this.payload == payload && this.file == file
      ensures State() == NewWidget(active, localJson, syncedRevision)
    {
      this.payload, this.file, this.active, ready := payload, file, active, false;
      this.localJson, this.syncedRevision := localJson, syncedRevision;
      baseline, pendingRevision, pendingSince, held := "", 0, 0, {};
    }

    ghost function State(): Widget
      reads this
    {
      Widget(active, ready, localJson, syncedRevision, baseline, pendingRevision, pendingSince, held)
    }

    method AdoptSignal(json: string)
      modifies this`localJson, this`held
      ensures State() == SetLocal(old(State()), payload.canon(json))
    {
      localJson := payload.canon(json);
      if ready {
        held := held + {localJson};
      }
    }

    method SyncedSignal(revision: nat)
      modifies this`syncedRevision
      ensures State() == old(State()).(synced := revision)
    {
      syncedRevision := revision;
    }

    /** `onReadyChanged` */
    method BecomeReady()
      requires !ready
      modifies this`ready, this`baseline, this`held
      ensures State() == MadeReady(old(State()))
    {
      ready := true;
      baseline := localJson;
      held := {localJson};
    }

    method PublishLocal(revision: nat, now: int)
      requires file.Valid()
      modifies this`pendingRevision, this`pendingSince, file
      ensures State() == Publish(old(State()), revision, now).widget
      ensures file.Valid()
      ensures file.Contents(payload.emptyJson) == Shared(revision, file.ReadBack(localJson, payload.emptyJson))
    {
      pendingRevision := revision;
      pendingSince := now;
      file.Write(revision, localJson);
    }

    /** `sync`, with a write that lands at once. */
    method Synchronise(now: int)
      requires file.Valid()
      modifies this, file
      ensures State() == Sync(old(State()), old(file.Contents(payload.emptyJson)), now, payload).widget
      ensures var writes := Sync(old(State()), old(file.Contents(payload.emptyJson)), now, payload).writes;
        file.Valid()
        && file.Contents(payload.emptyJson)
           == (if writes == [] then old(file.Contents(payload.emptyJson))
               else Shared(writes[0].revision, file.ReadBack(writes[0].json, payload.emptyJson)))
    {
      if !active || !ready {
        return;
      }
      var shared := file.Contents(payload.emptyJson);
      if pendingRevision != 0 {
        if shared.revision >= pendingRevision {
          pendingRevision := 0;
          SyncedSignal(shared.revision);
          if shared.json != localJson {
            baseline := shared.json;
            AdoptSignal(shared.json);
          } else {
            baseline := localJson;
          }
        } else if now - pendingSince > PENDING_TIMEOUT_MS {
          pendingRevision := 0;
        }
        return;
      }
      if shared.json == localJson {
        baseline := localJson;
        if syncedRevision != shared.revision {
          SyncedSignal(shared.revision);
        }
        return;
      }
      if shared.revision == 0 {
        PublishLocal(1, now);
        return;
      }
      if syncedRevision == shared.revision {
        var wouldWipeSharedList := localJson == payload.emptyJson && shared.json != payload.emptyJson
          && localJson == baseline;
        if !wouldWipeSharedList {
          PublishLocal(shared.revision + 1, now);
          return;
        }
      }
      baseline := shared.json;
      AdoptSignal(shared.json);
      SyncedSignal(shared.revision);
    }
  }

  // ---- all widgets ------------------------------------------------------

  /** A widget whose configuration is still being loaded. */
  function NewWidget(active: bool, localJson: string, syncedRevision: nat): Widget {
    Widget(active, false, localJson, syncedRevision, "", 0, 0, {})
  }

  function MadeReady(w: Widget): Widget {
    w.(ready := true, baseline := w.local, held := {w.local})
  }

  /** The file, the widgets, and the writes under way. */
  datatype World = World(file: Shared, widgets: seq<Widget>, writes: seq<Shared>)

  datatype Step =
    | Edit(i: nat, value: string)
    | KeepOwn(i: nat, value: string)      // "Keep This Widget's List": edited, and marked as in step
    | Ready(i: nat)
    | Share(i: nat, on: bool)             // switching sharing off forgets the revision
    | Synchronise(i: nat, now: int, prompt: bool)  // `prompt`: its write, if any, lands at once
    | Land(k: nat)
    | Lose(k: nat)

  /** A value in the owner's own spelling. */
  predicate OwnSpelling(json: string, payload: Payload) {
    payload.canon(json) == json
  }

  predicate Enabled(s: World, step: Step, payload: Payload) {
    match step
    case Edit(i, value) => i < |s.widgets|
    case KeepOwn(i, value) => i < |s.widgets|
    case Ready(i) => i < |s.widgets| && !s.widgets[i].ready
    case Share(i, on) => i < |s.widgets|
    case Synchronise(i, now, prompt) => i < |s.widgets|
    case Land(k) => k < |s.writes|
    case Lose(k) => k < |s.writes|
  }

  function Next(s: World, step: Step, payload: Payload): World
    requires Enabled(s, step, payload)
  {
    match step
    case Edit(i, value) => s.(widgets := s.widgets[i := SetLocal(s.widgets[i], value)])
    case KeepOwn(i, value) =>
      s.(widgets := s.widgets[i := SetLocal(s.widgets[i], value).(synced := s.file.revision)])
    case Ready(i) => s.(widgets := s.widgets[i := MadeReady(s.widgets[i])])
    case Share(i, on) =>
      s.(widgets := s.widgets[i := s.widgets[i].(active := on, synced := if on then s.widgets[i].synced else 0)])
    case Synchronise(i, now, prompt) =>
      var r := Sync(s.widgets[i], s.file, now, payload);
      var widgets := s.widgets[i := r.widget];
      if prompt && r.writes != [] then s.(widgets := widgets, file := r.writes[0])
      else s.(widgets := widgets, writes := s.writes + r.writes)
    case Land(k) => s.(file := s.writes[k], writes := s.writes[..k] + s.writes[k + 1..])
    case Lose(k) => s.(writes := s.writes[..k] + s.writes[k + 1..])
  }

  /** The steps can be taken one after the other. */
  predicate Runs(s: World, steps: seq<Step>, payload: Payload)
    decreases |steps|
  {
    steps == [] || (Enabled(s, steps[0], payload) && Runs(Next(s, steps[0], payload), steps[1..], payload))
  }

  function Run(s: World, steps: seq<Step>, payload: Payload): World
    requires Runs(s, steps, payload)
    decreases |steps|
  {
    if steps == [] then s else Run(Next(s, steps[0], payload), steps[1..], payload)
  }

  // ---- no start-up wipe -------------------------------------------------

  /** Every widget's configuration is still being loaded. */
  predicate Cold(s: World) {
    forall i :: 0 <= i < |s.widgets| ==> !s.widgets[i].ready
  }

  /** The steps can be taken one after the other, and the file holds none but these texts all along. */
  ghost predicate RunsWithin(s: World, steps: seq<Step>, payload: Payload, texts: iset<string>)
    decreases |steps|
  {
    s.file.json in texts
    && (steps == []
        || (Enabled(s, steps[0], payload) && RunsWithin(Next(s, steps[0], payload), steps[1..], payload, texts)))
  }

  /** The baseline is a value that the widget has held, or a text that the file held and that it spelt as a value it
      has held. */
  ghost predicate BaselineHeld(w: Widget, payload: Payload, texts: iset<string>) {
    w.ready ==> w.local in w.held && (w.baseline in w.held
                                      || (w.baseline in texts && payload.canon(w.baseline) in w.held))
  }

  ghost predicate BaselinesHeld(s: World, payload: Payload, texts: iset<string>) {
    forall i :: 0 <= i < |s.widgets| ==> BaselineHeld(s.widgets[i], payload, texts)
  }

  lemma StepKeepsBaselines(s: World, step: Step, payload: Payload, texts: iset<string>)
    requires BaselinesHeld(s, payload, texts) && Enabled(s, step, payload) && s.file.json in texts
    ensures BaselinesHeld(Next(s, step, payload), payload, texts)
  {
  }

  lemma {:induction false} RunKeepsBaselines(s: World, steps: seq<Step>, payload: Payload, texts: iset<string>)
    requires BaselinesHeld(s, payload, texts) && RunsWithin(s, steps, payload, texts)
    ensures Runs(s, steps, payload) && BaselinesHeld(Run(s, steps, payload), payload, texts)
    decreases |steps|
  {
    hide BaselinesHeld, Next, Enabled;
    if steps != [] {
      StepKeepsBaselines(s, steps[0], payload, texts);
      RunKeepsBaselines(Next(s, steps[0], payload), steps[1..], payload, texts);
    }
  }

  /** The next synchronisation of widget `i` publishes the empty value over a shared one. */
  predicate Empties(s: World, i: nat, now: int, payload: Payload) {
    i < |s.widgets| && s.widgets[i].local == payload.emptyJson && s.file.revision > 0
    && Sync(s.widgets[i], s.file, now, payload).writes != []
  }

  /** It has held something else since it became ready. */
  ghost predicate HeldSomething(w: Widget, payload: Payload) {
    exists v :: v in w.held && v != payload.emptyJson
  }

  ghost predicate Wipes(s: World, i: nat, now: int, payload: Payload) {
    Empties(s, i, now, payload) && !HeldSomething(s.widgets[i], payload)
  }

  /** At the end of the run widget `i` does not wipe. */
  ghost predicate Spares(s: World, steps: seq<Step>, i: nat, now: int, payload: Payload) {
    Runs(s, steps, payload) && !Wipes(Run(s, steps, payload), i, now, payload)
  }

  /** In every run from a cold start in which the file holds none but these texts, with any edits and whenever and in
      whatever order writes land or are lost: only a widget that has held something else empties the shared value. */
  ghost predicate NeverWipes(payload: Payload, texts: iset<string>) {
    forall s, steps, i: nat, now: int ::
      Cold(s) && RunsWithin(s, steps, payload, texts) ==> Spares(s, steps, i, now, payload)
  }

  /** None of these texts but the empty value itself is spelt as the empty value. */
  ghost predicate EmptySpeltOnce(payload: Payload, texts: iset<string>) {
    forall json :: json in texts && payload.canon(json) == payload.emptyJson ==> json == payload.emptyJson
  }

  /** At any point of any run from a cold start, a widget that may publish and has held nothing but the empty value does
      publish that over the shared one, exactly if it took its baseline over from the file and reads it as empty,
      though it is not the empty value. */
  lemma WipesIff(s: World, steps: seq<Step>, payload: Payload, texts: iset<string>, i: nat, now: int)
    requires Cold(s) && RunsWithin(s, steps, payload, texts)
    ensures Runs(s, steps, payload)
    ensures var r := Run(s, steps, payload);
      i < |r.widgets| && Takes(r.widgets[i]) && r.widgets[i].pending == 0
      && r.widgets[i].synced == r.file.revision > 0 && r.widgets[i].local == payload.emptyJson != r.file.json
      && !HeldSomething(r.widgets[i], payload) ==>
        var w := r.widgets[i];
        (Wipes(r, i, now, payload) <==> w.baseline != payload.emptyJson)
        && (w.baseline != payload.emptyJson ==> w.baseline in texts && payload.canon(w.baseline) == payload.emptyJson)
  {
    RunKeepsBaselines(s, steps, payload, texts);
    hide RunsWithin, Runs, Run;
    var r := Run(s, steps, payload);
    if i < |r.widgets| {
      assert BaselineHeld(r.widgets[i], payload, texts);
    }
  }

  lemma EmptyingHasHeld(s: World, steps: seq<Step>, payload: Payload, texts: iset<string>, i: nat, now: int)
    requires EmptySpeltOnce(payload, texts) && Cold(s) && RunsWithin(s, steps, payload, texts)
    ensures Spares(s, steps, i, now, payload)
  {
    RunKeepsBaselines(s, steps, payload, texts);
    hide RunsWithin, Runs, Run;
    var r := Run(s, steps, payload);
    if i < |r.widgets| {
      assert BaselineHeld(r.widgets[i], payload, texts);
    }
  }

  /** A widget without anything finds a value that it reads as nothing: it takes it for its own, and then publishes
      nothing over it. */
  lemma UnreadableIsWiped(payload: Payload, json: string)
    requires payload.canon(json) == payload.emptyJson != json
    ensures var s := World(Shared(3, json), [NewWidget(true, payload.emptyJson, 0)], []);
      var r := Next(Next(s, Ready(0), payload), Synchronise(0, 0, true), payload);
      Cold(s) && r.widgets[0].held == {payload.emptyJson}
      && Next(r, Synchronise(0, 1, true), payload).file == Shared(4, payload.emptyJson)
  {
    assert {payload.emptyJson} + {payload.emptyJson} == {payload.emptyJson};
  }

  /** So the guard against wiping at start-up holds exactly if the file never holds anything else that is spelt as the
      empty value. */
  lemma NoStartUpWipeIff(payload: Payload, texts: iset<string>)
    ensures NeverWipes(payload, texts) <==> EmptySpeltOnce(payload, texts)
  {
    hide Cold, Runs, RunsWithin, Run, Wipes, EmptySpeltOnce;
    if EmptySpeltOnce(payload, texts) {
      forall s, steps, i: nat, now: int | Cold(s) && RunsWithin(s, steps, payload, texts)
        ensures Spares(s, steps, i, now, payload)
      {
        EmptyingHasHeld(s, steps, payload, texts, i, now);
      }
    } else {
      var json := SomeUnreadable(payload, texts);
      var s, steps := WipingRun(payload, json, texts);
      assert !Spares(s, steps, 0, 1, payload);
    }
  }

  lemma SomeUnreadable(payload: Payload, texts: iset<string>) returns (json: string)
    requires !EmptySpeltOnce(payload, texts)
    ensures json in texts && payload.canon(json) == payload.emptyJson != json
  {
    json :| json in texts && payload.canon(json) == payload.emptyJson && json != payload.emptyJson;
  }

  lemma WipingRun(payload: Payload, json: string, texts: iset<string>) returns (s: World, steps: seq<Step>)
    requires payload.canon(json) == payload.emptyJson != json && json in texts
    ensures Cold(s) && RunsWithin(s, steps, payload, texts) && Runs(s, steps, payload)
    ensures Wipes(Run(s, steps, payload), 0, 1, payload)
  {
    UnreadableIsWiped(payload, json);
    s := World(Shared(3, json), [NewWidget(true, payload.emptyJson, 0)], []);
    var s1 := Next(s, Ready(0), payload);
    var s2 := Next(s1, Synchronise(0, 0, true), payload);
    RunOne(s1, Synchronise(0, 0, true), [], payload);
    RunOne(s, Ready(0), [Synchronise(0, 0, true)], payload);
    WithinOne(s1, Synchronise(0, 0, true), [], payload, texts);
    WithinOne(s, Ready(0), [Synchronise(0, 0, true)], payload, texts);
    steps := [Ready(0)] + [Synchronise(0, 0, true)];
  }

  lemma WithinOne(s: World, step: Step, rest: seq<Step>, payload: Payload, texts: iset<string>)
    requires s.file.json in texts && Enabled(s, step, payload)
    requires RunsWithin(Next(s, step, payload), rest, payload, texts)
    ensures RunsWithin(s, [step] + rest, payload, texts)
  {
    assert ([step] + rest)[1..] == rest;
  }

  // ---- writes that land at once -----------------------------------------

  /** No write is under way, and nobody is ahead of the file, or nobody of those that take part. */
  ghost predicate Behind(s: World, everyone: bool) {
    s.writes == [] && forall i :: 0 <= i < |s.widgets| && (everyone || Takes(s.widgets[i])) ==>
        s.widgets[i].synced <= s.file.revision && s.widgets[i].pending <= s.file.revision
  }

  /** Every write lands before anything else happens. */
  predicate Prompt(steps: seq<Step>) {
    forall k :: 0 <= k < |steps| ==> steps[k].Synchronise? ==> steps[k].prompt
  }

  lemma StepKeepsBehind(s: World, step: Step, payload: Payload, everyone: bool)
    requires s.writes == [] && Enabled(s, step, payload) && (step.Synchronise? ==> step.prompt)
    requires everyone || step.Synchronise?
    ensures var t := Next(s, step, payload);
      t.writes == [] && (Behind(s, everyone) ==> Behind(t, everyone)) && s.file.revision <= t.file.revision
      && (t.file.revision == s.file.revision ==> t.file == s.file)
  {
  }

  /** No widget ever comes to agree with a revision that has not been written, and the revision never falls. */
  lemma {:induction false} NeverAhead(s: World, steps: seq<Step>, payload: Payload, everyone: bool)
    requires s.writes == [] && Runs(s, steps, payload) && Prompt(steps) && (everyone || OnlySyncs(steps))
    ensures var r := Run(s, steps, payload);
      r.writes == [] && (Behind(s, everyone) ==> Behind(r, everyone)) && s.file.revision <= r.file.revision
      && (r.file.revision == s.file.revision ==> r.file == s.file)
    decreases |steps|
  {
    hide Behind, Next, Enabled;
    if steps != [] {
      StepKeepsBehind(s, steps[0], payload, everyone);
      NeverAhead(Next(s, steps[0], payload), steps[1..], payload, everyone);
    }
  }

  /** A widget that agrees with revision 1 of a value. */
  function Agreed(c: string): Widget {
    Widget(true, true, c, 1, c, 0, 0, {c})
  }

  /** Two widgets that agreed on revision 1 and published at once; the first write has landed, the second has not. */
  function Crossed(a: string, b: string, c: string): World {
    World(Shared(2, a), [Widget(true, true, a, 1, c, 2, 0, {c, a}), Widget(true, true, b, 1, c, 2, 0, {c, b})],
          [Shared(2, b)])
  }

  lemma CrossedHappens(payload: Payload, a: string, b: string, c: string)
    requires OwnSpelling(a, payload) && OwnSpelling(b, payload) && OwnSpelling(c, payload) && a != c && b != c
    requires a != payload.emptyJson && b != payload.emptyJson
    ensures var s := World(Shared(1, c), [Agreed(c), Agreed(c)], []);
      var s1 := Next(Next(s, Edit(0, a), payload), Edit(1, b), payload);
      Behind(s, true)
      && Next(Next(Next(s1, Synchronise(0, 0, false), payload), Synchronise(1, 0, false), payload), Land(0), payload)
        == Crossed(a, b, c)
  {
    var s := World(Shared(1, c), [Agreed(c), Agreed(c)], []);
    var s1 := Next(Next(s, Edit(0, a), payload), Edit(1, b), payload);
    var s2 := Next(s1, Synchronise(0, 0, false), payload);
    assert s2.writes == [Shared(2, a)];
    var s3 := Next(s2, Synchronise(1, 0, false), payload);
    assert s3.writes == [Shared(2, a), Shared(2, b)];
    assert {c} + {a} == {c, a} && {c} + {b} == {c, b};
    assert s3.widgets == Crossed(a, b, c).widgets;
  }

  /** If the second write lands only after the first widget has moved on, the file goes back behind that widget. */
  lemma LateWriteGoesBack(payload: Payload, a: string, b: string, c: string)
    requires OwnSpelling(a, payload) && OwnSpelling(b, payload) && OwnSpelling(c, payload) && a != c
    requires c != payload.emptyJson
    ensures var s1 := Next(Next(Crossed(a, b, c), Synchronise(0, 1, true), payload), Edit(0, c), payload);
      var s2 := Next(Next(s1, Synchronise(0, 2, true), payload), Synchronise(0, 3, true), payload);
      var s3 := Next(s2, Land(0), payload);
      s2.file == Shared(3, c) && s2.widgets[0].synced == 3 && s3.file == Shared(2, b) && s3.widgets == s2.widgets
  {
    var s0 := Next(Crossed(a, b, c), Synchronise(0, 1, true), payload);
    assert s0.writes == [Shared(2, b)];
    var s1 := Next(s0, Edit(0, c), payload);
    var s2 := Next(s1, Synchronise(0, 2, true), payload);
    assert s2.file == Shared(3, c);
  }

  lemma RunOne(s: World, step: Step, rest: seq<Step>, payload: Payload)
    requires Enabled(s, step, payload) && Runs(Next(s, step, payload), rest, payload)
    ensures Runs(s, [step] + rest, payload)
    ensures Run(s, [step] + rest, payload) == Run(Next(s, step, payload), rest, payload)
  {
    assert ([step] + rest)[1..] == rest;
  }

  predicate Takes(w: Widget) {
    w.active && w.ready
  }

  /** Only synchronisations, each write landing at once. */
  predicate OnlySyncs(steps: seq<Step>) {
    forall k :: 0 <= k < |steps| ==> steps[k].Synchronise? && steps[k].prompt
  }

  // ---- what the canonical spelling is for -------------------------------

  /** After a widget has adopted a value, its next synchronisation publishes exactly if its own spelling of that value
      is another one. */
  lemma RepublishesIffRespelled(w: Widget, file: Shared, payload: Payload, now: int, later: int)
    requires Takes(w) && w.pending == 0 && w.local != file.json && 0 < file.revision && w.synced != file.revision
    ensures var adopted := Sync(w, file, now, payload).widget;
      adopted.synced == file.revision
      && (Sync(adopted, file, later, payload).writes != [] <==> payload.canon(file.json) != file.json)
  {
  }

  /** Widget `a` has just adopted and respelled the file's value; the other holds it as it stands. */
  ghost predicate Restless(s: World, a: nat, payload: Payload) {
    |s.widgets| == 2 && s.writes == [] && a < 2 && s.file.revision > 0
    && var w, v := s.widgets[a], s.widgets[1 - a];
       Takes(w) && w.pending == 0 && w.synced == s.file.revision && w.local == payload.canon(s.file.json)
       && w.baseline == s.file.json
       && Takes(v) && v.pending == 0 && v.synced == s.file.revision && v.local == s.file.json
  }

  /** It publishes its spelling, has that confirmed, and the other adopts and respells it in turn. */
  lemma TradeTurn(s: World, a: nat, payload: Payload)
    requires Restless(s, a, payload) && forall json :: !OwnSpelling(json, payload)
    ensures var s1 := Next(s, Synchronise(a, 0, true), payload);
      var s3 := Next(Next(s1, Synchronise(a, 0, true), payload), Synchronise(1 - a, 0, true), payload);
      Restless(s3, 1 - a, payload) && s3.file.revision == s.file.revision + 1
  {
    var s1 := Next(s, Synchronise(a, 0, true), payload);
    assert !OwnSpelling(s.file.json, payload);
    var s2 := Next(s1, Synchronise(a, 0, true), payload);
    assert s2.file == s1.file && s2.widgets[1 - a] == s.widgets[1 - a];
  }

  /** If no value were its own canonical spelling, two widgets would trade writes for ever: the revision passes
      every bound. */
  lemma {:induction false} NeverSettlesUnlessFixed(s: World, a: nat, payload: Payload, n: nat)
    requires Restless(s, a, payload) && forall json :: !OwnSpelling(json, payload)
    ensures exists steps ::
      OnlySyncs(steps) && Runs(s, steps, payload) && Run(s, steps, payload).file.revision >= s.file.revision + n
    decreases n
  {
    if n == 0 {
      assert OnlySyncs([]) && Runs(s, [], payload);
    } else {
      TradeTurn(s, a, payload);
      hide Sync;
      var s1 := Next(s, Synchronise(a, 0, true), payload);
      var s2 := Next(s1, Synchronise(a, 0, true), payload);
      var s3 := Next(s2, Synchronise(1 - a, 0, true), payload);
      NeverSettlesUnlessFixed(s3, 1 - a, payload, n - 1);
      var steps :| OnlySyncs(steps) && Runs(s3, steps, payload)
        && Run(s3, steps, payload).file.revision >= s3.file.revision + (n - 1);
      var longer := ThreeSyncs(s, a, a, 1 - a, steps, payload);
    }
  }

  lemma ThreeSyncs(s: World, i: nat, j: nat, k: nat, rest: seq<Step>, payload: Payload) returns (steps: seq<Step>)
    requires i < |s.widgets| && j < |s.widgets| && k < |s.widgets| && OnlySyncs(rest)
    requires Runs(Next(Next(Next(s, Synchronise(i, 0, true), payload), Synchronise(j, 0, true), payload),
                       Synchronise(k, 0, true), payload), rest, payload)
    ensures OnlySyncs(steps) && Runs(s, steps, payload)
    ensures Run(s, steps, payload)
      == Run(Next(Next(Next(s, Synchronise(i, 0, true), payload), Synchronise(j, 0, true), payload),
                  Synchronise(k, 0, true), payload), rest, payload)
  {
    hide Sync, Runs, Run;
    var s1 := Next(s, Synchronise(i, 0, true), payload);
    var s2 := Next(s1, Synchronise(j, 0, true), payload);
    RunOne(s2, Synchronise(k, 0, true), rest, payload);
    RunOne(s1, Synchronise(j, 0, true), [Synchronise(k, 0, true)] + rest, payload);
    var more := [Synchronise(j, 0, true)] + ([Synchronise(k, 0, true)] + rest);
    RunOne(s, Synchronise(i, 0, true), more, payload);
    steps := [Synchronise(i, 0, true)] + more;
  }

  // ---- what becomes of an edit ------------------------------------------

  /** With no write of its own awaited, the widget may publish: nothing was shared yet, or the shared value has not
      moved since it agreed with it, and its own value does not empty what was empty all along. */
  predicate MayPublish(w: Widget, file: Shared, payload: Payload) {
    file.revision == 0
    || (w.synced == file.revision && (w.local != payload.emptyJson || w.baseline != payload.emptyJson))
  }

  /** At any synchronisation of a widget whose value differs from the shared one: the value is published exactly if no
      write is awaited and the widget may publish; it is left as it is, unpublished, while an awaited write has not
      landed; and it is replaced by the shared one, in its own spelling, otherwise. */
  lemma EditFate(w: Widget, file: Shared, payload: Payload, now: int)
    requires Takes(w) && w.local != file.json
    ensures var r := Sync(w, file, now, payload);
      (r.writes != [] <==> w.pending == 0 && MayPublish(w, file, payload))
      && (r.writes != [] ==> r.widget.local == w.local && r.writes == [Shared(file.revision + 1, w.local)])
      && (w.pending > file.revision ==> r.writes == [] && r.widget.local == w.local)
      && (r.writes == [] && w.pending <= file.revision ==> r.widget.local == payload.canon(file.json))
  {
  }

  /** What one synchronisation finds: the file and the time. */
  datatype Seen = Seen(file: Shared, now: int)

  function Observe(w: Widget, seen: seq<Seen>, payload: Payload): Widget
    decreases |seen|
  {
    if seen == [] then w else Observe(Sync(w, seen[0].file, seen[0].now, payload).widget, seen[1..], payload)
  }

  /** The awaited write has not landed, and 5 seconds have not passed. */
  predicate Waits(w: Widget, seen: Seen) {
    seen.file.revision < w.pending && seen.now - w.since <= 5000
  }

  lemma {:induction false} WaitingIsIdle(w: Widget, waiting: seq<Seen>, payload: Payload)
    requires Takes(w) && w.pending > 0 && forall k :: 0 <= k < |waiting| ==> Waits(w, waiting[k])
    ensures Observe(w, waiting, payload) == w
    decreases |waiting|
  {
    if waiting != [] {
      assert Waits(w, waiting[0]);
      WaitingIsIdle(w, waiting[1..], payload);
    }
  }

  /** The shared value in the widget's own spelling, unless the widget has exactly that value already. */
  function Replaced(local: string, json: string, payload: Payload): string {
    if local == json then local else payload.canon(json)
  }

  /** An edit made while a write of the same widget is awaited, over all its following synchronisations. As long as
      the widget waits, nothing happens. If the write then lands, the edit gives way to the shared value. If it is
      given up after 5 seconds, the edit stands, and the synchronisation after that publishes it exactly if it still
      differs and the widget may publish, and otherwise leaves the widget with the shared value. */
  lemma AwaitedEditFate(w: Widget, waiting: seq<Seen>, next: Seen, later: Seen, payload: Payload)
    requires Takes(w) && w.pending > 0 && (forall k :: 0 <= k < |waiting| ==> Waits(w, waiting[k])) && !Waits(w, next)
    ensures Observe(w, waiting, payload) == w
    ensures var first := Sync(w, next.file, next.now, payload);
      var second := Sync(first.widget, later.file, later.now, payload);
      first.writes == [] && first.widget.pending == 0
      && (next.file.revision >= w.pending ==> first.widget.local == Replaced(w.local, next.file.json, payload))
      && (next.file.revision < w.pending ==>
            first.widget == w.(pending := 0)
            && (second.writes == [Shared(later.file.revision + 1, w.local)]
                <==> w.local != later.file.json && MayPublish(w, later.file, payload))
            && (second.writes == [] ==> second.widget.local == Replaced(w.local, later.file.json, payload)))
  {
    WaitingIsIdle(w, waiting, payload);
  }

  /** With nothing edited in between, a write that never landed is awaited for 5 seconds and then published again. */
  lemma LostWriteIsRetried(w: Widget, file: Shared, payload: Payload, now: int, later: int)
    requires Takes(w) && w.synced == file.revision > 0 && w.pending == file.revision + 1 && w.local != file.json
    requires w.local != payload.emptyJson || w.baseline != payload.emptyJson
    ensures now - w.since <= 5000 <==> Sync(w, file, now, payload) == Outcome(w, [])
    ensures now - w.since > 5000 ==>
      var timedOut := Sync(w, file, now, payload);
      timedOut.writes == []
      && Sync(timedOut.widget, file, later, payload).writes == [Shared(file.revision + 1, w.local)]
  {
  }

  /** Both ends of it: `b` is edited in while `a` is being written. If that write is
      lost, `b` ends in the file; if it lands, `b` is gone. */
  lemma AwaitedEditBothWays(payload: Payload, a: string, b: string, c: string)
    requires OwnSpelling(a, payload) && a != b && b != c && a != c
    requires a != payload.emptyJson && b != payload.emptyJson
    ensures var s := Edited(payload, a, b, c);
      var lost := Next(Next(Next(s, Lose(0), payload), Synchronise(0, 6000, true), payload),
                       Synchronise(0, 6001, true), payload);
      var landed := Next(Next(s, Land(0), payload), Synchronise(0, 6000, true), payload);
      lost.file == Shared(2, b) && landed.file == Shared(2, a) && landed.widgets[0].local == a
  {
    var s := Edited(payload, a, b, c);
    assert s.writes == [Shared(2, a)] && s.widgets[0].local == b && s.widgets[0].pending == 2;
    var gaveUp := Next(Next(s, Lose(0), payload), Synchronise(0, 6000, true), payload);
    assert gaveUp.writes == [] && gaveUp.widgets[0].pending == 0 && gaveUp.widgets[0].local == b;
  }

  /** A widget that agreed on `c` is edited to `a`, starts to write it, and is edited to `b`. */
  function Edited(payload: Payload, a: string, b: string, c: string): (s: World)
    ensures |s.widgets| == 1
    ensures a != c && a != payload.emptyJson ==> |s.writes| == 1
  {
    var s0 := World(Shared(1, c), [Agreed(c)], []);
    Next(Next(Next(s0, Edit(0, a), payload), Synchronise(0, 0, false), payload), Edit(0, b), payload)
  }
}
