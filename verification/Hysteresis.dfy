/** How samples move a destination's state. */
module Hysteresis {

  datatype Health = Unknown | Good | Warn | Bad | Offline

  /** A destination: its configuration, then its runtime fields. */
  datatype Destination = Destination(
    id: string, address: string, thresholdUs: nat, sensitivity: nat, enabled: bool, partTime: bool,
    prober: int, state: Health, candidate: Health, streak: nat,
    haveRtt: bool, rttUs: nat, sent: nat, received: nat)

  /** A probe's outcome: answered after some time, or not at all. */
  datatype Sample = Answer(rttUs: nat) | Silence

  /** `classify` */
  function Classify(sample: Sample, thresholdUs: nat): Health {
    match sample
    case Silence => Bad
    case Answer(rttUs) => if rttUs <= thresholdUs then Good else Warn
  }

  /** The part of `applySample` that weighs one sample against the shown state. */
  function Weigh(d: Destination, sample: Health): Destination {
    if d.state == Unknown then d.(state := sample, candidate := sample, streak := 0)
    else if sample == d.state then d.(candidate := sample, streak := 0)
    else
      var streak := if sample == d.candidate then d.streak + 1 else 1;
      if streak > d.sensitivity then d.(state := sample, candidate := sample, streak := 0)
      else d.(candidate := sample, streak := streak)
  }

  /** What `applySample` does to one subscribed destination. */
  function Judge(d: Destination, sample: Sample): Destination {
    var counted := match sample
      case Answer(rttUs) => d.(sent := d.sent + 1, received := d.received + 1, haveRtt := true, rttUs := rttUs)
      case Silence => d.(sent := d.sent + 1, haveRtt := false);
    Weigh(counted, Classify(sample, d.thresholdUs))
  }

  // ---- the specification in terms of the whole history ------------------

  /** The last `n` samples exist and are all equal. */
  predicate EndsInRun(h: seq<Health>, n: nat) {
    0 < n <= |h| && forall i :: |h| - n <= i < |h| ==> h[i] == h[|h| - 1]
  }

  /** The value of the most recent run of at least `sensitivity + 1` equal samples, or the first sample if there is
      none. */
  function Verdict(sensitivity: nat, h: seq<Health>): Health
    requires h != []
  {
    if |h| == 1 then h[0]
    else if EndsInRun(h, sensitivity + 1) then h[|h| - 1]
    else Verdict(sensitivity, h[..|h| - 1])
  }

  /** The same without recursion: `end` closes such a run and no later position does. */
  ghost predicate LastRunEnds(sensitivity: nat, h: seq<Health>, end: nat) {
    end <= |h| && EndsInRun(h[..end], sensitivity + 1)
    && forall later :: end < later <= |h| ==> !EndsInRun(h[..later], sensitivity + 1)
  }

  ghost predicate NoRun(sensitivity: nat, h: seq<Health>) {
    forall end :: 0 <= end <= |h| ==> !EndsInRun(h[..end], sensitivity + 1)
  }

  lemma {:induction false} VerdictIsLastRun(sensitivity: nat, h: seq<Health>)
    requires h != []
    ensures NoRun(sensitivity, h) ==> Verdict(sensitivity, h) == h[0]
    ensures forall end :: LastRunEnds(sensitivity, h, end) ==> 0 < end && Verdict(sensitivity, h) == h[end - 1]
  {
    assert h[..|h|] == h;
    if |h| == 1 {
      return;
    }
    var front := h[..|h| - 1];
    assert forall k :: 0 <= k <= |front| ==> front[..k] == h[..k];
    VerdictIsLastRun(sensitivity, front);
    forall end | LastRunEnds(sensitivity, h, end) ensures 0 < end && Verdict(sensitivity, h) == h[end - 1] {
      if end == |h| {
        assert EndsInRun(h, sensitivity + 1);
      } else {
        assert !EndsInRun(h[..|h|], sensitivity + 1);
        assert LastRunEnds(sensitivity, front, end);
      }
    }
    if NoRun(sensitivity, h) {
      assert !EndsInRun(h[..|h|], sensitivity + 1);
      assert NoRun(sensitivity, front);
    }
  }

  /** All samples, weighed one after another. */
  function WeighAll(d: Destination, h: seq<Health>): Destination {
    if h == [] then d else Weigh(WeighAll(d, h[..|h| - 1]), h[|h| - 1])
  }

  ghost predicate Untouched(d: Destination) {
    d.state == Unknown && d.candidate == Unknown && d.streak == 0
  }

  /** What the counters remember of a history: nothing while the last sample agrees with the shown state,
      otherwise how long the last run has lasted. */
  ghost predicate Remembers(d: Destination, h: seq<Health>) {
    h != [] && d.candidate == h[|h| - 1]
    && if d.candidate == d.state then d.streak == 0
       else 1 <= d.streak <= d.sensitivity && EndsInRun(h, d.streak) && !EndsInRun(h, d.streak + 1)
  }

  /** One sample: the remembered run grows, and the verdict changes exactly when it is long enough. */
  lemma WeighStep(d: Destination, h: seq<Health>, sample: Health)
    requires Remembers(d, h) && d.state == Verdict(d.sensitivity, h) && d.state != Unknown && sample != Unknown
    requires d.state == h[|h| - 1] || !EndsInRun(h, d.sensitivity + 1)
    ensures var d', h' := Weigh(d, sample), h + [sample];
      Remembers(d', h') && d'.state == Verdict(d.sensitivity, h') && d'.state != Unknown
      && (d'.state == sample || !EndsInRun(h', d.sensitivity + 1))
  {
    var h' := h + [sample];
    assert h'[..|h'| - 1] == h;
    var last := |h| - 1;
    if sample == h[last] {
      forall n: nat | n > 0 ensures EndsInRun(h', n + 1) <==> EndsInRun(h, n) {
        RunGrows(h, sample, n);
      }
    } else {
      assert EndsInRun(h', 1);
      assert forall n :: n > 1 ==> !EndsInRun(h', n) by {
        assert h'[|h'| - 2] == h[last];
      }
    }
    RunMonotone(h');
  }

  lemma RunGrows(h: seq<Health>, sample: Health, n: nat)
    requires h != [] && sample == h[|h| - 1] && n > 0
    ensures EndsInRun(h + [sample], n + 1) <==> EndsInRun(h, n)
  {
    var h' := h + [sample];
    if EndsInRun(h', n + 1) {
      forall i | |h| - n <= i < |h| ensures h[i] == h[|h| - 1] {
        assert h'[i] == h[i];
      }
    }
  }

  lemma RunMonotone(h: seq<Health>)
    ensures forall m: nat, n: nat :: 0 < m <= n && EndsInRun(h, n) ==> EndsInRun(h, m)
  {
  }

  /** The candidate and its streak compute exactly the verdict of the history, for every sensitivity. */
  lemma {:induction false} WeighAllIsVerdict(d: Destination, h: seq<Health>)
    requires Untouched(d) && h != [] && Unknown !in h
    ensures WeighAll(d, h).state == Verdict(d.sensitivity, h) != Unknown
    ensures WeighAll(d, h).sensitivity == d.sensitivity
    ensures Remembers(WeighAll(d, h), h)
    ensures WeighAll(d, h).state == h[|h| - 1] || !EndsInRun(h, d.sensitivity + 1)
  {
    var front, last := h[..|h| - 1], h[|h| - 1];
    if front == [] {
      assert WeighAll(d, front) == d;
    } else {
      WeighAllIsVerdict(d, front);
      assert last in h && forall x :: x in front ==> x in h;
      WeighStep(WeighAll(d, front), front, last);
      assert front + [last] == h;
    }
  }

  /** No two samples in a row agree from position `start` on. */
  predicate Alternates(h: seq<Health>, start: nat) {
    forall i :: start <= i < |h| && i > 0 ==> h[i] != h[i - 1]
  }

  /** With a sensitivity of at least 1 an alternating mixture, however long, moves nothing. */
  lemma {:induction false} AlternationMovesNothing(d: Destination, h: seq<Health>, start: nat)
    requires Untouched(d) && d.sensitivity >= 1 && Unknown !in h && 0 < start <= |h| && Alternates(h, start)
    ensures WeighAll(d, h).state == WeighAll(d, h[..start]).state
    decreases |h|
  {
    if start == |h| {
      assert h[..start] == h;
    } else {
      var front := h[..|h| - 1];
      assert front[..start] == h[..start];
      assert forall x :: x in front ==> x in h;
      AlternationMovesNothing(d, front, start);
      WeighAllIsVerdict(d, h);
      WeighAllIsVerdict(d, front);
      assert h[|h| - 1] != h[|h| - 2];
    }
  }

  /** A verdict is shown exactly from the first sample on, counts never exceed samples, and `Offline` is never
      measured. */
  ghost predicate Consistent(d: Destination) {
    (d.state == Unknown <==> d.sent == 0) && d.received <= d.sent && d.state != Offline
    && (d.haveRtt ==> d.received > 0)
  }

  lemma JudgeKeepsConsistent(d: Destination, sample: Sample)
    requires Consistent(d)
    ensures Consistent(Judge(d, sample))
    ensures Judge(d, sample).sent == d.sent + 1
    ensures Judge(d, sample).received == d.received + (if sample.Answer? then 1 else 0)
  {
  }

  // ---- whole sample histories -------------------------------------------

  /** What a sequence of samples makes of a destination. */
  function JudgeAll(d: Destination, samples: seq<Sample>): Destination {
    if samples == [] then d else Judge(JudgeAll(d, samples[..|samples| - 1]), samples[|samples| - 1])
  }

  function Classified(samples: seq<Sample>, thresholdUs: nat): (h: seq<Health>)
    ensures |h| == |samples| && forall i :: 0 <= i < |h| ==> h[i] == Classify(samples[i], thresholdUs)
  {
    seq(|samples|, i requires 0 <= i < |samples| => Classify(samples[i], thresholdUs))
  }

  function AnswersIn(samples: seq<Sample>): nat {
    if samples == [] then 0 else AnswersIn(samples[..|samples| - 1]) + if samples[|samples| - 1].Answer? then 1 else 0
  }

  /** `w` was weighed as `d` was judged. */
  predicate WeighedAlike(d: Destination, w: Destination) {
    w.state == d.state && w.candidate == d.candidate && w.streak == d.streak && w.sensitivity == d.sensitivity
  }

  /** `r` is `d` after some samples: its configuration and its prober are the same. */
  predicate JudgedFrom(d: Destination, r: Destination, sent: nat, received: nat) {
    r == d.(state := r.state, candidate := r.candidate, streak := r.streak, haveRtt := r.haveRtt, rttUs := r.rttUs,
            sent := d.sent + sent, received := d.received + received)
  }

  lemma JudgeWeighs(d: Destination, w: Destination, sample: Sample)
    requires WeighedAlike(d, w)
    ensures WeighedAlike(Judge(d, sample), Weigh(w, Classify(sample, d.thresholdUs)))
  {
    var counted := match sample
      case Answer(rttUs) => d.(sent := d.sent + 1, received := d.received + 1, haveRtt := true, rttUs := rttUs)
      case Silence => d.(sent := d.sent + 1, haveRtt := false);
    assert Judge(d, sample) == Weigh(counted, Classify(sample, d.thresholdUs));
    hide Judge, Classify;
    WeighAlike(counted, w, Classify(sample, d.thresholdUs));
  }

  lemma WeighAlike(d: Destination, w: Destination, health: Health)
    requires WeighedAlike(d, w)
    ensures WeighedAlike(Weigh(d, health), Weigh(w, health))
  {
    var streak := if health == d.candidate then d.streak + 1 else 1;
    if d.state == Unknown {
      assert Weigh(d, health) == d.(state := health, candidate := health, streak := 0);
      assert Weigh(w, health) == w.(state := health, candidate := health, streak := 0);
    } else if health == d.state {
      assert Weigh(d, health) == d.(candidate := health, streak := 0);
      assert Weigh(w, health) == w.(candidate := health, streak := 0);
    } else if streak > d.sensitivity {
      assert Weigh(d, health) == d.(state := health, candidate := health, streak := 0);
      assert Weigh(w, health) == w.(state := health, candidate := health, streak := 0);
    } else {
      assert Weigh(d, health) == d.(candidate := health, streak := streak);
      assert Weigh(w, health) == w.(candidate := health, streak := streak);
    }
  }

  lemma JudgeCounts(d: Destination, r: Destination, sample: Sample, sent: nat, received: nat)
    requires JudgedFrom(d, r, sent, received)
    ensures JudgedFrom(d, Judge(r, sample), sent + 1, received + if sample.Answer? then 1 else 0)
  {
  }

  lemma {:induction false} JudgeAllWeighs(d: Destination, samples: seq<Sample>)
    ensures WeighedAlike(JudgeAll(d, samples), WeighAll(d, Classified(samples, d.thresholdUs)))
    ensures JudgedFrom(d, JudgeAll(d, samples), |samples|, AnswersIn(samples))
  {
    hide Judge, Weigh, Classify;
    if samples != [] {
      var front, last := samples[..|samples| - 1], samples[|samples| - 1];
      JudgeAllWeighs(d, front);
      var h := Classified(samples, d.thresholdUs);
      assert h[..|h| - 1] == Classified(front, d.thresholdUs);
      JudgeWeighs(JudgeAll(d, front), WeighAll(d, Classified(front, d.thresholdUs)), last);
      JudgeCounts(d, JudgeAll(d, front), last, |front|, AnswersIn(front));
    }
  }

  /** The state shown after any samples is the verdict of their classifications, and every sample and answer is
      counted. */
  lemma JudgeAllIsVerdict(d: Destination, samples: seq<Sample>)
    requires Untouched(d) && samples != []
    ensures var r := JudgeAll(d, samples);
      r.state == Verdict(d.sensitivity, Classified(samples, d.thresholdUs)) != Unknown
      && r.sent == d.sent + |samples| && r.received == d.received + AnswersIn(samples)
  {
    hide Judge, WeighAll;
    JudgeAllWeighs(d, samples);
    WeighAllIsVerdict(d, Classified(samples, d.thresholdUs));
  }

  lemma {:induction false} JudgeAllJoins(d: Destination, a: seq<Sample>, b: seq<Sample>)
    ensures JudgeAll(d, a + b) == JudgeAll(JudgeAll(d, a), b) && AnswersIn(a + b) == AnswersIn(a) + AnswersIn(b)
  {
    if b == [] {
      assert a + b == a;
    } else {
      JudgeAllJoins(d, a, b[..|b| - 1]);
      assert (a + b)[..|a + b| - 1] == a + b[..|b| - 1];
    }
  }

  // ---- the verdict by measured times ------------------------------------

  /** The sample was answered within the threshold, beyond it, or not at all. */
  predicate Looks(health: Health, sample: Sample, thresholdUs: nat) {
    match health
    case Good => sample.Answer? && sample.rttUs <= thresholdUs
    case Warn => sample.Answer? && sample.rttUs > thresholdUs
    case Bad => sample == Silence
    case _ => false
  }

  /** The `n` samples up to `end` were all answered within the threshold, all beyond it, or all not answered. */
  ghost predicate RunOf(health: Health, samples: seq<Sample>, end: nat, n: nat, thresholdUs: nat) {
    0 < n <= end <= |samples| && forall i :: end - n <= i < end ==> Looks(health, samples[i], thresholdUs)
  }

  ghost predicate LastRunOf(health: Health, samples: seq<Sample>, end: nat, n: nat, thresholdUs: nat) {
    RunOf(health, samples, end, n, thresholdUs)
    && forall later: nat, other :: later > end ==> !RunOf(other, samples, later, n, thresholdUs)
  }

  ghost predicate NoRunOf(samples: seq<Sample>, n: nat, thresholdUs: nat) {
    forall end: nat, other :: !RunOf(other, samples, end, n, thresholdUs)
  }

  /** Where the last run of `n` samples of one kind was of this kind; or there is no such run, and the first sample
      was. */
  ghost predicate Measured(health: Health, samples: seq<Sample>, n: nat, thresholdUs: nat) {
    (exists end: nat :: LastRunOf(health, samples, end, n, thresholdUs))
    || (samples != [] && NoRunOf(samples, n, thresholdUs) && Looks(health, samples[0], thresholdUs))
  }

  /** This is what has been measured, and nothing else is. */
  ghost predicate IsMeasured(state: Health, samples: seq<Sample>, n: nat, thresholdUs: nat) {
    forall health :: state == health <==> Measured(health, samples, n, thresholdUs)
  }

  lemma LooksClassified(health: Health, sample: Sample, thresholdUs: nat)
    ensures Looks(health, sample, thresholdUs) <==> Classify(sample, thresholdUs) == health
  {
  }

  lemma RunOfClassified(health: Health, samples: seq<Sample>, end: nat, n: nat, thresholdUs: nat)
    ensures var h := Classified(samples, thresholdUs);
      RunOf(health, samples, end, n, thresholdUs)
      <==> 0 < end <= |samples| && EndsInRun(h[..end], n) && h[end - 1] == health
  {
    if 0 < end <= |samples| {
      var h := Classified(samples, thresholdUs)[..end];
      forall i | 0 <= i < end ensures Looks(health, samples[i], thresholdUs) <==> h[i] == health {
        LooksClassified(health, samples[i], thresholdUs);
      }
      hide Looks;
      assert h[|h| - 1] == Classified(samples, thresholdUs)[end - 1];
    }
  }

  /** Of the ends up to `k`, if no later one will do. */
  lemma {:induction false} LastRunOrNone(sensitivity: nat, h: seq<Health>, k: nat)
    requires k <= |h| && forall end :: k < end <= |h| ==> !EndsInRun(h[..end], sensitivity + 1)
    ensures NoRun(sensitivity, h) || exists end :: LastRunEnds(sensitivity, h, end)
  {
    if EndsInRun(h[..k], sensitivity + 1) {
      assert LastRunEnds(sensitivity, h, k);
    } else if k > 0 {
      LastRunOrNone(sensitivity, h, k - 1);
    }
  }

  lemma MeasuredIsVerdict(health: Health, samples: seq<Sample>, sensitivity: nat, thresholdUs: nat)
    requires samples != [] && Measured(health, samples, sensitivity + 1, thresholdUs)
    ensures Verdict(sensitivity, Classified(samples, thresholdUs)) == health
  {
    hide Looks, Verdict;
    var h, n := Classified(samples, thresholdUs), sensitivity + 1;
    VerdictIsLastRun(sensitivity, h);
    LooksClassified(health, samples[0], thresholdUs);
    forall end: nat, other
      ensures RunOf(other, samples, end, n, thresholdUs)
        <==> 0 < end <= |samples| && EndsInRun(h[..end], n) && h[end - 1] == other
    {
      RunOfClassified(other, samples, end, n, thresholdUs);
    }
    hide RunOf;
    if end: nat :| LastRunOf(health, samples, end, n, thresholdUs) {
      forall later | end < later <= |h| ensures !EndsInRun(h[..later], n) {
        assert !RunOf(h[later - 1], samples, later, n, thresholdUs);
      }
      assert LastRunEnds(sensitivity, h, end);
    } else {
      forall end | 0 <= end <= |h| ensures !EndsInRun(h[..end], n) {
        if end > 0 {
          assert !RunOf(h[end - 1], samples, end, n, thresholdUs);
        }
      }
      assert NoRun(sensitivity, h);
    }
  }

  lemma VerdictIsMeasured(samples: seq<Sample>, sensitivity: nat, thresholdUs: nat)
    requires samples != []
    ensures Measured(Verdict(sensitivity, Classified(samples, thresholdUs)), samples, sensitivity + 1, thresholdUs)
  {
    hide Looks, Verdict;
    var h, n := Classified(samples, thresholdUs), sensitivity + 1;
    VerdictIsLastRun(sensitivity, h);
    assert h[..|h|] == h;
    LastRunOrNone(sensitivity, h, |h|);
    forall end: nat, other
      ensures RunOf(other, samples, end, n, thresholdUs)
        <==> 0 < end <= |samples| && EndsInRun(h[..end], n) && h[end - 1] == other
    {
      RunOfClassified(other, samples, end, n, thresholdUs);
    }
    hide RunOf;
    if NoRun(sensitivity, h) {
      LooksClassified(h[0], samples[0], thresholdUs);
      assert NoRunOf(samples, n, thresholdUs);
    } else {
      var end: nat :| LastRunEnds(sensitivity, h, end);
      assert LastRunOf(h[end - 1], samples, end, n, thresholdUs);
    }
  }

  /** What a destination shows after any samples, first to last: the kind of the last run of more than `sensitivity`
      samples of one kind, or of the first sample if there is none; and the time of the last sample, if that was
      answered. */
  lemma ShownIsMeasured(d: Destination, samples: seq<Sample>)
    requires Untouched(d) && samples != []
    ensures var r := JudgeAll(d, samples);
      IsMeasured(r.state, samples, d.sensitivity + 1, d.thresholdUs) && ShowsLast(r, samples[|samples| - 1])
  {
    hide Verdict, IsMeasured;
    JudgeAllIsVerdict(d, samples);
    JudgeAllThresholds(d, samples[..|samples| - 1]);
    StateIsMeasured(JudgeAll(d, samples).state, samples, d.sensitivity, d.thresholdUs);
  }

  predicate ShowsLast(d: Destination, sample: Sample) {
    match sample
    case Answer(rttUs) => d.haveRtt && d.rttUs == rttUs
    case Silence => !d.haveRtt
  }

  lemma StateIsMeasured(state: Health, samples: seq<Sample>, sensitivity: nat, thresholdUs: nat)
    requires samples != [] && state == Verdict(sensitivity, Classified(samples, thresholdUs))
    ensures IsMeasured(state, samples, sensitivity + 1, thresholdUs)
  {
    hide Verdict, Measured;
    VerdictIsMeasured(samples, sensitivity, thresholdUs);
    var n := sensitivity + 1;
    forall health | Measured(health, samples, n, thresholdUs) ensures state == health {
      MeasuredIsVerdict(health, samples, sensitivity, thresholdUs);
    }
  }

  lemma {:induction false} JudgeAllThresholds(d: Destination, samples: seq<Sample>)
    ensures JudgeAll(d, samples).thresholdUs == d.thresholdUs
  {
    JudgeAllWeighs(d, samples);
  }

  // ---- continuing a history ---------------------------------------------

  /** The destination stands as these classified samples have left it. */
  ghost predicate ShowsRun(d: Destination, h: seq<Health>) {
    if h == [] then Untouched(d)
    else
      Remembers(d, h) && d.state == Verdict(d.sensitivity, h) && d.state != Unknown
      && (d.state == h[|h| - 1] || !EndsInRun(h, d.sensitivity + 1))
  }

  /** The destination stands as these samples have left it: its state is their verdict, and its counters remember
      them. */
  ghost predicate ShowsHistory(d: Destination, samples: seq<Sample>) {
    ShowsRun(d, Classified(samples, d.thresholdUs))
  }

  /** The settings and counters that this is about. */
  predicate StandsAlike(d: Destination, x: Destination) {
    x.thresholdUs == d.thresholdUs && WeighedAlike(d, x)
  }

  /** Its state is what has been measured. */
  ghost predicate ShowsMeasured(d: Destination, samples: seq<Sample>) {
    samples != [] ==> IsMeasured(d.state, samples, d.sensitivity + 1, d.thresholdUs)
  }

  lemma HistoryIsMeasured(d: Destination, samples: seq<Sample>)
    requires ShowsHistory(d, samples)
    ensures ShowsMeasured(d, samples)
  {
    hide Verdict, IsMeasured, EndsInRun;
    if samples != [] {
      StateIsMeasured(d.state, samples, d.sensitivity, d.thresholdUs);
    }
  }

  lemma RunAlike(d: Destination, x: Destination, h: seq<Health>)
    requires ShowsRun(d, h) && WeighedAlike(d, x)
    ensures ShowsRun(x, h)
  {
    hide EndsInRun, Verdict;
  }

  lemma ShowsAlike(d: Destination, x: Destination, samples: seq<Sample>)
    requires ShowsHistory(d, samples) && StandsAlike(d, x)
    ensures ShowsHistory(x, samples)
  {
    RunAlike(d, x, Classified(samples, d.thresholdUs));
  }

  lemma WeighShows(d: Destination, h: seq<Health>, health: Health)
    requires ShowsRun(d, h) && health != Unknown
    ensures ShowsRun(Weigh(d, health), h + [health])
  {
    hide Remembers, Verdict, EndsInRun, Weigh;
    if h == [] {
      assert h + [health] == [health];
      FirstShows(d, health);
    } else {
      WeighStep(d, h, health);
      KeepsSensitivity(d, health);
      assert (h + [health])[|h|] == health;
    }
  }

  lemma FirstShows(d: Destination, health: Health)
    requires Untouched(d) && health != Unknown
    ensures ShowsRun(Weigh(d, health), [health])
  {
    hide EndsInRun;
  }

  lemma KeepsSensitivity(d: Destination, health: Health)
    ensures Weigh(d, health).sensitivity == d.sensitivity
  {
  }

  lemma ShowsOneMore(d: Destination, samples: seq<Sample>, sample: Sample)
    requires ShowsHistory(d, samples)
    ensures ShowsHistory(Judge(d, sample), samples + [sample])
  {
    hide ShowsRun, Weigh, Judge;
    var h, health := Classified(samples, d.thresholdUs), Classify(sample, d.thresholdUs);
    WeighShows(d, h, health);
    JudgeWeighs(d, d, sample);
    KeepsThreshold(d, sample);
    RunAlike(Weigh(d, health), Judge(d, sample), h + [health]);
    assert Classified(samples + [sample], d.thresholdUs) == h + [health];
  }

  lemma KeepsThreshold(d: Destination, sample: Sample)
    ensures Judge(d, sample).thresholdUs == d.thresholdUs
  {
  }

  lemma {:induction false} ShowsMore(d: Destination, samples: seq<Sample>, more: seq<Sample>)
    requires ShowsHistory(d, samples)
    ensures ShowsHistory(JudgeAll(d, more), samples + more)
    decreases |more|
  {
    hide ShowsHistory, Judge;
    if more == [] {
      assert samples + more == samples;
    } else {
      var front, last := more[..|more| - 1], more[|more| - 1];
      ShowsMore(d, samples, front);
      ShowsOneMore(JudgeAll(d, front), samples + front, last);
      assert samples + front + [last] == samples + more;
    }
  }
}
