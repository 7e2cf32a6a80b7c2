/** What stays true of one prober: conservation of probes, order of its queue, pace of sending. */
module ProberInvariant {
  import opened Hysteresis
  import opened Engine

  // ---- counting in the history ------------------------------------------

  predicate IsVerdict(event: Event, uid: nat, seqNo: nat) {
    !event.NoRoute? && event.uid == uid && event.seqNo == seqNo
  }

  function One(b: bool): nat {
    if b then 1 else 0
  }

  /** How many verdicts the probe `seqNo` of prober `uid` has had. */
  function Verdicts(log: seq<Event>, uid: nat, seqNo: nat): nat {
    if log == [] then 0 else Verdicts(log[..|log| - 1], uid, seqNo) + One(IsVerdict(log[|log| - 1], uid, seqNo))
  }

  function Samples(log: seq<Event>, uid: nat): nat {
    if log == [] then 0 else Samples(log[..|log| - 1], uid) + One(log[|log| - 1].uid == uid)
  }

  function Answers(log: seq<Event>, uid: nat): nat {
    if log == [] then 0 else Answers(log[..|log| - 1], uid) + One(log[|log| - 1].Answered? && log[|log| - 1].uid == uid)
  }

  function NoRoutes(log: seq<Event>, uid: nat): nat {
    if log == [] then 0 else NoRoutes(log[..|log| - 1], uid) + One(log[|log| - 1].NoRoute? && log[|log| - 1].uid == uid)
  }

  lemma Append(log: seq<Event>, event: Event)
    ensures forall u, k :: Verdicts(log + [event], u, k) == Verdicts(log, u, k) + One(IsVerdict(event, u, k))
    ensures forall u :: Samples(log + [event], u) == Samples(log, u) + One(event.uid == u)
    ensures forall u :: Answers(log + [event], u) == Answers(log, u) + One(event.Answered? && event.uid == u)
    ensures forall u :: NoRoutes(log + [event], u) == NoRoutes(log, u) + One(event.NoRoute? && event.uid == u)
  {
    var log' := log + [event];
    assert log'[..|log'| - 1] == log && log'[|log'| - 1] == event;
  }

  lemma {:induction false} NoSamplesNoVerdicts(log: seq<Event>, uid: nat, seqNo: nat)
    ensures Verdicts(log, uid, seqNo) + NoRoutes(log, uid) <= Samples(log, uid)
    ensures Answers(log, uid) <= Samples(log, uid)
  {
    if log != [] {
      NoSamplesNoVerdicts(log[..|log| - 1], uid, seqNo);
    }
  }

  // ---- conservation -----------------------------------------------------

  predicate Flying(p: Prober, seqNo: nat) {
    exists j :: 0 <= j < |p.inFlight| && p.inFlight[j].seqNo == seqNo
  }

  /** Every number up to `sequence` is either in flight or has exactly one verdict; no other number has either.
      `sent` counts all samples, `received` the answered ones. */
  ghost predicate Ledger(p: Prober, log: seq<Event>) {
    (forall k: nat :: Verdicts(log, p.uid, k) == One(1 <= k <= p.sequence && !Flying(p, k)))
    && (forall k: nat :: Flying(p, k) ==> 1 <= k <= p.sequence)
    && p.sent == Samples(log, p.uid) && p.received == Answers(log, p.uid)
  }

  lemma LedgerVerdict(p: Prober, log: seq<Event>, p': Prober, event: Event, seqNo: nat, sample: Sample)
    requires Ledger(p, log) && Flying(p, seqNo)
    requires p'.uid == p.uid && p'.sequence == p.sequence
    requires forall k: nat :: Flying(p', k) <==> Flying(p, k) && k != seqNo
    requires p'.sent == p.sent + 1 && p'.received == p.received + One(sample.Answer?)
    requires IsVerdict(event, p.uid, seqNo) && (event.Answered? <==> sample.Answer?)
    ensures Ledger(p', log + [event])
  {
    hide Verdicts, Samples, Answers;
    Append(log, event);
  }

  lemma LedgerSendFailed(p: Prober, log: seq<Event>, p': Prober)
    requires Ledger(p, log)
    requires p'.uid == p.uid && p'.sequence == p.sequence + 1 && p'.inFlight == p.inFlight
    requires p'.sent == p.sent + 1 && p'.received == p.received
    ensures Ledger(p', log + [SendFailed(p.uid, p.sequence + 1)])
  {
    hide Verdicts, Samples, Answers;
    Append(log, SendFailed(p.uid, p.sequence + 1));
    assert forall k: nat :: Flying(p', k) <==> Flying(p, k);
  }

  lemma LedgerNoRoute(p: Prober, log: seq<Event>, p': Prober)
    requires Ledger(p, log)
    requires p'.uid == p.uid && p'.sequence == p.sequence && p'.inFlight == p.inFlight
    requires p'.sent == p.sent + 1 && p'.received == p.received
    ensures Ledger(p', log + [NoRoute(p.uid)])
  {
    hide Verdicts, Samples, Answers;
    Append(log, NoRoute(p.uid));
    assert forall k: nat :: Flying(p', k) <==> Flying(p, k);
  }

  lemma LedgerSent(p: Prober, log: seq<Event>, p': Prober, f: InFlight)
    requires Ledger(p, log) && f.seqNo == p.sequence + 1
    requires p'.uid == p.uid && p'.sequence == p.sequence + 1 && p'.inFlight == p.inFlight + [f]
    requires p'.sent == p.sent && p'.received == p.received
    ensures Ledger(p', log)
  {
    hide Verdicts, Samples, Answers;
    forall k: nat ensures Flying(p', k) <==> Flying(p, k) || k == p.sequence + 1 {
      assert p'.inFlight[|p.inFlight|] == f;
      if Flying(p, k) {
        var j :| 0 <= j < |p.inFlight| && p.inFlight[j].seqNo == k;
        assert p'.inFlight[j].seqNo == k;
      }
    }
    assert !Flying(p, p.sequence + 1);
  }

  // ---- the in-flight queue ----------------------------------------------

  /** Sorted by number, by send time and by deadline, and nothing from the future. */
  ghost predicate Ordered(p: Prober, clock: nat) {
    (forall a, b :: 0 <= a < b < |p.inFlight| ==>
      p.inFlight[a].seqNo < p.inFlight[b].seqNo && p.inFlight[a].sentUs <= p.inFlight[b].sentUs)
    && (forall a :: 0 <= a < |p.inFlight| ==>
      p.inFlight[a].seqNo <= p.sequence && p.inFlight[a].sentUs <= clock
      && p.inFlight[a].deadlineUs == p.inFlight[a].sentUs + p.timeoutUs)
  }

  /** Removing any one probe keeps the order and takes exactly its number out of flight. */
  lemma Erase(p: Prober, k: nat, clock: nat)
    requires Ordered(p, clock) && k < |p.inFlight|
    ensures var p' := p.(inFlight := p.inFlight[..k] + p.inFlight[k + 1..]);
      Ordered(p', clock) && forall n: nat :: Flying(p', n) <==> Flying(p, n) && n != p.inFlight[k].seqNo
  {
    EraseKeepsOrder(p, k, clock);
    hide Ordered;
    var p' := p.(inFlight := p.inFlight[..k] + p.inFlight[k + 1..]);
    forall n: nat ensures Flying(p', n) <==> Flying(p, n) && n != p.inFlight[k].seqNo {
      if Flying(p, n) && n != p.inFlight[k].seqNo {
        var j :| 0 <= j < |p.inFlight| && p.inFlight[j].seqNo == n;
        assert p'.inFlight[if j < k then j else j - 1].seqNo == n;
      }
      if Flying(p', n) {
        var j :| 0 <= j < |p'.inFlight| && p'.inFlight[j].seqNo == n;
        assert p.inFlight[if j < k then j else j + 1].seqNo == n;
      }
    }
  }

  lemma EraseKeepsOrder(p: Prober, k: nat, clock: nat)
    requires Ordered(p, clock) && k < |p.inFlight|
    ensures Ordered(p.(inFlight := p.inFlight[..k] + p.inFlight[k + 1..]), clock)
    ensures forall j :: 0 <= j < |p.inFlight| && j != k ==> p.inFlight[j].seqNo != p.inFlight[k].seqNo
  {
  }

  /** The first deadline is the least of all. */
  lemma FrontIsEarliest(p: Prober, clock: nat, j: nat)
    requires Ordered(p, clock) && j < |p.inFlight|
    ensures p.inFlight[0].deadlineUs <= p.inFlight[j].deadlineUs
  {
  }

  // ---- the pace of sending ----------------------------------------------

  /** Attempts so far: numbered sends, and attempts that had no endpoint or socket. */
  function Attempts(p: Prober, log: seq<Event>): nat {
    p.sequence + NoRoutes(log, p.uid)
  }

  /** The schedule is never behind the count of attempts, and never more than one slot ahead of the clock. */
  ghost predicate Paced(p: Prober, log: seq<Event>, born: nat, clock: nat) {
    born <= clock
    && born + Attempts(p, log) * p.intervalUs <= p.nextSendUs <= clock + SEND_SLACK_US + p.intervalUs
  }

  /** The rate bound: `k` attempts by an instant `t` take up at least `k - 1` intervals, less the slack. */
  lemma RateBound(p: Prober, log: seq<Event>, born: nat, clock: nat, t: nat)
    requires Paced(p, log, born, clock) && clock <= t
    ensures (Attempts(p, log) - 1) * p.intervalUs <= t - born + SEND_SLACK_US
  {
    assert (Attempts(p, log) - 1) * p.intervalUs == Attempts(p, log) * p.intervalUs - p.intervalUs;
  }

  /** One attempt, due by the slack, moves the schedule by at least one interval and not past the clock's next slot. */
  lemma PaceStep(p: Prober, log: seq<Event>, born: nat, clock: nat, now: nat, p': Prober, log': seq<Event>)
    requires Paced(p, log, born, clock) && clock <= now && now + SEND_SLACK_US >= p.nextSendUs
    requires p'.intervalUs == p.intervalUs && Attempts(p', log') == Attempts(p, log) + 1
    requires p'.nextSendUs == Reschedule(p, now).nextSendUs
    ensures Paced(p', log', born, now)
  {
    assert (Attempts(p, log) + 1) * p.intervalUs == Attempts(p, log) * p.intervalUs + p.intervalUs;
  }

  // ---- all of it --------------------------------------------------------

  /** The clamps of `loadClientFile`, and `maxInFlight` as `rebuildProbers` computes it. */
  predicate Configured(p: Prober) {
    p.intervalUs >= 100_000 && p.timeoutUs >= 50_000 && p.maxInFlight == InFlightLimit(p.intervalUs, p.timeoutUs)
  }

  function InFlightLimit(intervalUs: nat, timeoutUs: nat): nat
    requires intervalUs > 0
  {
    var needed := (timeoutUs + intervalUs - 1) / intervalUs;
    Min(if needed < 1 then 1 else needed, MAX_IN_FLIGHT)
  }

  ghost predicate Sound(p: Prober, log: seq<Event>, born: map<nat, nat>, clock: nat) {
    Configured(p) && Ledger(p, log) && Ordered(p, clock) && p.uid in born && Paced(p, log, born[p.uid], clock)
    && |p.inFlight| <= p.maxInFlight
  }

  /** Another prober's events, and the passing of time, change nothing here. */
  lemma SoundFrame(p: Prober, log: seq<Event>, events: seq<Event>, born: map<nat, nat>, clock: nat, clock': nat)
    requires Sound(p, log, born, clock) && clock <= clock' && |events| <= 1
    requires forall k :: 0 <= k < |events| ==> events[k].uid != p.uid
    ensures Sound(p, log + events, born, clock')
  {
    hide Verdicts, Samples, Answers, NoRoutes;
    if events == [] {
      assert log + events == log;
    } else {
      assert events == [events[0]];
      Append(log, events[0]);
    }
  }
}
