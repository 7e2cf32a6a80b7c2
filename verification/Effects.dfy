/** What single operations do to a prober, told field by field. */
module Effects {
  import opened Hysteresis
  import opened Engine
  import opened ProberInvariant
  import opened EngineInvariant
  import opened Rebuild

  // ---- sending ----------------------------------------------------------

  /** What became of one attempt: nothing was sent for want of an address or of an open socket of its family; or the
      next number was used, and is outstanding for the maximum wait if the socket took it, and settled at once if
      not. */
  ghost predicate AttemptedAs(p: Prober, q: Prober, log: seq<Event>, log': seq<Event>, now: nat, sockets: Sockets) {
    var routed := p.endpoint.Endpoint? && ((p.endpoint.v6 && sockets.open6) || (!p.endpoint.v6 && sockets.open4));
    var n := p.sequence + 1;
    if !routed then
      log' == log + [NoRoute(p.uid)] && q.sequence == p.sequence && q.inFlight == p.inFlight && q.sent == p.sent + 1
    else
      q.sequence == n
      && if sockets.outcome(p.uid, n) == Sent
         then log' == log && q.inFlight == p.inFlight + [InFlight(n, now, now + p.timeoutUs)] && q.sent == p.sent
         else log' == log + [SendFailed(p.uid, n)] && q.inFlight == p.inFlight && q.sent == p.sent + 1
  }

  /** With the slot come and room below the limit, one attempt is made, and the next slot is one interval after this
      one; or one interval from now, if that would be over already. Otherwise nothing happens. */
  lemma SendEffect(e: State, i: nat, now: nat, sockets: Sockets)
    requires i < |e.probers|
    ensures var p := e.probers[i];
      var r := MaybeSend(e, i, now, sockets);
      if |p.inFlight| < p.maxInFlight && now + 2000 >= p.nextSendUs then
        AttemptedAs(p, r.probers[i], e.log, r.log, now, sockets)
        && r.probers[i].nextSendUs
           == (if p.nextSendUs + p.intervalUs > now then p.nextSendUs + p.intervalUs else now + p.intervalUs)
      else r == e
  {
    var p := e.probers[i];
    if SendDue(p, now) {
      MaybeSendChanges(e, i, now, sockets);
      assert e.log + [] == e.log;
    }
  }

  // ---- results ----------------------------------------------------------

  /** A result for a live prober ends its lookup; a found address takes the place of the old one, and what was there
      stays if none was found. */
  lemma ResolutionEffect(e: State, now: nat, result: Result, i: nat)
    requires Indexed(e) && IndexExact(e) && i < |e.probers|
    ensures var p, q := e.probers[i], HandleResolution(e, now, result).probers[i];
      if p.uid == result.uid then
        !q.resolving && q.endpoint == (if result.answer.Endpoint? then result.answer else p.endpoint)
        && q == p.(resolving := false, endpoint := q.endpoint, resolveFailures := q.resolveFailures,
                   nextResolveUs := q.nextResolveUs)
      else q == p
    ensures (forall j :: 0 <= j < |e.probers| ==> e.probers[j].uid != result.uid) ==>
        HandleResolution(e, now, result) == e
  {
  }

  // ---- reconfiguration --------------------------------------------------

  /** Just enough may be in flight to keep sending through the maximum wait, and no more than 8. */
  lemma LimitIsLeast(intervalUs: nat, timeoutUs: nat)
    requires intervalUs > 0 && timeoutUs > 0
    ensures var m := InFlightLimit(intervalUs, timeoutUs);
      1 <= m <= 8 && (m < 8 ==> m * intervalUs >= timeoutUs) && (m - 1) * intervalUs < timeoutUs
  {
  }

  lemma {:induction false} MinIntervalIsLeast(probers: seq<Prober>)
    requires PositiveIntervals(probers)
    ensures var m := MinInterval(probers);
      (probers == [] ==> m == 0)
      && (probers != [] ==> exists j :: 0 <= j < |probers| && probers[j].intervalUs == m)
      && forall j :: 0 <= j < |probers| ==> m <= probers[j].intervalUs
  {
    if probers != [] {
      var n := |probers| - 1;
      var front := probers[..n];
      MinIntervalIsLeast(front);
      assert forall j :: 0 <= j < n ==> front[j] == probers[j];
      if front == [] || probers[n].intervalUs < MinInterval(front) {
        assert probers[n].intervalUs == MinInterval(probers);
      } else {
        var j :| 0 <= j < n && front[j].intervalUs == MinInterval(front);
        assert probers[j].intervalUs == MinInterval(probers);
      }
    }
  }

  /** What was evaluated of a destination. */
  predicate SameEvaluation(d: Destination, x: Destination) {
    x.state == d.state && x.candidate == d.candidate && x.streak == d.streak && x.haveRtt == d.haveRtt
    && x.rttUs == d.rttUs && x.sent == d.sent && x.received == d.received
  }

  predicate Resembles(d: Destination, x: Destination) {
    x.id == d.id && x.address == d.address
  }

  /** The first old destination with the id and address of `d`. */
  predicate FirstLike(d: Destination, olds: seq<Destination>, k: nat) {
    k < |olds| && Resembles(d, olds[k]) && forall j :: 0 <= j < k ==> !Resembles(d, olds[j])
  }

  /** The first old client with the same id. */
  predicate FirstClient(client: Client, olds: seq<Client>, k: nat) {
    k < |olds| && olds[k].id == client.id && forall j :: 0 <= j < k ==> olds[j].id != client.id
  }

  /** Carrying over: a loaded destination takes what was evaluated of the first old one with its id and address, and
      keeps its own configuration; without one it stays as it was loaded. */
  lemma {:induction false} CarryEffect(d: Destination, olds: seq<Destination>)
    ensures var r := CarryDestination(d, olds);
      (forall k: nat :: FirstLike(d, olds, k) ==> SameEvaluation(olds[k], r))
      && ((forall k :: 0 <= k < |olds| ==> !Resembles(d, olds[k])) ==> r == d)
      && r.id == d.id && r.address == d.address && r.thresholdUs == d.thresholdUs && r.sensitivity == d.sensitivity
      && r.enabled == d.enabled && r.partTime == d.partTime && r.prober == d.prober
  {
    if olds != [] && !Resembles(d, olds[0]) {
      CarryEffect(d, olds[1..]);
      forall k: nat | FirstLike(d, olds, k) ensures FirstLike(d, olds[1..], k - 1) {
        assert forall j :: 0 <= j < k - 1 ==> olds[1..][j] == olds[j + 1];
      }
    }
  }

  /** Only the first old client with the same id is looked at. */
  lemma {:induction false} CarryClientEffect(client: Client, olds: seq<Client>)
    ensures var r := CarryClient(client, olds);
      (forall k: nat :: FirstClient(client, olds, k) ==>
        r.destinations == CarryDestinations(client.destinations, olds[k].destinations))
      && ((forall k :: 0 <= k < |olds| ==> olds[k].id != client.id) ==> r == client)
      && r.id == client.id && r.intervalUs == client.intervalUs && r.timeoutUs == client.timeoutUs
  {
    if olds != [] && olds[0].id != client.id {
      CarryClientEffect(client, olds[1..]);
      forall k: nat | FirstClient(client, olds, k) ensures FirstClient(client, olds[1..], k - 1) {
        assert forall j :: 0 <= j < k - 1 ==> olds[1..][j] == olds[j + 1];
      }
    }
  }
}
