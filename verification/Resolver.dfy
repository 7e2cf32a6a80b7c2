/** daemon/src/resolver.cpp, one atomic section at a time. */
module Resolver {
  import opened Engine

  /** Where the worker thread is between its atomic sections. */
  datatype Worker = Waiting | Looking(request: Request) | Signalling

  /** The shared fields, the worker's position, and whether the loop has read the eventfd but not yet taken the
      results. */
  datatype Queues = Queues(pending: seq<Request>, worker: Worker, completed: seq<Result>, counter: nat, draining: bool)

  function AfterRequest(q: Queues, request: Request): Queues {
    q.(pending := Enqueue(q.pending, request))
  }

  /** `collect`, first half: reading the eventfd resets it. */
  function AfterDrain(q: Queues): Queues {
    q.(counter := 0, draining := true)
  }

  /** `collect`, second half: everything completed is handed over. */
  function AfterTake(q: Queues): Queues {
    q.(completed := [], draining := false)
  }

  /** `run`: the front request leaves the queue. */
  function AfterPop(q: Queues): Queues
    requires q.worker.Waiting? && q.pending != []
  {
    q.(pending := q.pending[1..], worker := Looking(q.pending[0]))
  }

  function AfterLookup(q: Queues, answer: Endpoint): Queues
    requires q.worker.Looking?
  {
    q.(completed := q.completed + [Result(q.worker.request.uid, q.worker.request.host, answer)], worker := Signalling)
  }

  function AfterSignal(q: Queues): Queues
    requires q.worker.Signalling?
  {
    q.(counter := q.counter + 1, worker := Waiting)
  }

  /** No wakeup is lost: results never wait without something on the way to collect them. */
  predicate WakeupPending(q: Queues) {
    q.completed != [] ==> q.counter > 0 || q.worker.Signalling? || q.draining
  }

  /** Every atomic section of either thread keeps it. */
  lemma NoLostWakeup(q: Queues, request: Request, answer: Endpoint)
    requires WakeupPending(q)
    ensures WakeupPending(AfterRequest(q, request)) && WakeupPending(AfterDrain(q)) && WakeupPending(AfterTake(q))
    ensures q.worker.Waiting? && q.pending != [] ==> WakeupPending(AfterPop(q))
    ensures q.worker.Looking? ==> WakeupPending(AfterLookup(q, answer))
    ensures q.worker.Signalling? ==> WakeupPending(AfterSignal(q))
  {
  }

  /** Taking the results before resetting the eventfd would lose wakeups: a result can slip in between. */
  lemma OtherOrderLosesWakeups(request: Request, answer: Endpoint)
    ensures var q := Queues([], Signalling, [Result(request.uid, request.host, answer)], 0, false);
      var slipped := AfterSignal(q.(completed := []));
      var late := AfterSignal(AfterLookup(slipped.(worker := Looking(request)), answer));
      WakeupPending(q) && WakeupPending(late) && !WakeupPending(late.(counter := 0))
  {
  }

  class Resolver {
    var pending: seq<Request>
    var completed: seq<Result>
    var counter: nat
    ghost var worker: Worker
    ghost var draining: bool

    constructor ()
      ensures State() == Queues([], Waiting, [], 0, false)
    {
      pending, completed, counter, worker, draining := [], [], 0, Waiting, false;
    }

    ghost function State(): Queues
      reads this
    {
      Queues(pending, worker, completed, counter, draining)
    }

    /** `request` */
    method Request(uid: nat, host: string)
      modifies this`pending
      ensures State() == AfterRequest(old(State()), Engine.Request(uid, host))
    {
      var k := 0;
      while k < |pending|
        invariant 0 <= k <= |pending| && forall j :: 0 <= j < k ==> pending[j].uid != uid
      {
        if pending[k].uid == uid {
          return;
        }
        k := k + 1;
      }
      pending := pending + [Engine.Request(uid, host)];
    }

    /** `collect`, first half. */
    method ReadEvent()
      modifies this
      ensures State() == AfterDrain(old(State()))
    {
      counter := 0;
      draining := true;
    }

    /** `collect`, second half. */
    method TakeCompleted() returns (out: seq<Result>)
      modifies this
      ensures State() == AfterTake(old(State())) && out == old(completed)
    {
      draining := false;
      if completed == [] {
        return [];
      }
      out := completed;
      completed := [];
    }

    /** `run`, first locked section, once the condition holds. */
    method PopRequest() returns (request: Engine.Request)
      requires worker.Waiting? && pending != []
      modifies this
      ensures State() == AfterPop(old(State())) && request == old(pending)[0]
    {
      request := pending[0];
      pending := pending[1..];
      worker := Looking(request);
    }

    /** `run`, second locked section, after the lookup. */
    method PushResult(request: Engine.Request, answer: Endpoint)
      requires worker == Looking(request)
      modifies this
      ensures State() == AfterLookup(old(State()), answer)
    {
      completed := completed + [Result(request.uid, request.host, answer)];
      worker := Signalling;
    }

    /** `run`, the write to the eventfd. */
    method Signal()
      requires worker.Signalling?
      modifies this
      ensures State() == AfterSignal(old(State()))
    {
      counter := counter + 1;
      worker := Waiting;
    }
  }
}
