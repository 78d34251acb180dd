/** What every run of the cancellation scheduler keeps, and the scheduler itself. */
module Cancellation {
  import opened FixedPoint
  import opened CancellationSpec

  // ---------- Filters

  lemma {:induction false} FilterMembers(rs: seq<ActiveRequest>, height: nat, r: ActiveRequest)
    ensures r in KeptOf(rs, height) <==> r in rs && !IsExpired(r, height)
    ensures r in ExpiredOf(rs, height) <==> r in rs && IsExpired(r, height)
  {
    if rs != [] {
      FilterMembers(rs[..|rs| - 1], height, r);
      assert rs == rs[..|rs| - 1] + [rs[|rs| - 1]];
    }
  }

  lemma {:induction false} WithoutMembers(rs: seq<ActiveRequest>, id: RequestId, r: ActiveRequest)
    ensures r in Without(rs, id) <==> r in rs && r.id != id
  {
    if rs != [] {
      WithoutMembers(rs[..|rs| - 1], id, r);
      assert rs == rs[..|rs| - 1] + [rs[|rs| - 1]];
    }
  }

  // ---------- Runs

  datatype Run = Run(
    scheduler: Scheduler,
    pending: seq<OpenRequest>,
    period: nat,
    cancelled: set<RequestId>,
    executed: set<RequestId>)

  function Start(height: nat): Run {
    Run(Scheduler(Invalid, [], height), [], 0, {}, {})
  }

  function CancelledBy(sends: seq<ActiveRequest>, cancels: nat -> bool): set<RequestId> {
    set i | 0 <= i < |sends| && cancels(i) :: sends[i].id
  }

  /** The record starts afresh whenever the scheduler asks the chain, answered or not. */
  function Asked(w: Run, chain: Chain): Run {
    if w.scheduler.list.Valid? then w else Run(w.scheduler, chain.pending, chain.period, {}, {})
  }

  function Step(w: Run, event: Event, chain: Chain): Run {
    var asked := Asked(w, chain);
    Run(Process(w.scheduler, event, chain), asked.pending, asked.period,
        asked.cancelled + CancelledBy(Sends(w.scheduler, event, chain), chain.cancels),
        asked.executed + if event.Executed? then {event.id} else {})
  }

  function Exec(height: nat, steps: seq<(Event, Chain)>): Run {
    if steps == [] then Start(height)
    else
      var last := steps[|steps| - 1];
      Step(Exec(height, steps[..|steps| - 1]), last.0, last.1)
  }

  /** A request pending at the last refresh is still scheduled, or was cancelled or executed since. */
  predicate Accounted(w: Run, o: OpenRequest) {
    || ToActive(o, w.period) in w.scheduler.active
    || o.id in w.cancelled
    || o.id in w.executed
  }

  predicate NoLoss(w: Run) {
    w.scheduler.list.Invalid? || forall o :: o in w.pending ==> Accounted(w, o)
  }

  /** Every scheduled deadline comes from a request pending at the last refresh. */
  predicate Sourced(w: Run) {
    forall r :: r in w.scheduler.active ==> exists o :: o in w.pending && r == ToActive(o, w.period)
  }

  predicate Asks(w: Run) {
    w.scheduler.list.Invalid?
  }

  /** A refresh that gets no answer does no harm if the list stays invalid or nothing else was pending. */
  predicate Harmless(w: Run, event: Event, chain: Chain) {
    || !Asks(w)
    || GetOpenRequests(chain).Some?
    || event.Opened?
    || forall o :: o in chain.pending ==> event == Executed(o.id)
  }

  // ---------- One event

  lemma RefreshedMembers(chain: Chain, r: ActiveRequest)
    requires GetOpenRequests(chain).Some?
    ensures r in GetOpenRequests(chain).value <==> exists o :: o in chain.pending && r == ToActive(o, chain.period)
    ensures r in GetOpenRequests(chain).value ==> r.deadline <= U32_MAX
  {
    var os, rs := chain.pending, GetOpenRequests(chain).value;
    if r in rs {
      var i :| 0 <= i < |rs| && rs[i] == r;
      assert os[i] in os && r == ToActive(os[i], chain.period);
    }
    if o :| o in os && r == ToActive(o, chain.period) {
      var i :| 0 <= i < |os| && os[i] == o;
      assert rs[i] == r;
    }
  }

  /** All cancellations of an event that leaves the list valid went through. */
  lemma SendsAll(w: Run, height: nat, chain: Chain, r: ActiveRequest)
    requires Process(w.scheduler, ParachainBlock(height), chain).list.Valid?
    requires r in ExpiredOf(Refreshed(w.scheduler, chain), height)
    ensures r.id in CancelledBy(Sends(w.scheduler, ParachainBlock(height), chain), chain.cancels)
  {
    var expired := ExpiredOf(Refreshed(w.scheduler, chain), height);
    AttemptsWithin(|expired|, chain.cancels);
    var sends := Sends(w.scheduler, ParachainBlock(height), chain);
    assert sends == expired;
    var i :| 0 <= i < |expired| && expired[i] == r;
    assert chain.cancels(i) && sends[i].id == r.id;
  }

  /** What is on the refreshed list is accounted for after the event, unless the list is invalid. */
  lemma ListedIsAccounted(w: Run, event: Event, chain: Chain, o: OpenRequest)
    requires ToActive(o, Asked(w, chain).period) in Refreshed(w.scheduler, chain)
    requires Step(w, event, chain).scheduler.list.Valid?
    ensures Accounted(Step(w, event, chain), o)
  {
    var r, rs := ToActive(o, Asked(w, chain).period), Refreshed(w.scheduler, chain);
    match event {
      case ParachainBlock(height) =>
        FilterMembers(rs, height, r);
        if IsExpired(r, height) {
          SendsAll(w, height, chain, r);
        }
      case Executed(id) => WithoutMembers(rs, id, r);
      case Opened =>
    }
  }

  lemma StepKeepsNoLoss(w: Run, event: Event, chain: Chain)
    requires NoLoss(w) && Harmless(w, event, chain)
    ensures NoLoss(Step(w, event, chain))
  {
    var after := Step(w, event, chain);
    if after.scheduler.list.Valid? {
      forall o | o in after.pending ensures Accounted(after, o) {
        if Asks(w) && GetOpenRequests(chain).Some? {
          RefreshedMembers(chain, ToActive(o, chain.period));
          ListedIsAccounted(w, event, chain, o);
        } else if !Asks(w) {
          assert Accounted(w, o);
          if ToActive(o, w.period) in w.scheduler.active {
            ListedIsAccounted(w, event, chain, o);
          }
        }
      }
    }
  }

  /** A harmful failed refresh does lose a request: the list is empty and yet counts as valid. */
  lemma HarmfulLoses(w: Run, event: Event, chain: Chain)
    requires !Harmless(w, event, chain)
    ensures !NoLoss(Step(w, event, chain))
  {
    var after := Step(w, event, chain);
    var o :| o in chain.pending && event != Executed(o.id);
    assert Refreshed(w.scheduler, chain) == [];
    assert after.scheduler.active == [] && after.scheduler.list.Valid?;
    assert !Accounted(after, o);
  }

  lemma StepKeepsSourced(w: Run, event: Event, chain: Chain)
    requires Sourced(w)
    ensures Sourced(Step(w, event, chain))
  {
    var after, rs := Step(w, event, chain), Refreshed(w.scheduler, chain);
    forall r | r in after.scheduler.active ensures exists o :: o in after.pending && r == ToActive(o, after.period) {
      match event {
        case ParachainBlock(height) => FilterMembers(rs, height, r);
        case Executed(id) => WithoutMembers(rs, id, r);
        case Opened =>
      }
      RefreshedIsSourced(w, chain, r);
    }
  }

  lemma RefreshedIsSourced(w: Run, chain: Chain, r: ActiveRequest)
    requires Sourced(w) && r in Refreshed(w.scheduler, chain)
    ensures var asked := Asked(w, chain); exists o :: o in asked.pending && r == ToActive(o, asked.period)
  {
    if Asks(w) {
      RefreshedMembers(chain, r);
      var o :| o in chain.pending && r == ToActive(o, chain.period);
      assert o in Asked(w, chain).pending;
    } else {
      var o :| o in w.pending && r == ToActive(o, w.period);
      assert o in Asked(w, chain).pending;
    }
  }

  // ---------- Every run

  predicate HarmlessAt(height: nat, steps: seq<(Event, Chain)>, i: nat)
    requires i < |steps|
  {
    Harmless(Exec(height, steps[..i]), steps[i].0, steps[i].1)
  }

  lemma {:induction false} HarmlessRunLosesNothing(height: nat, steps: seq<(Event, Chain)>)
    requires forall i :: 0 <= i < |steps| ==> HarmlessAt(height, steps, i)
    ensures NoLoss(Exec(height, steps))
  {
    if steps != [] {
      var n := |steps| - 1;
      forall i | 0 <= i < n ensures HarmlessAt(height, steps[..n], i) {
        assert HarmlessAt(height, steps, i);
        assert steps[..n][..i] == steps[..i];
      }
      HarmlessRunLosesNothing(height, steps[..n]);
      assert HarmlessAt(height, steps, n);
      StepKeepsNoLoss(Exec(height, steps[..n]), steps[n].0, steps[n].1);
    }
  }

  /**
   * The scheduler loses nothing, at any point of a run, if and only if every failed
   * refresh happens on an `Opened` event or when nothing is pending but what the event
   * reports executed. In particular no run loses anything whose refreshes all succeed.
   */
  lemma NothingLostIffHarmless(height: nat, steps: seq<(Event, Chain)>)
    ensures (forall i :: 0 <= i <= |steps| ==> NoLoss(Exec(height, steps[..i]))) <==>
            (forall i :: 0 <= i < |steps| ==> HarmlessAt(height, steps, i))
  {
    if forall i :: 0 <= i < |steps| ==> HarmlessAt(height, steps, i) {
      forall i | 0 <= i <= |steps| ensures NoLoss(Exec(height, steps[..i])) {
        forall j | 0 <= j < i ensures HarmlessAt(height, steps[..i], j) {
          assert HarmlessAt(height, steps, j);
          assert steps[..i][..j] == steps[..j];
        }
        HarmlessRunLosesNothing(height, steps[..i]);
      }
    } else {
      var i :| 0 <= i < |steps| && !HarmlessAt(height, steps, i);
      HarmfulLoses(Exec(height, steps[..i]), steps[i].0, steps[i].1);
      assert steps[..i + 1][..i] == steps[..i];
      assert !NoLoss(Exec(height, steps[..i + 1]));
    }
  }

  /** The shortest such run: the first block asks for the open requests, gets no answer, and forgets one. */
  lemma OneBlockLoses(height: nat, block: nat, o: OpenRequest, period: nat, cancels: nat -> bool)
    ensures !NoLoss(Exec(height, [(ParachainBlock(block), Chain([o], period, false, true, cancels))]))
  {
    var step := (ParachainBlock(block), Chain([o], period, false, true, cancels));
    var steps := [step];
    assert steps[..0] == [];
    assert o in step.1.pending;
    HarmfulLoses(Start(height), step.0, step.1);
  }

  lemma {:induction false} RunIsSourced(height: nat, steps: seq<(Event, Chain)>)
    ensures Sourced(Exec(height, steps))
  {
    if steps != [] {
      RunIsSourced(height, steps[..|steps| - 1]);
      StepKeepsSourced(Exec(height, steps[..|steps| - 1]), steps[|steps| - 1].0, steps[|steps| - 1].1);
    }
  }

  /**
   * Nothing is cancelled early: after any run, every cancellation the next event sends is
   * for a request whose open height plus the larger of the two periods is strictly below
   * the height of that event's block.
   */
  lemma NothingCancelledEarly(height: nat, steps: seq<(Event, Chain)>, event: Event, chain: Chain, i: nat)
    requires i < |Sends(Exec(height, steps).scheduler, event, chain)|
    ensures var w := Exec(height, steps);
            var asked := Asked(w, chain);
            && event.ParachainBlock?
            && Step(w, event, chain).scheduler.height == event.height
            && exists o :: o in asked.pending && o.id == Sends(w.scheduler, event, chain)[i].id
                           && o.openHeight + o.period < event.height && o.openHeight + asked.period < event.height
  {
    var w := Exec(height, steps);
    RunIsSourced(height, steps);
    var rs := Refreshed(w.scheduler, chain);
    var r := Sends(w.scheduler, event, chain)[i];
    AttemptsWithin(|ExpiredOf(rs, event.height)|, chain.cancels);
    assert r in ExpiredOf(rs, event.height);
    FilterMembers(rs, event.height, r);
    RefreshedIsSourced(w, chain, r);
  }

  // ---------- The list is kept up to date

  /** The chain answers a refresh: both queries, and every deadline fits a block number. */
  predicate Answers(chain: Chain) {
    && chain.listAnswered
    && (chain.pending == [] || chain.periodAnswered)
    && (forall o :: o in chain.pending ==>
          o.openHeight + o.period <= U32_MAX && o.openHeight + chain.period <= U32_MAX)
  }

  lemma RefreshIff(chain: Chain)
    ensures GetOpenRequests(chain).Some? <==> Answers(chain)
  {
    var os := chain.pending;
    if o :| o in os && Deadline(o, chain.period) > U32_MAX {
      var i :| 0 <= i < |os| && os[i] == o;
      assert Deadline(os[i], chain.period) > U32_MAX;
    }
    if i :| 0 <= i < |os| && Deadline(os[i], chain.period) > U32_MAX {
      assert os[i] in os;
    }
  }

  /** Some cancellation that the event sends fails. */
  predicate FailsToCancel(w: Run, event: Event, chain: Chain) {
    exists i :: 0 <= i < |Sends(w.scheduler, event, chain)| && !chain.cancels(i)
  }

  /** The first failure is among the attempts. */
  lemma FailureIsAttempted(n: nat, cancels: nat -> bool)
    ensures AllSucceed(n, cancels) <==> forall i :: 0 <= i < Attempts(n, cancels) ==> cancels(i)
  {
    AttemptsWithin(n, cancels);
    if Attempts(n, cancels) < n {
      assert !cancels(Attempts(n, cancels) - 1);
    }
  }

  lemma StepAsksIff(w: Run, event: Event, chain: Chain)
    ensures Asks(Step(w, event, chain)) <==> event.Opened? || FailsToCancel(w, event, chain)
  {
    if event.ParachainBlock? {
      var expired := ExpiredOf(Refreshed(w.scheduler, chain), event.height);
      AttemptsWithin(|expired|, chain.cancels);
      FailureIsAttempted(|expired|, chain.cancels);
      assert |Sends(w.scheduler, event, chain)| == Attempts(|expired|, chain.cancels);
    }
  }

  /**
   * Exactly when the next event asks the chain again: at the start, after a request was
   * opened, and after a block at which a cancellation failed.
   */
  lemma AsksIff(height: nat, steps: seq<(Event, Chain)>)
    ensures Asks(Exec(height, steps)) <==>
              || steps == []
              || steps[|steps| - 1].0.Opened?
              || FailsToCancel(Exec(height, steps[..|steps| - 1]), steps[|steps| - 1].0, steps[|steps| - 1].1)
  {
    if steps != [] {
      StepAsksIff(Exec(height, steps[..|steps| - 1]), steps[|steps| - 1].0, steps[|steps| - 1].1);
    }
  }

  /** Whatever an answered refresh reports is then listed, cancelled or executed, or the list is asked for again. */
  lemma ReportedIsAccounted(height: nat, steps: seq<(Event, Chain)>, event: Event, chain: Chain, o: OpenRequest)
    requires Asks(Exec(height, steps)) && Answers(chain) && o in chain.pending
    ensures var after := Step(Exec(height, steps), event, chain);
            || Asks(after)
            || ToActive(o, chain.period) in after.scheduler.active
            || o.id in CancelledBy(Sends(Exec(height, steps).scheduler, event, chain), chain.cancels)
            || event == Executed(o.id)
  {
    var w := Exec(height, steps);
    RefreshIff(chain);
    RefreshedMembers(chain, ToActive(o, chain.period));
    if !Asks(Step(w, event, chain)) {
      ListedIsAccounted(w, event, chain, o);
    }
  }

  /** A request that was opened is picked up by the next event, if the chain answers it. */
  lemma OpenedIsPickedUp(height: nat, steps: seq<(Event, Chain)>, prior: Chain, event: Event, chain: Chain,
                         o: OpenRequest)
    requires Answers(chain) && o in chain.pending
    ensures var w := Exec(height, steps + [(Opened, prior)]);
            var after := Step(w, event, chain);
            || Asks(after)
            || ToActive(o, chain.period) in after.scheduler.active
            || o.id in CancelledBy(Sends(w.scheduler, event, chain), chain.cancels)
            || event == Executed(o.id)
  {
    AsksIff(height, steps + [(Opened, prior)]);
    ReportedIsAccounted(height, steps + [(Opened, prior)], event, chain, o);
  }

  /**
   * Nothing is cancelled late: a listed request past both periods is sent at that block,
   * unless an earlier cancellation of the same block failed.
   */
  lemma ExpiredIsSent(height: nat, steps: seq<(Event, Chain)>, block: nat, chain: Chain, o: OpenRequest)
    requires ToActive(o, Asked(Exec(height, steps), chain).period) in Refreshed(Exec(height, steps).scheduler, chain)
    requires block > o.openHeight + o.period && block > o.openHeight + Asked(Exec(height, steps), chain).period
    ensures var w := Exec(height, steps);
            var sent := Sends(w.scheduler, ParachainBlock(block), chain);
            || ToActive(o, Asked(w, chain).period) in sent
            || (sent != [] && !chain.cancels(|sent| - 1))
  {
    var w := Exec(height, steps);
    DueIsSent(w.scheduler, block, chain, ToActive(o, Asked(w, chain).period));
  }

  lemma DueIsSent(s: Scheduler, block: nat, chain: Chain, r: ActiveRequest)
    requires r in Refreshed(s, chain) && block > r.deadline
    ensures var sent := Sends(s, ParachainBlock(block), chain);
            r in sent || (sent != [] && !chain.cancels(|sent| - 1))
  {
    FilterMembers(Refreshed(s, chain), block, r);
    AttemptedOrFailed(ExpiredOf(Refreshed(s, chain), block), chain.cancels, r);
  }

  lemma AttemptedOrFailed(expired: seq<ActiveRequest>, cancels: nat -> bool, r: ActiveRequest)
    requires r in expired
    ensures var k := Attempts(|expired|, cancels);
            && 0 < k <= |expired|
            && (r in expired[..k] || !cancels(k - 1))
  {
    AttemptsWithin(|expired|, cancels);
    assert expired[..|expired|] == expired;
  }

  /** After a block no listed request is past its deadline, and after an execution none has its id. */
  lemma NothingStale(w: Run, event: Event, chain: Chain, r: ActiveRequest)
    requires r in Step(w, event, chain).scheduler.active
    ensures event.ParachainBlock? ==> event.height <= r.deadline
    ensures event.Executed? ==> r.id != event.id
  {
    var rs := Refreshed(w.scheduler, chain);
    match event {
      case ParachainBlock(height) => FilterMembers(rs, height, r);
      case Executed(id) => WithoutMembers(rs, id, r);
      case Opened =>
    }
  }

  /**
   * From opening to cancelling: a request that is opened, reported at the next block, and
   * past both periods there, is cancelled at that block if its cancellations go through.
   */
  lemma OpenedIsCancelled(height: nat, steps: seq<(Event, Chain)>, prior: Chain, block: nat, chain: Chain,
                          o: OpenRequest)
    requires Answers(chain) && o in chain.pending && (forall i: nat :: chain.cancels(i))
    requires block > o.openHeight + o.period && block > o.openHeight + chain.period
    ensures o.id in Step(Exec(height, steps + [(Opened, prior)]), ParachainBlock(block), chain).cancelled
  {
    var all := steps + [(Opened, prior)];
    AsksIff(height, all);
    RefreshIff(chain);
    RefreshedMembers(chain, ToActive(o, chain.period));
    ExpiredIsSent(height, all, block, chain, o);
    var sent := Sends(Exec(height, all).scheduler, ParachainBlock(block), chain);
    var i :| 0 <= i < |sent| && sent[i] == ToActive(o, chain.period);
    assert sent[i].id in CancelledBy(sent, chain.cancels);
  }

  // ---------- The scheduler

  /** What a run sends, event by event. */
  function AllSends(height: nat, steps: seq<(Event, Chain)>): seq<seq<ActiveRequest>> {
    if steps == [] then []
    else
      var prior, last := steps[..|steps| - 1], steps[|steps| - 1];
      AllSends(height, prior) + [Sends(Exec(height, prior).scheduler, last.0, last.1)]
  }

  lemma SchedulerAt(height: nat, steps: seq<(Event, Chain)>, i: nat)
    requires i < |steps|
    ensures Exec(height, steps[..i + 1]).scheduler ==
            Process(Exec(height, steps[..i]).scheduler, steps[i].0, steps[i].1)
    ensures AllSends(height, steps[..i + 1]) ==
            AllSends(height, steps[..i]) + [Sends(Exec(height, steps[..i]).scheduler, steps[i].0, steps[i].1)]
  {
    assert steps[..i + 1][..i] == steps[..i];
  }

  /** `drain_expired`, a `retain` that moves the expired requests out. */
  method DrainExpired(requests: seq<ActiveRequest>, height: nat)
    returns (expired: seq<ActiveRequest>, kept: seq<ActiveRequest>)
    ensures expired == ExpiredOf(requests, height) && kept == KeptOf(requests, height)
  {
    expired, kept := [], [];
    for i := 0 to |requests|
      invariant expired == ExpiredOf(requests[..i], height) && kept == KeptOf(requests[..i], height)
    {
      assert requests[..i + 1][..i] == requests[..i];
      if height > requests[i].deadline {
        expired := expired + [requests[i]];
      } else {
        kept := kept + [requests[i]];
      }
    }
    assert requests[..|requests|] == requests;
  }

  /** `retain(|x| x.id != id)`. */
  method Retain(requests: seq<ActiveRequest>, id: RequestId) returns (kept: seq<ActiveRequest>)
    ensures kept == Without(requests, id)
  {
    kept := [];
    for i := 0 to |requests|
      invariant kept == Without(requests[..i], id)
    {
      assert requests[..i + 1][..i] == requests[..i];
      if requests[i].id != id {
        kept := kept + [requests[i]];
      }
    }
    assert requests[..|requests|] == requests;
  }

  class CancellationScheduler {
    var parachainHeight: nat
    var activeRequests: seq<ActiveRequest>
    var listState: ListState

    function State(): Scheduler
      reads this
    {
      Scheduler(listState, activeRequests, parachainHeight)
    }

    constructor (height: nat)
      ensures State() == Start(height).scheduler
    {
      parachainHeight, activeRequests, listState := height, [], Invalid;
    }

    /** Cancels the expired requests in order, giving up at the first failure. */
    method CancelRequests(chain: Chain) returns (list: ListState, sent: seq<ActiveRequest>)
      modifies this`activeRequests
      ensures activeRequests == KeptOf(old(activeRequests), parachainHeight)
      ensures var expired := ExpiredOf(old(activeRequests), parachainHeight);
              && list == (if AllSucceed(|expired|, chain.cancels) then Valid else Invalid)
              && Attempts(|expired|, chain.cancels) <= |expired|
              && sent == expired[..Attempts(|expired|, chain.cancels)]
    {
      var expired, kept := DrainExpired(activeRequests, parachainHeight);
      activeRequests := kept;
      sent := [];
      for i := 0 to |expired|
        invariant sent == expired[..i]
        invariant AllSucceed(i, chain.cancels)
      {
        sent := sent + [expired[i]];
        if !chain.cancels(i) {
          AttemptsStop(|expired|, i, chain.cancels);
          return Invalid, sent;
        }
      }
      AttemptsWithin(|expired|, chain.cancels);
      return Valid, sent;
    }

    method ProcessEvent(event: Event, chain: Chain) returns (sent: seq<ActiveRequest>)
      modifies this
      ensures State() == Process(old(State()), event, chain)
      ensures sent == Sends(old(State()), event, chain)
    {
      sent := [];
      if listState.Invalid? {
        var answer := GetOpenRequests(chain);
        if answer.Some? {
          activeRequests := answer.value;
        } else {
          activeRequests := [];
        }
      }
      match event {
        case ParachainBlock(height) =>
          parachainHeight := height;
          listState, sent := CancelRequests(chain);
        case Executed(id) =>
          activeRequests := Retain(activeRequests, id);
          listState := Valid;
        case Opened =>
          listState := Invalid;
      }
    }

    /** The event loop, over any sequence of events, with what each sends. */
    method HandleCancellation(steps: seq<(Event, Chain)>) returns (sent: seq<seq<ActiveRequest>>)
      requires State() == Start(parachainHeight).scheduler
      modifies this
      ensures State() == Exec(old(parachainHeight), steps).scheduler
      ensures sent == AllSends(old(parachainHeight), steps)
    {
      ghost var height := parachainHeight;
      sent := [];
      for i := 0 to |steps|
        invariant State() == Exec(height, steps[..i]).scheduler
        invariant sent == AllSends(height, steps[..i])
      {
        SchedulerAt(height, steps, i);
        var now := ProcessEvent(steps[i].0, steps[i].1);
        sent := sent + [now];
      }
      assert steps[..|steps|] == steps;
    }
  }

  /** The attempts end with the first failure. */
  lemma {:induction false} AttemptsStop(n: nat, i: nat, cancels: nat -> bool)
    requires i < n && AllSucceed(i, cancels) && !cancels(i)
    ensures Attempts(n, cancels) == i + 1 && !AllSucceed(n, cancels)
  {
    AttemptsWithin(n, cancels);
  }
}
