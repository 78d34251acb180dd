/**
 * The vault client's cancellation scheduler, as steps over events. Beside the scheduler's
 * own state, a run carries what happened: the requests that were pending on the chain at
 * the last refresh, and which of them were cancelled or reported executed since.
 */
module CancellationSpec {
  import opened Wrappers
  import opened FixedPoint

  type RequestId(==, !new)

  datatype ActiveRequest = ActiveRequest(id: RequestId, deadline: nat)

  /** An open request as the chain reports it. */
  datatype OpenRequest = OpenRequest(id: RequestId, openHeight: nat, period: nat)

  datatype Event = Opened | Executed(id: RequestId) | ParachainBlock(height: nat)

  datatype ListState = Valid | Invalid

  /**
   * The chain during one event: what is pending, the global period, whether the two
   * queries are answered, and whether the n-th cancellation of the event succeeds.
   */
  datatype Chain = Chain(
    pending: seq<OpenRequest>, period: nat, listAnswered: bool, periodAnswered: bool, cancels: nat -> bool)

  /** The open height plus the longer of the request's own period and the global one. */
  function Deadline(o: OpenRequest, period: nat): nat {
    o.openHeight + if period >= o.period then period else o.period
  }

  function ToActive(o: OpenRequest, period: nat): ActiveRequest {
    ActiveRequest(o.id, Deadline(o, period))
  }

  function ToActives(os: seq<OpenRequest>, period: nat): seq<ActiveRequest> {
    seq(|os|, i requires 0 <= i < |os| => ToActive(os[i], period))
  }

  /** `get_open_requests`: the period is asked for only if something is open; a deadline past 32 bits is an error. */
  function GetOpenRequests(chain: Chain): Option<seq<ActiveRequest>> {
    if !chain.listAnswered then None
    else if chain.pending == [] then Some([])
    else if !chain.periodAnswered then None
    else if exists i :: 0 <= i < |chain.pending| && Deadline(chain.pending[i], chain.period) > U32_MAX then None
    else Some(ToActives(chain.pending, chain.period))
  }

  predicate IsExpired(r: ActiveRequest, height: nat) {
    height > r.deadline
  }

  /** What `drain_expired` takes out, and what it keeps, both in order. */
  function ExpiredOf(rs: seq<ActiveRequest>, height: nat): seq<ActiveRequest> {
    if rs == [] then []
    else ExpiredOf(rs[..|rs| - 1], height) + if IsExpired(rs[|rs| - 1], height) then [rs[|rs| - 1]] else []
  }

  function KeptOf(rs: seq<ActiveRequest>, height: nat): seq<ActiveRequest> {
    if rs == [] then []
    else KeptOf(rs[..|rs| - 1], height) + if IsExpired(rs[|rs| - 1], height) then [] else [rs[|rs| - 1]]
  }

  /** `active_requests.retain(|x| x.id != id)`. */
  function Without(rs: seq<ActiveRequest>, id: RequestId): seq<ActiveRequest> {
    if rs == [] then []
    else Without(rs[..|rs| - 1], id) + if rs[|rs| - 1].id == id then [] else [rs[|rs| - 1]]
  }

  /** How many cancellations are attempted before the first failure, that one included. */
  function Attempts(n: nat, cancels: nat -> bool): nat
  {
    if n == 0 then 0
    else if Attempts(n - 1, cancels) == n - 1 && AllSucceed(n - 1, cancels) then n
    else Attempts(n - 1, cancels)
  }

  predicate AllSucceed(n: nat, cancels: nat -> bool) {
    forall i :: 0 <= i < n ==> cancels(i)
  }

  datatype Scheduler = Scheduler(list: ListState, active: seq<ActiveRequest>, height: nat)

  /** `process_event`, without what it sends. */
  function Process(s: Scheduler, event: Event, chain: Chain): Scheduler {
    var refreshed := Refreshed(s, chain);
    match event
    case ParachainBlock(height) =>
      var expired := ExpiredOf(refreshed, height);
      Scheduler(if AllSucceed(|expired|, chain.cancels) then Valid else Invalid, KeptOf(refreshed, height), height)
    case Executed(id) => Scheduler(Valid, Without(refreshed, id), s.height)
    case Opened => Scheduler(Invalid, refreshed, s.height)
  }

  /** The list after the attempt to refresh it: a failed one leaves it empty. */
  function Refreshed(s: Scheduler, chain: Chain): seq<ActiveRequest> {
    if s.list.Valid? then s.active
    else match GetOpenRequests(chain)
      case Some(rs) => rs
      case None => []
  }

  /** The cancellations an event sends, in order. */
  function Sends(s: Scheduler, event: Event, chain: Chain): seq<ActiveRequest> {
    if event.ParachainBlock?
    then
      var expired := ExpiredOf(Refreshed(s, chain), event.height);
      AttemptsWithin(|expired|, chain.cancels);
      expired[..Attempts(|expired|, chain.cancels)]
    else []
  }

  lemma {:induction false} AttemptsWithin(n: nat, cancels: nat -> bool)
    ensures Attempts(n, cancels) <= n
    ensures AllSucceed(n, cancels) ==> Attempts(n, cancels) == n
    ensures n > 0 ==> Attempts(n, cancels) > 0
    ensures forall i :: 0 <= i < Attempts(n, cancels) - 1 ==> cancels(i)
    ensures Attempts(n, cancels) < n ==> Attempts(n, cancels) > 0 && !cancels(Attempts(n, cancels) - 1)
  {
    if n > 0 {
      AttemptsWithin(n - 1, cancels);
    }
  }
}
