/**
 * The per-slot task protocol of the vault client: a polling loop hands each slot's
 * transaction to a spawned task with a oneshot status sender, and cleans up slots whose
 * task reached a final status. Tasks finish, or drop their sender, at any time.
 */
module SlotTasks {
  import opened Wrappers

  type Slot(==, !new)

  datatype Status = Ready | Success | RecoverableError | Failed(reason: string) {
    predicate Final() {
      Success? || Failed?
    }
  }

  /** A oneshot channel: its sender is still held, a status waits to be received, or neither. */
  datatype Channel = Live | Sent(status: Status) | Closed

  /** `update_status`: the latest status and the channel after one non-blocking receive. */
  function Updated(latest: Status, channel: Channel): (Status, Channel) {
    if latest.Final() then (latest, channel)
    else match channel
      case Sent(Ready) => (latest, Closed)
      case Sent(status) => (status, Closed)
      case Live => (Ready, Live)
      case Closed => (RecoverableError, Closed)
  }

  // ---------- One task

  /** Both ends of a oneshot channel. */
  class Oneshot {
    var state: Channel

    constructor ()
      ensures state == Live
    {
      state := Live;
    }

    method TryReceive() returns (r: Option<Status>)
      modifies this
      ensures r == if old(state).Sent? then Some(old(state).status) else None
      ensures state == if old(state).Sent? then Closed else old(state)
    {
      if state.Sent? {
        r := Some(state.status);
        state := Closed;
      } else {
        r := None;
      }
    }
  }

  class SlotTask {
    const slot: Slot
    var receiver: Oneshot
    var latestStatus: Status

    constructor (slot: Slot, receiver: Oneshot)
      ensures this.slot == slot && this.receiver == receiver && latestStatus == Ready
    {
      this.slot, this.receiver, latestStatus := slot, receiver, Ready;
    }

    method UpdateStatus() returns (status: Status)
      modifies this`latestStatus, receiver
      ensures (latestStatus, receiver.state) == Updated(old(latestStatus), old(receiver.state))
      ensures status == latestStatus
    {
      if !latestStatus.Final() {
        var received := receiver.TryReceive();
        if received.Some? {
          if !received.value.Ready? {
            latestStatus := received.value;
          }
        } else if receiver.state.Live? {
          latestStatus := Ready;
        } else {
          latestStatus := RecoverableError;
        }
      }
      status := latestStatus;
    }

    method SetReceiver(channel: Oneshot) returns (ok: bool)
      modifies this`receiver
      ensures ok <==> !latestStatus.Final()
      ensures receiver == if ok then channel else old(receiver)
    {
      ok := latestStatus.Ready? || latestStatus.RecoverableError?;
      if ok {
        receiver := channel;
      }
    }

    /** A new sender is given out if and only if the updated status is a recoverable error. */
    method RecoverWithNewSender() returns (sender: Option<Oneshot>)
      modifies this, receiver
      ensures var status := Updated(old(latestStatus), old(receiver.state)).0;
              && (sender.Some? <==> status.RecoverableError?)
              && (sender.Some? ==>
                    receiver == sender.value && fresh(receiver) && receiver.state == Live && latestStatus == Ready)
              && (sender.None? ==> receiver == old(receiver) && latestStatus == status)
      ensures old(receiver).state == Updated(old(latestStatus), old(receiver.state)).1
    {
      var status := UpdateStatus();
      if status == RecoverableError {
        var channel := new Oneshot();
        var ok := SetReceiver(channel);
        if ok {
          latestStatus := Ready;
          return Some(channel);
        }
      }
      return None;
    }
  }

  // ---------- The loop and the spawned tasks

  datatype Task = Task(receiver: nat, latest: Status)

  datatype Sender = Sender(slot: Slot, channel: Channel)

  /** Every channel ever made, the loop's map of tasks, and the slots with a transaction to process. */
  datatype System = System(channels: seq<Sender>, processed: map<Slot, Task>, ledger: set<Slot>)

  datatype Step =
    // the wallet listener adds a transaction
    | Arrive(slot: Slot)
    // the loop visits a slot of the ledger map
    | Poll(slot: Slot)
    // the cleanup visits a slot of the processed map
    | Cleanup(slot: Slot)
    // a spawned task sends its status, or ends without sending
    | Finish(channel: nat, status: Status)
    | Abandon(channel: nat)

  const START := System([], map[], {})

  predicate Enabled(s: System, step: Step) {
    match step
    case Arrive(_) => true
    case Poll(slot) => slot in s.ledger && WellFormed(s)
    case Cleanup(slot) => slot in s.processed && WellFormed(s)
    case Finish(i, _) => i < |s.channels| && s.channels[i].channel.Live?
    case Abandon(i) => i < |s.channels| && s.channels[i].channel.Live?
  }

  /** Every task has its channel; this holds in every run, and lets the steps look channels up. */
  predicate WellFormed(s: System) {
    forall slot :: slot in s.processed ==> s.processed[slot].receiver < |s.channels|
  }

  /** `update_status` on what the loop keeps for a slot. */
  function Refresh(s: System, slot: Slot): System
    requires slot in s.processed && WellFormed(s)
  {
    var task := s.processed[slot];
    var (latest, channel) := Updated(task.latest, s.channels[task.receiver].channel);
    s.(channels := s.channels[task.receiver := s.channels[task.receiver].(channel := channel)],
       processed := s.processed[slot := task.(latest := latest)])
  }

  /** A new channel whose sender goes to a spawned task and whose receiver the slot's task keeps. */
  function Spawn(s: System, slot: Slot): System {
    s.(channels := s.channels + [Sender(slot, Live)], processed := s.processed[slot := Task(|s.channels|, Ready)])
  }

  function Apply(s: System, step: Step): System
    requires Enabled(s, step)
  {
    match step
    case Arrive(slot) => s.(ledger := s.ledger + {slot})
    case Poll(slot) =>
      if slot !in s.processed then Spawn(s, slot)
      else
        var refreshed := Refresh(s, slot);
        if refreshed.processed[slot].latest.RecoverableError? then Spawn(refreshed, slot) else refreshed
    case Cleanup(slot) =>
      var refreshed := Refresh(s, slot);
      if refreshed.processed[slot].latest.Final()
      then refreshed.(processed := refreshed.processed - {slot}, ledger := refreshed.ledger - {slot})
      else refreshed
    case Finish(i, status) =>
      // sending fails once the receiver is gone
      var delivered := s.channels[i].slot in s.processed && s.processed[s.channels[i].slot].receiver == i;
      s.(channels := s.channels[i := s.channels[i].(channel := if delivered then Sent(status) else Closed)])
    case Abandon(i) => s.(channels := s.channels[i := s.channels[i].(channel := Closed)])
  }

  /** The system after any interleaving of steps; a step that is not enabled does not happen. */
  function Run(steps: seq<Step>): System {
    if steps == [] then START
    else
      var before, step := Run(steps[..|steps| - 1]), steps[|steps| - 1];
      if Enabled(before, step) then Apply(before, step) else before
  }

  /** The receiver a channel was made for is still the one its slot's task listens on. */
  predicate Current(s: System, i: nat)
    requires i < |s.channels|
  {
    var slot := s.channels[i].slot;
    slot in s.processed && s.processed[slot].receiver == i
  }

  predicate Inv(s: System) {
    && WellFormed(s)
    && s.processed.Keys <= s.ledger
    // tasks listen on channels of their own slot, spent once the status is final
    && (forall slot :: slot in s.processed ==>
          var sender := s.channels[s.processed[slot].receiver];
          sender.slot == slot && (s.processed[slot].latest.Final() ==> sender.channel.Closed?))
    // a channel with a live sender or an unread status is listened on
    && (forall i :: 0 <= i < |s.channels| && !s.channels[i].channel.Closed? ==> Current(s, i))
  }

  lemma RefreshKeepsInv(s: System, slot: Slot)
    requires Inv(s) && slot in s.processed
    ensures Inv(Refresh(s, slot))
    ensures Refresh(s, slot).processed[slot].latest.RecoverableError? ==>
              Refresh(s, slot).channels[s.processed[slot].receiver].channel.Closed?
  {
    var after := Refresh(s, slot);
    forall i | 0 <= i < |after.channels| && !after.channels[i].channel.Closed? ensures Current(after, i) {
      assert !s.channels[i].channel.Closed?;
    }
  }

  /** A new channel for a slot is safe when no other channel of the slot is open. */
  lemma SpawnKeepsInv(s: System, slot: Slot)
    requires Inv(s) && slot in s.ledger
    requires slot in s.processed ==> s.channels[s.processed[slot].receiver].channel.Closed?
    ensures Inv(Spawn(s, slot))
  {
    var after := Spawn(s, slot);
    forall i | 0 <= i < |after.channels| && !after.channels[i].channel.Closed? ensures Current(after, i) {
      if i < |s.channels| {
        assert Current(s, i);
      }
    }
  }

  lemma StepKeepsInv(s: System, step: Step)
    requires Inv(s) && Enabled(s, step)
    ensures Inv(Apply(s, step))
  {
    var after := Apply(s, step);
    match step {
      case Arrive(_) =>
        assert forall i :: 0 <= i < |s.channels| && Current(s, i) ==> Current(after, i);
      case Poll(slot) =>
        if slot in s.processed {
          RefreshKeepsInv(s, slot);
          if Refresh(s, slot).processed[slot].latest.RecoverableError? {
            SpawnKeepsInv(Refresh(s, slot), slot);
          }
        } else {
          SpawnKeepsInv(s, slot);
        }
      case Cleanup(slot) =>
        var refreshed := Refresh(s, slot);
        RefreshKeepsInv(s, slot);
        forall i | 0 <= i < |after.channels| && !after.channels[i].channel.Closed? ensures Current(after, i) {
          assert Current(refreshed, i);
        }
      case Finish(i, _) =>
        FinishKeepsInv(s, i, after);
      case Abandon(i) =>
        FinishKeepsInv(s, i, after);
    }
  }

  lemma FinishKeepsInv(s: System, i: nat, after: System)
    requires Inv(s) && i < |s.channels| && s.channels[i].channel.Live?
    requires exists c: Channel :: after == s.(channels := s.channels[i := s.channels[i].(channel := c)])
    ensures Inv(after)
  {
    forall j | 0 <= j < |after.channels| && !after.channels[j].channel.Closed? ensures Current(after, j) {
      assert Current(s, j);
    }
    forall slot | slot in after.processed && after.processed[slot].latest.Final()
      ensures after.channels[after.processed[slot].receiver].channel.Closed?
    {
      assert s.channels[s.processed[slot].receiver].channel.Closed?;
    }
  }

  lemma {:induction false} RunKeepsInv(steps: seq<Step>)
    ensures Inv(Run(steps))
  {
    if steps != [] {
      var before, step := Run(steps[..|steps| - 1]), steps[|steps| - 1];
      RunKeepsInv(steps[..|steps| - 1]);
      if Enabled(before, step) {
        StepKeepsInv(before, step);
      }
    }
  }

  /** Single flight: in every interleaving, each slot has at most one live status sender. */
  lemma SingleFlight(s: System, steps: seq<Step>, i: nat, j: nat)
    requires s == Run(steps) && i < |s.channels| && j < |s.channels|
    requires s.channels[i].channel.Live? && s.channels[j].channel.Live? && s.channels[i].slot == s.channels[j].slot
    ensures i == j
  {
    RunKeepsInv(steps);
    assert Current(s, i) && Current(s, j);
  }

  /** No status is lost: one that was sent is what the next look at its slot finds. */
  lemma SentIsReceived(s: System, steps: seq<Step>, i: nat)
    requires s == Run(steps) && i < |s.channels| && s.channels[i].channel.Sent?
    ensures var slot := s.channels[i].slot;
            && slot in s.processed && WellFormed(s)
            && (!s.channels[i].channel.status.Ready? ==>
                  Refresh(s, slot).processed[slot].latest == s.channels[i].channel.status)
  {
    RunKeepsInv(steps);
    assert Current(s, i);
  }

  /** A final status is absorbing: no step changes it, and only the cleanup of its slot removes it. */
  lemma FinalIsAbsorbing(s: System, step: Step, slot: Slot)
    requires Enabled(s, step)
    requires slot in s.processed && s.processed[slot].latest.Final()
    ensures var after := Apply(s, step);
            if step == Cleanup(slot) then slot !in after.processed && slot !in after.ledger
            else slot in after.processed && after.processed[slot] == s.processed[slot]
  {
  }

  /** A slot is dropped only by its cleanup, only in a final status, and from both maps together. */
  lemma DroppedTogether(s: System, step: Step, slot: Slot)
    requires Enabled(s, step) && slot in s.ledger
    ensures var after := Apply(s, step);
            (slot !in after.ledger || (slot in s.processed && slot !in after.processed)) ==>
              && step == Cleanup(slot) && slot in s.processed && WellFormed(s)
              && Refresh(s, slot).processed[slot].latest.Final()
              && slot !in after.ledger && slot !in after.processed
  {
  }

  /** A task that reported a recoverable error, or ended without a word, is retried with one live sender. */
  lemma LostTaskIsRetried(s: System, steps: seq<Step>, slot: Slot)
    requires s == Run(steps) && slot in s.processed && WellFormed(s) && !s.processed[slot].latest.Final()
    requires var channel := s.channels[s.processed[slot].receiver].channel;
             channel.Closed? || channel == Sent(RecoverableError)
    ensures slot in s.ledger
    ensures var after := Apply(s, Poll(slot));
            && slot in after.processed && after.processed[slot] == Task(|s.channels|, Ready)
            && |after.channels| == |s.channels| + 1 && after.channels[|s.channels|] == Sender(slot, Live)
  {
    RunKeepsInv(steps);
  }

  /** A slot whose task is still running is left alone: no new sender, no change of status. */
  lemma RunningTaskIsLeftAlone(s: System, steps: seq<Step>, i: nat)
    requires s == Run(steps) && i < |s.channels| && s.channels[i].channel.Live?
    ensures var slot := s.channels[i].slot;
            && slot in s.ledger && WellFormed(s) && slot in s.processed
            && Apply(s, Poll(slot)).channels == s.channels
            && Apply(s, Poll(slot)).processed[slot] == Task(i, Ready)
  {
    RunKeepsInv(steps);
    assert Current(s, i);
  }

  // ---------- One automaton per slot

  /** All there is to one slot: nothing, a transaction not yet handed out, or a task and its channel. */
  datatype View = Unlisted | Waiting | Working(latest: Status, channel: Channel)

  function ViewOf(s: System, slot: Slot): View
    requires WellFormed(s)
  {
    if slot in s.processed then Working(s.processed[slot].latest, s.channels[s.processed[slot].receiver].channel)
    else if slot in s.ledger then Waiting
    else Unlisted
  }

  /** The loop visits the slot: a first visit and a lost task get a live sender, a report is taken up. */
  function Polled(v: View): View {
    match v
    case Unlisted => Unlisted
    case Waiting => Working(Ready, Live)
    case Working(latest, channel) =>
      if latest.Final() then v
      else match channel
        case Sent(Success) => Working(Success, Closed)
        case Sent(Failed(reason)) => Working(Failed(reason), Closed)
        case Sent(Ready) => if latest.RecoverableError? then Working(Ready, Live) else Working(latest, Closed)
        case Sent(RecoverableError) => Working(Ready, Live)
        case Live => Working(Ready, Live)
        case Closed => Working(Ready, Live)
  }

  /** The cleanup visits the slot: one that is finished, one way or the other, is forgotten. */
  function Cleaned(v: View): View {
    match v
    case Unlisted => Unlisted
    case Waiting => Waiting
    case Working(latest, channel) =>
      if latest.Final() then Unlisted
      else match channel
        case Sent(Success) => Unlisted
        case Sent(Failed(_)) => Unlisted
        case Sent(Ready) => Working(latest, Closed)
        case Sent(RecoverableError) => Working(RecoverableError, Closed)
        case Live => Working(Ready, Live)
        case Closed => Working(RecoverableError, Closed)
  }

  /** The step is by the slot's own running task. */
  predicate IsByTask(s: System, step: Step, slot: Slot) {
    && (step.Finish? || step.Abandon?)
    && step.channel < |s.channels| && s.channels[step.channel].channel.Live? && s.channels[step.channel].slot == slot
  }

  /** What a step does to one slot, from what there is to that slot alone. */
  function Next(v: View, step: Step, slot: Slot, byTask: bool): View {
    match step
    case Arrive(x) => if x == slot && v.Unlisted? then Waiting else v
    case Poll(x) => if x == slot then Polled(v) else v
    case Cleanup(x) => if x == slot then Cleaned(v) else v
    case Finish(_, status) => if byTask && v.Working? then Working(v.latest, Sent(status)) else v
    case Abandon(_) => if byTask && v.Working? then Working(v.latest, Closed) else v
  }

  lemma PollView(s: System, x: Slot, slot: Slot)
    requires Inv(s) && x in s.ledger
    ensures Inv(Apply(s, Poll(x)))
    ensures ViewOf(Apply(s, Poll(x)), slot) == if x == slot then Polled(ViewOf(s, slot)) else ViewOf(s, slot)
  {
    StepKeepsInv(s, Poll(x));
  }

  lemma CleanupView(s: System, x: Slot, slot: Slot)
    requires Inv(s) && x in s.processed
    ensures Inv(Apply(s, Cleanup(x)))
    ensures ViewOf(Apply(s, Cleanup(x)), slot) == if x == slot then Cleaned(ViewOf(s, slot)) else ViewOf(s, slot)
  {
    StepKeepsInv(s, Cleanup(x));
  }

  lemma TaskView(s: System, step: Step, slot: Slot)
    requires Inv(s) && Enabled(s, step) && (step.Finish? || step.Abandon?)
    ensures Inv(Apply(s, step))
    ensures ViewOf(Apply(s, step), slot) == Next(ViewOf(s, slot), step, slot, IsByTask(s, step, slot))
  {
    StepKeepsInv(s, step);
    assert Current(s, step.channel);
  }

  lemma StepView(s: System, step: Step, slot: Slot)
    requires Inv(s) && Enabled(s, step)
    ensures Inv(Apply(s, step))
    ensures ViewOf(Apply(s, step), slot) == Next(ViewOf(s, slot), step, slot, IsByTask(s, step, slot))
  {
    match step {
      case Arrive(_) => StepKeepsInv(s, step);
      case Poll(x) => PollView(s, x, slot);
      case Cleanup(x) => CleanupView(s, x, slot);
      case Finish(_, _) => TaskView(s, step, slot);
      case Abandon(_) => TaskView(s, step, slot);
    }
  }

  /** The history of one slot, by what the steps do to it. */
  function SlotHistory(steps: seq<Step>, slot: Slot): View {
    if steps == [] then Unlisted
    else
      var prior, step := steps[..|steps| - 1], steps[|steps| - 1];
      Next(SlotHistory(prior, slot), step, slot, IsByTask(Run(prior), step, slot))
  }

  /** In every interleaving the slots do not meddle: each follows its own automaton. */
  lemma {:induction false} RunIsPerSlot(steps: seq<Step>, slot: Slot)
    ensures WellFormed(Run(steps)) && ViewOf(Run(steps), slot) == SlotHistory(steps, slot)
  {
    RunKeepsInv(steps);
    if steps != [] {
      var prior, step := steps[..|steps| - 1], steps[|steps| - 1];
      RunIsPerSlot(prior, slot);
      RunKeepsInv(prior);
      if Enabled(Run(prior), step) {
        StepView(Run(prior), step, slot);
      }
    }
  }

  /** A transaction that arrives and is polled has a live sender, unless its slot is already being worked on. */
  lemma FirstPollSpawns(steps: seq<Step>, slot: Slot)
    requires slot !in Run(steps).processed
    ensures var s := Run(steps + [Arrive(slot), Poll(slot)]);
            WellFormed(s) && ViewOf(s, slot) == Working(Ready, Live)
  {
    var all := steps + [Arrive(slot), Poll(slot)];
    RunIsPerSlot(steps, slot);
    RunIsPerSlot(all, slot);
    assert all[..|all| - 1] == steps + [Arrive(slot)];
    assert (steps + [Arrive(slot)])[..|steps|] == steps;
  }

  /** A status that a live sender sends is on its channel. */
  lemma FinishIsSent(steps: seq<Step>, i: nat, status: Status)
    requires i < |Run(steps).channels| && Run(steps).channels[i].channel.Live?
    ensures var s := Run(steps + [Finish(i, status)]);
            |s.channels| == |Run(steps).channels| && s.channels[i] == Sender(Run(steps).channels[i].slot, Sent(status))
  {
    RunKeepsInv(steps);
    assert Current(Run(steps), i);
    assert (steps + [Finish(i, status)])[..|steps|] == steps;
  }
}
