/**
 * The shutdown wrapper around a broadcast channel. A send writes the shared flag and then
 * sends on the channel; a subscribe subscribes to the channel and then reads the flag.
 * Any number of both run at once, and each of these four actions is one step.
 */
module Shutdown {

  /** Where a call to `send` has got to. */
  datatype Send = Started | Flagged | Completed

  /** A subscriber before it has read the flag, a receiver with the flag it read, or one that is gone. */
  datatype Phase = Subscribed | Listening(received: bool) | Dropped

  /** `queue` counts the messages sent since the subscription and not yet taken; `recvs` the calls that returned. */
  datatype Receiver = Receiver(phase: Phase, queue: nat, recvs: nat)

  datatype System = System(flag: bool, sends: seq<Send>, receivers: seq<Receiver>)

  const START := System(false, [], [])
  const CAPACITY: nat := 16

  datatype Step =
    | StartSend
    | WriteFlag(send: nat)
    | ChannelSend(send: nat)
    | ChannelSubscribe
    | ReadFlag(receiver: nat)
    | Recv(receiver: nat)
    | Drop(receiver: nat)

  /** What `recv` does: it returns at once, with success or a lag error, or it waits. */
  datatype Outcome = Returns(ok: bool) | Waits

  function RecvOutcome(r: Receiver): Outcome {
    if r.phase == Listening(true) then Returns(true)
    else if r.phase.Listening? && r.queue > 0 then Returns(r.queue <= CAPACITY)
    else Waits
  }

  /** Sending reaches every subscriber there is, and no one if there is none. */
  function Deliver(r: Receiver): Receiver {
    if r.phase.Dropped? then r else r.(queue := r.queue + 1)
  }

  function DeliverAll(rs: seq<Receiver>): seq<Receiver> {
    seq(|rs|, i requires 0 <= i < |rs| => Deliver(rs[i]))
  }

  /** A lagging receiver skips to the oldest message the channel still holds. */
  function Take(r: Receiver): Receiver {
    if r.phase == Listening(true) then r.(recvs := r.recvs + 1)
    else if r.queue > CAPACITY then r.(queue := CAPACITY, recvs := r.recvs + 1)
    else if r.queue > 0 then r.(queue := r.queue - 1, recvs := r.recvs + 1)
    else r
  }

  predicate Enabled(s: System, step: Step) {
    match step
    case StartSend => true
    case WriteFlag(i) => i < |s.sends| && s.sends[i].Started?
    case ChannelSend(i) => i < |s.sends| && s.sends[i].Flagged?
    case ChannelSubscribe => true
    case ReadFlag(j) => j < |s.receivers| && s.receivers[j].phase.Subscribed?
    case Recv(j) => j < |s.receivers| && RecvOutcome(s.receivers[j]).Returns?
    case Drop(j) => j < |s.receivers|
  }

  function Apply(s: System, step: Step): System
    requires Enabled(s, step)
  {
    match step
    case StartSend => s.(sends := s.sends + [Started])
    case WriteFlag(i) => s.(flag := true, sends := s.sends[i := Flagged])
    case ChannelSend(i) => s.(sends := s.sends[i := Completed], receivers := DeliverAll(s.receivers))
    case ChannelSubscribe => s.(receivers := s.receivers + [Receiver(Subscribed, 0, 0)])
    case ReadFlag(j) => s.(receivers := s.receivers[j := s.receivers[j].(phase := Listening(s.flag))])
    case Recv(j) => s.(receivers := s.receivers[j := Take(s.receivers[j])])
    case Drop(j) => s.(receivers := s.receivers[j := s.receivers[j].(phase := Dropped)])
  }

  /** The system after any interleaving of steps; a step that is not enabled does not happen. */
  function Run(steps: seq<Step>): System {
    if steps == [] then START
    else
      var before, step := Run(steps[..|steps| - 1]), steps[|steps| - 1];
      if Enabled(before, step) then Apply(before, step) else before
  }

  predicate SomeCompleted(s: System) {
    exists i :: 0 <= i < |s.sends| && s.sends[i].Completed?
  }

  /** A receiver that read no flag and has not received anything has a message once a send completed. */
  predicate Awaits(s: System, r: Receiver) {
    && (r.phase == Listening(false) && r.recvs == 0 && SomeCompleted(s) ==> r.queue > 0)
    && (r.phase == Listening(true) || r.queue > 0 ==> s.flag)
  }

  predicate Inv(s: System) {
    && (forall i :: 0 <= i < |s.sends| && !s.sends[i].Started? ==> s.flag)
    && (forall j :: 0 <= j < |s.receivers| ==> Awaits(s, s.receivers[j]))
  }

  lemma SendKeepsInv(s: System, i: nat)
    requires Inv(s) && i < |s.sends| && s.sends[i].Flagged?
    ensures Inv(Apply(s, ChannelSend(i)))
  {
    var after := Apply(s, ChannelSend(i));
    forall j | 0 <= j < |after.receivers| ensures Awaits(after, after.receivers[j]) {
      assert Awaits(s, s.receivers[j]);
    }
  }

  /** The steps that touch one receiver, or none, leave the sends as they are. */
  lemma ReceiverStepKeepsInv(s: System, step: Step)
    requires Inv(s) && Enabled(s, step) && (step.ChannelSubscribe? || step.ReadFlag? || step.Recv? || step.Drop?)
    ensures Inv(Apply(s, step))
  {
    var after := Apply(s, step);
    assert SomeCompleted(after) ==> SomeCompleted(s);
    assert SomeCompleted(s) ==> s.flag;
    forall j | 0 <= j < |after.receivers| ensures Awaits(after, after.receivers[j]) {
      if j < |s.receivers| {
        assert Awaits(s, s.receivers[j]);
      }
    }
  }

  lemma StepKeepsInv(s: System, step: Step)
    requires Inv(s) && Enabled(s, step)
    ensures Inv(Apply(s, step))
  {
    var after := Apply(s, step);
    match step {
      case ChannelSend(i) => SendKeepsInv(s, i);
      case StartSend =>
        assert SomeCompleted(after) ==> SomeCompleted(s);
        assert forall j :: 0 <= j < |s.receivers| && Awaits(s, s.receivers[j]) ==> Awaits(after, after.receivers[j]);
      case WriteFlag(i) =>
        assert SomeCompleted(after) ==> SomeCompleted(s);
        assert forall j :: 0 <= j < |s.receivers| && Awaits(s, s.receivers[j]) ==> Awaits(after, after.receivers[j]);
      case ChannelSubscribe => ReceiverStepKeepsInv(s, step);
      case ReadFlag(_) => ReceiverStepKeepsInv(s, step);
      case Recv(_) => ReceiverStepKeepsInv(s, step);
      case Drop(_) => ReceiverStepKeepsInv(s, step);
    }
  }

  lemma {:induction false} RunKeepsInv(steps: seq<Step>)
    ensures Inv(Run(steps))
  {
    if steps != [] {
      RunKeepsInv(steps[..|steps| - 1]);
      var before, step := Run(steps[..|steps| - 1]), steps[|steps| - 1];
      if Enabled(before, step) {
        StepKeepsInv(before, step);
      }
    }
  }

  /**
   * Shutdown is never missed: in every interleaving, once any send has completed, the
   * first `recv` of every receiver returns, whether it subscribed before or after.
   */
  lemma NeverMissed(steps: seq<Step>, j: nat)
    requires j < |Run(steps).receivers| && SomeCompleted(Run(steps))
    requires Run(steps).receivers[j].phase.Listening? && Run(steps).receivers[j].recvs == 0
    ensures RecvOutcome(Run(steps).receivers[j]).Returns?
  {
    RunKeepsInv(steps);
    assert Awaits(Run(steps), Run(steps).receivers[j]);
  }

  lemma {:induction false} FlagNeedsSend(steps: seq<Step>)
    requires Run(steps).flag
    ensures exists i :: 0 <= i < |Run(steps).sends| && !Run(steps).sends[i].Started?
  {
    var before, step := Run(steps[..|steps| - 1]), steps[|steps| - 1];
    if before.flag {
      FlagNeedsSend(steps[..|steps| - 1]);
      var i :| 0 <= i < |before.sends| && !before.sends[i].Started?;
      assert !Run(steps).sends[i].Started?;
    } else {
      assert !Run(steps).sends[step.send].Started?;
    }
  }

  /** And never invented: a `recv` returns only after some send has written the flag. */
  lemma NeverSpurious(steps: seq<Step>, j: nat)
    requires j < |Run(steps).receivers| && RecvOutcome(Run(steps).receivers[j]).Returns?
    ensures exists i :: 0 <= i < |Run(steps).sends| && !Run(steps).sends[i].Started?
  {
    RunKeepsInv(steps);
    assert Awaits(Run(steps), Run(steps).receivers[j]);
    FlagNeedsSend(steps);
  }

  // ---------- What each call returns

  /** The sends on the channel since receiver `j` subscribed, by the steps. */
  function SentSince(steps: seq<Step>, j: nat): nat {
    if steps == [] then 0
    else
      var prior, step := Run(steps[..|steps| - 1]), steps[|steps| - 1];
      if !Enabled(prior, step) then SentSince(steps[..|steps| - 1], j)
      else if step.ChannelSubscribe? && j == |prior.receivers| then 0
      else SentSince(steps[..|steps| - 1], j) + if step.ChannelSend? then 1 else 0
  }

  /** Whether some send had written the flag when receiver `j` read it, by the steps. */
  function ReadShutdown(steps: seq<Step>, j: nat): bool {
    if steps == [] then false
    else
      var prior, step := Run(steps[..|steps| - 1]), steps[|steps| - 1];
      if Enabled(prior, step) && step == ReadFlag(j)
      then exists i :: 0 <= i < |prior.sends| && !prior.sends[i].Started?
      else ReadShutdown(steps[..|steps| - 1], j)
  }

  predicate Counts(r: Receiver, sent: nat, read: bool) {
    && (r.phase.Listening? ==> r.phase.received == read)
    && (r.recvs == 0 && !r.phase.Dropped? ==> r.queue == sent)
    && (r.phase != Listening(true) && !r.phase.Dropped? && sent <= CAPACITY ==> r.queue + r.recvs == sent)
  }

  lemma {:induction false} RunCounts(steps: seq<Step>, j: nat)
    requires j < |Run(steps).receivers|
    ensures Counts(Run(steps).receivers[j], SentSince(steps, j), ReadShutdown(steps, j))
  {
    var prefix, step := steps[..|steps| - 1], steps[|steps| - 1];
    var prior := Run(prefix);
    if j < |prior.receivers| {
      RunCounts(prefix, j);
      if Enabled(prior, step) && step == ReadFlag(j) {
        FlagIffSent(prefix);
      }
    }
  }

  lemma FlagIffSent(steps: seq<Step>)
    ensures Run(steps).flag <==> exists i :: 0 <= i < |Run(steps).sends| && !Run(steps).sends[i].Started?
  {
    RunKeepsInv(steps);
    if Run(steps).flag {
      FlagNeedsSend(steps);
    }
  }

  /**
   * Exactly what the first `recv` of a receiver does: it succeeds at once if a shutdown was
   * read, and otherwise waits for a send and fails if more than the capacity were missed.
   */
  lemma FirstRecv(steps: seq<Step>, j: nat)
    requires j < |Run(steps).receivers|
    requires Run(steps).receivers[j].phase.Listening? && Run(steps).receivers[j].recvs == 0
    ensures RecvOutcome(Run(steps).receivers[j]) ==
            if ReadShutdown(steps, j) then Returns(true)
            else if SentSince(steps, j) == 0 then Waits
            else Returns(SentSince(steps, j) <= CAPACITY)
  {
    RunCounts(steps, j);
  }

  /** A receiver that read no shutdown returns once per send, as long as it never lags. */
  lemma OncePerSend(steps: seq<Step>, j: nat)
    requires j < |Run(steps).receivers| && Run(steps).receivers[j].phase.Listening?
    requires !ReadShutdown(steps, j) && SentSince(steps, j) <= CAPACITY
    ensures Run(steps).receivers[j].recvs <= SentSince(steps, j)
    ensures RecvOutcome(Run(steps).receivers[j]) ==
            if Run(steps).receivers[j].recvs < SentSince(steps, j) then Returns(true) else Waits
  {
    RunCounts(steps, j);
  }
}
