/**
  One stream's end of the shared queue: `enqueue_with_timeout` on the stream's own channel while all
  other tasks go on, and what the client can read in the end.
 */
module ClientQueue {
  import opened Bytes
  import opened Budget
  import opened BudgetQueue
  import opened BudgetHost
  import P = StreamPlan
  import Tenancy

  // ---- Refused calls -----------------------------------------------------------------------------

  predicate AllDone(calls: seq<Call>) {
    forall k | 0 <= k < |calls| :: calls[k].status.Done?
  }

  /** The error of the first call that failed. */
  function FirstFailure(calls: seq<Call>): Option<EnqueueError> {
    if calls == [] then None
    else if calls[0].status.Failed? then Some(calls[0].status.error)
    else FirstFailure(calls[1..])
  }

  lemma {:induction false} FirstFailureSnoc(calls: seq<Call>, call: Call)
    ensures FirstFailure(calls + [call])
         == if FirstFailure(calls).Some? then FirstFailure(calls)
            else if call.status.Failed? then Some(call.status.error) else None
  {
    if calls == [] {
      assert calls + [call] == [call] && [call][1..] == [];
    } else {
      assert (calls + [call])[0] == calls[0] && (calls + [call])[1..] == calls[1..] + [call];
      FirstFailureSnoc(calls[1..], call);
    }
  }

  lemma {:induction false} AllDoneNoFailure(calls: seq<Call>)
    requires AllDone(calls)
    ensures FirstFailure(calls).None?
  {
    if calls != [] {
      AllDoneNoFailure(calls[1..]);
    }
  }

  /** Fewer bytes than one slice in whole slices: none. */
  lemma WholeSlicesBelow(n: nat, capacity: nat)
    requires WholeSlices(n, capacity) < capacity
    ensures WholeSlices(n, capacity) == 0
  {
  }

  /** What a recorded call adds to the accepted bytes. */
  lemma CallSent(calls: seq<Call>, call: Call, slices: nat, capacity: nat)
    requires call.taken <= |call.bytes| && (if call.taken == |call.bytes| then call.status.Done? else call.status.Failed?)
    requires call.status.Failed? ==> call.taken == WholeSlices(slices, capacity)
    ensures P.Sent(Accepted(calls), Accepted(calls + [call]), call.bytes, call.status.Done?)
    ensures call.status.Failed? && |call.bytes| <= capacity ==> Accepted(calls + [call]) == Accepted(calls)
  {
    AcceptedSnoc(calls, call);
    if call.status.Failed? && |call.bytes| <= capacity {
      WholeSlicesBelow(slices, capacity);
    }
  }

  // ---- The sending side ----------------------------------------------------------------------------

  class Downstream {
    const host: Host
    const channel: nat
    /** What the system had done when the stream was opened. */
    ghost const opening: seq<Action>
    /** What other tasks attempt: for each call of this stream, before each of its steps. */
    const others: nat -> nat -> seq<Action>
    /** Whether the sender waits long enough for room in the queue. */
    const patient: nat -> nat -> bool
    var queued: ByteString
    /** The first error the queue gave this stream. */
    var refusal: Option<EnqueueError>

    /** An open stream with no call under way; `queued` is what the queue has accepted from it. */
    ghost predicate Valid()
      reads this, host
    {
      && host.Valid() && opening <= host.history && channel < |host.channels|
      && var ch := host.channels[channel];
         && ch.sender.Idle? && ch.senderAlive && ch.capacity == P.OUTPUT_BYTE_BUDGET
         && queued == Accepted(ch.calls) && refusal == FirstFailure(ch.calls)
    }

    constructor (host: Host, channel: nat, others: nat -> nat -> seq<Action>, patient: nat -> nat -> bool)
      requires host.Valid() && channel < |host.channels|
      requires var ch := host.channels[channel];
               ch.sender.Idle? && ch.senderAlive && ch.capacity == P.OUTPUT_BYTE_BUDGET && ch.calls == []
      ensures Valid() && this.host == host && this.channel == channel && opening == host.history
      ensures queued == [] && refusal.None?
    {
      this.host, this.channel, this.others, this.patient := host, channel, others, patient;
      opening := host.history;
      queued, refusal := [], None;
    }

    /** `enqueue_with_timeout`: a prefix of the bytes is accepted, all of them or an error. */
    method Enqueue(bytes: ByteString) returns (error: Option<EnqueueError>)
      requires Valid()
      modifies this, host
      ensures Valid()
      ensures P.Sent(old(queued), queued, bytes, error.None?)
      ensures error.Some? && |bytes| <= P.OUTPUT_BYTE_BUDGET ==> queued == old(queued)
      ensures refusal == if old(refusal).Some? then old(refusal) else error
    {
      var k := |host.channels[channel].calls|;
      host.Others(SenderOf(channel), others(k)(0));
      ghost var calls := host.channels[channel].calls;
      var status, taken, slices := host.Enqueue(channel, bytes, (n: nat) => others(k)(n + 1), patient(k));
      CallSent(calls, Call(bytes, taken, status), slices, P.OUTPUT_BYTE_BUDGET);
      FirstFailureSnoc(calls, Call(bytes, taken, status));
      AcceptedSnoc(calls, Call(bytes, taken, status));
      queued := queued + bytes[..taken];
      error := if status.Failed? then Some(status.error) else None;
      refusal := if refusal.Some? then refusal else error;
    }

    /** The task ends and drops its sender. */
    method Close()
      requires Valid()
      modifies host
      ensures host.Valid() && opening <= host.history
      ensures channel < |host.channels| && Sealed(host.Now(), channel)
      ensures host.channels[channel].calls == old(host.channels[channel].calls)
    {
      host.Step(CloseSender(channel));
    }
  }

  // ---- The reading side ----------------------------------------------------------------------------

  /** The sender is gone: nothing will be added. */
  predicate Sealed(w: World, c: nat) {
    c < |w.channels| && w.channels[c].sender.Idle? && !w.channels[c].senderAlive
  }

  lemma StepKeepsSealed(w: World, a: Action, c: nat)
    requires Sealed(w, c) && Enabled(w, a)
    ensures Sealed(Apply(w, a), c) && Apply(w, a).channels[c].calls == w.channels[c].calls
  {
    if !Sends(a, c) {
      ForeignKeepsSender(w, a, c);
    } else {
      assert a == CloseSender(c);
    }
  }

  lemma {:induction false} RunKeepsSealed(w: World, actions: seq<Action>, v: World, c: nat)
    requires Sealed(w, c) && Reaches(w, actions, v)
    ensures Sealed(v, c) && v.channels[c].calls == w.channels[c].calls
    decreases |actions|
  {
    if actions != [] {
      StepKeepsSealed(w, actions[0], c);
      RunKeepsSealed(Apply(w, actions[0]), actions[1..], v, c);
    }
  }

  /** Once the sender is gone, whatever happens later, the client only ever reads a prefix of what was accepted. */
  lemma SealedStreamIsRead(budget: nat, before: seq<Action>, w: World, c: nat, later: seq<Action>, v: World)
    requires Reaches(Initial(budget), before, w) && Sealed(w, c) && Reaches(w, later, v)
    ensures c < |v.channels| && v.channels[c].delivered <= Accepted(w.channels[c].calls)
    ensures v.channels[c].bodyAlive ==>
              v.channels[c].delivered + QueueBytes(v.segs, v.channels[c].queue) == Accepted(w.channels[c].calls)
    ensures v.channels[c].bodyAlive && v.channels[c].ended ==> v.channels[c].delivered == Accepted(w.channels[c].calls)
  {
    RunKeepsSealed(w, later, v, c);
    Tenancy.ReachesThrough(Initial(budget), before, w, later, v);
    InitialOrdered(budget);
    RunOrdered(Initial(budget), before + later, v);
    assert ChannelOk(v.channels[c], c, v.segs);
  }
}
