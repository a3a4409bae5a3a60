/**
  The task that serves one stream, with its redactor, its detector and its end of the shared queue as
  objects. All other tasks go on meanwhile; how they do decides how much the queue takes of each call.
 */
module StreamTask {
  import opened Bytes
  import R = Redactor
  import D = Detector
  import opened DetectorRuns
  import opened StreamPlan
  import Budget
  import BQ = BudgetQueue
  import H = BudgetHost
  import opened ClientQueue

  /** The engine every new stream reads and a reload replaces. */
  class EngineCell {
    var engine: R.Engine

    constructor (engine: R.Engine)
      ensures this.engine == engine
    {
      this.engine := engine;
    }
  }

  class Task {
    const sse: bool
    const sign: D.Signer
    const redactor: R.StreamRedactor
    const detector: D.DoneDetector
    const hasher: D.Hasher
    const down: Downstream

    constructor (engine: R.Engine, sse: bool, sign: D.Signer, down: Downstream)
      ensures this.sse == sse && this.sign == sign && this.down == down
      ensures fresh(redactor) && fresh(detector) && fresh(hasher)
      ensures redactor.engine == engine && redactor.maxCapacity == Capacity() && redactor.pending == []
      ensures View() == D.INITIAL
    {
      this.sse, this.sign, this.down := sse, sign, down;
      redactor := new R.StreamRedactor(engine, Capacity());
      detector := new D.DoneDetector();
      hasher := new D.Hasher();
    }

    ghost function View(): D.State
      reads detector, hasher
    {
      detector.View(hasher)
    }

    /** `forward_stream_events`: event by event, until the queue refuses one. */
    method Forward(events: seq<D.Event>) returns (ok: bool)
      requires down.Valid() && down.refusal.None?
      modifies down, down.host
      ensures Sent(old(down.queued), down.queued, Wire(events), ok)
      ensures down.Valid() && (ok <==> down.refusal.None?)
    {
      ghost var start := down.queued;
      for i := 0 to |events|
        invariant Sent(start, down.queued, Wire(events[..i]), true)
        invariant down.Valid() && down.refusal.None?
      {
        ghost var mid := down.queued;
        var error := down.Enqueue(events[i].bytes);
        WireSnoc(events, i);
        SentMore(start, mid, down.queued, Wire(events[..i]), events[i].bytes, error.None?);
        if error.Some? {
          WirePrefix(events, i + 1);
          SentLess(start, down.queued, Wire(events[..i + 1]), Wire(events[i + 1..]));
          return false;
        }
      }
      assert events[..|events|] == events;
      return true;
    }

    /** One redacted piece. */
    method RelayOne(bytes: ByteString) returns (ok: bool)
      requires D.Valid(View()) && down.Valid() && down.refusal.None?
      modifies detector, hasher, down, down.host
      ensures D.Valid(View())
      ensures var r := Piece(sse, old(View()), bytes, sign);
              View() == r.state && Sent(old(down.queued), down.queued, Wire(r.events), ok)
      ensures down.Valid() && (ok <==> down.refusal.None?)
    {
      if sse {
        StaysValid(View(), InspectOp(bytes), sign);
        var events := detector.Inspect(bytes, sign, hasher);
        ok := Forward(events);
      } else {
        hasher.Update(bytes);
        WireOne(D.Data(bytes));
        var error := down.Enqueue(bytes);
        ok := error.None?;
      }
    }

    /** The outputs of one redactor call, piece by piece, until the queue refuses one. */
    method Relay(outputs: seq<R.Segment>) returns (ok: bool)
      requires D.Valid(View()) && down.Valid() && down.refusal.None?
      modifies detector, hasher, down, down.host
      ensures D.Valid(View())
      ensures var r := Relayed(sse, old(View()), Texts(outputs), sign);
              && (ok ==> View() == r.state)
              && Sent(old(down.queued), down.queued, Wire(r.events), ok)
      ensures down.Valid() && (ok <==> down.refusal.None?)
    {
      ghost var (s0, q0, all) := (View(), down.queued, Texts(outputs));
      ghost var r := Relayed(sse, s0, all, sign);
      ghost var done: ByteString := [];
      assert all[0..] == all;
      for i := 0 to |outputs|
        invariant D.Valid(View()) && Sent(q0, down.queued, done, true)
        invariant down.Valid() && down.refusal.None?
        invariant var later := Relayed(sse, View(), all[i..], sign);
                  r.state == later.state && Wire(r.events) == done + Wire(later.events)
      {
        ghost var (s, q) := (View(), down.queued);
        RelayStep(sse, s, all[i..], sign);
        assert all[i..][0] == outputs[i].bytes && all[i..][1..] == all[i + 1..];
        ok := RelayOne(outputs[i].bytes);
        ghost var text := Wire(Piece(sse, s, outputs[i].bytes, sign).events);
        RelayedWire(sse, s, all[i..], sign, done);
        SentMore(q0, q, down.queued, done, text, ok);
        if !ok {
          SentLess(q0, down.queued, done + text, Wire(Relayed(sse, View(), all[i + 1..], sign).events));
          return;
        }
        done := done + text;
      }
      RelayNothing(sse, View(), sign);
      return true;
    }

    /** `send_terminal_error`: the frame is queued or it is not; nobody looks at the result. */
    method TerminalError(reason: Reason) returns (o: Outcome)
      requires down.Valid()
      modifies down, down.host
      ensures o.data == old(down.queued) && o.end == Terminated(reason) && o.log.None?
      ensures down.Valid() && down.queued == o.data + o.notice && (o.notice == [] || o.notice == ErrorFrame(reason))
      ensures down.refusal.None? ==> o.notice == ErrorFrame(reason)
      ensures old(down.refusal).Some? ==> down.refusal == old(down.refusal)
    {
      FrameFitsOneSegment(reason);
      var data := down.queued;
      var error := down.Enqueue(ErrorFrame(reason));
      o := Outcome(data, if error.None? then ErrorFrame(reason) else [], Terminated(reason), None);
    }

    /** The detector's rest, for event streams. */
    method FlushDetector() returns (ok: bool)
      requires D.Valid(View()) && down.Valid() && down.refusal.None?
      modifies detector, hasher, down, down.host
      ensures Sent(old(down.queued), down.queued, if sse then Wire(D.Flushed(old(View())).events) else [], ok)
      ensures View() == if sse then D.Flushed(old(View())).state else old(View())
      ensures down.Valid() && (ok <==> down.refusal.None?)
    {
      if !sse {
        return true;
      }
      var events := detector.Finish(hasher);
      ok := Forward(events);
    }

    /** The redactor's rest, then the detector's. */
    method RelayLast(outputs: seq<R.Segment>) returns (ok: bool)
      requires D.Valid(View()) && down.Valid() && down.refusal.None?
      modifies detector, hasher, down, down.host
      ensures Sent(old(down.queued), down.queued, WholeWire(sse, old(View()), outputs, sign), ok)
      ensures ok ==> View() == LastState(sse, old(View()), outputs, sign)
      ensures down.Valid() && (ok <==> down.refusal.None?)
    {
      ghost var q0 := down.queued;
      ghost var relayed := Relayed(sse, View(), Texts(outputs), sign);
      ghost var rest := if sse then Wire(D.Flushed(relayed.state).events) else [];
      ok := Relay(outputs);
      if !ok {
        SentLess(q0, down.queued, Wire(relayed.events), rest);
        return;
      }
      ghost var q1 := down.queued;
      ok := FlushDetector();
      SentMore(q0, q1, down.queued, Wire(relayed.events), rest, ok);
    }

    /** After the loop. Only a stream that reached the upstream's end logs its hash. */
    method Close(goal: End) returns (o: Outcome)
      requires D.Valid(View()) && Ready()
      requires goal == Completed || goal == Stopped
      modifies redactor, detector, hasher, down, down.host
      ensures Served(old(down.queued), Closing(redactor.engine, sse, sign, old(redactor.pending), old(View()), goal),
                     o, sse, down.refusal)
      ensures down.Valid() && down.queued == o.data + o.notice
    {
      var r := redactor.Finish();
      if r.Err? {
        o := TerminalError(RedactionFinishFailed);
      } else {
        var ok := RelayLast(r.value);
        if ok {
          o := Outcome(down.queued, [], goal, if goal == Completed then Some(hasher.fed) else None);
        } else {
          o := Outcome(down.queued, [], Aborted, None);
        }
      }
    }

    /** The queue refused part of a chunk's output: a plain response still tries the terminal error frame. */
    method GiveUp() returns (o: Outcome)
      requires down.Valid() && down.refusal.Some?
      modifies down, down.host
      ensures down.Valid() && down.refusal == old(down.refusal) && down.queued == o.data + o.notice
      ensures o.data == old(down.queued) && o.log.None? && NoticeFits(o)
      ensures o.end == RefusedEnd(sse, true, down.refusal.value)
    {
      if sse {
        o := Outcome(down.queued, [], Aborted, None);
      } else {
        o := TerminalError(ReasonFor(down.refusal.value));
      }
    }

    /** A chunk from upstream: redact it and send on what comes out. */
    method OnChunk(bytes: ByteString) returns (halted: bool, o: Outcome)
      requires D.Valid(View()) && Ready()
      modifies redactor, detector, hasher, down, down.host
      ensures Moved(MoveOn(redactor.engine, sse, sign, old(redactor.pending), old(View()), Chunk(bytes)),
                    old(down.queued), halted, o)
    {
      halted, o := true, Outcome(down.queued, [], Open, None);
      var r := redactor.Push(bytes);
      if r.Err? {
        o := TerminalError(RedactionFailed);
        return;
      }
      var ok := Relay(r.value);
      if ok {
        halted := false;
      } else {
        o := GiveUp();
      }
    }

    /** Shutdown: a receipt for what was sent so far, then the remaining bytes. */
    method OnShutdown() returns (o: Outcome)
      requires D.Valid(View()) && Ready()
      modifies redactor, detector, hasher, down, down.host
      ensures Served(old(down.queued), ShutdownPlan(redactor.engine, sse, sign, old(redactor.pending), old(View())),
                     o, sse, down.refusal)
      ensures down.Valid() && down.queued == o.data + o.notice
    {
      ghost var q0, text := down.queued, Wire(D.ShutDown(View(), sign).events);
      ghost var later := Closing(redactor.engine, sse, sign, redactor.pending, D.ShutDown(View(), sign).state, Stopped);
      ClosingEnds(redactor.engine, sse, sign, redactor.pending, D.ShutDown(View(), sign).state, Stopped);
      var events := detector.ShutdownEvents(sign, hasher);
      var ok := Forward(events);
      if !ok {
        o := Outcome(down.queued, [], Aborted, None);
        RefusedAfterLoop(q0, text, later, down.queued, sse, down.refusal.value);
      } else {
        ghost var q1 := down.queued;
        o := Close(Stopped);
        ServedLater(q0, q1, text, later, o, sse, down.refusal);
      }
    }

    /** One turn of the select loop. */
    method Turn(cell: EngineCell, next: Label) returns (halted: bool, o: Outcome)
      requires D.Valid(View()) && Ready()
      modifies cell, redactor, detector, hasher, down, down.host
      ensures Moved(MoveOn(redactor.engine, sse, sign, old(redactor.pending), old(View()), next),
                    old(down.queued), halted, o)
    {
      halted, o := true, Outcome(down.queued, [], Disconnected, None);
      match next
      case Chunk(bytes) => halted, o := OnChunk(bytes);
      case Eof => o := Close(Completed);
      case ShutdownChanged(on) =>
        if on {
          o := OnShutdown();
        } else {
          halted := false;
        }
      case HotSwap(engine) =>
        cell.engine := engine;
        halted := false;
      case ReadError => o := TerminalError(UpstreamReadFailed);
      case IdleTimeout => o := TerminalError(UpstreamIdleTimeout);
      case Disconnect =>
    }

    /** The task is running: no call was refused, its engine and buffer limit are in place. */
    ghost predicate Ready()
      reads down, down.host
    {
      down.Valid() && down.refusal.None? && R.Usable(redactor.engine) && redactor.maxCapacity == Capacity()
    }

    /** The task now stands where the move says, or has ended as it allows. */
    ghost predicate Moved(m: Move, before: ByteString, halted: bool, o: Outcome)
      reads redactor, detector, hasher, down, down.host
    {
      && MovedTo(m, before, down.queued, halted, o, sse, down.refusal)
      && (!halted && m.Go? ==> redactor.pending == m.pending && View() == m.state)
      && (halted ==> down.queued == o.data + o.notice) && down.Valid()
    }

    /** What is still to come, by the plan. */
    ghost function Coming(labels: seq<Label>): Plan
      requires R.Usable(redactor.engine) && D.Valid(View())
      reads redactor, detector, hasher
    {
      Planned(redactor.engine, sse, sign, redactor.pending, View(), labels)
    }

    /** The select loop and what follows it. The engine in the cell may change; this task keeps its own. */
    method Serve(cell: EngineCell, labels: seq<Label>) returns (o: Outcome)
      requires D.Valid(View()) && Ready()
      modifies cell, redactor, detector, hasher, down, down.host
      ensures Served(old(down.queued), old(Coming(labels)), o, sse, down.refusal)
      ensures down.Valid() && down.queued == o.data + o.notice
    {
      ghost var plan, q0 := Coming(labels), down.queued;
      ghost var done: ByteString := [];
      assert labels[0..] == labels;
      for k := 0 to |labels|
        invariant D.Valid(View()) && Ready() && Sent(q0, down.queued, done, true)
        invariant plan == Then(done, Coming(labels[k..]))
      {
        ghost var (q, pending, view) := (down.queued, redactor.pending, View());
        ghost var m := MoveOn(redactor.engine, sse, sign, pending, view, labels[k]);
        var halted;
        halted, o := Turn(cell, labels[k]);
        TurnServes(redactor.engine, sse, sign, pending, view, labels, k, q0, done, q, down.queued, halted, o, down.refusal);
        if halted {
          return;
        }
        done := done + m.text;
      }
      return Outcome(down.queued, [], Open, None);
    }
  }

  /**
    One stream from start to wherever the labels lead, next to all others. Whatever the labels are,
    whatever the other tasks do and whatever the queue refuses: what the queue accepted is a prefix of
    the transcript of the engine found at the start, followed by at most one terminal error frame with
    nothing after it; and that is all the client can read.
   */
  method ServeStream(host: H.Host, cell: EngineCell, tenant: Budget.Tenant, sse: bool, sign: D.Signer, labels: seq<Label>,
                     others: nat -> nat -> seq<Budget.Action>, patient: nat -> nat -> bool)
      returns (c: nat, o: Outcome)
    requires host.Valid() && R.Usable(cell.engine)
    modifies host, cell
    ensures host.Valid() && old(host.history) <= host.history
    ensures c == old(|host.channels|) < |host.channels| && (o.end == Open || Sealed(host.Now(), c))
    ensures var calls := host.channels[c].calls;
            && BQ.Accepted(calls) == o.data + o.notice
            && Served([], Transcript(old(cell.engine), sse, sign, labels), o, sse, FirstFailure(calls))
    ensures var ch := host.channels[c];
            && ch.delivered <= o.data + o.notice
            && (ch.bodyAlive ==> ch.delivered + BQ.QueueBytes(host.segs, ch.queue) == o.data + o.notice)
  {
    c := host.WithTenant(tenant, OUTPUT_BYTE_BUDGET);
    var down := new Downstream(host, c, others, patient);
    o := ServeOn(down, cell, sse, sign, labels);
    BQ.QueueFidelity(host.budget, host.history, host.Now(), c);
  }

  /** The task on a stream just opened: it takes its engine snapshot, serves, and drops its sender when it ends. */
  method ServeOn(down: Downstream, cell: EngineCell, sse: bool, sign: D.Signer, labels: seq<Label>) returns (o: Outcome)
    requires down.Valid() && down.queued == [] && down.refusal.None? && R.Usable(cell.engine)
    modifies down, down.host, cell
    ensures down.host.Valid() && down.opening <= down.host.history && down.channel < |down.host.channels|
    ensures o.end == Open || Sealed(down.host.Now(), down.channel)
    ensures var calls := down.host.channels[down.channel].calls;
            && BQ.Accepted(calls) == o.data + o.notice
            && Served([], Transcript(old(cell.engine), sse, sign, labels), o, sse, FirstFailure(calls))
  {
    var snapshot := cell.engine;
    var task := new Task(snapshot, sse, sign, down);
    o := task.Serve(cell, labels);
    if o.end != Open {
      down.Close();
    }
  }
}
