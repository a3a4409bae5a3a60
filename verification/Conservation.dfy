/**
  Permit conservation over every interleaving: what each atomic step keeps, and what follows for whole
  runs.
 */
module Conservation {
  import opened Budget

  /** What every reachable world keeps for one account. */
  predicate Balanced(w: World, a: Account) {
    match a
    case Local(j) => j < |w.local| ==> w.local[j] + Total(w.segs, a) == TENANT_MEMORY_BUDGET
    case Global => w.global + Sum(w.holds) + Total(w.segs, a) == w.budget
    case Counter => w.counter == Total(w.segs, a)
    case _ => true
  }

  predicate SegmentsCharged(w: World) {
    forall i | 0 <= i < |w.segs| :: w.segs[i].sem < |w.local|
  }

  /** Available plus held permits are what each semaphore was created with; the counter is exact. */
  ghost predicate Conserved(w: World) {
    SegmentsCharged(w) && forall a: Account :: Balanced(w, a)
  }

  /** One segment changes; what the pools change by is what its weight changes by. */
  lemma SegmentStepConserves(w: World, i: nat, s: Segment, w': World)
    requires Conserved(w) && i < |w.segs| && s.sem == w.segs[i].sem
    requires w'.segs == w.segs[i := s] && |w'.local| == |w.local| && w'.holds == w.holds && w'.budget == w.budget
    requires forall j | 0 <= j < |w.local| ::
               w'.local[j] + Weight(s, Local(j)) == w.local[j] + Weight(w.segs[i], Local(j))
    requires w'.global + Weight(s, Global) == w.global + Weight(w.segs[i], Global)
    requires w'.counter + Weight(w.segs[i], Counter) == w.counter + Weight(s, Counter)
    ensures Conserved(w')
  {
    forall a: Account ensures Balanced(w', a) {
      assert Balanced(w, a);
      TotalUpdate(w.segs, i, s, a);
    }
  }

  /** Moving a segment without changing its phase changes no pool. */
  lemma ReplaceConserves(w: World, i: nat, place: Place)
    requires Conserved(w) && i < |w.segs|
    ensures Conserved(SetSegment(w, i, w.segs[i].(place := place)))
  {
    SegmentStepConserves(w, i, w.segs[i].(place := place), SetSegment(w, i, w.segs[i].(place := place)));
  }

  /** A step that touches no pool and no segment. */
  lemma UntouchedConserves(w: World, w': World)
    requires Conserved(w) && w'.segs == w.segs && w'.local == w.local && w'.global == w.global
    requires w'.counter == w.counter && w'.holds == w.holds && w'.budget == w.budget
    ensures Conserved(w')
  {
    forall a: Account ensures Balanced(w', a) {
      assert Balanced(w, a);
    }
  }

  lemma HoldConserves(w: World, h: nat, n: nat, w': World)
    requires Conserved(w) && h < |w.holds| && w'.holds == w.holds[h := n] && w'.segs == w.segs
    requires w'.local == w.local && w'.counter == w.counter && w'.budget == w.budget
    requires w'.global + n == w.global + w.holds[h]
    ensures Conserved(w')
  {
    SumUpdate(w.holds, h, n);
    forall a: Account ensures Balanced(w', a) {
      assert Balanced(w, a);
    }
  }

  lemma NewHoldConserves(w: World)
    requires Conserved(w)
    ensures Conserved(Apply(w, NewHold))
  {
    SumAppend(w.holds, 0);
    forall a: Account ensures Balanced(Apply(w, NewHold), a) {
      assert Balanced(w, a);
    }
  }

  lemma {:induction false} NoSegmentsOn(segs: seq<Segment>, j: nat)
    requires forall i | 0 <= i < |segs| :: segs[i].sem < j
    ensures Total(segs, Local(j)) == 0
  {
    if segs != [] {
      NoSegmentsOn(segs[1..], j);
    }
  }

  lemma OpenConserves(w: World, tenant: Tenant, capacity: nat)
    requires Conserved(w) && capacity > 0
    ensures Conserved(OpenChannel(w, tenant, capacity))
  {
    NoSegmentsOn(w.segs, |w.local|);
    forall a: Account ensures Balanced(OpenChannel(w, tenant, capacity), a) {
      assert Balanced(w, a);
    }
  }

  lemma ReserveLocalConserves(w: World, c: nat)
    requires Conserved(w) && Enabled(w, ReserveLocal(c))
    ensures Conserved(DoReserveLocal(w, c))
  {
    var w' := DoReserveLocal(w, c);
    if w'.segs == w.segs {
      UntouchedConserves(w, w');
    } else {
      var s := Segment(c, w.channels[c].sem, NextSlice(w.channels[c]), LocalHeld, WithSender);
      forall a: Account ensures Balanced(w', a) {
        assert Balanced(w, a);
        TotalAppend(w.segs, s, a);
      }
    }
  }

  lemma ReserveGlobalConserves(w: World, c: nat)
    requires Conserved(w) && Enabled(w, ReserveGlobal(c))
    ensures Conserved(DoReserveGlobal(w, c))
  {
    var i := w.channels[c].sender.seg;
    var w' := DoReserveGlobal(w, c);
    SegmentStepConserves(w, i, w'.segs[i], w');
  }

  lemma CountConserves(w: World, c: nat)
    requires Conserved(w) && Enabled(w, Count(c))
    ensures Conserved(Apply(w, Count(c)))
  {
    var i := w.channels[c].sender.seg;
    SegmentStepConserves(w, i, w.segs[i].(phase := Counted), Apply(w, Count(c)));
  }

  /** The counter covers every segment still counted, so the subtraction on release is exact. */
  lemma CounterCovers(w: World, i: nat)
    requires Conserved(w) && i < |w.segs| && w.segs[i].phase.Counted?
    ensures |w.segs[i].bytes| <= w.counter
  {
    assert Balanced(w, Counter);
    TotalAtLeast(w.segs, i, Counter);
  }

  lemma ReleaseCounterConserves(w: World, i: nat)
    requires Conserved(w) && Enabled(w, ReleaseCounter(i))
    ensures Conserved(Apply(w, ReleaseCounter(i)))
  {
    CounterCovers(w, i);
    SegmentStepConserves(w, i, w.segs[i].(phase := Uncounted), Apply(w, ReleaseCounter(i)));
  }

  lemma ReleaseGlobalConserves(w: World, i: nat)
    requires Conserved(w) && Enabled(w, ReleaseGlobal(i))
    ensures Conserved(Apply(w, ReleaseGlobal(i)))
  {
    SegmentStepConserves(w, i, w.segs[i].(phase := GlobalReleased), Apply(w, ReleaseGlobal(i)));
  }

  lemma ReleaseLocalConserves(w: World, i: nat)
    requires Conserved(w) && Enabled(w, ReleaseLocal(i))
    ensures Conserved(Apply(w, ReleaseLocal(i)))
  {
    SegmentStepConserves(w, i, w.segs[i].(phase := Gone), Apply(w, ReleaseLocal(i)));
  }

  lemma DropBodyConserves(w: World, c: nat)
    requires Conserved(w) && Enabled(w, DropBody(c))
    ensures Conserved(Apply(w, DropBody(c)))
  {
    var segs := DropAll(w.segs, Owned(w.channels[c]));
    forall a: Account ensures Balanced(Apply(w, DropBody(c)), a) {
      assert Balanced(w, a);
      if a.Local? || a.Global? || a.Counter? {
        TotalSameWeights(segs, w.segs, a);
      }
    }
  }

  lemma PlaceStepConserves(w: World, i: nat, place: Place, w': World)
    requires Conserved(w) && i < |w.segs| && w' == SetSegment(w, i, w.segs[i].(place := place)).(channels := w'.channels)
    ensures Conserved(w')
  {
    ReplaceConserves(w, i, place);
    UntouchedConserves(SetSegment(w, i, w.segs[i].(place := place)), w');
  }

  /** Every step keeps every semaphore's sum and the counter exact. */
  lemma StepConserves(w: World, a: Action)
    requires Conserved(w) && Enabled(w, a)
    ensures Conserved(Apply(w, a))
  {
    match a
    case NewHold => NewHoldConserves(w);
    case HoldTake(h, n) => HoldConserves(w, h, w.holds[h] + n, Apply(w, a));
    case HoldRelease(h) => HoldConserves(w, h, 0, Apply(w, a));
    case ClearTenants => UntouchedConserves(w, Apply(w, a));
    case Open(tenant, capacity) => OpenConserves(w, tenant, capacity);
    case BeginCall(_, _) => UntouchedConserves(w, Apply(w, a));
    case ReserveLocal(c) => ReserveLocalConserves(w, c);
    case ReserveGlobal(c) => ReserveGlobalConserves(w, c);
    case Count(c) => CountConserves(w, c);
    case Send(c) => PlaceStepConserves(w, w.channels[c].sender.seg, InQueue, Apply(w, a));
    case SendToClosed(c) => PlaceStepConserves(w, w.channels[c].sender.seg, Dropped, Apply(w, a));
    case Cancel(c) => PlaceStepConserves(w, w.channels[c].sender.seg, Dropped, Apply(w, a));
    case CloseSender(_) => UntouchedConserves(w, Apply(w, a));
    case PollDrop(c) => PlaceStepConserves(w, w.channels[c].inFlight.value, Dropped, Apply(w, a));
    case PollReceive(c) => PlaceStepConserves(w, w.channels[c].queue[0], InFlight, Apply(w, a));
    case PollEnd(_) => UntouchedConserves(w, Apply(w, a));
    case DropBody(c) => DropBodyConserves(w, c);
    case ReleaseCounter(i) => ReleaseCounterConserves(w, i);
    case ReleaseGlobal(i) => ReleaseGlobalConserves(w, i);
    case ReleaseLocal(i) => ReleaseLocalConserves(w, i);
  }

  lemma InitialConserved(budget: nat)
    ensures Conserved(Initial(budget))
  {
  }

  lemma {:induction false} RunConserves(start: World, actions: seq<Action>, w: World)
    requires Conserved(start) && Reaches(start, actions, w)
    ensures Conserved(w) && w.budget == start.budget
    decreases |actions|
  {
    if actions != [] {
      StepConserves(start, actions[0]);
      RunConserves(Apply(start, actions[0]), actions[1..], w);
    }
  }

  /** Over every interleaving: permits are conserved, so no semaphore is ever overdrawn. */
  lemma PermitConservation(budget: nat, actions: seq<Action>, w: World)
    requires Reaches(Initial(budget), actions, w)
    ensures forall j | 0 <= j < |w.local| ::
              w.local[j] + Total(w.segs, Local(j)) == TENANT_MEMORY_BUDGET
    ensures w.global + Sum(w.holds) + Total(w.segs, Global) == budget
  {
    InitialConserved(budget);
    RunConserves(Initial(budget), actions, w);
    forall j | 0 <= j < |w.local|
      ensures w.local[j] + Total(w.segs, Local(j)) == TENANT_MEMORY_BUDGET
    {
      assert Balanced(w, Local(j));
    }
    assert Balanced(w, Global);
  }

  /** In every reachable world the counter covers every release that can come next. */
  lemma CounterNeverUnderflows(budget: nat, actions: seq<Action>, w: World, i: nat)
    requires Reaches(Initial(budget), actions, w) && Enabled(w, ReleaseCounter(i))
    ensures |w.segs[i].bytes| <= w.counter
  {
    InitialConserved(budget);
    RunConserves(Initial(budget), actions, w);
    CounterCovers(w, i);
  }

  /** At every step: bytes in the counter, bytes charged globally, bytes charged locally, in that order. */
  lemma OrderedReleaseChain(budget: nat, actions: seq<Action>, w: World)
    requires Reaches(Initial(budget), actions, w)
    ensures w.counter == Total(w.segs, Counter)
    ensures w.counter <= Total(w.segs, Global) <= Total(w.segs, AnyLocal)
    ensures forall i: nat | Enabled(w, ReleaseCounter(i)) :: |w.segs[i].bytes| <= w.counter
  {
    InitialConserved(budget);
    RunConserves(Initial(budget), actions, w);
    assert Balanced(w, Counter);
    TotalsChain(w.segs);
    forall i: nat | Enabled(w, ReleaseCounter(i)) ensures |w.segs[i].bytes| <= w.counter {
      CounterNeverUnderflows(budget, actions, w, i);
    }
  }

  // ---- The per-stream holds ------------------------------------------------------------------------

  predicate HoldsWithin(w: World) {
    forall h | 0 <= h < |w.holds| :: w.holds[h] <= GLOBAL_MEMORY_CHUNK
  }

  lemma StepKeepsHolds(w: World, a: Action)
    requires HoldsWithin(w) && Enabled(w, a)
    ensures HoldsWithin(Apply(w, a))
  {
  }

  /** No stream ever holds more than 64 KiB of global permits for itself. */
  lemma {:induction false} HoldsBounded(start: World, actions: seq<Action>, w: World)
    requires HoldsWithin(start) && Reaches(start, actions, w)
    ensures HoldsWithin(w)
    decreases |actions|
  {
    if actions != [] {
      StepKeepsHolds(start, actions[0]);
      HoldsBounded(Apply(start, actions[0]), actions[1..], w);
    }
  }
}
