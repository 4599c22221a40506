/** A submit that races with the engine.

  The channel lock keeps other driver code out of `__cpdma_chan_submit`, but not the
  engine, and not the handler, which is called without the lock. So the write of the link
  and the look at the mode word before it are two steps here, with steps of the engine and
  handler calls in between. Every such run is one of the runs of `CpdmaProtocol`, with the
  submit placed either at its link or at its look.
 */
module CpdmaRace {
  import opened CpdmaProtocol

  // ---- The finer steps ------------------------------------------------------------

  /** The chain with `item` behind it, before anyone looks at EOQ. */
  function Append(q: Queue, item: Item): Queue { q.(items := q.items + [item]) }

  /** `linked`: the last descriptor is linked, and the mode word of the one before was not
      looked at yet. */
  datatype Fine = Fine(q: Queue, linked: bool)

  datatype FineStep = Link(item: Item) | Check | Other(step: Step)

  datatype FineResult = FineResult(f: Fine, events: seq<Event>)

  predicate Shaped(f: Fine) { f.linked ==> |f.q.items| >= 2 }

  /** What can run while a submit holds the lock. */
  predicate LockFree(step: Step) { step.Fetch? || step.Complete? || step.Callback? }

  predicate FineEnabled(f: Fine, s: FineStep) {
    match s
    case Link(item) => !f.linked && Enabled(f.q, Submit(item))
    case Check => f.linked
    case Other(step) => !step.Submit? && Enabled(f.q, step) && (f.linked ==> LockFree(step))
  }

  /** The end of a submit: a missed append is repaired. */
  function CheckPrev(q: Queue): Result
    requires |q.items| >= 2
  {
    var n := |q.items| - 1;
    var prev := q.items[n - 1];
    if prev.mode.Stalled() && q.state == ACTIVE then
      WriteHdp(q.(items := q.items[n - 1 := prev.(mode := prev.mode.ClearEoq())]), q.taken + n, Misqueued)
    else
      Result(q, [])
  }

  /** Into an empty chain there is nothing to look at: the engine is idle then. */
  function FineApply(f: Fine, s: FineStep): (r: FineResult)
    requires Shaped(f) && FineEnabled(f, s)
    ensures Shaped(r.f)
  {
    match s
    case Link(item) =>
      if f.q.items == [] then
        var r := SubmitItem(f.q, item);
        FineResult(Fine(r.q, false), r.events)
      else
        FineResult(Fine(Append(f.q, item), true), [])
    case Check =>
      var r := CheckPrev(f.q);
      FineResult(Fine(r.q, false), r.events)
    case Other(step) =>
      var r := Apply(f.q, step);
      FineResult(Fine(r.q, f.linked), r.events)
  }

  predicate FineValid(f: Fine, steps: seq<FineStep>)
    requires Shaped(f)
    decreases |steps|
  {
    steps == [] || (FineEnabled(f, steps[0]) && FineValid(FineApply(f, steps[0]).f, steps[1..]))
  }

  function FineRun(f: Fine, steps: seq<FineStep>): (r: FineResult)
    requires Shaped(f) && FineValid(f, steps)
    ensures Shaped(r.f)
    decreases |steps|
  {
    if steps == [] then FineResult(f, [])
    else
      var r := FineApply(f, steps[0]);
      var rest := FineRun(r.f, steps[1..]);
      FineResult(rest.f, r.events + rest.events)
  }

  function FineSubmitted(steps: seq<FineStep>): seq<int> {
    if steps == [] then []
    else (if steps[0].Link? then [steps[0].item.token] else []) + FineSubmitted(steps[1..])
  }

  /** Without anything in between the two steps are the submit of the protocol. */
  lemma LinkThenCheck(q: Queue, item: Item)
    requires q.items != []
    ensures CheckPrev(Append(q, item)) == SubmitItem(q, item)
  {
    var n := |q.items|;
    var mode := q.items[n - 1].mode.ClearEoq();
    assert Append(q, item).items[n - 1 := q.items[n - 1].(mode := mode)] ==
      q.items[n - 1 := q.items[n - 1].(mode := mode)] + [item];
  }

  // ---- The invariant in between -----------------------------------------------------

  /** A linked descriptor behind a standing mark is the state that processing repairs too. */
  lemma LinkKeepsInv(q: Queue, item: Item)
    requires Inv(q) && q.state != TEARDOWN && item.mode.owner && q.items != []
    ensures Inv(Append(q, item))
  {
    if q.state == ACTIVE && q.engine.Idle? {
      var d: nat :| StoppedAt(q, d);
      assert StoppedAt(Append(q, item), d);
    } else if q.state == ACTIVE {
      assert RunningAt(Append(q, item));
    }
  }

  lemma CheckKeepsInv(q: Queue)
    requires Inv(q) && |q.items| >= 2
    ensures Inv(CheckPrev(q).q)
  {
    var n := |q.items| - 1;
    if q.items[n - 1].mode.Stalled() && q.state == ACTIVE {
      if q.engine.Idle? {
        var d: nat :| StoppedAt(q, d);
        assert d == n;
      }
      assert RunningAt(CheckPrev(q).q);
    }
  }

  lemma FineStepKeepsInv(f: Fine, s: FineStep)
    requires Shaped(f) && Inv(f.q) && FineEnabled(f, s)
    ensures Inv(FineApply(f, s).f.q)
  {
    match s
    case Link(item) =>
      if f.q.items == [] {
        StepKeepsInv(f.q, Submit(item));
      } else {
        LinkKeepsInv(f.q, item);
      }
    case Check => CheckKeepsInv(f.q);
    case Other(step) => StepKeepsInv(f.q, step);
  }

  /** The protocol invariant holds at every point of every run, within submits too. */
  lemma {:induction false} FineRunKeepsInv(f: Fine, steps: seq<FineStep>)
    requires Shaped(f) && Inv(f.q) && FineValid(f, steps)
    ensures Inv(FineRun(f, steps).f.q)
    decreases |steps|
  {
    if steps != [] {
      FineStepKeepsInv(f, steps[0]);
      FineRunKeepsInv(FineApply(f, steps[0]).f, steps[1..]);
    }
  }

  /** One more step at the end of a run. */
  lemma {:induction false} FineThen(f: Fine, steps: seq<FineStep>, s: FineStep)
    requires Shaped(f) && FineValid(f, steps) && FineEnabled(FineRun(f, steps).f, s)
    ensures FineValid(f, steps + [s]) && FineRun(f, steps + [s]).f == FineApply(FineRun(f, steps).f, s).f
    decreases |steps|
  {
    hide FineApply, FineEnabled;
    if steps == [] {
      assert steps + [s] == [s] && [s][1..] == [];
    } else {
      assert (steps + [s])[1..] == steps[1..] + [s];
      FineThen(FineApply(f, steps[0]).f, steps[1..], s);
    }
  }

  function TokenOf(s: FineStep): seq<int> {
    if s.Link? then [s.item.token] else []
  }

  lemma SubmittedOne(s: FineStep)
    ensures FineSubmitted([s]) == TokenOf(s)
  {
    assert [s][1..] == [];
  }

  lemma {:induction false} SubmittedThen(steps: seq<FineStep>, s: FineStep)
    ensures FineSubmitted(steps + [s]) == FineSubmitted(steps) + TokenOf(s)
  {
    SubmittedOne(s);
    hide TokenOf;
    if steps == [] {
      assert steps + [s] == [s];
      assert [] + TokenOf(s) == TokenOf(s);
    } else {
      var first := if steps[0].Link? then [steps[0].item.token] else [];
      assert (steps + [s])[1..] == steps[1..] + [s] && (steps + [s])[0] == steps[0];
      SubmittedThen(steps[1..], s);
      Regroup(first, FineSubmitted(steps[1..]), TokenOf(s));
    }
  }

  // ---- Where a submit takes effect -----------------------------------------------------

  /** The look will find nothing to repair: the engine will see the new link, or never gets
      to the descriptor before. The submit took effect when it linked. */
  predicate Early(q: Queue) {
    && |q.items| >= 2
    && (q.state == ACTIVE ==>
          && !q.items[|q.items| - 2].mode.Stalled()
          && (q.engine.Busy? && q.engine.cur + 2 == q.Next() ==> q.engine.latch != SawEnd))
  }

  /** The engine stopped at the last descriptor or is bound to. The submit takes effect when
      it looks. */
  predicate Late(q: Queue) {
    && q.state == ACTIVE && q.items != []
    && if q.engine.Idle? then q.items[|q.items| - 1].mode.Stalled()
       else q.engine.cur + 1 == q.Next() && q.engine.latch == SawEnd
  }

  /** `p` is the state of the protocol: without the new descriptor while the submit is late. */
  predicate Simulates(f: Fine, p: Queue) {
    if !f.linked then p == f.q
    else
      || (Early(f.q) && p == f.q)
      || (Late(p) && |f.q.items| == |p.items| + 1 && f.q == Append(p, Newest(f.q)) && Newest(f.q).mode.owner)
  }

  function Newest(q: Queue): Item
    requires q.items != []
  {
    q.items[|q.items| - 1]
  }

  /** The token of a late submit. */
  function LateToken(f: Fine, p: Queue): seq<int>
    requires Simulates(f, p)
  {
    if f.linked && |f.q.items| == |p.items| + 1 then [Newest(f.q).token] else []
  }

  /** A descriptor linked behind one that is not the engine's last stop is seen in time. */
  lemma EarlyOrLate(q: Queue, item: Item)
    requires Inv(q) && q.items != [] && q.state != TEARDOWN
    ensures Early(Append(q, item)) || Late(q)
  {
    if q.state == ACTIVE && q.engine.Busy? {
      var e := q.engine.cur - q.taken;
      assert !q.items[|q.items| - 1].mode.Stalled();
    }
  }

  lemma EarlyStays(q: Queue, step: Step)
    requires Early(q) && Enabled(q, step) && LockFree(step)
    ensures Early(Apply(q, step).q)
  {}

  /** The engine's only step is to stop there; it does not notice the new link. */
  lemma LateStays(p: Queue, item: Item, step: Step)
    requires Late(p) && LockFree(step) && Enabled(Append(p, item), step)
    ensures Enabled(p, step) && Late(Apply(p, step).q)
    ensures Apply(Append(p, item), step) == Result(Append(Apply(p, step).q, item), Apply(p, step).events)
  {
    if step.Complete? {
      var i := p.engine.cur - p.taken;
      var done := p.items[i].(mode := step.mode);
      assert (p.items + [item])[i := done] == p.items[i := done] + [item];
    }
  }

  lemma OneStep(p: Queue, step: Step)
    requires Enabled(p, step)
    ensures ValidRun(p, [step]) && Run(p, [step]) == Apply(p, step)
              && Submitted([step]) == if step.Submit? then [step.item.token] else []
  {
    assert [step][1..] == [];
    assert Apply(p, step).events + [] == Apply(p, step).events;
  }

  /** `coarse` is what step `s` means for the protocol. */
  predicate Stands(f: Fine, p: Queue, s: FineStep, coarse: seq<Step>)
    requires Shaped(f) && FineEnabled(f, s) && Simulates(f, p)
  {
    && |coarse| <= 1 && ValidRun(p, coarse)
    && var r := FineApply(f, s);
    && Run(p, coarse).events == r.events && Simulates(r.f, Run(p, coarse).q)
    && LateToken(f, p) + FineSubmitted([s]) == Submitted(coarse) + LateToken(r.f, Run(p, coarse).q)
  }

  lemma LinkSimulated(f: Fine, p: Queue, item: Item) returns (coarse: seq<Step>)
    requires Shaped(f) && Inv(f.q) && FineEnabled(f, Link(item)) && Simulates(f, p)
    ensures Stands(f, p, Link(item), coarse)
  {
    coarse := [];
    if f.q.items == [] {
      coarse := [Submit(item)];
      OneStep(p, Submit(item));
    } else {
      EarlyOrLate(f.q, item);
      if Early(Append(f.q, item)) {
        coarse := [Submit(item)];
        OneStep(p, Submit(item));
        LinkThenCheck(p, item);
      }
    }
  }

  lemma CheckSimulated(f: Fine, p: Queue) returns (coarse: seq<Step>)
    requires Shaped(f) && FineEnabled(f, Check) && Simulates(f, p)
    ensures Stands(f, p, Check, coarse)
  {
    coarse := [];
    if !(Early(f.q) && p == f.q) {
      var item := Newest(f.q);
      coarse := [Submit(item)];
      OneStep(p, Submit(item));
      LinkThenCheck(p, item);
    }
  }

  lemma OtherSimulated(f: Fine, p: Queue, step: Step)
    requires Shaped(f) && FineEnabled(f, Other(step)) && Simulates(f, p)
    ensures Stands(f, p, Other(step), [step])
  {
    hide Inv, Apply, Enabled;
    if f.linked {
      if Early(f.q) && p == f.q {
        EarlyStays(f.q, step);
      } else {
        LateStays(p, Newest(f.q), step);
      }
    }
    OneStep(p, step);
    KeepsLength(f.q, step);
    KeepsLength(p, step);
    assert LateToken(f, p) + [] == [] + LateToken(f, p);
    assert LateToken(FineApply(f, Other(step)).f, Apply(p, step).q) == LateToken(f, p);
    assert FineSubmitted([Other(step)]) == [] == Submitted([step]);
  }

  lemma KeepsLength(q: Queue, step: Step)
    ensures Enabled(q, step) && LockFree(step) ==> |Apply(q, step).q.items| == |q.items|
  {}

  /** One finer step is one step of the protocol or none. */
  lemma StepSimulated(f: Fine, p: Queue, s: FineStep) returns (coarse: seq<Step>)
    requires Shaped(f) && Inv(f.q) && FineEnabled(f, s) && Simulates(f, p)
    ensures Stands(f, p, s, coarse)
  {
    hide Stands, Inv, Simulates, FineEnabled;
    match s {
      case Link(item) => coarse := LinkSimulated(f, p, item);
      case Check => coarse := CheckSimulated(f, p);
      case Other(step) =>
        OtherSimulated(f, p, step);
        coarse := [step];
    }
  }

  lemma Joined(p: Queue, a: seq<Step>, b: seq<Step>)
    requires |a| <= 1 && ValidRun(p, a) && ValidRun(Run(p, a).q, b)
    ensures ValidRun(p, a + b)
    ensures var r, rest := Run(p, a), Run(Run(p, a).q, b);
            Run(p, a + b) == Result(rest.q, r.events + rest.events)
    ensures Submitted(a + b) == Submitted(a) + Submitted(b)
  {
    if a == [] {
      assert a + b == b;
      assert [] + Run(p, b).events == Run(p, b).events;
    } else {
      OneStep(p, a[0]);
      assert a == [a[0]] && (a + b)[1..] == b;
    }
  }

  /** Every run of the finer steps has the events, and at its end the state, of a run of the
      protocol, in which the submits take effect in the same order. */
  lemma {:induction false} Linearized(f: Fine, p: Queue, steps: seq<FineStep>) returns (coarse: seq<Step>)
    requires Shaped(f) && Inv(f.q) && FineValid(f, steps) && Simulates(f, p)
    ensures ValidRun(p, coarse)
    ensures var r := FineRun(f, steps);
            && Run(p, coarse).events == r.events && Simulates(r.f, Run(p, coarse).q)
            && LateToken(f, p) + FineSubmitted(steps) == Submitted(coarse) + LateToken(r.f, Run(p, coarse).q)
    decreases |steps|
  {
    hide Inv, Simulates, LateToken, FineApply, FineRun, FineValid, FineSubmitted, FineEnabled, Run, ValidRun, Submitted;
    if steps == [] {
      coarse := [];
      NoSteps(f, p);
    } else {
      FineNext(f, steps);
      var r := FineApply(f, steps[0]);
      var first := StepSimulated(f, p, steps[0]);
      FineStepKeepsInv(f, steps[0]);
      var p' := Run(p, first).q;
      var rest := Linearized(r.f, p', steps[1..]);
      Joined(p, first, rest);
      coarse := first + rest;
      var last := Run(p', rest).q;
      Regrouped(LateToken(f, p), FineSubmitted([steps[0]]), FineSubmitted(steps[1..]), Submitted(first),
                LateToken(r.f, p'), Submitted(rest), LateToken(FineRun(f, steps).f, last));
    }
  }

  lemma NoSteps(f: Fine, p: Queue)
    requires Shaped(f) && Simulates(f, p)
    ensures ValidRun(p, []) && Run(p, []) == Result(p, []) && FineRun(f, []) == FineResult(f, [])
    ensures LateToken(f, p) + FineSubmitted([]) == Submitted([]) + LateToken(f, p)
  {
    assert LateToken(f, p) + [] == [] + LateToken(f, p);
  }

  lemma FineNext(f: Fine, steps: seq<FineStep>)
    requires Shaped(f) && FineValid(f, steps) && steps != []
    ensures FineEnabled(f, steps[0]) && FineValid(FineApply(f, steps[0]).f, steps[1..])
    ensures var r := FineApply(f, steps[0]);
            var rest := FineRun(r.f, steps[1..]);
            FineRun(f, steps) == FineResult(rest.f, r.events + rest.events)
    ensures FineSubmitted(steps) == FineSubmitted([steps[0]]) + FineSubmitted(steps[1..])
  {}

  lemma Regrouped(a: seq<int>, b: seq<int>, c: seq<int>, d: seq<int>, e: seq<int>, g: seq<int>, h: seq<int>)
    requires a + b == d + e && e + c == g + h
    ensures a + (b + c) == (d + g) + h
  {
    assert a + (b + c) == (a + b) + c;
    assert (d + e) + c == d + (e + c);
    assert d + (g + h) == (d + g) + h;
  }

  // ---- What carries over ----------------------------------------------------------------

  const NEW := Fine(CREATED, false)

  /** Between two submits nothing tells the finer run from one of the protocol. */
  lemma RaceIsRun(steps: seq<FineStep>) returns (coarse: seq<Step>)
    requires FineValid(NEW, steps) && !FineRun(NEW, steps).f.linked
    ensures ValidRun(CREATED, coarse) && Submitted(coarse) == FineSubmitted(steps)
    ensures var r := FineRun(NEW, steps); Run(CREATED, coarse) == Result(r.f.q, r.events)
  {
    coarse := Linearized(NEW, CREATED, steps);
    AppendNothing(Submitted(coarse), FineSubmitted(steps));
  }

  /** Each end of queue is repaired exactly once, at every point of a run with races: the
      next descriptor was started once and once only, or was not submitted, or the mark still
      stands in the chain. */
  lemma RaceRepairedOnce(steps: seq<FineStep>, i: nat)
    requires FineValid(NEW, steps)
    requires var events := FineRun(NEW, steps).events;
             i < |events| && events[i].Done? && events[i].eoq && NoHalt(events[i + 1..])
    ensures var r := FineRun(NEW, steps);
            var id, q := r.events[i].id, r.f.q;
            || StartedExactlyOnce(r.events, id + 1)
            || (q.engine.Idle? && q.Next() == id + 1)
            || (q.engine.Idle? && q.taken <= id < q.Next() && q.items[id - q.taken].mode.Stalled())
  {
    hide StartedExactlyOnce, NoHalt, Run, FineRun, ValidRun, FineValid;
    CreatedIsOff();
    var coarse := Linearized(NEW, CREATED, steps);
    EoqRepairedOnce(coarse, i);
  }

  /** The tokens handed over followed by those on their way are those submitted, in order,
      at every point of a run with races. */
  lemma RaceFifo(steps: seq<FineStep>)
    requires FineValid(NEW, steps)
    ensures var r := FineRun(NEW, steps); HandedOver(r.events) + Pending(r.f.q) == FineSubmitted(steps)
  {
    hide Run, FineRun, ValidRun, FineValid, HandedOver, Submitted, FineSubmitted;
    CreatedIsOff();
    var coarse := Linearized(NEW, CREATED, steps);
    RunFifo(CREATED, coarse);
    var r, p := FineRun(NEW, steps), Run(CREATED, coarse).q;
    LatePending(r.f, p);
    NothingPending();
    Appended(HandedOver(r.events), Pending(p), LateToken(r.f, p), Submitted(coarse), FineSubmitted(steps));
  }

  lemma NothingPending()
    ensures Pending(CREATED) == []
  {}

  lemma LatePending(f: Fine, p: Queue)
    requires Simulates(f, p)
    ensures Pending(f.q) == Pending(p) + LateToken(f, p)
  {
    if f.linked && |f.q.items| == |p.items| + 1 {
      assert Tokens(f.q.items) == Tokens(p.items) + [Newest(f.q).token];
    }
  }

  lemma Appended(handed: seq<int>, pending: seq<int>, late: seq<int>, coarse: seq<int>, fine: seq<int>)
    requires handed + pending == [] + coarse && [] + fine == coarse + late
    ensures handed + (pending + late) == fine
  {
    assert handed + (pending + late) == (handed + pending) + late;
    assert [] + coarse == coarse && [] + fine == fine;
  }

  /** No wakeup is lost at any point of a run with races. */
  lemma RaceNoLostWakeup(steps: seq<FineStep>, d: nat)
    requires FineValid(NEW, steps) && FineRun(NEW, steps).f.q.state == ACTIVE
    ensures var q := FineRun(NEW, steps).f.q;
            && (FirstOwned(q, d) && q.engine.Idle? ==> d > 0 && q.items[d - 1].mode.Stalled())
            && (FirstOwned(q, d) && q.engine.Busy? ==> q.engine.cur == q.taken + d)
  {
    CreatedIsOff();
    FineRunKeepsInv(NEW, steps);
    NoLostWakeup(FineRun(NEW, steps).f.q, d);
  }
}
