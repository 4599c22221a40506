/** The protocol between the CPDMA driver and the DMA engine on one channel.

  The state here is the chain of descriptors as a sequence, so it says what each
  step means, not how the links in memory are kept. `CpdmaChannel` proves the
  driver's pointer code against these functions.

  Descriptors are numbered in the order in which they are submitted: the item at
  position `i` of the chain is number `taken + i`.
 */
module CpdmaProtocol {
  import opened CpdmaMode

  // ---- States, steps and events --------------------------------------------

  datatype Option<+T> = None | Some(value: T)

  datatype Item = Item(addr: int, token: int, mode: Mode)

  /** What the engine read from the link of its current descriptor. */
  datatype Latch = NotFetched | SawEnd | SawNext

  datatype Engine = Idle | Busy(cur: nat, latch: Latch)

  datatype ChanState = IDLE | ACTIVE | TEARDOWN

  datatype Queue = Queue(taken: nat, items: seq<Item>, engine: Engine, state: ChanState, inFlight: Option<Item>) {
    /** The number of the next descriptor to be submitted. */
    function Next(): nat { taken + |items| }
  }

  /** Which code wrote the head descriptor pointer. */
  datatype Writer = HeadEnqueue | Misqueued | Requeue | TurnOn

  datatype Event =
    | On(next: nat)              // the channel was switched on
    | Halt                       // the teardown was acknowledged
    | Start(id: nat, via: Writer) // a write to HDP that the engine obeys
    | Stale(id: nat)             // a write to HDP outside the ACTIVE state
    | Done(id: nat, eoq: bool)   // the engine released a descriptor
    | Handed(token: int)         // the handler was called

  datatype Step =
    | Submit(item: Item)
    | Process
    | Callback
    | Fetch
    | Complete(mode: Mode)
    | TurnOnStep
    | StopBegin(last: Option<Mode>)
    | Cleanup
    | StopEnd

  datatype Result = Result(q: Queue, events: seq<Event>)

  // ---- The steps ------------------------------------------------------------

  function WriteHdp(q: Queue, id: nat, via: Writer): Result {
    if q.state == ACTIVE then
      Result(q.(engine := Busy(id, NotFetched)), [Start(id, via)])
    else
      Result(q, [Stale(id)])
  }

  /** `__cpdma_chan_submit`: link a descriptor at the tail and repair a missed one. */
  function SubmitItem(q: Queue, item: Item): Result {
    if q.items == [] then
      var q' := q.(items := [item]);
      if q.state == ACTIVE then WriteHdp(q', q.taken, HeadEnqueue) else Result(q', [])
    else
      var n := |q.items|;
      var prev := q.items[n - 1];
      if prev.mode.Stalled() && q.state == ACTIVE then
        var cleared := q.items[n - 1 := prev.(mode := prev.mode.ClearEoq())];
        WriteHdp(q.(items := cleared + [item]), q.taken + n, Misqueued)
      else
        Result(q.(items := q.items + [item]), [])
  }

  /** True when `__cpdma_chan_process` finds a descriptor it can take. */
  predicate CanTake(q: Queue) { q.items != [] && !q.items[0].mode.owner }

  function TakeHead(q: Queue): Queue
    requires q.items != []
  {
    q.(taken := q.taken + 1, items := q.items[1..], inFlight := Some(q.items[0]))
  }

  /** The locked part of `__cpdma_chan_process`. */
  function ProcessHead(q: Queue): Result {
    if CanTake(q) then
      var q' := TakeHead(q);
      if q.items[0].mode.eoq && q'.items != [] then
        WriteHdp(q', q'.taken, Requeue)
      else
        Result(q', [])
    else
      Result(q, [])
  }

  /** `__cpdma_chan_free`: the descriptor goes back to the pool, the token to the handler. */
  function CallHandler(q: Queue): Result
    requires q.inFlight.Some?
  {
    Result(q.(inFlight := None), [Handed(q.inFlight.value.token)])
  }

  /** The engine reads the link of its current descriptor. */
  function FetchLink(q: Queue): Result
    requires q.engine.Busy?
  {
    var latch := if q.engine.cur + 1 < q.Next() then SawNext else SawEnd;
    Result(q.(engine := q.engine.(latch := latch)), [])
  }

  /** The engine writes back its current descriptor and moves on or stops. */
  function Release(q: Queue, mode: Mode): Result
    requires q.engine.Busy? && q.taken <= q.engine.cur < q.Next()
  {
    var i := q.engine.cur - q.taken;
    var atEnd := q.engine.latch == SawEnd;
    var engine := if atEnd then Idle else Busy(q.engine.cur + 1, NotFetched);
    Result(q.(items := q.items[i := q.items[i].(mode := mode)], engine := engine), [Done(q.engine.cur, atEnd)])
  }

  /** `cpdma_chan_on` on an idle channel. */
  function SwitchOn(q: Queue): Result {
    var q' := q.(state := ACTIVE);
    if q.items == [] then
      Result(q', [On(q.taken)])
    else
      var r := WriteHdp(q', q.taken, TurnOn);
      Result(r.q, [On(q.taken)] + r.events)
  }

  /** `cpdma_chan_stop` up to the acknowledged teardown. The engine may still write
      the mode word of the descriptor it was working on. */
  function BeginStop(q: Queue, last: Option<Mode>): Result {
    var items :=
      if q.engine.Busy? && last.Some? && q.taken <= q.engine.cur < q.Next() then
        var i := q.engine.cur - q.taken;
        q.items[i := q.items[i].(mode := last.value)]
      else
        q.items;
    Result(q.(items := items, engine := Idle, state := TEARDOWN), [Halt])
  }

  predicate Enabled(q: Queue, step: Step) {
    match step
    case Submit(item) => q.state != TEARDOWN && item.mode.owner
    case Process => q.state != IDLE && q.inFlight.None?
    case Callback => q.inFlight.Some?
    case Fetch => q.engine.Busy? && q.engine.latch == NotFetched
    case Complete(mode) =>
      && q.engine.Busy? && q.engine.latch != NotFetched
      && q.taken <= q.engine.cur < q.Next()
      && !mode.owner && (mode.eoq <==> q.engine.latch == SawEnd)
    case TurnOnStep => q.state == IDLE
    case StopBegin(_) => q.state != TEARDOWN
    case Cleanup => q.state == TEARDOWN && q.items != [] && q.inFlight.None?
    case StopEnd => q.state == TEARDOWN && q.items == []
  }

  function Apply(q: Queue, step: Step): Result
    requires Enabled(q, step)
  {
    match step
    case Submit(item) => SubmitItem(q, item)
    case Process => ProcessHead(q)
    case Callback => CallHandler(q)
    case Fetch => FetchLink(q)
    case Complete(mode) => Release(q, mode)
    case TurnOnStep => SwitchOn(q)
    case StopBegin(last) => BeginStop(q, last)
    case Cleanup => Result(TakeHead(q), [])
    case StopEnd => Result(q.(state := IDLE), [])
  }

  predicate ValidRun(q: Queue, steps: seq<Step>)
    decreases |steps|
  {
    steps == [] || (Enabled(q, steps[0]) && ValidRun(Apply(q, steps[0]).q, steps[1..]))
  }

  /** The state and the events after an interleaving of driver and engine steps. */
  function Run(q: Queue, steps: seq<Step>): Result
    requires ValidRun(q, steps)
    decreases |steps|
  {
    if steps == [] then Result(q, [])
    else
      var r := Apply(q, steps[0]);
      var rest := Run(r.q, steps[1..]);
      Result(rest.q, r.events + rest.events)
  }

  /** A channel as `cpdma_chan_create` leaves it. */
  const CREATED := Queue(0, [], Idle, IDLE, None)

  // ---- The invariant --------------------------------------------------------

  ghost predicate AllOwned(items: seq<Item>) {
    forall i :: 0 <= i < |items| ==> items[i].mode.owner
  }

  /** The engine released exactly the first `d` descriptors of the chain. */
  ghost predicate ReleasedUpTo(items: seq<Item>, d: nat) {
    && d <= |items|
    && (forall i :: 0 <= i < d ==> !items[i].mode.owner)
    && (forall i :: d <= i < |items| ==> items[i].mode.owner)
  }

  /** EOQ stands on no released descriptor, except on the last one when `stopped`. */
  ghost predicate EoqOnlyLast(items: seq<Item>, d: nat, stopped: bool)
    requires d <= |items|
  {
    forall i :: 0 <= i < d ==> (items[i].mode.eoq <==> stopped && i == d - 1)
  }

  ghost predicate RunningAt(q: Queue) {
    && q.engine.Busy?
    && q.taken <= q.engine.cur < q.Next()
    && ReleasedUpTo(q.items, q.engine.cur - q.taken)
    && EoqOnlyLast(q.items, q.engine.cur - q.taken, false)
    && (q.engine.latch == SawNext ==> q.engine.cur + 1 < q.Next())
  }

  ghost predicate StoppedAt(q: Queue, d: nat) {
    && q.engine.Idle?
    && ReleasedUpTo(q.items, d)
    && EoqOnlyLast(q.items, d, true)
    && (d == 0 ==> q.items == [])
  }

  ghost predicate Inv(q: Queue) {
    match q.state
    case IDLE => q.engine.Idle? && AllOwned(q.items)
    case ACTIVE => RunningAt(q) || exists d: nat :: StoppedAt(q, d)
    case TEARDOWN => q.engine.Idle?
  }

  lemma SubmitKeepsInv(q: Queue, item: Item)
    requires Inv(q) && q.state != TEARDOWN && item.mode.owner
    ensures Inv(SubmitItem(q, item).q)
  {
    var r := SubmitItem(q, item).q;
    if q.state == ACTIVE {
      if q.engine.Idle? {
        var d: nat :| StoppedAt(q, d);
        if d == |q.items| {
          assert RunningAt(r);
        } else {
          assert StoppedAt(r, d);
        }
      } else {
        assert RunningAt(r);
      }
    }
  }

  lemma ProcessKeepsInv(q: Queue)
    requires Inv(q) && q.state != IDLE
    ensures Inv(ProcessHead(q).q)
  {
    var r := ProcessHead(q).q;
    if q.state == ACTIVE && CanTake(q) {
      if q.engine.Idle? {
        var d: nat :| StoppedAt(q, d);
        if d == 1 && |q.items| > 1 {
          assert RunningAt(r);
        } else {
          assert StoppedAt(r, d - 1);
        }
      } else {
        assert RunningAt(r);
      }
    }
  }

  lemma EngineKeepsInv(q: Queue, step: Step)
    requires Inv(q) && Enabled(q, step) && (step.Fetch? || step.Complete?)
    ensures Inv(Apply(q, step).q)
  {
    var r := Apply(q, step).q;
    if step.Complete? && q.engine.latch == SawEnd {
      assert StoppedAt(r, q.engine.cur - q.taken + 1);
    } else {
      assert RunningAt(r);
    }
  }

  lemma StepKeepsInv(q: Queue, step: Step)
    requires Inv(q) && Enabled(q, step)
    ensures Inv(Apply(q, step).q)
  {
    match step
    case Submit(item) => SubmitKeepsInv(q, item);
    case Process => ProcessKeepsInv(q);
    case Callback =>
      var r := Apply(q, step).q;
      if q.state == ACTIVE && q.engine.Idle? {
        var d: nat :| StoppedAt(q, d);
        assert StoppedAt(r, d);
      } else if q.state == ACTIVE {
        assert RunningAt(r);
      }
    case Fetch => EngineKeepsInv(q, step);
    case Complete(_) => EngineKeepsInv(q, step);
    case TurnOnStep =>
      var r := Apply(q, step).q;
      if q.items == [] {
        assert StoppedAt(r, 0);
      } else {
        assert RunningAt(r);
      }
    case StopBegin(_) =>
    case Cleanup =>
    case StopEnd =>
  }

  lemma {:induction false} RunKeepsInv(q: Queue, steps: seq<Step>)
    requires Inv(q) && ValidRun(q, steps)
    ensures Inv(Run(q, steps).q)
    decreases |steps|
  {
    if steps != [] {
      StepKeepsInv(q, steps[0]);
      RunKeepsInv(Apply(q, steps[0]).q, steps[1..]);
    }
  }

  /** HDP is written only while the engine is idle. */
  lemma HdpOnlyWhenIdle(q: Queue, step: Step, k: nat)
    requires Inv(q) && Enabled(q, step)
    requires k < |Apply(q, step).events| && Apply(q, step).events[k].Start?
    ensures q.engine.Idle?
    ensures Apply(q, step).events[k].via == Misqueued ==>
              exists i :: 0 <= i < |q.items| && q.taken + i + 1 == Apply(q, step).events[k].id
                && q.items[i].mode.Stalled() && !Apply(q, step).q.items[i].mode.eoq
    ensures Apply(q, step).events[k].via == Requeue ==>
              Apply(q, step).events[k].id == q.taken + 1 == Apply(q, step).q.taken
  {
    if step.Submit? && q.items != [] {
      var n := |q.items|;
      assert q.items[n - 1] == q.items[n - 1];
    }
  }

  // ---- The engine's life as an outside observer sees it ---------------------

  /** `Off(n)`: switched off, no descriptor from `n` on was started yet.
      `Stopped(n)`: idle, and `n` is the next descriptor to be started.
      `Running(n)`: working on descriptor `n`. */
  datatype Cursor = Off(from: nat) | Stopped(next: nat) | Running(id: nat) {
    /** No descriptor numbered lower than this is started any more. */
    function Bound(): nat {
      match this
      case Off(from) => from
      case Stopped(next) => next
      case Running(id) => id + 1
    }
  }

  /** The only legal order of the events: each start names exactly the descriptor
      after the last one released, and only a stopped engine is started. */
  function Observe(c: Cursor, e: Event): Option<Cursor> {
    match e
    case On(next) => if c.Off? && c.from <= next then Some(Stopped(next)) else None
    case Halt => Some(Off(c.Bound()))
    case Start(id, _) => if c == Stopped(id) then Some(Running(id)) else None
    case Done(id, eoq) =>
      if c != Running(id) then None
      else if eoq then Some(Stopped(id + 1)) else Some(Running(id + 1))
    case Stale(_) => if c.Off? then Some(c) else None
    case Handed(_) => Some(c)
  }

  function Replay(c: Cursor, events: seq<Event>): Option<Cursor>
    decreases |events|
  {
    if events == [] then Some(c)
    else
      match Observe(c, events[0])
      case None => None
      case Some(c') => Replay(c', events[1..])
  }

  lemma {:induction false} ReplayConcat(c: Cursor, a: seq<Event>, b: seq<Event>)
    requires Replay(c, a).Some?
    ensures Replay(c, a + b) == Replay(Replay(c, a).value, b)
    decreases |a|
  {
    if a == [] {
      assert a + b == b;
    } else {
      assert (a + b)[1..] == a[1..] + b;
      ReplayConcat(Observe(c, a[0]).value, a[1..], b);
    }
  }

  /** Where the engine is, read off the queue. */
  ghost predicate CursorOf(q: Queue, c: Cursor) {
    match q.state
    case ACTIVE =>
      (q.engine.Busy? && c == Running(q.engine.cur)) ||
      (exists d: nat :: StoppedAt(q, d) && c == Stopped(q.taken + d))
    case IDLE => c.Off? && c.from <= q.taken
    case TEARDOWN => c.Off? && c.from <= q.Next()
  }

  lemma IdleStepObserved(q: Queue, step: Step, d: nat)
    requires Enabled(q, step) && q.state == ACTIVE && StoppedAt(q, d)
    requires step.Submit? || step.Process?
    ensures Replay(Stopped(q.taken + d), Apply(q, step).events).Some?
    ensures CursorOf(Apply(q, step).q, Replay(Stopped(q.taken + d), Apply(q, step).events).value)
  {
    var r := Apply(q, step);
    if step.Submit? {
      if d < |q.items| {
        assert StoppedAt(r.q, d);
      }
    } else if !CanTake(q) {
      assert StoppedAt(r.q, d);
    } else if !(d == 1 && |q.items| > 1) {
      assert StoppedAt(r.q, d - 1);
    }
  }

  lemma BusyStepObserved(q: Queue, step: Step)
    requires Enabled(q, step) && q.state == ACTIVE && RunningAt(q)
    requires step.Submit? || step.Process? || step.Fetch? || step.Complete?
    ensures Replay(Running(q.engine.cur), Apply(q, step).events).Some?
    ensures CursorOf(Apply(q, step).q, Replay(Running(q.engine.cur), Apply(q, step).events).value)
  {
    if step.Complete? && q.engine.latch == SawEnd {
      assert StoppedAt(Apply(q, step).q, q.engine.cur - q.taken + 1);
    }
  }

  lemma TurnOnObserved(q: Queue, c: Cursor)
    requires Inv(q) && q.state == IDLE && CursorOf(q, c)
    ensures Replay(c, SwitchOn(q).events).Some?
    ensures CursorOf(SwitchOn(q).q, Replay(c, SwitchOn(q).events).value)
  {
    var r := SwitchOn(q);
    if q.items == [] {
      assert StoppedAt(r.q, 0);
    } else {
      ReplayConcat(c, [On(q.taken)], [Start(q.taken, TurnOn)]);
    }
  }

  lemma StepObserved(q: Queue, step: Step, c: Cursor)
    requires Inv(q) && Enabled(q, step) && CursorOf(q, c)
    ensures Replay(c, Apply(q, step).events).Some?
    ensures CursorOf(Apply(q, step).q, Replay(c, Apply(q, step).events).value)
  {
    if step.TurnOnStep? {
      TurnOnObserved(q, c);
    } else if q.state == ACTIVE && !step.StopBegin? {
      if q.engine.Busy? {
        if !step.Callback? {
          BusyStepObserved(q, step);
        }
      } else {
        var d: nat :| StoppedAt(q, d) && c == Stopped(q.taken + d);
        if step.Callback? {
          assert StoppedAt(Apply(q, step).q, d);
        } else {
          IdleStepObserved(q, step, d);
        }
      }
    }
  }

  /** Every interleaving produces a legal event order. */
  lemma {:induction false} RunObserved(q: Queue, steps: seq<Step>, c: Cursor)
    requires Inv(q) && ValidRun(q, steps) && CursorOf(q, c)
    ensures Replay(c, Run(q, steps).events).Some?
    ensures CursorOf(Run(q, steps).q, Replay(c, Run(q, steps).events).value)
    decreases |steps|
  {
    if steps != [] {
      var r := Apply(q, steps[0]);
      StepKeepsInv(q, steps[0]);
      StepObserved(q, steps[0], c);
      RunObserved(r.q, steps[1..], Replay(c, r.events).value);
      ReplayConcat(c, r.events, Run(r.q, steps[1..]).events);
    }
  }

  /** Start numbers only grow: no descriptor is given to the engine twice. */
  lemma {:induction false} StartsAboveBound(c: Cursor, events: seq<Event>, j: nat)
    requires Replay(c, events).Some? && j < |events| && events[j].Start?
    ensures c.Bound() <= events[j].id
    decreases |events|
  {
    if j > 0 {
      StartsAboveBound(Observe(c, events[0]).value, events[1..], j - 1);
    }
  }

  lemma {:induction false} StartedOnce(c: Cursor, events: seq<Event>, i: nat, j: nat)
    requires Replay(c, events).Some? && i < j < |events| && events[i].Start? && events[j].Start?
    ensures events[i].id < events[j].id
    decreases |events|
  {
    var c' := Observe(c, events[0]).value;
    if i == 0 {
      StartsAboveBound(c', events[1..], j - 1);
    } else {
      StartedOnce(c', events[1..], i - 1, j - 1);
    }
  }

  ghost predicate NoHalt(events: seq<Event>) {
    forall i :: 0 <= i < |events| ==> !events[i].Halt?
  }

  ghost predicate StartsAt(events: seq<Event>, j: nat, id: nat) {
    j < |events| && events[j].Start? && events[j].id == id
  }

  ghost predicate StartedExactlyOnce(events: seq<Event>, id: nat) {
    exists j: nat :: StartsAt(events, j, id) && forall k: nat :: StartsAt(events, k, id) ==> k == j
  }

  /** A stopped engine stays where it is until its next descriptor is started. */
  lemma {:induction false} StoppedUntilStart(n: nat, events: seq<Event>)
    requires Replay(Stopped(n), events).Some? && NoHalt(events)
    ensures Replay(Stopped(n), events).value == Stopped(n) || exists j: nat :: StartsAt(events, j, n)
    decreases |events|
  {
    if events != [] {
      if events[0].Start? {
        assert StartsAt(events, 0, n);
      } else {
        StoppedUntilStart(n, events[1..]);
        if j: nat :| StartsAt(events[1..], j, n) {
          assert StartsAt(events, j + 1, n);
        }
      }
    }
  }

  lemma {:induction false} ReplayPrefix(c: Cursor, events: seq<Event>, i: nat)
    requires Replay(c, events).Some? && i <= |events|
    ensures Replay(c, events[..i]).Some?
    ensures Replay(c, events) == Replay(Replay(c, events[..i]).value, events[i..])
    decreases i
  {
    hide Observe;
    if i == 0 {
      assert events[i..] == events;
    } else {
      ReplayPrefix(Observe(c, events[0]).value, events[1..], i - 1);
      assert events[..i][1..] == events[1..][..i - 1] && events[..i][0] == events[0];
      assert events[i..] == events[1..][i - 1..];
    }
  }

  lemma ReplayStep(c: Cursor, events: seq<Event>)
    requires Replay(c, events).Some? && events != []
    ensures Observe(c, events[0]).Some? && Replay(c, events) == Replay(Observe(c, events[0]).value, events[1..])
  {}

  /** After an end of queue the engine stands stopped before the next descriptor. */
  lemma StoppedAfter(events: seq<Event>, i: nat)
    requires Replay(Off(0), events).Some? && i < |events| && events[i].Done? && events[i].eoq
    ensures Replay(Stopped(events[i].id + 1), events[i + 1..]) == Replay(Off(0), events)
  {
    hide Replay;
    ReplayPrefix(Off(0), events, i);
    var rest := events[i..];
    assert rest[0] == events[i] && rest[1..] == events[i + 1..];
    ReplayStep(Replay(Off(0), events[..i]).value, rest);
  }

  lemma OnlyStart(events: seq<Event>, j: nat, id: nat)
    requires Replay(Off(0), events).Some? && StartsAt(events, j, id)
    ensures StartedExactlyOnce(events, id)
  {
    hide Replay;
    forall k: nat | StartsAt(events, k, id) ensures k == j {
      if k < j {
        StartedOnce(Off(0), events, k, j);
      } else if k > j {
        StartedOnce(Off(0), events, j, k);
      }
    }
  }

  /** Each end of queue is repaired exactly once. If the engine stops at descriptor
      `id` and the channel is not torn down afterwards, then descriptor `id + 1` is
      started once and once only, or nothing was submitted behind `id`, or `id` still
      stands in the chain with its EOQ mark, so `__cpdma_chan_process` will start it. */
  lemma EoqRepairedOnce(steps: seq<Step>, i: nat)
    requires ValidRun(CREATED, steps)
    requires i < |Run(CREATED, steps).events|
    requires Run(CREATED, steps).events[i].Done? && Run(CREATED, steps).events[i].eoq
    requires NoHalt(Run(CREATED, steps).events[i + 1..])
    ensures var r := Run(CREATED, steps);
            var id := r.events[i].id;
            || StartedExactlyOnce(r.events, id + 1)
            || (r.q.engine.Idle? && r.q.Next() == id + 1)
            || (r.q.engine.Idle? && r.q.taken <= id < r.q.Next() && r.q.items[id - r.q.taken].mode.Stalled())
  {
    hide Run, Replay, Inv, StartedExactlyOnce, NoHalt, ValidRun, CursorOf;
    var events, q := Run(CREATED, steps).events, Run(CREATED, steps).q;
    var next := events[i].id + 1;
    CreatedIsOff();
    RunObserved(CREATED, steps, Off(0));
    StoppedAfter(events, i);
    var tail := events[i + 1..];
    StoppedUntilStart(next, tail);
    if j: nat :| StartsAt(tail, j, next) {
      assert StartsAt(events, i + 1 + j, next);
      OnlyStart(events, i + 1 + j, next);
    } else {
      StoppedIsStalled(q, next);
    }
  }

  lemma CreatedIsOff()
    ensures Inv(CREATED) && CursorOf(CREATED, Off(0))
  {}

  lemma StoppedIsStalled(q: Queue, n: nat)
    requires CursorOf(q, Stopped(n))
    ensures q.engine.Idle?
    ensures q.Next() == n || (q.taken < n <= q.Next() && q.items[n - 1 - q.taken].mode.Stalled())
  {
    var d: nat :| StoppedAt(q, d) && n == q.taken + d;
  }

  // ---- No lost wakeup --------------------------------------------------------

  /** Descriptor `d` is the first one the engine still has to work on. */
  predicate FirstOwned(q: Queue, d: nat) {
    d < |q.items| && q.items[d].mode.owner && forall i :: 0 <= i < d ==> !q.items[i].mode.owner
  }

  /** An idle engine with work left has always left its mark just before that work, a busy
      one works on the first of it, and without work, so with an empty chain, it is idle. */
  lemma NoLostWakeup(q: Queue, d: nat)
    requires Inv(q) && q.state == ACTIVE
    ensures FirstOwned(q, d) && q.engine.Idle? ==> d > 0 && q.items[d - 1].mode.Stalled()
    ensures FirstOwned(q, d) && q.engine.Busy? ==> q.engine.cur == q.taken + d
    ensures (forall i :: 0 <= i < |q.items| ==> !q.items[i].mode.owner) ==> q.engine.Idle?
    ensures q.items == [] ==> q.engine.Idle?
  {
    if FirstOwned(q, d) && q.engine.Idle? {
      var e: nat :| StoppedAt(q, e);
      BoundaryUnique(q.items, e, d);
    } else if q.engine.Busy? {
      var e: nat := q.engine.cur - q.taken;
      assert q.items[e].mode.owner;
      if FirstOwned(q, d) {
        BoundaryUnique(q.items, e, d);
      }
    }
  }

  lemma BoundaryUnique(items: seq<Item>, e: nat, d: nat)
    requires ReleasedUpTo(items, e)
    requires d < |items| && items[d].mode.owner && (forall i :: 0 <= i < d ==> !items[i].mode.owner)
    ensures e == d
  {
    if e < |items| {
      assert items[e].mode.owner;
    }
  }

  /** What `cpdma_chan_process` does with an unlimited quota. */
  function Drain(q: Queue): Queue
    requires q.inFlight.None?
    decreases |q.items|
  {
    if CanTake(q) then Drain(CallHandler(ProcessHead(q).q).q) else q
  }

  /** Draining restarts a stopped engine: afterwards it is busy or the chain is empty. */
  lemma {:induction false} DrainRestarts(q: Queue)
    requires Inv(q) && q.state == ACTIVE && q.inFlight.None?
    ensures Inv(Drain(q)) && Drain(q).state == ACTIVE
    ensures Drain(q).engine.Busy? || Drain(q).items == []
    ensures Drain(q).engine.Busy? ==> Drain(q).engine.cur == Drain(q).taken
    decreases |q.items|
  {
    if CanTake(q) {
      StepKeepsInv(q, Process);
      var q1 := ProcessHead(q).q;
      StepKeepsInv(q1, Callback);
      DrainRestarts(CallHandler(q1).q);
    } else if q.items != [] {
      NoLostWakeup(q, 0);
    }
  }

  // ---- Exactly once, in order --------------------------------------------------

  function Tokens(items: seq<Item>): seq<int> {
    seq(|items|, i requires 0 <= i < |items| => items[i].token)
  }

  /** The token that was dequeued but not yet handed over. */
  function InFlight(q: Queue): seq<int> {
    if q.inFlight.None? then [] else [q.inFlight.value.token]
  }

  function Submitted(steps: seq<Step>): seq<int> {
    if steps == [] then []
    else (if steps[0].Submit? then [steps[0].item.token] else []) + Submitted(steps[1..])
  }

  function HandedOver(events: seq<Event>): seq<int> {
    if events == [] then []
    else (if events[0].Handed? then [events[0].token] else []) + HandedOver(events[1..])
  }

  /** Tokens on their way, oldest first. */
  function Pending(q: Queue): seq<int> { InFlight(q) + Tokens(q.items) }

  lemma {:induction false} HandedConcat(a: seq<Event>, b: seq<Event>)
    ensures HandedOver(a + b) == HandedOver(a) + HandedOver(b)
  {
    if a == [] {
      assert a + b == b;
    } else {
      var first := if a[0].Handed? then [a[0].token] else [];
      assert (a + b)[1..] == a[1..] + b && (a + b)[0] == a[0];
      HandedConcat(a[1..], b);
      Regroup(first, HandedOver(a[1..]), HandedOver(b));
    }
  }

  lemma Regroup(x: seq<int>, y: seq<int>, z: seq<int>)
    ensures x + (y + z) == (x + y) + z
  {}

  lemma NothingHanded(events: seq<Event>)
    requires forall i :: 0 <= i < |events| ==> !events[i].Handed?
    ensures HandedOver(events) == []
  {}

  lemma SubmitFifo(q: Queue, item: Item)
    ensures Pending(SubmitItem(q, item).q) == Pending(q) + [item.token]
  {
    var r := SubmitItem(q, item).q;
    assert Tokens(r.items) == Tokens(q.items) + [item.token];
  }

  lemma TakeFifo(q: Queue)
    requires q.items != [] && q.inFlight.None?
    ensures Pending(TakeHead(q)) == Pending(q)
  {
    assert Tokens(q.items) == [q.items[0].token] + Tokens(q.items[1..]);
  }

  /** Steps that neither append nor take move no token. */
  lemma QuietStep(q: Queue, step: Step)
    requires Enabled(q, step) && !step.Submit? && !step.Callback? && !step.Cleanup? && !(step.Process? && CanTake(q))
    ensures Pending(Apply(q, step).q) == Pending(q)
  {
    assert Tokens(Apply(q, step).q.items) == Tokens(q.items);
  }

  lemma NoHandlerCall(q: Queue, step: Step)
    requires Enabled(q, step) && !step.Callback?
    ensures HandedOver(Apply(q, step).events) == []
  {
    NothingHanded(Apply(q, step).events);
  }

  lemma CallFifo(q: Queue)
    requires q.inFlight.Some?
    ensures HandedOver(CallHandler(q).events) + Pending(CallHandler(q).q) == Pending(q)
  {
    hide Tokens;
    assert CallHandler(q).events == [Handed(q.inFlight.value.token)];
  }

  lemma SubmittedBy(step: Step)
    ensures Submitted([step]) == if step.Submit? then [step.item.token] else []
  {
    assert [step][1..] == [];
  }

  lemma StepFifo(q: Queue, step: Step)
    requires Enabled(q, step)
    ensures var r := Apply(q, step);
            HandedOver(r.events) + Pending(r.q) == Pending(q) + Submitted([step])
  {
    hide Tokens, Submitted;
    SubmittedBy(step);
    if step.Callback? {
      CallFifo(q);
    } else {
      NoHandlerCall(q, step);
      hide HandedOver;
      if step.Submit? {
        SubmitFifo(q, step.item);
      } else if (step.Process? && CanTake(q)) || step.Cleanup? {
        TakeFifo(q);
      } else {
        QuietStep(q, step);
      }
    }
  }

  lemma Glue(h1: seq<int>, h2: seq<int>, p0: seq<int>, p1: seq<int>, p2: seq<int>, s1: seq<int>, s2: seq<int>)
    requires h1 + p1 == p0 + s1 && h2 + p2 == p1 + s2
    ensures (h1 + h2) + p2 == p0 + (s1 + s2)
  {
    assert (h1 + h2) + p2 == h1 + (h2 + p2);
    assert h1 + (p1 + s2) == (h1 + p1) + s2;
    assert (p0 + s1) + s2 == p0 + (s1 + s2);
  }

  /** Over every run, the tokens handed over followed by those still on their way are
      exactly those that were there before followed by those submitted, in order. */
  lemma {:induction false} RunFifo(q: Queue, steps: seq<Step>)
    requires ValidRun(q, steps)
    ensures HandedOver(Run(q, steps).events) + Pending(Run(q, steps).q) == Pending(q) + Submitted(steps)
    decreases |steps|
  {
    if steps != [] {
      var r := Apply(q, steps[0]);
      var rest := Run(r.q, steps[1..]);
      StepFifo(q, steps[0]);
      RunFifo(r.q, steps[1..]);
      HandedConcat(r.events, rest.events);
      assert Submitted(steps) == Submitted([steps[0]]) + Submitted(steps[1..]);
      Glue(HandedOver(r.events), HandedOver(rest.events), Pending(q), Pending(r.q), Pending(rest.q),
           Submitted([steps[0]]), Submitted(steps[1..]));
    }
  }

  /** Once the channel is back in IDLE after a stop, everything ever submitted was
      handed over. */
  lemma StopHandsOverEverything(steps: seq<Step>)
    requires steps != [] && steps[|steps| - 1] == StopEnd && ValidRun(CREATED, steps)
    requires Run(CREATED, steps).q.inFlight.None?
    ensures Run(CREATED, steps).q.items == []
    ensures HandedOver(Run(CREATED, steps).events) == Submitted(steps)
  {
    RunFifo(CREATED, steps);
    StopEndsEmpty(CREATED, steps);
    assert Pending(CREATED) == [];
    var r := Run(CREATED, steps);
    assert Pending(r.q) == [];
    AppendNothing(HandedOver(r.events), Submitted(steps));
  }

  lemma AppendNothing(a: seq<int>, b: seq<int>)
    ensures a + [] == [] + b ==> a == b
  {
    assert a + [] == a && [] + b == b;
  }

  lemma {:induction false} StopEndsEmpty(q: Queue, steps: seq<Step>)
    requires steps != [] && steps[|steps| - 1] == StopEnd && ValidRun(q, steps)
    ensures Run(q, steps).q.items == []
    decreases |steps|
  {
    if |steps| > 1 {
      assert steps[1..][|steps[1..]| - 1] == StopEnd;
      StopEndsEmpty(Apply(q, steps[0]).q, steps[1..]);
    }
  }

  // ---- Progress ----------------------------------------------------------------

  function OwnedCount(items: seq<Item>): nat {
    if items == [] then 0
    else (if items[0].mode.owner then 1 else 0) + OwnedCount(items[1..])
  }

  lemma {:induction false} ReleaseCounts(items: seq<Item>, i: nat, mode: Mode)
    requires i < |items| && items[i].mode.owner && !mode.owner
    ensures OwnedCount(items[i := items[i].(mode := mode)]) == OwnedCount(items) - 1
  {
    var items' := items[i := items[i].(mode := mode)];
    if i == 0 {
      assert items'[1..] == items[1..];
    } else {
      assert items'[1..] == items[1..][i - 1 := items[1..][i - 1].(mode := mode)];
      ReleaseCounts(items[1..], i - 1, mode);
    }
  }

  /** The number of steps the engine and the consumer still have to take. */
  function Work(q: Queue): int {
    2 * OwnedCount(q.items) + 2 * |q.items|
    - (if q.engine.Busy? && q.engine.latch != NotFetched then 1 else 0)
    + (if q.inFlight.Some? then 1 else 0)
  }

  predicate Productive(q: Queue, step: Step) {
    Enabled(q, step) && (step.Fetch? || step.Complete? || step.Callback? || (step.Process? && CanTake(q)))
  }

  predicate ProductiveRun(q: Queue, steps: seq<Step>)
    decreases |steps|
  {
    steps == [] || (Productive(q, steps[0]) && ProductiveRun(Apply(q, steps[0]).q, steps[1..]))
  }

  lemma StepWorks(q: Queue, step: Step)
    requires Inv(q) && q.state == ACTIVE && Productive(q, step)
    ensures Work(Apply(q, step).q) == Work(q) - 1
    ensures Apply(q, step).q.state == ACTIVE
  {
    if step.Complete? {
      ReleaseCounts(q.items, q.engine.cur - q.taken, step.mode);
    } else if step.Process? && q.engine.Idle? {
      var d: nat :| StoppedAt(q, d);
    }
  }

  lemma SomeStepIsProductive(q: Queue)
    requires Inv(q) && q.state == ACTIVE && (q.items != [] || q.inFlight.Some?)
    ensures exists step :: Productive(q, step)
  {
    if q.inFlight.Some? {
      assert Productive(q, Callback);
    } else if q.engine.Busy? {
      if q.engine.latch == NotFetched {
        assert Productive(q, Fetch);
      } else {
        assert Productive(q, Complete(Mode(false, q.engine.latch == SawEnd, false, false, 0, 0)));
      }
    } else {
      assert Productive(q, Process);
    }
  }

  /** However the engine and the consumer are scheduled, they take exactly `Work(q)`
      steps, and then the chain is empty and everything in it was handed over. */
  lemma {:induction false} EveryScheduleDelivers(q: Queue, steps: seq<Step>)
    requires Inv(q) && q.state == ACTIVE && ProductiveRun(q, steps)
    ensures ValidRun(q, steps) && |steps| <= Work(q)
    ensures |steps| == Work(q) <==> Pending(Run(q, steps).q) == []
    ensures |steps| == Work(q) ==> HandedOver(Run(q, steps).events) == Pending(q)
    ensures |steps| < Work(q) ==> exists step :: ProductiveRun(q, steps + [step])
    decreases |steps|
  {
    hide Inv, Work, Pending, Apply, HandedOver;
    if steps == [] {
      WorkIsNatural(q);
      if Pending(q) != [] {
        var step := FirstProductive(q);
        assert steps + [step] == [step];
      }
    } else {
      var q' := Apply(q, steps[0]).q;
      StepKeepsInv(q, steps[0]);
      StepWorks(q, steps[0]);
      EveryScheduleDelivers(q', steps[1..]);
      if |steps| < Work(q) {
        var step :| ProductiveRun(q', steps[1..] + [step]);
        assert (steps + [step])[1..] == steps[1..] + [step];
        assert ProductiveRun(q, steps + [step]);
      }
    }
    if |steps| == Work(q) {
      AllHanded(q, steps);
    }
  }

  lemma FirstProductive(q: Queue) returns (step: Step)
    requires Inv(q) && q.state == ACTIVE && Pending(q) != []
    ensures ProductiveRun(q, [step])
  {
    SomeStepIsProductive(q);
    step :| Productive(q, step);
    assert [step][1..] == [];
    StepKeepsInv(q, step);
    StepWorks(q, step);
    WorkIsNatural(Apply(q, step).q);
  }

  lemma AllHanded(q: Queue, steps: seq<Step>)
    requires Inv(q) && ValidRun(q, steps) && ProductiveRun(q, steps) && Pending(Run(q, steps).q) == []
    ensures HandedOver(Run(q, steps).events) == Pending(q)
  {
    hide HandedOver, Pending, Run, Inv, ValidRun, ProductiveRun;
    RunFifo(q, steps);
    NoSubmits(q, steps);
    assert HandedOver(Run(q, steps).events) + [] == HandedOver(Run(q, steps).events);
    assert Pending(q) + [] == Pending(q);
  }

  lemma WorkIsNatural(q: Queue)
    requires Inv(q) && q.state == ACTIVE
    ensures Work(q) >= 0
    ensures Work(q) == 0 <==> Pending(q) == []
  {
    if q.engine.Busy? {
      assert q.items != [];
    }
  }

  lemma {:induction false} NoSubmits(q: Queue, steps: seq<Step>)
    requires ProductiveRun(q, steps)
    ensures Submitted(steps) == []
    decreases |steps|
  {
    if steps != [] {
      NoSubmits(Apply(q, steps[0]).q, steps[1..]);
    }
  }
}
