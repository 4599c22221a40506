/** The bandwidth reservations of the FIFO shapers.

  The percentages of FIFO 1 to 3 share one register, seven bits each in a byte of its own.
 */
module FifoShaper {
  import opened Kernel
  import opened WordField

  const SHAPERS := 3
  const PCT_BITS: bv6 := 7

  function ShiftOf(fifo: int): (s: bv6)
    ensures InWord(s, PCT_BITS)
  {
    if fifo == 1 then 0 else if fifo == 2 then 8 else 16
  }

  /** The percentage of one FIFO in the register. */
  function Percent(reg: bv32, fifo: int): int {
    Extract(reg, ShiftOf(fifo), PCT_BITS) as int
  }

  /** FIFO 1 has the lowest byte of the register, FIFO 3 the third. */
  lemma PercentLayout(reg: bv32)
    ensures Percent(reg, 1) == (reg & 0x7f) as int
    ensures Percent(reg, 2) == ((reg >> 8) & 0x7f) as int
    ensures Percent(reg, 3) == ((reg >> 16) & 0x7f) as int
  {
    LowField(reg);
    LowField(reg >> 8);
    LowField(reg >> 16);
  }

  lemma LowField(v: bv32)
    ensures v & Mask(PCT_BITS) == v & 0x7f && v >> 0 == v
  {}

  /** The byte that holds `x`. */
  function ByteOf(x: int): bv8
    requires 0 <= x < 128
  {
    if x == 0 then 0 else ByteOf(x - 1) + 1
  }

  function Word(x: int): bv32
    requires 0 <= x < 128
  {
    ByteOf(x) as bv32
  }

  function WithPercent(reg: bv32, fifo: int, x: int): bv32
    requires 0 <= x < 128
  {
    Insert(reg, ShiftOf(fifo), PCT_BITS, Word(x))
  }

  lemma NextByte(b: bv8)
    requires b as int < 128
    ensures (b + 1) as int == b as int + 1
  {}

  lemma {:induction false} SmallByte(x: int)
    requires 0 <= x < 128
    ensures ByteOf(x) as int == x
  {
    if x > 0 {
      SmallByte(x - 1);
      NextByte(ByteOf(x - 1));
    }
  }

  lemma WideByte(b: bv8)
    ensures (b as bv32) as int == b as int
    ensures b as int < 128 ==> (b as bv32) & Mask(PCT_BITS) == b as bv32
  {}

  lemma WordValue(x: int)
    requires 0 <= x < 128
    ensures Word(x) as int == x && Word(x) & Mask(PCT_BITS) == Word(x)
  {
    hide Mask, ByteOf;
    SmallByte(x);
    WideByte(ByteOf(x));
  }

  /** A new percentage is read back, and no other field of the register changes. */
  lemma PercentSet(reg: bv32, fifo: int, x: int)
    requires 0 <= x < 128
    ensures Percent(WithPercent(reg, fifo, x), fifo) == x
  {
    hide Word, Extract, Insert, Mask, ShiftOf;
    WordValue(x);
    InsertExtracts(reg, ShiftOf(fifo), PCT_BITS, Word(x));
  }

  lemma OthersKept(reg: bv32, fifo: int, x: int, s: bv6, bits: bv6)
    requires 0 <= x < 128 && InWord(s, bits) && Beside(ShiftOf(fifo), PCT_BITS, s, bits)
    ensures Extract(WithPercent(reg, fifo, x), s, bits) == Extract(reg, s, bits)
  {
    hide Word, Extract, Insert, Mask, ShiftOf, Beside, InWord;
    InsertKeeps(reg, ShiftOf(fifo), PCT_BITS, Word(x), s, bits);
  }

  lemma FifosBeside(a: int, b: int)
    requires 1 <= a <= SHAPERS && 1 <= b <= SHAPERS && a != b
    ensures Beside(ShiftOf(a), PCT_BITS, ShiftOf(b), PCT_BITS)
  {}

  lemma OtherPercents(reg: bv32, fifo: int, x: int, i: int)
    requires 0 <= x < 128 && 1 <= fifo <= SHAPERS && 1 <= i <= SHAPERS && i != fifo
    ensures Percent(WithPercent(reg, fifo, x), i) == Percent(reg, i)
  {
    hide Word, Extract, Insert, Mask, ShiftOf, WithPercent, Beside, InWord;
    FifosBeside(fifo, i);
    OthersKept(reg, fifo, x, ShiftOf(i), PCT_BITS);
  }

  lemma PercentRange(reg: bv32, fifo: int)
    ensures 0 <= Percent(reg, fifo) < 128
  {
    hide Down, ShiftOf;
    SmallWord(Down(reg, ShiftOf(fifo)));
  }

  lemma SmallWord(v: bv32)
    ensures (v & Mask(PCT_BITS)) as int < 128
  {}

  // ---- Reservations --------------------------------------------------------------------------

  /** The configured bandwidths by FIFO, entry 0 unused, and the register. */
  datatype State = State(bws: seq<int>, reg: bv32)

  predicate Valid(s: State) { |s.bws| == SHAPERS + 1 }

  /** What one shaped FIFO reserves. */
  function Held(s: State, i: int): int
    requires Valid(s) && 0 <= i <= SHAPERS
  {
    if s.bws[i] != 0 then Percent(s.reg, i) else 0
  }

  function Reserved(s: State): int
    requires Valid(s)
  {
    Held(s, 1) + Held(s, 2) + Held(s, 3)
  }

  /** The percentage for a bandwidth: rounded up, and at least one. */
  function Share(bw: nat, speed: nat): nat
    requires speed > 0
  {
    var val := (bw + speed * 10 - 1) / (speed * 10);
    if val == 0 then 1 else val
  }

  /** The percentage covers the bandwidth, and no smaller one does. */
  lemma ShareCovers(bw: nat, speed: nat)
    requires speed > 0
    ensures bw <= Share(bw, speed) * (speed * 10)
    ensures Share(bw, speed) == 1 || (Share(bw, speed) - 1) * (speed * 10) < bw
    ensures bw <= speed * 1000 ==> Share(bw, speed) <= 100
  {
    var d := speed * 10;
    var val := (bw + d - 1) / d;
    DivAtLeast(bw + d - 1, d, val);
    DivAtLeast(bw + d - 1, d, val + 1);
    DivAtLeast(bw + d - 1, d, 101);
    assert d * (val + 1) == d * val + d;
    assert val >= 1 ==> d * (val - 1) == d * val - d;
  }

  /** The reservations of the other FIFOs. */
  function OfOthers(s: State, fifo: int): int
    requires Valid(s) && 1 <= fifo <= SHAPERS
  {
    Reserved(s) - Held(s, fifo)
  }

  /** A request that fits: all FIFOs above are shaped, and less than everything is reserved.
      Switching a shaper off always fits. */
  predicate Admitted(s: State, speed: nat, fifo: int, bw: nat)
    requires Valid(s) && 1 <= fifo <= SHAPERS
  {
    bw == 0 ||
    (bw <= speed * 1000 && (forall i :: fifo < i <= SHAPERS ==> s.bws[i] != 0)
        && Share(bw, speed) + OfOthers(s, fifo) < 100)
  }

  /** A percentage that is positive and covers the bandwidth. */
  predicate Covers(pct: nat, bw: nat, speed: nat) { pct > 0 && bw <= pct * (speed * 10) }

  /** A bandwidth is admitted exactly if it is within the link, all FIFOs above are shaped,
      and some percentage that covers it leaves the percentages of the other shaped FIFOs
      below a hundred in all. */
  lemma AdmittedExactly(s: State, speed: nat, fifo: int, bw: nat)
    requires Valid(s) && 1 <= fifo <= SHAPERS && bw > 0
    ensures Admitted(s, speed, fifo, bw) <==>
              && bw <= speed * 1000
              && (fifo < 2 ==> s.bws[2] != 0) && (fifo < 3 ==> s.bws[3] != 0)
              && exists pct: nat :: Covers(pct, bw, speed) &&
                   pct + (if fifo != 1 && s.bws[1] != 0 then Percent(s.reg, 1) else 0)
                       + (if fifo != 2 && s.bws[2] != 0 then Percent(s.reg, 2) else 0)
                       + (if fifo != 3 && s.bws[3] != 0 then Percent(s.reg, 3) else 0) < 100
  {
    hide Percent, Share;
    if bw <= speed * 1000 {
      ShareCovers(bw, speed);
      ShareIsLeast(bw, speed);
      assert Covers(Share(bw, speed), bw, speed);
    }
  }

  lemma ShareIsLeast(bw: nat, speed: nat)
    requires speed > 0
    ensures forall pct: nat :: Covers(pct, bw, speed) ==> Share(bw, speed) <= pct
  {
    hide Share;
    ShareCovers(bw, speed);
    forall pct: nat | Covers(pct, bw, speed) ensures Share(bw, speed) <= pct {
      if pct < Share(bw, speed) {
        MulMono(speed * 10, pct, Share(bw, speed) - 1);
      }
    }
  }

  function After(s: State, speed: nat, fifo: int, bw: nat): State
    requires Valid(s) && 1 <= fifo <= SHAPERS && Admitted(s, speed, fifo, bw)
  {
    if bw == 0 then State(s.bws[fifo := bw], s.reg)
    else
      ShareCovers(bw, speed);
      State(s.bws[fifo := bw], WithPercent(s.reg, fifo, Share(bw, speed)))
  }

  /** An admitted request takes its share and leaves the others theirs. */
  lemma AdmittedReserves(s: State, speed: nat, fifo: int, bw: nat)
    requires Valid(s) && 1 <= fifo <= SHAPERS && Admitted(s, speed, fifo, bw)
    ensures var s' := After(s, speed, fifo, bw);
            && Reserved(s') == OfOthers(s, fifo) + (if bw == 0 then 0 else Share(bw, speed))
            && (bw > 0 ==> Percent(s'.reg, fifo) == Share(bw, speed) && Percent(s'.reg, fifo) * (speed * 10) >= bw)
            && (forall i :: 1 <= i <= SHAPERS && i != fifo ==> Percent(s'.reg, i) == Percent(s.reg, i))
            && (Reserved(s) < 100 ==> Reserved(s') < 100)
  {
    hide Percent, Share, WithPercent;
    PercentRange(s.reg, fifo);
    if bw > 0 {
      ShareCovers(bw, speed);
      var x := Share(bw, speed);
      PercentSet(s.reg, fifo, x);
      forall i | 1 <= i <= SHAPERS && i != fifo ensures Percent(WithPercent(s.reg, fifo, x), i) == Percent(s.reg, i) {
        OtherPercents(s.reg, fifo, x, i);
      }
    }
  }

  // ---- Runs ---------------------------------------------------------------------------------------

  datatype Request = Request(speed: nat, fifo: int, bw: nat)

  predicate Sensible(r: Request) { 1 <= r.fifo <= SHAPERS }

  /** A request that does not fit changes nothing. */
  function Step(s: State, r: Request): (s': State)
    requires Valid(s) && Sensible(r)
    ensures Valid(s')
  {
    if Admitted(s, r.speed, r.fifo, r.bw) then After(s, r.speed, r.fifo, r.bw) else s
  }

  function Run(s: State, requests: seq<Request>): (s': State)
    requires Valid(s) && forall i :: 0 <= i < |requests| ==> Sensible(requests[i])
    ensures Valid(s')
    decreases |requests|
  {
    if requests == [] then s else Run(Step(s, requests[0]), requests[1..])
  }

  /** Over every run the shaped FIFOs together reserve less than the whole bandwidth. */
  lemma {:induction false} NeverOverbooked(s: State, requests: seq<Request>)
    requires Valid(s) && Reserved(s) < 100 && forall i :: 0 <= i < |requests| ==> Sensible(requests[i])
    ensures Reserved(Run(s, requests)) < 100
    decreases |requests|
  {
    hide Reserved, Admitted, After;
    if requests != [] {
      var r := requests[0];
      if Admitted(s, r.speed, r.fifo, r.bw) {
        AdmittedReserves(s, r.speed, r.fifo, r.bw);
      }
      NeverOverbooked(Step(s, r), requests[1..]);
    }
  }

  /** Shaping is enabled for the highest FIFOs. */
  ghost predicate TopShaped(s: State)
    requires Valid(s)
  {
    forall i, j :: 1 <= i < j <= SHAPERS && s.bws[i] != 0 ==> s.bws[j] != 0
  }

  /** A request keeps that unless it switches a shaper off while a lower one is on: the
      driver only warns then. */
  lemma TopShapedExactly(s: State, r: Request)
    requires Valid(s) && Sensible(r) && TopShaped(s)
    ensures TopShaped(Step(s, r)) <==> !(r.bw == 0 && exists i :: 1 <= i < r.fifo && s.bws[i] != 0)
  {
    hide Share, Percent, OfOthers, WithPercent;
    var s' := Step(s, r);
    if i :| 1 <= i < r.fifo && s.bws[i] != 0 && r.bw == 0 {
      assert s'.bws[i] != 0 && s'.bws[r.fifo] == 0;
    }
  }

  /** The two highest FIFOs are shaped, and the highest is switched off: that is admitted, and
      leaves a shaped FIFO below an unshaped one. */
  lemma TopShapedLost(reg: bv32, speed: nat)
    ensures var s, r := State([0, 0, 10, 10], reg), Request(speed, SHAPERS, 0);
            TopShaped(s) && Admitted(s, r.speed, r.fifo, r.bw) && !TopShaped(Step(s, r))
  {
    hide Percent, Share, WithPercent, OfOthers;
    var s, r := State([0, 0, 10, 10], reg), Request(speed, SHAPERS, 0);
    assert s.bws[2] != 0;
    TopShapedExactly(s, r);
  }

  // ---- The method -------------------------------------------------------------------------------------

  class Priv {
    const fifoBw: array<int>
    var sendPercent: bv32
    var shpCfgSpeed: nat

    constructor (speed: nat)
      ensures fresh(fifoBw) && Now() == State([0, 0, 0, 0], 0) && shpCfgSpeed == speed
    {
      fifoBw := new int[4](_ => 0);
      sendPercent, shpCfgSpeed := 0, speed;
    }

    function Now(): State
      reads this, fifoBw
    {
      State(fifoBw[..], sendPercent)
    }

    /** `cpsw_set_fifo_bw`. */
    method SetFifoBw(fifo: int, bw: nat) returns (ret: int)
      requires Valid(Now()) && Sensible(Request(shpCfgSpeed, fifo, bw))
      modifies `sendPercent, fifoBw
      ensures ret == if old(Admitted(Now(), shpCfgSpeed, fifo, bw)) then 0 else -EINVAL
      ensures Now() == old(Step(Now(), Request(shpCfgSpeed, fifo, bw)))
    {
      hide Share, Percent, WithPercent;
      ghost var s := Now();
      if bw > shpCfgSpeed * 1000 {
        return -EINVAL;
      }
      if bw != 0 {
        ShareCovers(bw, shpCfgSpeed);
      }
      var val, pct, sendPct, i := 0, 0, sendPercent, SHAPERS;
      while i > 0
        invariant 0 <= i <= SHAPERS && Now() == s
        invariant bw == 0 ==> sendPct == sendPercent && pct == 0
        invariant bw != 0 ==>
                    sendPct == if i < fifo then WithPercent(sendPercent, fifo, Share(bw, shpCfgSpeed)) else sendPercent
        invariant bw != 0 ==> pct == (if i < 3 then Taken(s, shpCfgSpeed, fifo, bw, 3) else 0)
                                   + (if i < 2 then Taken(s, shpCfgSpeed, fifo, bw, 2) else 0)
                                   + (if i < 1 then Taken(s, shpCfgSpeed, fifo, bw, 1) else 0)
        invariant bw != 0 ==> forall j :: i < j <= SHAPERS && j > fifo ==> fifoBw[j] != 0
      {
        if bw == 0 {
          i := i - 1;
          continue;
        }
        if fifoBw[i] == 0 && i > fifo {
          return -EINVAL;
        }
        if i == fifo {
          val := Share(bw, shpCfgSpeed);
          sendPct := WithPercent(sendPct, i, val);
          pct := pct + val;
          i := i - 1;
          continue;
        }
        if i < fifo {
          OtherPercents(sendPercent, fifo, Share(bw, shpCfgSpeed), i);
        }
        if fifoBw[i] != 0 {
          pct := pct + Percent(sendPct, i);
        }
        i := i - 1;
      }
      if pct >= 100 {
        return -EINVAL;
      }
      sendPercent := sendPct;
      fifoBw[fifo] := bw;
      assert fifoBw[..] == s.bws[fifo := bw];
      ret := 0;
    }
  }

  /** What FIFO `i` adds to the sum of a request. */
  function Taken(s: State, speed: nat, fifo: int, bw: nat, i: int): int
    requires Valid(s) && speed > 0 && 0 <= i <= SHAPERS
  {
    if i == fifo then Share(bw, speed) else Held(s, i)
  }
}
