/** Bit fields of a 32-bit word, in the kernel's way: shift, mask, clear and or. */
module WordField {

  function Up(v: bv32, s: bv6): bv32
    requires s < 32
  {
    v << s
  }

  function Down(v: bv32, s: bv6): bv32
    requires s < 32
  {
    v >> s
  }

  function Mask(bits: bv6): bv32
    requires bits < 32
  {
    Up(1, bits) - 1
  }

  /** The place of a field in its word. */
  function InPlace(s: bv6, bits: bv6): bv32
    requires s < 32 && bits < 32
  {
    Up(Mask(bits), s)
  }

  /** A value in the place of a field. */
  function Placed(s: bv6, bits: bv6, value: bv32): bv32
    requires s < 32 && bits < 32
  {
    Up(value & Mask(bits), s)
  }

  function Extract(w: bv32, s: bv6, bits: bv6): bv32
    requires s < 32 && bits < 32
  {
    Down(w, s) & Mask(bits)
  }

  function Insert(w: bv32, s: bv6, bits: bv6, value: bv32): bv32
    requires s < 32 && bits < 32
  {
    (w & !InPlace(s, bits)) | Placed(s, bits, value)
  }

  /** A field that lies within the word. */
  predicate InWord(s: bv6, bits: bv6) {
    s < 32 && 0 < bits < 32 && s + bits <= 32
  }

  // ---- Shifts and masks ------------------------------------------------------------------

  lemma UpStep(v: bv32, s: bv6)
    requires 0 < s < 32
    ensures Up(v, s) == Up(v, s - 1) << 1
  {}

  lemma DownStep(v: bv32, s: bv6)
    requires 0 < s < 32
    ensures Down(v, s) == Down(v, s - 1) >> 1
  {}

  /** Shifting keeps a value within its mask. */
  lemma {:induction false} UpWithin(v: bv32, m: bv32, s: bv6)
    requires s < 32
    ensures Up(v & m, s) & !Up(m, s) == 0
  {
    if s > 0 {
      UpWithin(v, m, s - 1);
      UpStep(v & m, s);
      UpStep(m, s);
      hide Up;
      ShiftWithin(Up(v & m, s - 1), Up(m, s - 1));
    }
  }

  lemma ShiftWithin(a: bv32, b: bv32)
    ensures a & !b == 0 ==> (a << 1) & !(b << 1) == 0
    ensures a & !b == 0 ==> (a << 1) & !((b << 1) | 1) == 0
  {}

  /** A value within a mask that fits comes back. */
  lemma UpDown(v: bv32, m: bv32, s: bv6)
    requires s < 32
    ensures Down(Up(m, s), s) == m && v & !m == 0 ==> Down(Up(v, s), s) == v
  {}

  lemma {:induction false} DownAnd(a: bv32, b: bv32, s: bv6)
    requires s < 32
    ensures Down(a & b, s) == Down(a, s) & Down(b, s)
  {
    hide Down;
    if s == 0 {
      DownByZero(a & b);
      DownByZero(a);
      DownByZero(b);
    } else {
      DownAnd(a, b, s - 1);
      DownStep(a & b, s);
      DownStep(a, s);
      DownStep(b, s);
      OneDownAnd(Down(a, s - 1), Down(b, s - 1));
    }
  }

  lemma DownByZero(v: bv32)
    ensures Down(v, 0) == v
  {}

  lemma OneDownAnd(a: bv32, b: bv32)
    ensures (a & b) >> 1 == (a >> 1) & (b >> 1)
  {}

  lemma CutWithin(v: bv32, m: bv32)
    ensures (v & m) & !m == 0 && (v & m) & m == v & m
  {}

  lemma MaskFits(bits: bv6, s: bv6)
    requires s < 32 && bits < 32 && s + bits <= 32
    ensures Down(Up(Mask(bits), s), s) == Mask(bits)
  {}

  lemma MaskStep(bits: bv6)
    requires 0 < bits < 32
    ensures Mask(bits) == (Mask(bits - 1) << 1) | 1
  {}

  /** A mask in its place lies below the bit after it. */
  ghost predicate Below(bits: bv6, s: bv6)
    requires s < 32 && bits < 32 && s + bits < 32
  {
    Up(Mask(bits), s) & !Mask(s + bits) == 0
  }

  lemma {:induction false} MaskBelow(bits: bv6, s: bv6)
    requires s < 32 && bits < 32 && s + bits < 32
    ensures Below(bits, s)
  {
    hide Below;
    if s == 0 {
      BelowAtZero(bits);
    } else {
      MaskBelow(bits, s - 1);
      BelowStep(bits, s);
    }
  }

  lemma BelowAtZero(bits: bv6)
    requires bits < 32
    ensures Below(bits, 0)
  {}

  lemma BelowStep(bits: bv6, s: bv6)
    requires 0 < s < 32 && bits < 32 && s + bits < 32
    ensures Below(bits, s - 1) ==> Below(bits, s)
  {
    UpStep(Mask(bits), s);
    MaskStep(s + bits);
    hide Up, Mask;
    ShiftWithin(Up(Mask(bits), s - 1), Mask(s + bits - 1));
  }

  lemma MaskAbove(v: bv32, s: bv6)
    requires s < 32
    ensures Up(v, s) & Mask(s) == 0
  {}

  lemma {:induction false} MaskGrows(a: bv6, b: bv6)
    requires a <= b < 32
    ensures Mask(a) & !Mask(b) == 0
    decreases b
  {
    hide Mask;
    if a == 0 {
      NoBits(Mask(b));
    } else {
      MaskGrows(a - 1, b - 1);
      MaskStep(a);
      MaskStep(b);
      BothStep(Mask(a - 1), Mask(b - 1));
    }
  }

  lemma NoBits(m: bv32)
    ensures Mask(0) & !m == 0
  {}

  lemma BothStep(a: bv32, b: bv32)
    ensures a & !b == 0 ==> ((a << 1) | 1) & !((b << 1) | 1) == 0
  {}

  /** Places one above the other share no bit. */
  lemma PlacesApart(bits: bv6, s: bv6, bits': bv6, s': bv6)
    requires bits < 32 && bits' < 32 && s < 32 && s' < 32 && s + bits <= s'
    ensures Up(Mask(bits), s) & Up(Mask(bits'), s') == 0
  {
    hide Up, Mask;
    MaskBelow(bits, s);
    assert Below(bits, s);
    MaskGrows(s + bits, s');
    MaskAbove(Mask(bits'), s');
    Separated(Up(Mask(bits), s), Mask(s + bits), Mask(s'), Up(Mask(bits'), s'));
  }

  lemma Separated(a: bv32, b: bv32, c: bv32, d: bv32)
    ensures a & !b == 0 && b & !c == 0 && d & c == 0 ==> a & d == 0
  {}

  // ---- Fields -------------------------------------------------------------------------------

  lemma PlacedIs(s: bv6, bits: bv6, value: bv32, m: bv32)
    requires s < 32 && bits < 32 && m == Mask(bits)
    ensures Placed(s, bits, value) == Up(value & m, s) && InPlace(s, bits) == Up(m, s)
  {
    hide Up, Mask;
  }

  lemma ExtractIs(w: bv32, s: bv6, bits: bv6, m: bv32)
    requires s < 32 && bits < 32 && m == Mask(bits)
    ensures Extract(w, s, bits) == Down(w, s) & m
  {
    hide Down, Mask;
  }

  lemma CutComesBack(v: bv32, m: bv32, s: bv6)
    requires s < 32
    ensures Down(Up(m, s), s) == m ==> Down(Up(v & m, s), s) == v & m
  {
    hide Up, Down;
    CutWithin(v, m);
    UpDown(v & m, m, s);
  }

  lemma CutReturns(v: bv32, m: bv32, s: bv6)
    requires s < 32
    ensures Down(Up(m, s), s) == m ==> Down(Up(v & m, s), s) & m == v & m
  {
    hide Up, Down;
    CutComesBack(v, m, s);
    CutWithin(v, m);
  }

  lemma PlacedExtracts(s: bv6, bits: bv6, value: bv32)
    requires InWord(s, bits)
    ensures Extract(Placed(s, bits, value), s, bits) == value & Mask(bits)
  {
    hide Up, Down, Mask, Extract, Placed, InPlace;
    var m := Mask(bits);
    MaskFits(bits, s);
    PlacedIs(s, bits, value, m);
    ExtractIs(Placed(s, bits, value), s, bits, m);
    CutReturns(value, m, s);
  }

  lemma MaskedDown(w: bv32, m: bv32, s: bv6)
    requires s < 32
    ensures Down(Up(m, s), s) == m ==> Down(w, s) & m == Down(w & Up(m, s), s)
  {
    hide Up, Down;
    DownAnd(w, Up(m, s), s);
  }

  /** A field depends on the bits in its place only. */
  lemma SameExtract(w: bv32, w': bv32, s: bv6, bits: bv6)
    requires InWord(s, bits)
    ensures w & InPlace(s, bits) == w' & InPlace(s, bits) ==> Extract(w, s, bits) == Extract(w', s, bits)
  {
    hide Up, Down, Mask, Extract, Placed, InPlace;
    var m := Mask(bits);
    MaskFits(bits, s);
    PlacedIs(s, bits, 0, m);
    ExtractIs(w, s, bits, m);
    ExtractIs(w', s, bits, m);
    MaskedDown(w, m, s);
    MaskedDown(w', m, s);
  }

  lemma PlacedWithin(s: bv6, bits: bv6, value: bv32)
    requires s < 32 && bits < 32
    ensures Placed(s, bits, value) & !InPlace(s, bits) == 0
  {
    hide Up, Mask, Placed, InPlace;
    var m := Mask(bits);
    PlacedIs(s, bits, value, m);
    UpWithin(value, m, s);
  }

  lemma Within(w: bv32, m: bv32, v: bv32)
    ensures ((w & !m) | v) & m == v & m
  {}

  lemma Outside(w: bv32, m: bv32, v: bv32, m': bv32)
    ensures v & !m == 0 && m & m' == 0 ==> ((w & !m) | v) & m' == w & m'
  {}

  lemma InsertWithin(w: bv32, s: bv6, bits: bv6, value: bv32)
    requires s < 32 && bits < 32
    ensures Insert(w, s, bits, value) & InPlace(s, bits) == Placed(s, bits, value) & InPlace(s, bits)
  {
    hide Placed, InPlace;
    Within(w, InPlace(s, bits), Placed(s, bits, value));
  }

  lemma InsertOutside(w: bv32, s: bv6, bits: bv6, value: bv32, m: bv32)
    requires s < 32 && bits < 32
    ensures InPlace(s, bits) & m == 0 ==> Insert(w, s, bits, value) & m == w & m
  {
    hide Placed, InPlace;
    PlacedWithin(s, bits, value);
    Outside(w, InPlace(s, bits), Placed(s, bits, value), m);
  }

  /** What is inserted can be extracted, cut to the width of the field. */
  lemma InsertExtracts(w: bv32, s: bv6, bits: bv6, value: bv32)
    requires InWord(s, bits)
    ensures Extract(Insert(w, s, bits, value), s, bits) == value & Mask(bits)
  {
    hide Insert, Extract, Placed, InPlace, Mask;
    InsertWithin(w, s, bits, value);
    SameExtract(Insert(w, s, bits, value), Placed(s, bits, value), s, bits);
    PlacedExtracts(s, bits, value);
  }

  lemma InPlaceApart(s: bv6, bits: bv6, s': bv6, bits': bv6)
    requires InWord(s, bits) && InWord(s', bits') && s + bits <= s'
    ensures InPlace(s, bits) & InPlace(s', bits') == 0
  {
    hide Up, Mask, Placed, InPlace;
    PlacedIs(s, bits, 0, Mask(bits));
    PlacedIs(s', bits', 0, Mask(bits'));
    PlacesApart(bits, s, bits', s');
  }

  predicate Beside(s: bv6, bits: bv6, s': bv6, bits': bv6) {
    s + bits <= s' || s' + bits' <= s
  }

  lemma InPlaceBeside(s: bv6, bits: bv6, s': bv6, bits': bv6)
    requires InWord(s, bits) && InWord(s', bits') && Beside(s, bits, s', bits')
    ensures InPlace(s, bits) & InPlace(s', bits') == 0
  {
    hide InPlace;
    if s + bits <= s' {
      InPlaceApart(s, bits, s', bits');
    } else {
      InPlaceApart(s', bits', s, bits);
    }
  }

  /** Inserting keeps every field above or below. */
  lemma InsertKeeps(w: bv32, s: bv6, bits: bv6, value: bv32, s': bv6, bits': bv6)
    requires InWord(s, bits) && InWord(s', bits') && Beside(s, bits, s', bits')
    ensures Extract(Insert(w, s, bits, value), s', bits') == Extract(w, s', bits')
  {
    hide Insert, Extract, InPlace, Beside;
    InPlaceBeside(s, bits, s', bits');
    InsertOutside(w, s, bits, value, InPlace(s', bits'));
    SameExtract(w, Insert(w, s, bits, value), s', bits');
  }
}
