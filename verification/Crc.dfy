/** CRC-32: the bit-at-a-time form, and the table-driven form that must agree with it. */
module Crc {
  import opened Words

  /** One bit of the reflected polynomial division. */
  function Step(c: bv32): bv32 {
    if c & 1 == 1 then (c >> 1) ^ 0xEDB8_8320 else c >> 1
  }

  /** The branch-free form the table is built with. */
  function StepMasked(c: bv32): bv32 {
    (c >> 1) ^ (0xEDB8_8320 & (0 - (c & 1)))
  }

  function Steps(c: bv32, k: nat): bv32 {
    if k == 0 then c else Step(Steps(c, k - 1))
  }

  function Update(c: bv32, b: Byte): bv32 {
    Steps(c ^ (b as bv32), 8)
  }

  /** The register after some bytes. */
  function Fold(c: bv32, data: seq<Byte>): bv32 {
    if data == [] then c else Update(Fold(c, data[..|data| - 1]), data[|data| - 1])
  }

  function Crc32(data: seq<Byte>): bv32 {
    Fold(0xFFFF_FFFF, data) ^ 0xFFFF_FFFF
  }

  lemma LowBit(c: bv32)
    ensures c & 1 == 0 || c & 1 == 1
  {
  }

  lemma MaskOf(b: bv32)
    requires b == 0 || b == 1
    ensures 0xEDB8_8320 & (0 - b) == if b == 1 then 0xEDB8_8320 else 0
  {
  }

  lemma XorZero(x: bv32)
    ensures x ^ 0 == x
  {
  }

  lemma StepForms(c: bv32)
    ensures StepMasked(c) == Step(c)
  {
    LowBit(c);
    MaskOf(c & 1);
    XorZero(c >> 1);
  }

  // ---------------------------------------------------------------- linearity

  predicate IsXor(x: bv32, a: bv32, b: bv32) {
    x == a ^ b
  }

  lemma Parity(a: bv32, b: bv32)
    ensures (a ^ b) & 1 == 1 <==> (a & 1 == 1) != (b & 1 == 1)
  {
  }

  lemma BothOdd(a: bv32, b: bv32, s: bv32, t: bv32, u: bv32)
    requires s == (a >> 1) ^ 0xEDB8_8320 && t == (b >> 1) ^ 0xEDB8_8320 && u == (a ^ b) >> 1
    ensures u == s ^ t
  {
  }

  lemma OneOdd(a: bv32, b: bv32, s: bv32, t: bv32, u: bv32)
    requires s == (a >> 1) ^ 0xEDB8_8320 && t == b >> 1 && u == ((a ^ b) >> 1) ^ 0xEDB8_8320
    ensures u == s ^ t
  {
  }

  lemma BothEven(a: bv32, b: bv32, s: bv32, t: bv32, u: bv32)
    requires s == a >> 1 && t == b >> 1 && u == (a ^ b) >> 1
    ensures u == s ^ t
  {
  }

  lemma StepXorOf(a: bv32, b: bv32, s: bv32, t: bv32, u: bv32)
    requires s == Step(a) && t == Step(b) && u == Step(a ^ b)
    ensures u == s ^ t
  {
    Parity(a, b);
    if a & 1 == 1 && b & 1 == 1 {
      BothOdd(a, b, s, t, u);
    } else if a & 1 == 1 {
      OneOdd(a, b, s, t, u);
    } else if b & 1 == 1 {
      OneOdd(b, a, t, s, u);
    } else {
      BothEven(a, b, s, t, u);
    }
  }

  /** The division is linear. */
  lemma StepXor(x: bv32, a: bv32, b: bv32)
    requires IsXor(x, a, b)
    ensures IsXor(Step(x), Step(a), Step(b))
  {
    StepXorOf(a, b, Step(a), Step(b), Step(x));
  }

  lemma {:induction false} StepsXor(x: bv32, a: bv32, b: bv32, k: nat)
    requires IsXor(x, a, b)
    ensures IsXor(Steps(x, k), Steps(a, k), Steps(b, k))
  {
    if k > 0 {
      StepsXor(x, a, b, k - 1);
      StepXor(Steps(x, k - 1), Steps(a, k - 1), Steps(b, k - 1));
    }
  }

  /** A register whose bits under the mask are clear is only shifted. */
  lemma ClearStep(s: bv32, mask: bv32)
    requires s & mask == 0 && mask & 1 == 1
    ensures Step(s) == s >> 1 && (s >> 1) & (mask >> 1) == 0
  {
    assert s & 1 == 0;
  }

  lemma EightShifts(h: bv32)
    ensures (((((((h >> 1) >> 1) >> 1) >> 1) >> 1) >> 1) >> 1) >> 1 == h >> 8
  {
  }

  lemma {:induction false} StepsFrom(c: bv32, k: nat)
    requires k > 0
    ensures Steps(c, k) == Steps(Step(c), k - 1)
  {
    if k > 1 { StepsFrom(c, k - 1); }
  }

  lemma ClearSteps(s: bv32, mask: bv32, k: nat)
    requires k > 0 && s & mask == 0 && mask & 1 == 1
    ensures Steps(s, k) == Steps(s >> 1, k - 1) && (s >> 1) & (mask >> 1) == 0
  {
    ClearStep(s, mask);
    StepsFrom(s, k);
  }

  lemma HighOnly(h: bv32)
    requires h & 0xFF == 0
    ensures Steps(h, 8) == h >> 8
  {
    ClearSteps(h, 0xFF, 8);
    var h1 := h >> 1;
    ClearSteps(h1, 0x7F, 7);
    var h2 := h1 >> 1;
    ClearSteps(h2, 0x3F, 6);
    var h3 := h2 >> 1;
    ClearSteps(h3, 0x1F, 5);
    var h4 := h3 >> 1;
    ClearSteps(h4, 0x0F, 4);
    var h5 := h4 >> 1;
    ClearSteps(h5, 0x07, 3);
    var h6 := h5 >> 1;
    ClearSteps(h6, 0x03, 2);
    var h7 := h6 >> 1;
    ClearSteps(h7, 0x01, 1);
    EightShifts(h);
  }

  lemma Halves(c: bv32)
    ensures IsXor(c, c & 0xFF, c & 0xFFFF_FF00) && (c & 0xFFFF_FF00) & 0xFF == 0
    ensures (c & 0xFFFF_FF00) >> 8 == c >> 8
  {
  }

  lemma LowAndHigh(c: bv32, low: bv32, high: bv32)
    requires IsXor(c, low, high) && high & 0xFF == 0 && high >> 8 == c >> 8
    ensures IsXor(Steps(c, 8), Steps(low, 8), c >> 8)
  {
    StepsXor(c, low, high, 8);
    HighOnly(high);
  }

  /** Eight steps are one look at the low byte and a shift. */
  lemma ByteAtATime(c: bv32)
    ensures IsXor(Steps(c, 8), Steps(c & 0xFF, 8), c >> 8)
  {
    Halves(c);
    LowAndHigh(c, c & 0xFF, c & 0xFFFF_FF00);
  }

  function Low8(c: bv32): (n: nat)
    ensures n < 256 && n as bv32 == c & 0xFF
  {
    (c & 0xFF) as nat
  }

  /** A byte xored in does not reach the upper bits. */
  lemma ShiftedByte(c: bv32, b: Byte)
    ensures (c ^ (b as bv32)) >> 8 == c >> 8
  {
  }

  // ---------------------------------------------------------------- the two implementations

  method TableEntry(i: nat) returns (r: bv32)
    requires i < 256
    ensures r == Steps(i as bv32, 8)
  {
    r := i as bv32;
    var k := 0;
    while k < 8
      invariant 0 <= k <= 8 && r == Steps(i as bv32, k)
    {
      StepForms(r);
      r := StepMasked(r);
      k := k + 1;
    }
  }

  /** Entry i is eight steps of i. */
  ghost predicate IsTable(t: array<bv32>)
    reads t
  {
    t.Length == 256 && forall i :: 0 <= i < 256 ==> t[i] == Steps(i as bv32, 8)
  }

  method BuildTable() returns (t: array<bv32>)
    ensures fresh(t) && IsTable(t)
  {
    t := new bv32[256](_ => 0);
    var i := 0;
    while i < 256
      invariant 0 <= i <= 256 && t.Length == 256
      invariant forall j :: 0 <= j < i ==> t[j] == Steps(j as bv32, 8)
    {
      t[i] := TableEntry(i);
      i := i + 1;
    }
  }

  lemma LookUpForm(x: bv32, c: bv32, b: Byte, e: bv32)
    requires x == c ^ (b as bv32) && e == Steps(x & 0xFF, 8)
    ensures IsXor(Update(c, b), e, c >> 8)
  {
    ByteAtATime(x);
    ShiftedByte(c, b);
  }

  method LookUpStep(t: array<bv32>, c: bv32, b: Byte) returns (r: bv32)
    requires IsTable(t)
    ensures r == Update(c, b)
  {
    var x := c ^ (b as bv32);
    var e := Entry(t, x);
    LookUpForm(x, c, b, e);
    r := e ^ (c >> 8);
  }

  method Entry(t: array<bv32>, x: bv32) returns (e: bv32)
    requires IsTable(t)
    ensures e == Steps(x & 0xFF, 8)
  {
    e := t[Low8(x)];
  }

  lemma FoldNext(c: bv32, data: seq<Byte>, i: nat)
    requires i < |data|
    ensures Fold(c, data[..i + 1]) == Update(Fold(c, data[..i]), data[i])
  {
    assert data[..i + 1][..i] == data[..i];
  }

  /** The table-driven form, a byte at a time. */
  method Crc32ByTable(data: seq<Byte>) returns (crc: bv32)
    ensures crc == Crc32(data)
  {
    var t := BuildTable();
    crc := 0xFFFF_FFFF;
    var i := 0;
    while i < |data|
      invariant 0 <= i <= |data| && IsTable(t) && crc == Fold(0xFFFF_FFFF, data[..i])
    {
      crc := LookUpStep(t, crc, data[i]);
      FoldNext(0xFFFF_FFFF, data, i);
      i := i + 1;
    }
    assert data[..i] == data;
    crc := crc ^ 0xFFFF_FFFF;
  }

  method BitStep(c: bv32, b: Byte) returns (r: bv32)
    ensures r == Update(c, b)
  {
    r := c ^ (b as bv32);
    ghost var x := r;
    var k := 0;
    while k < 8
      invariant 0 <= k <= 8 && r == Steps(x, k)
    {
      r := if r & 1 == 1 then (r >> 1) ^ 0xEDB8_8320 else r >> 1;
      k := k + 1;
    }
  }

  /** The bit-at-a-time form. */
  method Crc32ByBits(data: seq<Byte>) returns (crc: bv32)
    ensures crc == Crc32(data)
  {
    crc := 0xFFFF_FFFF;
    var i := 0;
    while i < |data|
      invariant 0 <= i <= |data| && crc == Fold(0xFFFF_FFFF, data[..i])
    {
      crc := BitStep(crc, data[i]);
      FoldNext(0xFFFF_FFFF, data, i);
      i := i + 1;
    }
    assert data[..i] == data;
    crc := crc ^ 0xFFFF_FFFF;
  }
}
