/**
 The bitwise CRC-32 of RFC 1952 section 8, and what it detects.

 Word operations that proofs treat as black boxes have names; the facts about them that need the
 bits are small lemmas of their own.
 */
module Crc32 {
  import opened Machine

  function Xor(x: bv32, y: bv32): bv32 { x ^ y }

  /** A low byte with a word above it. */
  function Join(low: bv32, high: bv32): bv32 { low | (high << 8) }

  function Not(x: bv32): bv32 { !x }

  predicate IsByte(x: bv32) { x < 0x100 }

  predicate TopByteClear(x: bv32) { x < 0x0100_0000 }

  /** Eight bits as a word, lowest first. */
  function Octet(b0: bv32, b1: bv32, b2: bv32, b3: bv32, b4: bv32, b5: bv32, b6: bv32, b7: bv32): bv32 {
    b0 | (b1 << 1) | (b2 << 2) | (b3 << 3) | (b4 << 4) | (b5 << 5) | (b6 << 6) | (b7 << 7)
  }

  function Bit(b: U8, weight: U8): bv32
    requires weight > 0
  {
    if (b / weight) % 2 == 1 then 1 else 0
  }

  /** The byte as the low eight bits of a word. */
  function Word(b: U8): bv32 {
    Octet(Bit(b, 1), Bit(b, 2), Bit(b, 4), Bit(b, 8), Bit(b, 16), Bit(b, 32), Bit(b, 64), Bit(b, 128))
  }

  const POLYNOMIAL: bv32 := 0xEDB88320
  const SEED: bv32 := 0xFFFF_FFFF

  /** One bit of division: shift, and add the polynomial if a one fell out. */
  function Step(crc: bv32): bv32 {
    (crc >> 1) ^ (if crc & 1 == 1 then POLYNOMIAL else 0)
  }

  function Steps(crc: bv32, n: nat): bv32
    decreases n
  {
    if n == 0 then crc else Steps(Step(crc), n - 1)
  }

  /** One byte into the register. */
  function Feed(crc: bv32, b: U8): bv32 {
    Steps(Xor(crc, Word(b)), 8)
  }

  function Register(crc: bv32, data: seq<U8>): bv32
    decreases |data|
  {
    if data == [] then crc else Register(Feed(crc, data[0]), data[1..])
  }

  function Crc32(data: seq<U8>): bv32 {
    Not(Register(SEED, data))
  }

  /** impulse_crc32, with its branch-free mask. */
  method Crc32Loop(data: seq<U8>) returns (r: bv32)
    ensures r == Crc32(data)
  {
    hide Step, Word, Xor;
    var crc: bv32 := SEED;
    var i := 0;
    while i < |data|
      invariant 0 <= i <= |data|
      invariant Register(SEED, data) == Register(crc, data[i..])
    {
      ghost var fed := Feed(crc, data[i]);
      crc := Xor(crc, Word(data[i]));
      var b := 0;
      while b < 8
        invariant 0 <= b <= 8
        invariant Steps(crc, 8 - b) == fed
      {
        MaskSelects(crc);
        var mask: bv32 := 0 - (crc & 1);
        crc := (crc >> 1) ^ (POLYNOMIAL & mask);
        b := b + 1;
      }
      assert data[i..][1..] == data[i + 1..];
      i := i + 1;
    }
    return Not(crc);
  }

  lemma LowBit(x: bv32)
    ensures x & 1 == 0 || x & 1 == 1
  {
  }

  lemma MaskOf(low: bv32)
    requires low == 0 || low == 1
    ensures POLYNOMIAL & (0 - low) == if low == 1 then POLYNOMIAL else 0
  {
    if low == 1 {
      assert 0 - low == 0xFFFF_FFFF;
    }
  }

  lemma MaskSelects(crc: bv32)
    ensures (crc >> 1) ^ (POLYNOMIAL & (0 - (crc & 1))) == Step(crc)
  {
    LowBit(crc);
    MaskOf(crc & 1);
  }

  // ---------------------------------------------------------------------------
  // Each step is a linear bijection of the register
  // ---------------------------------------------------------------------------

  lemma StepOfXor(x: bv32, y: bv32)
    ensures Step(Xor(x, y)) == Xor(Step(x), Step(y))
  {
    hide Step;
    StepIsLinear(x, y);
  }

  lemma StepIsLinear(x: bv32, y: bv32)
    ensures Step(x ^ y) == Step(x) ^ Step(y)
  {
    assert (x ^ y) >> 1 == (x >> 1) ^ (y >> 1);
    LowBit(x);
    LowBit(y);
    assert (x ^ y) & 1 == (x & 1) ^ (y & 1);
    var u, v := x >> 1, y >> 1;
    assert u ^ POLYNOMIAL ^ v == (u ^ v) ^ POLYNOMIAL;
    assert (u ^ POLYNOMIAL) ^ (v ^ POLYNOMIAL) == u ^ v;
  }

  lemma StepIsInjective(x: bv32, y: bv32)
    requires Step(x) == Step(y)
    ensures x == y
  {
  }

  /** Every register value is one step from some register value. */
  lemma StepIsSurjective(y: bv32) returns (x: bv32)
    ensures Step(x) == y
  {
    x := if y >= 0x8000_0000 then ((y ^ POLYNOMIAL) << 1) | 1 else y << 1;
  }

  /** A result with the top bit clear came from a zero shifted out. */
  lemma StepBack(x: bv32)
    requires Step(x) < 0x8000_0000
    ensures x == Step(x) << 1
  {
  }

  lemma {:induction false} StepsOfXor(x: bv32, y: bv32, n: nat)
    ensures Steps(Xor(x, y), n) == Xor(Steps(x, n), Steps(y, n))
    decreases n
  {
    hide Step, Xor;
    if n > 0 {
      StepOfXor(x, y);
      StepsOfXor(Step(x), Step(y), n - 1);
    }
  }

  lemma {:induction false} StepsAreInjective(x: bv32, y: bv32, n: nat)
    requires Steps(x, n) == Steps(y, n)
    ensures x == y
    decreases n
  {
    hide Step;
    if n > 0 {
      StepsAreInjective(Step(x), Step(y), n - 1);
      StepIsInjective(x, y);
    }
  }

  function Up(x: bv32): bv32 { x << 1 }

  lemma StepOfUp(x: bv32)
    requires x < 0x8000_0000
    ensures Step(Up(x)) == x
  {
  }

  lemma EightUps(z: bv32)
    requires TopByteClear(z)
    ensures Join(0, z) == Up(Up(Up(Up(Up(Up(Up(Up(z))))))))
    ensures z < 0x0100_0000 && Up(z) < 0x0200_0000 && Up(Up(z)) < 0x0400_0000 && Up(Up(Up(z))) < 0x0800_0000
    ensures Up(Up(Up(Up(z)))) < 0x1000_0000 && Up(Up(Up(Up(Up(z))))) < 0x2000_0000
    ensures Up(Up(Up(Up(Up(Up(z)))))) < 0x4000_0000 && Up(Up(Up(Up(Up(Up(Up(z))))))) < 0x8000_0000
  {
  }

  /** Eight steps on, when the low byte is clear: a plain shift. */
  lemma EightStepsOn(z: bv32)
    requires TopByteClear(z)
    ensures Steps(Join(0, z), 8) == z
  {
    hide Step, Up, Join;
    EightUps(z);
    var u1 := Up(z);
    var u2 := Up(u1);
    var u3 := Up(u2);
    var u4 := Up(u3);
    var u5 := Up(u4);
    var u6 := Up(u5);
    var u7 := Up(u6);
    StepOfUp(u7);
    StepOfUp(u6);
    StepOfUp(u5);
    StepOfUp(u4);
    StepOfUp(u3);
    StepOfUp(u2);
    StepOfUp(u1);
    StepOfUp(z);
    assert Steps(Join(0, z), 8) == Steps(u4, 4) == z;
  }

  /** Eight steps back, when the result has its top byte clear: a plain shift. */
  lemma EightStepsBack(x: bv32)
    requires TopByteClear(Steps(x, 8))
    ensures x == Join(0, Steps(x, 8))
  {
    hide Step;
    var s1 := Step(x);
    var s2 := Step(s1);
    var s3 := Step(s2);
    var s4 := Step(s3);
    var s5 := Step(s4);
    var s6 := Step(s5);
    var s7 := Step(s6);
    assert Steps(x, 8) == Steps(s4, 4) == Step(s7);
    StepBack(s7);
    StepBack(s6);
    StepBack(s5);
    StepBack(s4);
    StepBack(s3);
    StepBack(s2);
    StepBack(s1);
    StepBack(x);
  }

  // ---------------------------------------------------------------------------
  // Facts about words
  // ---------------------------------------------------------------------------

  lemma CancelXor(s: bv32, t: bv32, w: bv32)
    ensures Xor(s, w) == Xor(t, w) <==> s == t
    ensures Xor(w, s) == Xor(w, t) <==> s == t
  {
  }

  lemma NotCancels(x: bv32, y: bv32)
    requires Not(x) == Not(y)
    ensures x == y
  {
  }

  lemma XorKeepsTopByteClear(x: bv32, y: bv32)
    requires TopByteClear(x) && TopByteClear(y)
    ensures TopByteClear(Xor(x, y))
  {
  }

  lemma XorMoves(p: bv32, x: bv32, q: bv32, y: bv32)
    ensures Xor(p, x) == Xor(q, y) <==> Xor(p, q) == Xor(x, y)
  {
    hide Xor;
    XorBack(p, x);
    XorBack(q, y);
    XorBack(p, q);
    XorBack(x, y);
    if Xor(p, x) == Xor(q, y) {
      XorShared(Xor(p, x), x, y);
    }
    if Xor(p, q) == Xor(x, y) {
      XorShared(Xor(p, q), q, y);
    }
  }

  lemma XorBack(p: bv32, x: bv32)
    ensures Xor(Xor(p, x), x) == p
  {
  }

  lemma XorShared(w: bv32, x: bv32, y: bv32)
    ensures Xor(Xor(w, x), Xor(w, y)) == Xor(x, y)
  {
    hide Xor;
    XorAssociates(Xor(w, x), w, y);
    XorCommutes(w, x);
    XorBack(x, w);
  }

  lemma XorCommutes(x: bv32, y: bv32)
    ensures Xor(x, y) == Xor(y, x)
  {
  }

  lemma XorAssociates(x: bv32, y: bv32, z: bv32)
    ensures Xor(Xor(x, y), z) == Xor(x, Xor(y, z))
  {
  }

  lemma JoinMoves(s: bv32, t: bv32, a: bv32, b: bv32, x: bv32, y: bv32)
    requires IsByte(a) && IsByte(b)
    ensures Xor(Xor(s, a), Xor(t, b)) == Join(0, Xor(x, y)) <==> Xor(s, Join(a, x)) == Xor(t, Join(b, y))
  {
    hide Xor, Join;
    JoinIsXor(a, x);
    JoinIsXor(b, y);
    JoinOfXor(x, y);
    XorMoves(Xor(s, a), Join(0, x), Xor(t, b), Join(0, y));
    XorAssociates(s, a, Join(0, x));
    XorAssociates(t, b, Join(0, y));
  }

  lemma JoinIsXor(a: bv32, x: bv32)
    requires IsByte(a)
    ensures Join(a, x) == Xor(a, Join(0, x))
  {
  }

  lemma JoinOfXor(x: bv32, y: bv32)
    ensures Join(0, Xor(x, y)) == Xor(Join(0, x), Join(0, y))
  {
  }

  lemma JoinIsInjective(a: bv32, x: bv32, b: bv32, y: bv32)
    requires IsByte(a) && IsByte(b) && TopByteClear(x) && TopByteClear(y)
    requires Join(a, x) == Join(b, y)
    ensures a == b && x == y
  {
  }

  lemma OctetIsByte(b0: bv32, b1: bv32, b2: bv32, b3: bv32, b4: bv32, b5: bv32, b6: bv32, b7: bv32)
    requires b0 <= 1 && b1 <= 1 && b2 <= 1 && b3 <= 1 && b4 <= 1 && b5 <= 1 && b6 <= 1 && b7 <= 1
    ensures IsByte(Octet(b0, b1, b2, b3, b4, b5, b6, b7))
  {
  }

  lemma OctetIsInjective(a0: bv32, a1: bv32, a2: bv32, a3: bv32, a4: bv32, a5: bv32, a6: bv32, a7: bv32,
                         b0: bv32, b1: bv32, b2: bv32, b3: bv32, b4: bv32, b5: bv32, b6: bv32, b7: bv32)
    requires a0 <= 1 && a1 <= 1 && a2 <= 1 && a3 <= 1 && a4 <= 1 && a5 <= 1 && a6 <= 1 && a7 <= 1
    requires b0 <= 1 && b1 <= 1 && b2 <= 1 && b3 <= 1 && b4 <= 1 && b5 <= 1 && b6 <= 1 && b7 <= 1
    requires Octet(a0, a1, a2, a3, a4, a5, a6, a7) == Octet(b0, b1, b2, b3, b4, b5, b6, b7)
    ensures a0 == b0 && a1 == b1 && a2 == b2 && a3 == b3 && a4 == b4 && a5 == b5 && a6 == b6 && a7 == b7
  {
  }

  lemma WordIsByte(b: U8)
    ensures IsByte(Word(b))
  {
    hide Octet;
    OctetIsByte(Bit(b, 1), Bit(b, 2), Bit(b, 4), Bit(b, 8), Bit(b, 16), Bit(b, 32), Bit(b, 64), Bit(b, 128));
  }

  /** One binary digit of a byte, and what is left. */
  lemma Digit(b: nat, weight: nat)
    requires weight > 0
    ensures b / weight == 2 * (b / (2 * weight)) + (b / weight) % 2
  {
    var q, s := b / (2 * weight), b % (2 * weight);
    assert b == (2 * weight) * q + s;
    var t := if s >= weight then 1 else 0;
    QuotientIs(b, weight, 2 * q + t, s - t * weight);
  }

  lemma SameDigit(a: U8, b: U8, weight: U8)
    requires weight > 0 && a / (2 * weight) == b / (2 * weight) && Bit(a, weight) == Bit(b, weight)
    ensures a / weight == b / weight
  {
    Digit(a, weight);
    Digit(b, weight);
  }

  lemma WordIsInjective(a: U8, b: U8)
    requires Word(a) == Word(b)
    ensures a == b
  {
    hide Octet;
    OctetIsInjective(Bit(a, 1), Bit(a, 2), Bit(a, 4), Bit(a, 8), Bit(a, 16), Bit(a, 32), Bit(a, 64), Bit(a, 128),
                     Bit(b, 1), Bit(b, 2), Bit(b, 4), Bit(b, 8), Bit(b, 16), Bit(b, 32), Bit(b, 64), Bit(b, 128));
    SameDigits(a, b);
  }

  lemma SameDigits(a: U8, b: U8)
    requires Bit(a, 1) == Bit(b, 1) && Bit(a, 2) == Bit(b, 2) && Bit(a, 4) == Bit(b, 4) && Bit(a, 8) == Bit(b, 8)
    requires Bit(a, 16) == Bit(b, 16) && Bit(a, 32) == Bit(b, 32) && Bit(a, 64) == Bit(b, 64) && Bit(a, 128) == Bit(b, 128)
    ensures a == b
  {
    hide Bit;
    assert a / 256 == b / 256 == 0;
    SameDigit(a, b, 128);
    SameDigit(a, b, 64);
    SameDigit(a, b, 32);
    SameDigit(a, b, 16);
    SameDigit(a, b, 8);
    SameDigit(a, b, 4);
    SameDigit(a, b, 2);
    SameDigit(a, b, 1);
  }

  // ---------------------------------------------------------------------------
  // A window of up to four bytes acts as one word
  // ---------------------------------------------------------------------------

  /** At most four bytes, first byte lowest. */
  function Packed(w: seq<U8>): bv32
    requires |w| <= 4
    decreases |w|
  {
    if w == [] then 0 else Join(Word(w[0]), Packed(w[1..]))
  }

  lemma JoinGrows(a: bv32, x: bv32)
    requires IsByte(a)
    ensures x == 0 ==> Join(a, x) < 0x100
    ensures x < 0x100 ==> Join(a, x) < 0x1_0000
    ensures x < 0x1_0000 ==> TopByteClear(Join(a, x))
  {
  }

  lemma PackedLeavesTopByteClear(w: seq<U8>)
    requires |w| <= 3
    ensures |w| <= 1 ==> Packed(w) < 0x100
    ensures |w| <= 2 ==> Packed(w) < 0x1_0000
    ensures TopByteClear(Packed(w))
    decreases |w|
  {
    hide Word, Join;
    if w != [] {
      PackedLeavesTopByteClear(w[1..]);
      WordIsByte(w[0]);
      JoinGrows(Word(w[0]), Packed(w[1..]));
    }
  }

  lemma {:induction false} PackedIsInjective(u: seq<U8>, v: seq<U8>)
    requires |u| == |v| <= 4
    requires Packed(u) == Packed(v)
    ensures u == v
    decreases |u|
  {
    hide Word, Join;
    if u != [] {
      WordIsByte(u[0]);
      WordIsByte(v[0]);
      PackedLeavesTopByteClear(u[1..]);
      PackedLeavesTopByteClear(v[1..]);
      JoinIsInjective(Word(u[0]), Packed(u[1..]), Word(v[0]), Packed(v[1..]));
      WordIsInjective(u[0], v[0]);
      PackedIsInjective(u[1..], v[1..]);
      assert u == [u[0]] + u[1..] && v == [v[0]] + v[1..];
    }
  }

  /** A difference is left after one byte, with its top byte clear, exactly when before it was that shifted up plus the bytes' own. */
  lemma FeedBack(s: bv32, t: bv32, a: U8, b: U8, x: bv32, y: bv32)
    requires TopByteClear(x) && TopByteClear(y)
    ensures Xor(Feed(s, a), x) == Xor(Feed(t, b), y) <==> Xor(s, Join(Word(a), x)) == Xor(t, Join(Word(b), y))
  {
    hide Word, Step, Steps, Xor, Join, TopByteClear, IsByte;
    var p, q := Xor(s, Word(a)), Xor(t, Word(b));
    XorMoves(Steps(p, 8), x, Steps(q, 8), y);
    StepsOfXor(p, q, 8);
    XorKeepsTopByteClear(x, y);
    EightStepsOn(Xor(x, y));
    if Steps(Xor(p, q), 8) == Xor(x, y) {
      EightStepsBack(Xor(p, q));
    }
    WordIsByte(a);
    WordIsByte(b);
    JoinMoves(s, t, Word(a), Word(b), x, y);
  }

  lemma XorZero(s: bv32)
    ensures Xor(s, 0) == s
  {
  }

  /** Registers agree after a window of at most four bytes exactly when, with the windows packed in, they agreed before it. */
  lemma {:induction false} WindowIsOneWord(s: bv32, t: bv32, u: seq<U8>, v: seq<U8>)
    requires |u| == |v| <= 4
    ensures Register(s, u) == Register(t, v) <==> Xor(s, Packed(u)) == Xor(t, Packed(v))
    decreases |u|
  {
    hide Word, Feed, Join, Xor, TopByteClear;
    if u == [] {
      XorZero(s);
      XorZero(t);
    } else {
      WindowIsOneWord(Feed(s, u[0]), Feed(t, v[0]), u[1..], v[1..]);
      PackedLeavesTopByteClear(u[1..]);
      PackedLeavesTopByteClear(v[1..]);
      FeedBack(s, t, u[0], v[0], Packed(u[1..]), Packed(v[1..]));
    }
  }

  lemma {:induction false} RegisterOfConcat(s: bv32, a: seq<U8>, b: seq<U8>)
    ensures Register(s, a + b) == Register(Register(s, a), b)
    decreases |a|
  {
    hide Feed;
    if a == [] {
      assert a + b == b;
    } else {
      assert (a + b)[1..] == a[1..] + b;
      RegisterOfConcat(Feed(s, a[0]), a[1..], b);
    }
  }

  /** Common bytes after a difference cannot hide it. */
  lemma {:induction false} RegisterIsInjective(s: bv32, t: bv32, data: seq<U8>)
    requires Register(s, data) == Register(t, data)
    ensures s == t
    decreases |data|
  {
    hide Word, Step, Steps, Xor;
    if data != [] {
      RegisterIsInjective(Feed(s, data[0]), Feed(t, data[0]), data[1..]);
      StepsAreInjective(Xor(s, Word(data[0])), Xor(t, Word(data[0])), 8);
      CancelXor(s, t, Word(data[0]));
    }
  }

  lemma SplitInThree(s: bv32, a: seq<U8>, from: nat, to: nat)
    requires from <= to <= |a|
    ensures Register(s, a) == Register(Register(Register(s, a[..from]), a[from..to]), a[to..])
  {
    hide Feed;
    RegisterOfConcat(s, a[..from], a[from..]);
    RegisterOfConcat(Register(s, a[..from]), a[from..to], a[to..]);
    assert a == a[..from] + a[from..];
    assert a[from..] == a[from..to] + a[to..];
  }

  /**
   Two blobs of one length that differ, but only within four consecutive bytes, never have the same
   CRC: a burst of up to 32 bits is always caught.
   */
  lemma BurstsAreDetected(a: seq<U8>, b: seq<U8>, at: nat)
    requires |a| == |b|
    requires forall i :: 0 <= i < |a| && !(at <= i < at + 4) ==> a[i] == b[i]
    ensures Crc32(a) == Crc32(b) <==> a == b
  {
    hide Register, Packed, Not, Xor;
    if Crc32(a) == Crc32(b) {
      NotCancels(Register(SEED, a), Register(SEED, b));
      var from := if at < |a| then at else |a|;
      var to := if at + 4 < |a| then at + 4 else |a|;
      var u, v := a[from..to], b[from..to];
      assert a[..from] == b[..from] && a[to..] == b[to..];
      var s := Register(SEED, a[..from]);
      SplitInThree(SEED, a, from, to);
      SplitInThree(SEED, b, from, to);
      RegisterIsInjective(Register(s, u), Register(s, v), a[to..]);
      WindowIsOneWord(s, s, u, v);
      CancelXor(Packed(u), Packed(v), s);
      PackedIsInjective(u, v);
      assert a == a[..from] + u + a[to..] && b == b[..from] + v + b[to..];
    }
  }

  // ---------------------------------------------------------------------------
  // Which CRC it is
  // ---------------------------------------------------------------------------

  /** The eight steps of a byte, one by one. */
  lemma FedInSteps(crc: bv32, b: U8)
    ensures Feed(crc, b) == Step(Step(Step(Step(Step(Step(Step(Step(Xor(crc, Word(b))))))))))
  {
    hide Step, Word, Xor;
    var x := Xor(crc, Word(b));
    assert Steps(x, 8) == Steps(Step(Step(Step(Step(x)))), 4);
  }

  lemma LowDigits()
    ensures Word(0x31) == 0x31 && Word(0x32) == 0x32 && Word(0x33) == 0x33 && Word(0x34) == 0x34 && Word(0x35) == 0x35
  {
  }

  lemma HighDigits()
    ensures Word(0x36) == 0x36 && Word(0x37) == 0x37 && Word(0x38) == 0x38 && Word(0x39) == 0x39
  {
  }

  lemma ZeroBytes()
    ensures Feed(0xFFFFFFFF, 0) == 0x2DFD1072
    ensures Feed(0x2DFD1072, 0) == 0xBE26ED00
    ensures Feed(0xBE26ED00, 0) == 0x00BE26ED
    ensures Feed(0x00BE26ED, 0) == 0xDEBB20E3
  {
    hide Feed, Steps, Word;
    ZeroWord();
    FedInSteps(0xFFFFFFFF, 0);
    FedInSteps(0x2DFD1072, 0);
    FedInSteps(0xBE26ED00, 0);
    FedInSteps(0x00BE26ED, 0);
  }

  /** One byte at the head of the data. */
  lemma Fed(crc: bv32, b: U8, rest: seq<U8>)
    ensures Register(crc, [b] + rest) == Register(Feed(crc, b), rest)
  {
    hide Feed;
    assert ([b] + rest)[1..] == rest;
  }

  lemma FourZeros()
    ensures Register(SEED, [0, 0, 0, 0]) == 0xDEBB20E3 && Packed([0, 0, 0, 0]) == 0
  {
    hide Feed, Join, Word, Register;
    ZeroBytes();
    Fed(0xFFFFFFFF, 0, [0, 0, 0]);
    Fed(0x2DFD1072, 0, [0, 0]);
    Fed(0xBE26ED00, 0, [0]);
    Fed(0x00BE26ED, 0, []);
    EmptyRegister(0xDEBB20E3);
    assert [0] + [0, 0, 0] == [0, 0, 0, 0] && [0] + [0, 0] == [0, 0, 0] && [0] + [0] == [0, 0] && [0] + [] == [0];
    ZeroWord();
    assert Packed([0, 0]) == Join(0, Packed([0])) && Packed([0]) == Join(0, Packed([])) == 0;
    assert Packed([0, 0, 0, 0]) == Join(0, Packed([0, 0, 0])) == Join(0, Join(0, Packed([0, 0])));
  }

  lemma EmptyRegister(crc: bv32)
    ensures Register(crc, []) == crc
  {
  }

  lemma ZeroWord()
    ensures Word(0) == 0 && Join(0, 0) == 0
  {
  }

  const RESIDUE: bv32 := 0x2144DF1C

  /** Any data followed by four bytes has the residue exactly when those bytes are the data's CRC, lowest byte first. */
  lemma ResidueIffOwnCrc(data: seq<U8>, crc: seq<U8>)
    requires |crc| == 4
    ensures Crc32(data + crc) == RESIDUE <==> Packed(crc) == Crc32(data)
  {
    hide Register, Packed, Not, Xor;
    var s := Register(SEED, data);
    RegisterOfConcat(SEED, data, crc);
    FourZeros();
    WindowIsOneWord(s, SEED, crc, [0, 0, 0, 0]);
    XorZero(SEED);
    Complement(s, Packed(crc));
    NotResidue(Register(s, crc));
  }

  lemma Complement(s: bv32, w: bv32)
    ensures Xor(s, w) == SEED <==> w == Not(s)
  {
    hide Xor, Not;
    NotIsXor(s);
    XorCommutes(s, w);
    XorBack(w, s);
    XorBack(SEED, s);
  }

  lemma NotIsXor(s: bv32)
    ensures Not(s) == Xor(SEED, s)
  {
  }

  lemma NotResidue(r: bv32)
    ensures Not(r) == RESIDUE <==> r == 0xDEBB20E3
  {
  }

  lemma FirstDigits()
    ensures Feed(0xFFFFFFFF, 0x31) == 0x7C231048
    ensures Feed(0x7C231048, 0x32) == 0xB0ACBB32
    ensures Feed(0xB0ACBB32, 0x33) == 0x77B79C2D
  {
    hide Feed, Steps, Word;
    LowDigits();
    FedInSteps(0xFFFFFFFF, 0x31);
    FedInSteps(0x7C231048, 0x32);
    FedInSteps(0xB0ACBB32, 0x33);
  }

  lemma MiddleDigits()
    ensures Feed(0x77B79C2D, 0x34) == 0x641C1F5C
    ensures Feed(0x641C1F5C, 0x35) == 0x340AC5E3
  {
    hide Feed, Steps, Word;
    LowDigits();
    FedInSteps(0x77B79C2D, 0x34);
    FedInSteps(0x641C1F5C, 0x35);
  }

  lemma LastDigits()
    ensures Feed(0x340AC5E3, 0x36) == 0xF68D2C9E
    ensures Feed(0xF68D2C9E, 0x37) == 0xAFFC9660
    ensures Feed(0xAFFC9660, 0x38) == 0x651F2550
    ensures Feed(0x651F2550, 0x39) == 0x340BC6D9
  {
    hide Feed, Steps, Word;
    HighDigits();
    FedInSteps(0x340AC5E3, 0x36);
    FedInSteps(0xF68D2C9E, 0x37);
    FedInSteps(0xAFFC9660, 0x38);
    FedInSteps(0x651F2550, 0x39);
  }

  /** Nothing has CRC zero, and the check string "123456789" has the published check value. */
  lemma CheckValue()
    ensures Crc32([]) == 0
    ensures Crc32([0x31, 0x32, 0x33, 0x34, 0x35, 0x36, 0x37, 0x38, 0x39]) == 0xCBF43926
  {
    hide Feed, Register;
    EmptyRegister(SEED);
    EmptyRegister(0x340BC6D9);
    FirstDigits();
    MiddleDigits();
    LastDigits();
    Fed(0xFFFFFFFF, 0x31, [0x32, 0x33, 0x34, 0x35, 0x36, 0x37, 0x38, 0x39]);
    Fed(0x7C231048, 0x32, [0x33, 0x34, 0x35, 0x36, 0x37, 0x38, 0x39]);
    Fed(0xB0ACBB32, 0x33, [0x34, 0x35, 0x36, 0x37, 0x38, 0x39]);
    Fed(0x77B79C2D, 0x34, [0x35, 0x36, 0x37, 0x38, 0x39]);
    Fed(0x641C1F5C, 0x35, [0x36, 0x37, 0x38, 0x39]);
    Fed(0x340AC5E3, 0x36, [0x37, 0x38, 0x39]);
    Fed(0xF68D2C9E, 0x37, [0x38, 0x39]);
    Fed(0xAFFC9660, 0x38, [0x39]);
    Fed(0x651F2550, 0x39, []);
    assert [0x31] + [0x32, 0x33, 0x34, 0x35, 0x36, 0x37, 0x38, 0x39] == [0x31, 0x32, 0x33, 0x34, 0x35, 0x36, 0x37, 0x38, 0x39];
    assert [0x32] + [0x33, 0x34, 0x35, 0x36, 0x37, 0x38, 0x39] == [0x32, 0x33, 0x34, 0x35, 0x36, 0x37, 0x38, 0x39];
    assert [0x33] + [0x34, 0x35, 0x36, 0x37, 0x38, 0x39] == [0x33, 0x34, 0x35, 0x36, 0x37, 0x38, 0x39];
    assert [0x34] + [0x35, 0x36, 0x37, 0x38, 0x39] == [0x34, 0x35, 0x36, 0x37, 0x38, 0x39];
    assert [0x35] + [0x36, 0x37, 0x38, 0x39] == [0x35, 0x36, 0x37, 0x38, 0x39];
    assert [0x36] + [0x37, 0x38, 0x39] == [0x36, 0x37, 0x38, 0x39];
    assert [0x37] + [0x38, 0x39] == [0x37, 0x38, 0x39];
    assert [0x38] + [0x39] == [0x38, 0x39];
    assert [0x39] + [] == [0x39];
  }
}
