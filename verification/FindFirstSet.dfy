/** Both versions of __rt_ffs (rt-thread/src/kservice.c), which look the answer up in a table,
    against its meaning on the bits of a word (ReadyIndex.Ffs). */
module FindFirstSet {
  import opened ReadyIndex

  /** The number that bits stand for. */
  function Value(b: Bits): nat {
    if b == [] then 0 else (if b[0] then 1 else 0) + 2 * Value(b[1..])
  }

  function Pow2(n: nat): nat { if n == 0 then 1 else 2 * Pow2(n - 1) }

  /** Low and high bits of a number. */
  lemma {:induction false} ValueSplit(b: Bits, n: nat)
    requires n <= |b|
    ensures Value(b) == Value(b[..n]) + Pow2(n) * Value(b[n..]) && Value(b[..n]) < Pow2(n)
    ensures Value(b) % Pow2(n) == Value(b[..n]) && Value(b) / Pow2(n) == Value(b[n..])
  {
    if n == 0 {
      assert b[0..] == b;
    } else {
      ValueSplit(b[1..], n - 1);
      assert b[..n][1..] == b[1..][..n - 1] && b[1..][n - 1..] == b[n..];
      Double(Pow2(n - 1), Value(b[n..]));
    }
    Parts(Value(b[..n]), Value(b[n..]), Pow2(n));
  }

  lemma Double(p: nat, x: nat)
    ensures 2 * (p * x) == (2 * p) * x
  {
  }

  lemma Parts(low: nat, high: nat, p: nat)
    requires low < p
    ensures (low + p * high) % p == low && (low + p * high) / p == high
  {
    var v := low + p * high;
    var d := v / p - high;
    assert v == p * (v / p) + v % p;
    assert p * d == p * (v / p) - p * high;
    Between(d, p);
  }

  lemma Between(d: int, p: nat)
    requires -(p as int) < p * d < p
    ensures d == 0
  {
    assert p * d == p * (d - 1) + p && p * d == p * (d + 1) - p;
    assert (d >= 1 ==> p * (d - 1) >= 0) && (d <= -1 ==> p * (d + 1) <= 0);
  }

  /** The lowest bit of a word is in its low part, or else in the high part. */
  lemma {:induction false} FfsSplit(b: Bits, n: nat)
    requires n <= |b|
    ensures Ffs(b) == if Ffs(b[..n]) != 0 then Ffs(b[..n]) else if Ffs(b[n..]) != 0 then n + Ffs(b[n..]) else 0
  {
    if n == 0 {
      assert b[0..] == b;
    } else {
      FfsSplit(b[1..], n - 1);
      assert b[..n][1..] == b[1..][..n - 1] && b[1..][n - 1..] == b[n..];
    }
  }

  lemma {:induction false} ZeroIff(b: Bits)
    ensures Value(b) == 0 <==> Ffs(b) == 0
  {
    if b != [] { ZeroIff(b[1..]); }
  }

  // -------------------------------------------------------------------------------------
  // One lookup a byte
  // -------------------------------------------------------------------------------------

  const ROW: seq<nat> := [0, 0, 1, 0, 2, 0, 1, 0, 3, 0, 1, 0, 2, 0, 1, 0]
  const HEADS: seq<nat> := [0, 4, 5, 4, 6, 4, 5, 4, 7, 4, 5, 4, 6, 4, 5, 4]

  /** __lowest_bit_bitmap: sixteen rows of sixteen that differ in their first entries only. */
  function LowestBit(v: nat): nat
    requires v < 256
  {
    if v % 16 == 0 then HEADS[v / 16] else ROW[v % 16]
  }

  function ByTable(v: nat): nat {
    if v == 0 then 0
    else if v % 256 != 0 then LowestBit(v % 256) + 1
    else if v / 256 % 256 != 0 then LowestBit(v / 256 % 256) + 9
    else if v / 0x1_0000 % 256 != 0 then LowestBit(v / 0x1_0000 % 256) + 17
    else LowestBit(v / 0x100_0000 % 256) + 25
  }

  lemma Nibble(b: Bits)
    requires |b| == 4
    ensures Value(b) < 16 && ROW[Value(b)] == (if Ffs(b) == 0 then 0 else Ffs(b) - 1) && HEADS[Value(b)] == (if Ffs(b) == 0 then 0 else 3 + Ffs(b))
  {
    var c, d, e := b[1..], b[2..], b[3..];
    assert c[1..] == d && d[1..] == e && e[1..] == [];
    assert Value(e) == (if b[3] then 1 else 0) && Value(d) == (if b[2] then 1 else 0) + 2 * Value(e);
    assert Ffs(e) == (if b[3] then 1 else 0) && Ffs(d) == (if b[2] then 1 else if b[3] then 2 else 0);
  }

  lemma Byte(b: Bits)
    requires |b| == 8 && Ffs(b) != 0
    ensures Value(b) < 256 && LowestBit(Value(b)) + 1 == Ffs(b)
  {
    hide Value, Ffs;
    Sixteen();
    ValueSplit(b, 4);
    ZeroIff(b[..4]);
    FfsSplit(b, 4);
    Nibble(b[..4]);
    Nibble(b[4..]);
  }

  lemma Sixteen()
    ensures Pow2(4) == 16 && Pow2(8) == 256
  {
    assert Pow2(4) == 16;
  }

  /** The byte tables find the lowest bit of every word. */
  lemma ByTableIsFfs(b: Bits)
    requires |b| == 32
    ensures ByTable(Value(b)) == Ffs(b)
  {
    hide Value, Ffs, LowestBit;
    Sixteen();
    var b1, b2, b3 := b[8..], b[16..], b[24..];
    assert b1[8..] == b2 && b2[8..] == b3 && b3[..8] == b3;
    ValueSplit(b, 8);
    ValueSplit(b1, 8);
    ValueSplit(b2, 8);
    ValueSplit(b3, 8);
    Shifts(Value(b));
    FfsSplit(b, 8);
    FfsSplit(b1, 8);
    FfsSplit(b2, 8);
    ZeroIff(b);
    ByteIs(b[..8]);
    ByteIs(b1[..8]);
    ByteIs(b2[..8]);
    ByteIs(b3);
  }

  lemma ByteIs(b: Bits)
    requires |b| == 8
    ensures Value(b) < 256 && (Value(b) == 0 <==> Ffs(b) == 0) && (Ffs(b) != 0 ==> LowestBit(Value(b)) + 1 == Ffs(b))
  {
    hide Value, Ffs, LowestBit;
    Sixteen();
    ValueSplit(b, 8);
    assert b[..8] == b;
    ZeroIff(b);
    if Ffs(b) != 0 { Byte(b); }
  }

  lemma Shifts(v: nat)
    ensures v / 0x1_0000 == v / 256 / 256 && v / 0x100_0000 == v / 256 / 256 / 256
  {
  }

  // -------------------------------------------------------------------------------------
  // One lookup a word
  // -------------------------------------------------------------------------------------

  /** The __lowest_bit_bitmap of the tiny version. */
  function TinyEntry(i: nat): nat {
    match i
    case 0 => 0 case 1 => 1 case 2 => 2 case 3 => 27 case 4 => 3 case 5 => 24 case 6 => 28 case 7 => 32
    case 8 => 4 case 9 => 17 case 10 => 25 case 11 => 31 case 12 => 29 case 13 => 12 case 14 => 32 case 15 => 14
    case 16 => 5 case 17 => 8 case 18 => 18 case 19 => 32 case 20 => 26 case 21 => 23 case 22 => 32 case 23 => 16
    case 24 => 30 case 25 => 11 case 26 => 13 case 27 => 7 case 28 => 32 case 29 => 22 case 30 => 15 case 31 => 10
    case 32 => 6 case 33 => 21 case 34 => 9 case 35 => 20 case 36 => 19
    case _ => 0
  }

  /** value - 1, wrapping around. */
  function Decrement(b: Bits): (r: Bits)
    ensures |r| == |b|
  {
    if b == [] then [] else if b[0] then [false] + b[1..] else [true] + Decrement(b[1..])
  }

  lemma {:induction false} DecrementIs(b: Bits)
    ensures Value(Decrement(b)) == if Value(b) == 0 then Pow2(|b|) - 1 else Value(b) - 1
  {
    if b != [] {
      DecrementIs(b[1..]);
      assert Decrement(b)[1..] == if b[0] then b[1..] else Decrement(b[1..]);
    }
  }

  function And(a: Bits, b: Bits): (r: Bits)
    requires |a| == |b|
    ensures |r| == |a|
  {
    seq(|a|, i requires 0 <= i < |a| => a[i] && b[i])
  }

  function Xor(a: Bits, b: Bits): (r: Bits)
    requires |a| == |b|
    ensures |r| == |a|
  {
    seq(|a|, i requires 0 <= i < |a| => a[i] != b[i])
  }

  /** value & (value - 1) ^ value. */
  function Isolated(b: Bits): Bits { Xor(And(b, Decrement(b)), b) }

  function Tiny(b: Bits): nat { TinyEntry(Value(Isolated(b)) % 37) }

  /** Only the lowest bit is left. */
  lemma {:induction false} IsolatedIs(b: Bits)
    ensures Value(Isolated(b)) == if Ffs(b) == 0 then 0 else Pow2(Ffs(b) - 1)
  {
    if b != [] {
      var r := Isolated(b);
      if b[0] {
        NothingLeft(r[1..]);
      } else {
        IsolatedIs(b[1..]);
        assert r[1..] == Isolated(b[1..]);
      }
    }
  }

  lemma {:induction false} NothingLeft(b: Bits)
    requires forall i :: 0 <= i < |b| ==> !b[i]
    ensures Value(b) == 0
  {
    if b != [] { NothingLeft(b[1..]); }
  }

  function Residue(k: nat): nat { if k == 0 then 1 else 2 * Residue(k - 1) % 37 }

  lemma {:induction false} ResidueIs(k: nat)
    ensures Pow2(k) % 37 == Residue(k)
  {
    if k > 0 {
      ResidueIs(k - 1);
      DoubleResidue(Pow2(k - 1));
    }
  }

  lemma DoubleResidue(p: nat)
    ensures 2 * p % 37 == 2 * (p % 37) % 37
  {
    var r, q := p % 37, p / 37;
    Quotient(p);
    Quotient(2 * r);
    Parts(2 * r % 37, 2 * q + 2 * r / 37, 37);
    assert 2 * p == 2 * r % 37 + 37 * (2 * q + 2 * r / 37);
  }

  lemma Quotient(n: nat)
    ensures n == 37 * (n / 37) + n % 37
  {
  }

  lemma NextResidue(k: nat, r: nat)
    requires Residue(k) == r
    ensures Residue(k + 1) == 2 * r % 37
  {
  }

  lemma LookUpLow(k: nat)
    requires 0 <= k < 8 && Residue(0) == 1
    ensures Residue(k) < 37 && TinyEntry(Residue(k)) == k + 1 && Residue(8) == 34
  {
    hide Residue;
    NextResidue(0, 1);
    NextResidue(1, 2);
    NextResidue(2, 4);
    NextResidue(3, 8);
    NextResidue(4, 16);
    NextResidue(5, 32);
    NextResidue(6, 27);
    NextResidue(7, 17);
  }

  lemma LookUpSecond(k: nat)
    requires 8 <= k < 16 && Residue(8) == 34
    ensures Residue(k) < 37 && TinyEntry(Residue(k)) == k + 1 && Residue(16) == 9
  {
    hide Residue;
    NextResidue(8, 34);
    NextResidue(9, 31);
    NextResidue(10, 25);
    NextResidue(11, 13);
    NextResidue(12, 26);
    NextResidue(13, 15);
    NextResidue(14, 30);
    NextResidue(15, 23);
  }

  lemma LookUpThird(k: nat)
    requires 16 <= k < 24 && Residue(16) == 9
    ensures Residue(k) < 37 && TinyEntry(Residue(k)) == k + 1 && Residue(24) == 10
  {
    hide Residue;
    NextResidue(16, 9);
    NextResidue(17, 18);
    NextResidue(18, 36);
    NextResidue(19, 35);
    NextResidue(20, 33);
    NextResidue(21, 29);
    NextResidue(22, 21);
    NextResidue(23, 5);
  }

  lemma LookUpHigh(k: nat)
    requires 24 <= k < 32 && Residue(24) == 10
    ensures Residue(k) < 37 && TinyEntry(Residue(k)) == k + 1 && Residue(32) == 7
  {
    hide Residue;
    NextResidue(24, 10);
    NextResidue(25, 20);
    NextResidue(26, 3);
    NextResidue(27, 6);
    NextResidue(28, 12);
    NextResidue(29, 24);
    NextResidue(30, 11);
    NextResidue(31, 22);
  }

  lemma LookUp(k: nat)
    requires k < 32
    ensures Residue(k) < 37 && TinyEntry(Residue(k)) == k + 1
  {
    hide Residue;
    ResidueStart();
    LookUpLow(if k < 8 then k else 0);
    LookUpSecond(if 8 <= k < 16 then k else 8);
    LookUpThird(if 16 <= k < 24 then k else 16);
    LookUpHigh(if 24 <= k then k else 24);
  }

  lemma ResidueStart()
    ensures Residue(0) == 1
  {
  }

  /** The powers of two up to 2 to the 31st leave different remainders modulo 37, in table order. */
  lemma TinyIsFfs(b: Bits)
    requires |b| == 32
    ensures Tiny(b) == Ffs(b)
  {
    hide Value, Ffs, Isolated, Pow2, Residue;
    IsolatedIs(b);
    if Ffs(b) > 0 {
      ResidueIs(Ffs(b) - 1);
      FfsBound(b);
      LookUp(Ffs(b) - 1);
    }
  }

  lemma FfsBound(b: Bits)
    ensures Ffs(b) <= |b|
  {
  }
}
