/** The evidence hash: a fixed-width encoding of a record, folded byte by byte with exclusive-or and a
    multiplication by an odd constant modulo 2^64. */
module Evidence {

  const WORD: int := 0x1_0000_0000_0000_0000
  const OFFSET: int := 1_469_598_103_934_665_603
  const PRIME: int := 1_099_511_628_211
  // PRIME * INVERSE == 1 + TURNS * WORD
  const INVERSE: int := 14_886_173_955_864_302_971
  const TURNS: int := 887_285_111_055

  type Byte = x: int | 0 <= x < 256

  type Word = x: int | 0 <= x < WORD

  // ----- Exclusive or --------------------------------------------------------------------------------------

  function Xor(a: nat, b: nat): nat
    decreases a + b
  {
    if a == 0 && b == 0 then 0 else XorBit(a, b) + 2 * Xor(a / 2, b / 2)
  }

  function XorBit(a: nat, b: nat): (bit: nat)
    ensures bit < 2
  {
    (a % 2 + b % 2) % 2
  }

  lemma NoBit()
    ensures XorBit(0, 0) == 0
  {
  }

  lemma XorUnfolds(a: nat, b: nat)
    ensures Xor(a, b) == XorBit(a, b) + 2 * Xor(a / 2, b / 2)
  {
    hide XorBit;
    NoBit();
    if a == 0 && b == 0 { XorZero(); }
  }

  lemma XorParts(a: nat, b: nat)
    ensures Xor(a, b) % 2 == (a % 2 + b % 2) % 2 && Xor(a, b) / 2 == Xor(a / 2, b / 2)
  {
    hide Xor;
    XorUnfolds(a, b);
    LowBit(XorBit(a, b), Xor(a / 2, b / 2));
  }

  lemma LowBit(bit: nat, half: nat)
    requires bit < 2
    ensures (bit + 2 * half) % 2 == bit && (bit + 2 * half) / 2 == half
  {
  }

  lemma XorZero()
    ensures Xor(0, 0) == 0
  {
  }

  lemma Parity(p: int, q: int)
    requires 0 <= p < 2 && 0 <= q < 2
    ensures ((p + q) % 2 + q) % 2 == p
  {
  }

  lemma SameHalves(x: nat, y: nat)
    requires x % 2 == y % 2 && x / 2 == y / 2
    ensures x == y
  {
  }

  lemma {:induction false} XorTwice(a: nat, b: nat)
    ensures Xor(Xor(a, b), b) == a
    decreases a + b
  {
    hide Xor;
    XorZero();
    if a != 0 || b != 0 {
      XorTwice(a / 2, b / 2);
      XorParts(a, b);
      XorParts(Xor(a, b), b);
      Parity(a % 2, b % 2);
      SameHalves(Xor(Xor(a, b), b), a);
    }
  }

  lemma {:induction false} XorCancels(v: nat, a: nat, b: nat)
    requires Xor(v, a) == Xor(v, b)
    ensures a == b
    decreases v + a + b
  {
    hide Xor;
    if v != 0 || a != 0 || b != 0 {
      XorParts(v, a);
      XorParts(v, b);
      XorCancels(v / 2, a / 2, b / 2);
    }
  }

  function Power2(n: nat): nat { if n == 0 then 1 else 2 * Power2(n - 1) }

  lemma {:induction false} XorIsBounded(a: nat, b: nat, n: nat)
    requires a < Power2(n) && b < Power2(n)
    ensures Xor(a, b) < Power2(n)
  {
    if n > 0 && (a != 0 || b != 0) { XorIsBounded(a / 2, b / 2, n - 1); }
  }

  lemma {:induction false} PowerAdds(m: nat, n: nat)
    ensures Power2(m + n) == Power2(m) * Power2(n)
  {
    if m > 0 {
      PowerAdds(m - 1, n);
      DoubleProduct(Power2(m - 1), Power2(n));
    }
  }

  lemma DoubleProduct(a: int, b: int)
    ensures 2 * (a * b) == (2 * a) * b
  {
  }

  lemma WordIsPower()
    ensures Power2(64) == WORD
  {
    assert Power2(8) == 256 by { assert Power2(4) == 16; }
    hide Power2;
    PowerAdds(8, 8);
    assert Power2(16) == 65536;
    PowerAdds(16, 16);
    assert Power2(32) == 0x1_0000_0000;
    PowerAdds(32, 32);
  }

  // ----- One step ----------------------------------------------------------------------------------------------

  function Step(value: Word, byte: Byte): Word { (Xor(value, byte) * PRIME) % WORD }

  // The step run backwards.
  function Unstep(value: Word, byte: Byte): nat { Xor((value * INVERSE) % WORD, byte) }

  lemma XorOfByte(value: Word, byte: Byte)
    ensures Xor(value, byte) < WORD && Xor(Xor(value, byte), byte) == value
  {
    hide Xor, Power2;
    WordIsPower();
    XorIsBounded(value, byte, 64);
    XorTwice(value, byte);
  }

  lemma MultipleIsFar(d: int, m: int)
    requires m > 0 && d != 0
    ensures d * m >= m || d * m <= -m
  {
  }

  lemma Modulo(x: int, k: int, m: int)
    requires m > 0 && 0 <= x < m
    ensures (x + k * m) % m == x
  {
    var q, r := (x + k * m) / m, (x + k * m) % m;
    assert (q - k) * m == x - r;
    if q != k { MultipleIsFar(q - k, m); }
  }

  lemma MultiplyBack(x: Word, a: int, b: int, turns: int)
    requires a * b == 1 + turns * WORD
    ensures ((x * a) % WORD * b) % WORD == x
  {
    var q, r := (x * a) / WORD, (x * a) % WORD;
    assert r == x * a - q * WORD;
    calc {
      r * b;
      (x * a - q * WORD) * b;
      { Distribute(x, a, b, q); }
      x * (a * b) - (q * b) * WORD;
      x * (1 + turns * WORD) - (q * b) * WORD;
      { Regroup(x, turns, q * b); }
      x + (x * turns - q * b) * WORD;
    }
    Modulo(x, x * turns - q * b, WORD);
  }

  lemma Distribute(x: int, a: int, b: int, q: int)
    ensures (x * a - q * WORD) * b == x * (a * b) - (q * b) * WORD
  {
    assert (x * a) * b == x * (a * b);
    assert (q * WORD) * b == (q * b) * WORD;
  }

  lemma Regroup(x: int, turns: int, k: int)
    ensures x * (1 + turns * WORD) - k * WORD == x + (x * turns - k) * WORD
  {
    assert x * (turns * WORD) == (x * turns) * WORD;
  }

  lemma Constants()
    ensures PRIME * INVERSE == 1 + TURNS * WORD && INVERSE * PRIME == 1 + TURNS * WORD
  {
  }

  lemma StepUndone(value: Word, byte: Byte)
    ensures (Step(value, byte) * INVERSE) % WORD == Xor(value, byte)
  {
    hide Xor;
    XorOfByte(value, byte);
    Constants();
    MultiplyBack(Xor(value, byte), PRIME, INVERSE, TURNS);
  }

  /** The step is a bijection of 64-bit words for every byte: each is the other's inverse. */
  lemma StepIsBijective(value: Word, byte: Byte)
    ensures Unstep(Step(value, byte), byte) == value
    ensures Unstep(value, byte) < WORD && Step(Unstep(value, byte), byte) == value
  {
    hide Xor;
    StepUndone(value, byte);
    XorOfByte(value, byte);
    var back := (value * INVERSE) % WORD;
    XorOfByte(back, byte);
    Constants();
    MultiplyBack(value, INVERSE, PRIME, TURNS);
  }

  /** From one word, different bytes lead to different words. */
  lemma StepSeparatesBytes(value: Word, a: Byte, b: Byte)
    requires Step(value, a) == Step(value, b)
    ensures a == b
  {
    hide Xor, Step;
    StepUndone(value, a);
    StepUndone(value, b);
    XorCancels(value, a, b);
  }

  // ----- The fold --------------------------------------------------------------------------------------------------

  function Fold(value: Word, bytes: seq<Byte>): Word {
    if bytes == [] then value else Step(Fold(value, bytes[..|bytes| - 1]), bytes[|bytes| - 1])
  }

  lemma {:induction false} FoldInParts(value: Word, a: seq<Byte>, b: seq<Byte>)
    ensures Fold(value, a + b) == Fold(Fold(value, a), b)
  {
    hide Step;
    if b == [] {
      assert a + b == a;
    } else {
      var front := b[..|b| - 1];
      FoldInParts(value, a, front);
      assert (a + b)[..|a + b| - 1] == a + front;
    }
  }

  /** Folding the same bytes never merges two starting words. */
  lemma {:induction false} FoldIsInjective(v: Word, w: Word, bytes: seq<Byte>)
    requires Fold(v, bytes) == Fold(w, bytes)
    ensures v == w
  {
    hide Step, Unstep;
    if bytes != [] {
      var front, last := bytes[..|bytes| - 1], bytes[|bytes| - 1];
      StepIsBijective(Fold(v, front), last);
      StepIsBijective(Fold(w, front), last);
      FoldIsInjective(v, w, front);
    }
  }

  /** Two byte strings of one length that differ in exactly one byte never fold to the same word. */
  lemma OneByteIsVisible(a: seq<Byte>, b: seq<Byte>, k: nat)
    requires |a| == |b| && k < |a| && a[k] != b[k] && a[..k] == b[..k] && a[k + 1..] == b[k + 1..]
    ensures Fold(OFFSET, a) != Fold(OFFSET, b)
  {
    hide Step, Fold;
    var v := Fold(OFFSET, a[..k]);
    FoldAround(OFFSET, a, k);
    FoldAround(OFFSET, b, k);
    if Fold(OFFSET, a) == Fold(OFFSET, b) {
      FoldIsInjective(Step(v, a[k]), Step(v, b[k]), a[k + 1..]);
      StepSeparatesBytes(v, a[k], b[k]);
    }
  }

  lemma FoldAround(value: Word, s: seq<Byte>, k: nat)
    requires k < |s|
    ensures Fold(value, s) == Fold(Step(Fold(value, s[..k]), s[k]), s[k + 1..])
  {
    hide Step;
    FoldInParts(value, s[..k], [s[k]] + s[k + 1..]);
    FoldInParts(Fold(value, s[..k]), [s[k]], s[k + 1..]);
    assert s == s[..k] + ([s[k]] + s[k + 1..]);
    assert Fold(Fold(value, s[..k]), [s[k]]) == Step(Fold(value, s[..k]), s[k]) by {
      assert [s[k]][..0] == [];
    }
  }

  // `value or 1`
  function Finish(value: Word): Word { if value == 0 then 1 else value }

  /** So their hashes collide exactly when the folds are 0 and 1, which the replacement of zero merges. */
  lemma OneByteCollidesExactly(a: seq<Byte>, b: seq<Byte>, k: nat)
    requires |a| == |b| && k < |a| && a[k] != b[k] && a[..k] == b[..k] && a[k + 1..] == b[k + 1..]
    ensures Finish(Fold(OFFSET, a)) == Finish(Fold(OFFSET, b)) <==>
      (Fold(OFFSET, a) == 0 && Fold(OFFSET, b) == 1) || (Fold(OFFSET, a) == 1 && Fold(OFFSET, b) == 0)
  {
    hide Fold;
    OneByteIsVisible(a, b, k);
  }

  function Flatten(parts: seq<seq<Byte>>): seq<Byte> {
    if parts == [] then [] else Flatten(parts[..|parts| - 1]) + parts[|parts| - 1]
  }

  // _fnv64
  method Fnv64(parts: seq<seq<Byte>>) returns (hash: Word)
    ensures hash == Finish(Fold(OFFSET, Flatten(parts)))
  {
    hide Step;
    var value: Word := OFFSET;
    for i := 0 to |parts|
      invariant value == Fold(OFFSET, Flatten(parts[..i]))
    {
      var part := parts[i];
      ghost var before := value;
      for j := 0 to |part|
        invariant value == Fold(before, part[..j])
      {
        value := Step(value, part[j]);
        assert part[..j + 1][..j] == part[..j];
      }
      assert part[..|part|] == part;
      FoldInParts(OFFSET, Flatten(parts[..i]), part);
      assert parts[..i + 1][..i] == parts[..i];
    }
    assert parts[..|parts|] == parts;
    hash := if value == 0 then 1 else value;
  }
}
