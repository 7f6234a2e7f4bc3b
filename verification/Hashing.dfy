/** The hash of a key: an unsigned 64-bit accumulator, reduced modulo the bucket count. */
module Hashing {
  import Text

  const WORD: int := 0x1_0000_0000_0000_0000

  /** A `char` of the key as the signed 8-bit number it is promoted from. */
  function CharValue(c: char): (v: int)
    ensures -128 <= v < 128
  {
    var b := c as int % 256;
    if b < 128 then b else b - 256
  }

  /** With its range, this fixes the signed byte. */
  lemma CharValueIsTheByte(c: char)
    ensures (CharValue(c) - c as int) % 256 == 0
  {
    var b := c as int % 256;
    assert c as int == 256 * (c as int / 256) + b;
  }

  /** Closed form of one round: each character shifts the sum by five bits. */
  function Hash(key: string): (h: int)
    ensures 0 <= h < WORD
  {
    if key == "" then 0
    else (32 * Hash(key[..|key| - 1]) + CharValue(key[|key| - 1])) % WORD
  }

  function BucketOf(key: string, capacity: int): (i: int)
    requires capacity > 0
    ensures 0 <= i < capacity
  {
    Hash(key) % capacity
  }

  /** The loop of `hashFunction`, with every unsigned operation reduced modulo 2^64.  The
      update adds to the accumulator, so the multiplier in effect is 32, not 31. */
  method HashFunction(key: string, capacity: int) returns (index: int)
    requires capacity > 0
    ensures index == BucketOf(key, capacity)
  {
    var p := 31;
    var hashValue := 0;
    for i := 0 to |key|
      invariant hashValue == Hash(key[..i])
    {
      var c := CharValue(key[i]) % WORD;
      var sum := (p * hashValue % WORD + c) % WORD;
      OneRound(hashValue, CharValue(key[i]));
      assert key[..i + 1][..i] == key[..i];
      hashValue := (hashValue + sum) % WORD;
    }
    assert key[..|key|] == key;
    index := hashValue % capacity;
  }

  lemma OneRound(h: int, c: int)
    ensures (h + (31 * h % WORD + c % WORD) % WORD) % WORD == (32 * h + c) % WORD
  {
    ModPeel(31 * h, c);
    ModPeel(31 * h + c, h);
    assert (31 * h % WORD + c % WORD) % WORD == (31 * h + c) % WORD;
  }

  lemma ModPeel(a: int, b: int)
    ensures (a % WORD + b) % WORD == (a + b) % WORD
    ensures (a % WORD + b % WORD) % WORD == (a + b) % WORD
  {
    var q, r := a / WORD, b / WORD;
    assert a == q * WORD + a % WORD && b == r * WORD + b % WORD;
    ModShift(a % WORD + b, q);
    ModShift(a % WORD + b % WORD, q + r);
  }

  lemma ModShift(x: int, q: int)
    ensures (x + q * WORD) % WORD == x % WORD
  {
  }

  lemma HashSnoc(s: string, c: char)
    ensures Hash(s + [c]) == (32 * Hash(s) + CharValue(c)) % WORD
  {
    assert (s + [c])[..|s|] == s;
  }

  /** n rounds of shifting by five bits within the word. */
  function Shift(h: int, n: nat): (r: int)
    ensures 0 <= r < WORD
  {
    if n == 0 then h % WORD else 32 * Shift(h, n - 1) % WORD
  }

  function Pow32(n: nat): nat {
    if n == 0 then 1 else 32 * Pow32(n - 1)
  }

  lemma {:induction false} ShiftIsPower(h: int, n: nat)
    ensures Shift(h, n) == h * Pow32(n) % WORD
  {
    if n > 0 {
      ShiftIsPower(h, n - 1);
      MulMod(h * Pow32(n - 1));
      Reassociate(h, Pow32(n - 1));
    }
  }

  lemma Reassociate(h: int, p: int)
    ensures 32 * (h * p) == h * (32 * p)
  {
  }

  lemma MulMod(a: int)
    ensures 32 * (a % WORD) % WORD == 32 * a % WORD
  {
    var q := a / WORD;
    assert 32 * a == 32 * (a % WORD) + 32 * q * WORD;
    ModShift(32 * (a % WORD), 32 * q);
  }

  lemma ShiftSum(s: int, b: int, c: int)
    ensures (32 * ((s + b) % WORD) + c) % WORD == (32 * s % WORD + (32 * b + c) % WORD) % WORD
  {
    MulMod(s + b);
    ModPeel(32 * ((s + b) % WORD), c);
    ModPeel(32 * (s + b), c);
    ModPeel(32 * s, 32 * b + c);
  }

  lemma HashConcatStep(x: string, y: string, c: char, s: int, t: int)
    requires Hash(x + y) == (s + Hash(y)) % WORD
    requires t == 32 * s % WORD
    ensures Hash(x + (y + [c])) == (t + Hash(y + [c])) % WORD
  {
    Text.Regroup(x, y, [c]);
    HashSnoc(x + y, c);
    HashSnoc(y, c);
    ShiftSum(s, Hash(y), CharValue(c));
  }

  lemma ShiftOnce(h: int, n: nat)
    ensures Shift(h, n + 1) == 32 * Shift(h, n) % WORD
  {
  }

  lemma {:induction false} HashConcatShift(x: string, y: string)
    ensures Hash(x + y) == (Shift(Hash(x), |y|) + Hash(y)) % WORD
  {
    if y == "" {
      assert x + y == x;
      assert Hash(y) == 0 && Shift(Hash(x), 0) == Hash(x);
    } else {
      var y', c := y[..|y| - 1], y[|y| - 1];
      var s, t := Shift(Hash(x), |y'|), Shift(Hash(x), |y|);
      HashConcatShift(x, y');
      ShiftOnce(Hash(x), |y'|);
      HashConcatStep(x, y', c, s, t);
      assert y' + [c] == y;
    }
  }

  /** Hashing a concatenation shifts the first part by the length of the second. */
  lemma HashConcat(x: string, y: string)
    ensures Hash(x + y) == (Hash(x) * Pow32(|y|) + Hash(y)) % WORD
  {
    HashConcatShift(x, y);
    ShiftIsPower(Hash(x), |y|);
    ModPeel(Hash(x) * Pow32(|y|), Hash(y));
  }

  const TWO60: int := 0x1000_0000_0000_0000

  lemma TwelveShifts(h: int)
    ensures Shift(h, 12) == h * TWO60 % WORD
    ensures Shift(h, 13) == 0
  {
    ShiftIsPower(h, 12);
    var p4, p8 := Pow32(4), Pow32(8);
    assert p4 == 1048576;
    assert p8 == 1099511627776;
    assert Pow32(12) == TWO60;
    MulMod(h * TWO60);
    ModShift(0, 2 * h);
  }

  lemma {:induction false} ThirteenShifts(h: int, n: nat)
    requires n >= 13
    ensures Shift(h, n) == 0
  {
    if n == 13 {
      TwelveShifts(h);
    } else {
      ThirteenShifts(h, n - 1);
    }
  }

  /** Sixty-five shifted bits leave the word: only the last thirteen characters count. */
  lemma HashWindow(x: string, y: string)
    requires |y| >= 13
    ensures Hash(x + y) == Hash(y)
  {
    HashConcatShift(x, y);
    ThirteenShifts(Hash(x), |y|);
  }

  lemma HashOfTwelveMore(a: char, y: string)
    requires |y| == 12
    ensures Hash([a] + y) == (CharValue(a) * TWO60 + Hash(y)) % WORD
  {
    HashConcatShift([a], y);
    HashSnoc("", a);
    assert "" + [a] == [a];
    TwelveShifts(Hash([a]));
    TwelveShifts(CharValue(a));
    ShiftMod(CharValue(a), 12);
    ModPeel(CharValue(a) * TWO60, Hash(y));
  }

  lemma {:induction false} ShiftMod(h: int, n: nat)
    ensures Shift(h % WORD, n) == Shift(h, n)
  {
    if n > 0 {
      ShiftMod(h, n - 1);
    }
  }

  lemma LowFourBits(u: int, v: int, h: int)
    ensures (u * TWO60 + h) % WORD == (v * TWO60 + h) % WORD <==> u % 16 == v % 16
  {
    if u % 16 == v % 16 {
      var q := u / 16 - v / 16;
      assert u == v + 16 * q;
      ModShift(v * TWO60 + h, q);
    }
  }

  /** Thirteen is sharp: the thirteenth character from the end still counts, but only its
      low four bits. */
  lemma ThirteenthCharacter(a: char, b: char, y: string)
    requires |y| == 12
    ensures Hash([a] + y) == Hash([b] + y) <==> CharValue(a) % 16 == CharValue(b) % 16
  {
    HashOfTwelveMore(a, y);
    HashOfTwelveMore(b, y);
    LowFourBits(CharValue(a), CharValue(b), Hash(y));
  }
}
