/** The key hash of the notification index (chash in src/server/coperations.c). */
module KeyHash {
  import opened Constants

  const SEED: nat := 5381
  const WORD: nat := 0x1_0000_0000_0000_0000

  /** The cast to unsigned char. */
  function Byte(c: char): (b: nat)
    ensures b < 256
  {
    (c as int) % 256
  }

  function Pow33(n: nat): (p: nat)
    ensures p >= 1
  {
    if n == 0 then 1 else 33 * Pow33(n - 1)
  }

  /** The sum of c_i * 33^(n-1-i) over the bytes of the key. */
  function ByteSum(key: string): nat {
    if key == [] then 0 else Byte(key[0]) * Pow33(|key| - 1) + ByteSum(key[1..])
  }

  /** The polynomial without any wrap-around. */
  function Polynomial(key: string): nat {
    SEED * Pow33(|key|) + ByteSum(key)
  }

  /** The bucket of a key. */
  function Chash(key: string): (h: nat)
    ensures h < MAX_KEYS_COUNT
  {
    Polynomial(key) % WORD % MAX_KEYS_COUNT
  }

  lemma {:induction false} ByteSumAppend(key: string, c: char)
    ensures ByteSum(key + [c]) == 33 * ByteSum(key) + Byte(c)
  {
    if key == [] {
      assert key + [c] == [c];
      assert [c][1..] == [];
    } else {
      assert (key + [c])[0] == key[0];
      assert (key + [c])[1..] == key[1..] + [c];
      ByteSumAppend(key[1..], c);
      var p := Pow33(|key| - 1);
      assert Pow33(|key|) == 33 * p;
      assert Byte(key[0]) * (33 * p) == 33 * (Byte(key[0]) * p);
    }
  }

  lemma Horner(key: string, c: char)
    ensures Polynomial(key + [c]) == 33 * Polynomial(key) + Byte(c)
  {
    ByteSumAppend(key, c);
    assert Pow33(|key| + 1) == 33 * Pow33(|key|);
  }

  lemma {:induction false} AddWords(x: nat, q: nat)
    ensures (x + q * WORD) % WORD == x % WORD
  {
    if q > 0 {
      AddWords(x, q - 1);
      var y := x + (q - 1) * WORD;
      assert (y + 0x1_0000_0000_0000_0000) % 0x1_0000_0000_0000_0000 == y % 0x1_0000_0000_0000_0000;
    }
  }

  /** Reducing before multiplying and adding gives the same word. */
  lemma ReduceEarly(a: nat, c: nat)
    ensures (33 * (a % WORD) + c) % WORD == (33 * a + c) % WORD
    ensures (a % WORD + c) % WORD == (a + c) % WORD
  {
    var q, r := a / WORD, a % WORD;
    assert a == q * WORD + r;
    AddWords(33 * r + c, 33 * q);
    AddWords(r + c, q);
  }

  /** One turn of the loop body on 64-bit words. */
  lemma WordStep(h: nat, c: nat)
    requires h < WORD
    ensures ((((h * 32) % WORD + h) % WORD) + c) % WORD == (33 * h + c) % WORD
  {
    ReduceEarly(h * 32, h);
    ReduceEarly(33 * h, c);
  }

  lemma HashStep(hash: nat, key: string, c: char)
    requires hash == Polynomial(key) % WORD
    ensures (((hash * 32) % WORD + hash) % WORD + Byte(c)) % WORD == Polynomial(key + [c]) % WORD
  {
    Horner(key, c);
    WordStep(hash, Byte(c));
    ReduceEarly(Polynomial(key), Byte(c));
  }

  /** The loop, wrapping at every addition and shift, computes the wrapped polynomial. */
  method ComputeChash(key: string) returns (h: nat)
    ensures h == Chash(key)
  {
    var hash := SEED;
    assert key[..0] == [];
    for i := 0 to |key|
      invariant hash == Polynomial(key[..i]) % WORD
    {
      assert key[..i + 1] == key[..i] + [key[i]];
      HashStep(hash, key[..i], key[i]);
      hash := (((hash * 32) % WORD + hash) % WORD + Byte(key[i])) % WORD;
    }
    assert key[..|key|] == key;
    h := hash % MAX_KEYS_COUNT;
  }

  lemma ScaleByte(b: nat, p: nat)
    requires b < 256
    ensures b * p <= 255 * p
  {
    assert (255 - b) * p >= 0;
  }

  lemma {:induction false} ByteSumBound(key: string)
    ensures 32 * ByteSum(key) <= 255 * (Pow33(|key|) - 1)
  {
    if key != [] {
      ByteSumBound(key[1..]);
      var p := Pow33(|key| - 1);
      ScaleByte(Byte(key[0]), p);
      assert ByteSum(key) == Byte(key[0]) * p + ByteSum(key[1..]);
    }
  }

  lemma {:induction false} Pow33Monotone(m: nat, n: nat)
    requires m <= n
    ensures Pow33(m) <= Pow33(n)
  {
    if m < n {
      Pow33Monotone(m, n - 1);
    }
  }

  lemma Pow33At10()
    ensures Pow33(10) == 1531578985264449
  {
    assert Pow33(5) == 39135393 by {
      assert Pow33(2) == 1089;
      assert Pow33(3) == 35937;
      assert Pow33(4) == 1185921;
    }
    assert Pow33(6) == 1291467969;
    assert Pow33(7) == 42618442977;
    assert Pow33(8) == 1406408618241;
    assert Pow33(9) == 46411484401953;
  }

  /** The 64-bit word never wraps exactly for keys of at most 10 bytes; for those the bucket
      is the exact polynomial modulo 8191. */
  lemma WrapsIffLongerThanTen(key: string)
    ensures Polynomial(key) < WORD <==> |key| <= 10
    ensures |key| <= 10 ==> Chash(key) == Polynomial(key) % MAX_KEYS_COUNT
  {
    Pow33At10();
    ByteSumBound(key);
    if |key| <= 10 {
      Pow33Monotone(|key|, 10);
    } else {
      assert Pow33(11) == 33 * Pow33(10);
      Pow33Monotone(11, |key|);
    }
  }

  // ---- Keys that differ in one byte ----

  /** Two keys that differ in one byte have polynomials that differ by the character codes there, times
      the power of 33 at that place. */
  lemma {:induction false} OneByteApart(front: string, a: char, b: char, back: string)
    requires a as int < 256 && b as int < 256
    ensures Polynomial(front + [a] + back) - Polynomial(front + [b] + back) ==
            (a as int - b as int) * Pow33(|back|)
  {
    if back == [] {
      assert front + [a] + back == front + [a] && front + [b] + back == front + [b];
      Horner(front, a);
      Horner(front, b);
    } else {
      var n := |back| - 1;
      OneByteApart(front, a, b, back[..n]);
      Horner(front + [a] + back[..n], back[n]);
      Horner(front + [b] + back[..n], back[n]);
      assert front + [a] + back == front + [a] + back[..n] + [back[n]];
      assert front + [b] + back == front + [b] + back[..n] + [back[n]];
      Scaled(a as int - b as int, Pow33(n));
    }
  }

  lemma Scaled(d: int, p: int)
    ensures 33 * (d * p) == d * (33 * p)
  {
  }

  /** 33 can be divided out modulo 8191: its inverse is 3475. */
  lemma DividesOut(x: int)
    requires (33 * x) % MAX_KEYS_COUNT == 0
    ensures x % MAX_KEYS_COUNT == 0
  {
    var y := 33 * x / MAX_KEYS_COUNT;
    assert 33 * x == 8191 * y;
    assert x == 8191 * (3475 * y - 14 * x);
    MultipleOf(3475 * y - 14 * x);
  }

  lemma MultipleOf(z: int)
    ensures (8191 * z) % 8191 == 0
  {
  }

  lemma {:induction false} PowerDividesOut(d: int, n: nat)
    requires (d * Pow33(n)) % MAX_KEYS_COUNT == 0
    ensures d % MAX_KEYS_COUNT == 0
  {
    if n == 0 {
      assert d * Pow33(0) == d;
    } else {
      Scaled(d, Pow33(n - 1));
      DividesOut(d * Pow33(n - 1));
      PowerDividesOut(d, n - 1);
    }
  }

  lemma SameRemainder(x: int, y: int)
    requires x % MAX_KEYS_COUNT == y % MAX_KEYS_COUNT
    ensures (x - y) % MAX_KEYS_COUNT == 0
  {
    var z := x / MAX_KEYS_COUNT - y / MAX_KEYS_COUNT;
    assert x - y == 8191 * z;
    MultipleOf(z);
  }

  /** So chash tells keys of at most 10 bytes apart that differ in exactly one byte, such as "a1" and
      "a2": their subscribers never get each other's events. */
  lemma OneByteSeparates(front: string, a: char, b: char, back: string)
    requires a as int < 256 && b as int < 256 && |front| + 1 + |back| <= 10
    ensures Chash(front + [a] + back) == Chash(front + [b] + back) <==> a == b
  {
    var k, k' := front + [a] + back, front + [b] + back;
    WrapsIffLongerThanTen(k);
    WrapsIffLongerThanTen(k');
    if Chash(k) == Chash(k') {
      SameRemainder(Polynomial(k), Polynomial(k'));
      OneByteApart(front, a, b, back);
      PowerDividesOut(a as int - b as int, |back|);
    }
  }
}
