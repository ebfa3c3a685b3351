/** The hand-written ULID: ten base-32 digits of the time, then sixteen of randomness. */
module Ulid {

  const ENCODING: string := "0123456789ABCDEFGHJKMNPQRSTVWXYZ"

  type Byte = b: int | 0 <= b < 256

  function Pow32(n: nat): nat
    ensures Pow32(n) > 0
  {
    if n == 0 then 1 else 32 * Pow32(n - 1)
  }

  function Digit(d: int): char
    requires 0 <= d < 32
  {
    ENCODING[d]
  }

  /** The n low base-32 digits of a time, most significant first. */
  function Encode(time: nat, n: nat): (s: string)
    ensures |s| == n
    ensures forall i :: 0 <= i < n ==> s[i] in ENCODING
  {
    if n == 0 then "" else Encode(time / 32, n - 1) + [Digit(time % 32)]
  }

  /** The position of a character in the alphabet. */
  ghost function Value(c: char): (v: int)
    requires c in ENCODING
    ensures 0 <= v < 32 && Digit(v) == c
  {
    var v: int :| 0 <= v < 32 && ENCODING[v] == c;
    v
  }

  ghost function Decode(s: string): nat
    requires forall i :: 0 <= i < |s| ==> s[i] in ENCODING
  {
    if |s| == 0 then 0 else 32 * Decode(s[..|s| - 1]) + Value(s[|s| - 1])
  }

  function Random(bytes: seq<Byte>): (s: string)
    ensures |s| == |bytes|
    ensures forall i :: 0 <= i < |bytes| ==> s[i] == Digit(bytes[i] % 32)
  {
    seq(|bytes|, i requires 0 <= i < |bytes| => Digit(bytes[i] % 32))
  }

  method CreateUlid(time: nat, random: seq<Byte>) returns (id: string)
    requires |random| == 16
    ensures id == Encode(time, 10) + Random(random)
  {
    var chars := new char[26](_ => '0');
    var remainingTime := time;
    for index := 10 downto 0
      invariant Encode(time, 10) == Encode(remainingTime, index) + chars[index..10]
    {
      chars[index] := ENCODING[remainingTime % 32];
      remainingTime := remainingTime / 32;
      assert chars[index..10] == [chars[index]] + chars[index + 1..10];
    }
    assert chars[..10] == Encode(time, 10);
    for index := 10 to 26
      invariant chars[..10] == Encode(time, 10)
      invariant chars[10..index] == Random(random)[..index - 10]
    {
      chars[index] := ENCODING[random[index - 10] % 32];
    }
    assert chars[..] == chars[..10] + chars[10..26];
    return chars[..];
  }

  // ---- The prefix is the time ----

  lemma DigitsDiffer(i: int, j: int)
    requires 0 <= i < j < 32
    ensures ENCODING[i] < ENCODING[j]
  {
  }

  lemma ValueOfDigit(d: int)
    requires 0 <= d < 32
    ensures Digit(d) in ENCODING && Value(Digit(d)) == d
  {
    var v := Value(Digit(d));
    if v < d {
      DigitsDiffer(v, d);
    } else if d < v {
      DigitsDiffer(d, v);
    }
  }

  lemma {:induction false} DecodeBound(s: string)
    requires forall i :: 0 <= i < |s| ==> s[i] in ENCODING
    ensures Decode(s) < Pow32(|s|)
  {
    if |s| > 0 {
      DecodeBound(s[..|s| - 1]);
    }
  }

  lemma ShortenBound(time: nat, p: nat)
    ensures time / 32 < p <==> time < 32 * p
  {
  }

  lemma DecodeStep(time: nat, n: nat)
    requires n > 0
    ensures Decode(Encode(time, n)) == 32 * Decode(Encode(time / 32, n - 1)) + time % 32
  {
    hide Value;
    assert Encode(time, n)[..n - 1] == Encode(time / 32, n - 1);
    ValueOfDigit(time % 32);
  }

  /** n digits decode to the time exactly when the time has no more than n digits. */
  lemma {:induction false} PrefixDecodes(time: nat, n: nat)
    ensures Decode(Encode(time, n)) == time <==> time < Pow32(n)
  {
    hide Decode, Encode;
    DecodeBound(Encode(time, n));
    if n > 0 {
      DecodeStep(time, n);
      PrefixDecodes(time / 32, n - 1);
      ShortenBound(time, Pow32(n - 1));
    }
  }

  // ---- The prefix sorts as the time ----

  predicate Less(a: string, b: string)
  {
    exists i :: 0 <= i < |a| && i < |b| && a[..i] == b[..i] && a[i] < b[i]
  }

  lemma {:induction false} EarlierSortsFirst(t: nat, u: nat, n: nat)
    requires t < u < Pow32(n)
    ensures Less(Encode(t, n), Encode(u, n))
  {
    var a, b := Encode(t, n), Encode(u, n);
    if t / 32 < u / 32 {
      EarlierSortsFirst(t / 32, u / 32, n - 1);
      var c, d := Encode(t / 32, n - 1), Encode(u / 32, n - 1);
      var i :| 0 <= i < |c| && i < |d| && c[..i] == d[..i] && c[i] < d[i];
      assert a[..i] == c[..i] && b[..i] == d[..i] && a[i] == c[i] && b[i] == d[i];
    } else {
      assert t / 32 == u / 32;
      DigitsDiffer(t % 32, u % 32);
      assert a[..n - 1] == b[..n - 1] && a[n - 1] < b[n - 1];
    }
  }

  lemma LessIsStrict(a: string, b: string)
    requires Less(a, b)
    ensures a != b && !Less(b, a)
  {
    var i :| 0 <= i < |a| && i < |b| && a[..i] == b[..i] && a[i] < b[i];
    forall j | 0 <= j < |b| && j < |a| ensures !(b[..j] == a[..j] && b[j] < a[j]) {
      if j < i {
        assert a[..i][j] == b[..i][j];
      } else if j > i {
        assert a[..j][i] == a[i] && b[..j][i] == b[i];
      }
    }
  }

  /** Time prefixes compare as their times do. */
  lemma PrefixesSortAsTimes(t: nat, u: nat, n: nat)
    requires t < Pow32(n) && u < Pow32(n)
    ensures Less(Encode(t, n), Encode(u, n)) <==> t < u
    ensures Encode(t, n) == Encode(u, n) <==> t == u
  {
    if t < u {
      EarlierSortsFirst(t, u, n);
      LessIsStrict(Encode(t, n), Encode(u, n));
    } else if u < t {
      EarlierSortsFirst(u, t, n);
      LessIsStrict(Encode(u, n), Encode(t, n));
    }
  }

  // ---- The accepted pattern ----

  predicate PatternChar(c: char)
  {
    '0' <= c <= '9' || 'A' <= c <= 'H' || c in {'J', 'K', 'M', 'N'} || 'P' <= c <= 'T' || 'V' <= c <= 'Z'
  }

  /** The pattern that ids in requests must match. */
  predicate MatchesPattern(s: string)
  {
    |s| == 26 && '0' <= s[0] <= '7' && forall i :: 1 <= i < 26 ==> PatternChar(s[i])
  }

  /** The pattern admits exactly the alphabet, so an accepted id decodes. */
  lemma PatternIsAlphabet(c: char)
    ensures PatternChar(c) <==> c in ENCODING
  {
    if PatternChar(c) {
      var d := if c <= '9' then c as int - '0' as int
               else if c <= 'H' then c as int - 'A' as int + 10
               else if c <= 'K' then c as int - 'J' as int + 18
               else if c <= 'N' then c as int - 'M' as int + 20
               else if c <= 'T' then c as int - 'P' as int + 22
               else c as int - 'V' as int + 27;
      assert ENCODING[d] == c;
    } else if c in ENCODING {
      var d :| 0 <= d < 32 && ENCODING[d] == c;
      AlphabetFits(d);
    }
  }

  lemma AlphabetFits(d: int)
    requires 0 <= d < 32
    ensures PatternChar(ENCODING[d])
    ensures '0' <= ENCODING[d] <= '7' <==> d < 8
  {
  }

  lemma {:induction false} FirstDigit(time: nat, n: nat)
    requires n > 0
    ensures Encode(time, n)[0] == Digit(time / Pow32(n - 1) % 32)
  {
    if n > 1 {
      var p := Pow32(n - 2);
      FirstDigit(time / 32, n - 1);
      DivDiv(time, p);
      assert Pow32(n - 1) == 32 * p;
      assert Encode(time, n)[0] == Encode(time / 32, n - 1)[0];
    } else {
      assert Encode(time / 32, 0) == "";
      assert time / Pow32(0) == time;
    }
  }

  lemma DivDiv(time: nat, p: nat)
    requires p > 0
    ensures time / 32 / p == time / (32 * p)
  {
    var d := 32 * p;
    var q, r := time / d, time % d;
    var s := r / 32;
    Regroup(p, q);
    assert time == 32 * (p * q + s) + r % 32;
    Quotient(32, p * q + s, r % 32);
    assert s < p;
    Quotient(p, q, s);
  }

  lemma Regroup(p: nat, q: nat)
    ensures 32 * p * q == 32 * (p * q)
  {
  }

  lemma Quotient(p: nat, q: nat, s: nat)
    requires s < p
    ensures (p * q + s) / p == q
  {
    var x := p * q + s;
    SameQuotient(p, q, s, x / p, x % p);
  }

  lemma SameQuotient(p: nat, q: nat, s: nat, y: nat, r: nat)
    requires s < p && r < p && p * q + s == p * y + r
    ensures q == y
  {
    if y > q {
      Times(p, q + 1, y);
    } else if y < q {
      Times(p, y + 1, q);
    }
  }

  lemma Times(p: nat, a: nat, b: nat)
    requires a <= b
    ensures p * a <= p * b
    ensures a > 0 ==> p * a == p * (a - 1) + p
  {
  }

  lemma RandomFits(bytes: seq<Byte>, i: nat)
    requires i < |bytes|
    ensures PatternChar(Random(bytes)[i])
  {
    AlphabetFits(bytes[i] % 32);
  }

  /** An id is accepted exactly when the first of its ten time digits is at most 7. */
  lemma AcceptedExactly(time: nat, random: seq<Byte>)
    requires |random| == 16
    ensures MatchesPattern(Encode(time, 10) + Random(random)) <==> time / Pow32(9) % 32 < 8
  {
    var prefix, id := Encode(time, 10), Encode(time, 10) + Random(random);
    FirstDigit(time, 10);
    AlphabetFits(time / Pow32(9) % 32);
    forall i | 0 <= i < 26 ensures PatternChar(id[i]) {
      if i < 10 {
        assert prefix[i] in ENCODING;
        AlphabetFits(Value(prefix[i]));
      } else {
        RandomFits(random, i - 10);
      }
    }
  }

  lemma Pow32Nine()
    ensures 8 * Pow32(9) == 0x1_0000_0000_0000
  {
    assert Pow32(3) == 0x8000;
    assert Pow32(6) == 0x8000 * Pow32(3);
    assert Pow32(9) == 0x8000 * Pow32(6);
  }

  lemma TopDigit(time: nat)
    requires time < 0x4_0000_0000_0000
    ensures time / 0x2000_0000_0000 % 32 < 8 <==> time < 0x1_0000_0000_0000
  {
  }

  /** Every time below 2^48 milliseconds gives an accepted id, and the times from there to 2^50 do not. */
  lemma TimesBelow48Bits(time: nat, random: seq<Byte>)
    requires |random| == 16 && time < 0x4_0000_0000_0000
    ensures MatchesPattern(Encode(time, 10) + Random(random)) <==> time < 0x1_0000_0000_0000
  {
    hide Encode, Random, MatchesPattern, Pow32;
    AcceptedExactly(time, random);
    Pow32Nine();
    TopDigit(time);
  }
}
