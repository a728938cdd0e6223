/** The 26-character text of a 128-bit id and the ids minted from a clock
    (plugins/core/scope-id.js, plugins/core/warehouse-spool.js). */
module Ulid {
  import opened Text

  type Byte = x: int | 0 <= x < 256

  const ALPHABET := "0123456789ABCDEFGHJKMNPQRSTVWXYZ"

  lemma AlphabetAscends()
    ensures |ALPHABET| == 32
    ensures forall i, j :: 0 <= i < j < 32 ==> ALPHABET[i] < ALPHABET[j]
  {
  }

  /** The big-endian value of a byte string. */
  function Value(bs: seq<Byte>): nat {
    if bs == [] then 0 else 256 * Value(bs[..|bs| - 1]) + bs[|bs| - 1]
  }

  /** The last `k` base-32 digits of `n`, most significant first. */
  function Base32(n: nat, k: nat): (s: string)
    ensures |s| == k
  {
    if k == 0 then "" else Base32(n / 32, k - 1) + [ALPHABET[n % 32]]
  }

  method EncodeUlid(bytes: seq<Byte>) returns (r: Result<string, string>)
    ensures r.Ok? <==> |bytes| == 16
    ensures r.Ok? ==> r.value == Base32(Value(bytes), 26)
  {
    if |bytes| != 16 {
      return Err("encodeUlid expects 16 bytes");
    }
    var n: nat := 0;
    for i := 0 to |bytes|
      invariant n == Value(bytes[..i])
    {
      assert bytes[..i + 1][..i] == bytes[..i];
      n := n * 256 + bytes[i];
    }
    assert bytes[..|bytes|] == bytes;
    var out := "";
    var i := 26;
    while i > 0
      invariant 0 <= i <= 26 && n >= 0
      invariant Base32(n, i) + out == Base32(Value(bytes), 26)
    {
      assert Base32(n, i) == Base32(n / 32, i - 1) + [ALPHABET[n % 32]];
      out := [ALPHABET[n % 32]] + out;
      n := n / 32;
      i := i - 1;
    }
    return Ok(out);
  }

  /** String order, character by character from the left. */
  predicate Less(a: string, b: string) {
    b != "" && (a == "" || a[0] < b[0] || (a[0] == b[0] && Less(a[1..], b[1..])))
  }

  function Pow(b: nat, k: nat): nat {
    if k == 0 then 1 else b * Pow(b, k - 1)
  }

  lemma {:induction false} LessSnoc(a: string, b: string, x: char, y: char)
    requires |a| == |b|
    ensures Less(a + [x], b + [y]) <==> Less(a, b) || (a == b && x < y)
  {
    if a != "" {
      assert (a + [x])[1..] == a[1..] + [x] && (b + [y])[1..] == b[1..] + [y];
      LessSnoc(a[1..], b[1..], x, y);
      assert a == [a[0]] + a[1..] && b == [b[0]] + b[1..];
    }
  }

  lemma {:induction false} Base32Order(m: nat, n: nat, k: nat)
    requires m < Pow(32, k) && n < Pow(32, k)
    ensures Less(Base32(m, k), Base32(n, k)) <==> m < n
    ensures Base32(m, k) == Base32(n, k) <==> m == n
    decreases k
  {
    if k > 0 {
      var a, b := Base32(m / 32, k - 1), Base32(n / 32, k - 1);
      var x, y := ALPHABET[m % 32], ALPHABET[n % 32];
      Base32Order(m / 32, n / 32, k - 1);
      AlphabetAscends();
      LessSnoc(a, b, x, y);
      assert (a + [x])[..k - 1] == a && (b + [y])[..k - 1] == b && (a + [x])[k - 1] == x && (b + [y])[k - 1] == y;
    }
  }

  lemma {:induction false} ValueRange(bs: seq<Byte>)
    ensures Value(bs) < Pow(256, |bs|)
  {
    if bs != [] {
      ValueRange(bs[..|bs| - 1]);
    }
  }

  /** Byte strings of one length, compared byte by byte from the left. */
  predicate BytesLess(a: seq<Byte>, b: seq<Byte>) {
    b != [] && (a == [] || a[0] < b[0] || (a[0] == b[0] && BytesLess(a[1..], b[1..])))
  }

  lemma {:induction false} ValueHead(bs: seq<Byte>)
    requires bs != []
    ensures Value(bs) == bs[0] * Pow(256, |bs| - 1) + Value(bs[1..])
  {
    if |bs| > 1 {
      var init := bs[..|bs| - 1];
      ValueHead(init);
      assert init[1..] == bs[1..][..|bs| - 2];
    }
  }

  lemma {:induction false} ValueOrder(a: seq<Byte>, b: seq<Byte>)
    requires |a| == |b|
    ensures Value(a) < Value(b) <==> BytesLess(a, b)
    ensures Value(a) == Value(b) <==> a == b
  {
    if a != [] {
      ValueHead(a);
      ValueHead(b);
      ValueRange(a[1..]);
      ValueRange(b[1..]);
      ValueOrder(a[1..], b[1..]);
      HeadDecides(a[0], b[0], Pow(256, |a| - 1), Value(a[1..]), Value(b[1..]));
      assert a == [a[0]] + a[1..] && b == [b[0]] + b[1..];
    }
  }

  lemma HeadDecides(x: nat, y: nat, p: nat, u: nat, v: nat)
    requires u < p && v < p
    ensures x * p + u < y * p + v <==> x < y || (x == y && u < v)
    ensures x * p + u == y * p + v <==> x == y && u == v
  {
    if x < y {
      assert (x + 1) * p <= y * p;
    } else if y < x {
      assert (y + 1) * p <= x * p;
    }
  }

  lemma Powers()
    ensures Pow(256, 16) == 8 * Pow(32, 25) && Pow(32, 26) == 32 * Pow(32, 25)
  {
    assert Pow(256, 4) == 0x1_0000_0000;
    PowAdd(256, 4, 4);
    PowAdd(256, 8, 8);
    assert Pow(32, 5) == 0x200_0000;
    PowAdd(32, 5, 5);
    PowAdd(32, 10, 10);
    PowAdd(32, 20, 5);
  }

  lemma Times(x: nat, y: nat, z: nat)
    ensures x * (y * z) == (x * y) * z
  {
  }

  lemma {:induction false} PowAdd(b: nat, i: nat, j: nat)
    ensures Pow(b, i + j) == Pow(b, i) * Pow(b, j)
  {
    if i > 0 {
      PowAdd(b, i - 1, j);
      Times(b, Pow(b, i - 1), Pow(b, j));
    }
  }

  /** The text of 16 bytes: 26 characters, distinct for distinct bytes, in the same order as
      the bytes, and never beginning above '7'. */
  lemma EncodingOrder(a: seq<Byte>, b: seq<Byte>)
    requires |a| == |b| == 16
    ensures Less(Base32(Value(a), 26), Base32(Value(b), 26)) <==> BytesLess(a, b)
    ensures Base32(Value(a), 26) == Base32(Value(b), 26) <==> a == b
  {
    ValueRange(a);
    ValueRange(b);
    Powers();
    ValueOrder(a, b);
    Base32Order(Value(a), Value(b), 26);
  }

  lemma {:induction false} LeadingDigit(n: nat, k: nat)
    requires n < 8 * Pow(32, k)
    ensures Base32(n, k + 1)[0] <= '7'
  {
    if k > 0 {
      LeadingDigit(n / 32, k - 1);
    }
  }

  lemma FirstCharAtMost7(a: seq<Byte>)
    requires |a| == 16
    ensures Base32(Value(a), 26)[0] <= '7'
  {
    ValueRange(a);
    Powers();
    LeadingDigit(Value(a), 25);
  }

  /** The low six bytes of the clock, most significant first. */
  function ClockBytes(t: nat, k: nat): (bs: seq<Byte>)
    ensures |bs| == k
  {
    if k == 0 then [] else ClockBytes(t / 256, k - 1) + [t % 256]
  }

  function Clock(now: real): nat {
    if now < 0.0 then 0 else now.Floor
  }

  function MintedBytes(now: real, noise: seq<Byte>): (bs: seq<Byte>)
    requires |noise| == 10
    ensures |bs| == 16
  {
    ClockBytes(Clock(now), 6) + noise
  }

  /** The six clock bytes, from the last one backwards. */
  method FillClock(b: array<Byte>, clock: nat)
    requires b.Length == 16
    modifies b
    ensures b[..6] == ClockBytes(clock, 6)
  {
    var t := clock;
    var i := 6;
    while i > 0
      invariant 0 <= i <= 6
      invariant ClockBytes(t, i) + b[i..6] == ClockBytes(clock, 6)
    {
      ghost var done := b[i..6];
      i := i - 1;
      b[i] := t % 256;
      t := t / 256;
      assert b[i..6] == [b[i]] + done;
    }
  }

  /** `newUlid`: `noise` is the ten random bytes. */
  method NewUlid(now: real, noise: seq<Byte>) returns (r: string)
    requires |noise| == 10
    ensures r == Base32(Value(MintedBytes(now, noise)), 26)
  {
    var b := new Byte[16](_ => 0);
    var clock: nat := if now < 0.0 then 0 else now.Floor;
    FillClock(b, clock);
    for j := 0 to 10
      invariant b[..6] == ClockBytes(Clock(now), 6)
      invariant forall k :: 0 <= k < j ==> b[6 + k] == noise[k]
    {
      b[6 + j] := noise[j];
    }
    assert b[..] == MintedBytes(now, noise);
    var e := EncodeUlid(b[..]);
    r := e.value;
  }

  lemma ModStep(t: nat, p: nat)
    requires p > 0
    ensures t % (256 * p) == 256 * (t / 256 % p) + t % 256
  {
    var q := t / 256;
    var j := q / p;
    assert q == p * j + q % p;
    assert t == (256 * p) * j + (256 * (q % p) + t % 256) by {
      assert t == 256 * q + t % 256;
      assert 256 * (p * j) == (256 * p) * j;
    }
    DivUnique(t, 256 * p, j, 256 * (q % p) + t % 256);
  }

  lemma DivUnique(t: nat, d: nat, j: nat, r: nat)
    requires d > 0 && t == d * j + r && r < d
    ensures t % d == r
  {
    if t / d != j {
      HeadDecides(t / d, j, d, t % d, r);
    }
  }

  lemma {:induction false} PowPositive(b: nat, k: nat)
    requires b > 0
    ensures Pow(b, k) > 0
  {
    if k > 0 {
      PowPositive(b, k - 1);
    }
  }

  lemma {:induction false} ClockValue(t: nat, k: nat)
    ensures Pow(256, k) > 0 && Value(ClockBytes(t, k)) == t % Pow(256, k)
    decreases k
  {
    PowPositive(256, k);
    if k > 0 {
      ClockValue(t / 256, k - 1);
      var bs := ClockBytes(t, k);
      assert bs[..k - 1] == ClockBytes(t / 256, k - 1);
      ModStep(t, Pow(256, k - 1));
    }
  }

  lemma {:induction false} PrefixDecides(a: seq<Byte>, b: seq<Byte>, u: seq<Byte>, v: seq<Byte>)
    requires |a| == |b|
    ensures BytesLess(a + u, b + v) <==> BytesLess(a, b) || (a == b && BytesLess(u, v))
  {
    if a == [] {
      assert a + u == u && b + v == v;
    } else {
      assert (a + u)[1..] == a[1..] + u && (b + v)[1..] == b[1..] + v;
      PrefixDecides(a[1..], b[1..], u, v);
      assert a == [a[0]] + a[1..] && b == [b[0]] + b[1..];
    }
  }

  const CLOCK_END := 0x1_0000_0000_0000

  lemma ClockRange()
    ensures Pow(256, 6) == CLOCK_END
  {
    assert Pow(256, 3) == 0x100_0000;
    PowAdd(256, 3, 3);
  }

  /** Minted ids sort by the clock's low 48 bits, then by their random bytes. */
  lemma MintedOrder(now: real, later: real, noise: seq<Byte>, noise': seq<Byte>)
    requires |noise| == |noise'| == 10
    ensures var t, t' := Clock(now) % CLOCK_END, Clock(later) % CLOCK_END;
            Less(Base32(Value(MintedBytes(now, noise)), 26), Base32(Value(MintedBytes(later, noise')), 26))
            <==> t < t' || (t == t' && BytesLess(noise, noise'))
  {
    ClockRange();
    var a, b := ClockBytes(Clock(now), 6), ClockBytes(Clock(later), 6);
    ClockValue(Clock(now), 6);
    ClockValue(Clock(later), 6);
    ValueOrder(a, b);
    PrefixDecides(a, b, noise, noise');
    EncodingOrder(a + noise, b + noise');
  }

  /** So an id minted in an earlier millisecond sorts first, whatever the random bytes, as long
      as the clock is below 2^48. */
  lemma EarlierSortsFirst(now: real, later: real, noise: seq<Byte>, noise': seq<Byte>)
    requires |noise| == |noise'| == 10 && now.Floor < later.Floor && 1.0 <= later < CLOCK_END as real
    ensures Less(Base32(Value(MintedBytes(now, noise)), 26), Base32(Value(MintedBytes(later, noise')), 26))
  {
    BelowEnd(Clock(now));
    BelowEnd(Clock(later));
    MintedOrder(now, later, noise, noise');
  }

  lemma BelowEnd(t: nat)
    requires t < CLOCK_END
    ensures t % CLOCK_END == t
  {
  }

  /** At 2^48 the clock bytes wrap to zero and a later id sorts first. */
  lemma OrderBreaksAtWrap(noise: seq<Byte>, noise': seq<Byte>)
    requires |noise| == |noise'| == 10
    ensures Less(Base32(Value(MintedBytes(CLOCK_END as real, noise)), 26), Base32(Value(MintedBytes(1.0, noise')), 26))
  {
    MintedOrder(CLOCK_END as real, 1.0, noise, noise');
  }

  /** The place of a letter or digit among the 32: the letters close up over I, L, O and U. */
  function PlaceOf(c: char): int {
    var n := c as int;
    if c <= '9' then n - 48
    else n - 55 - (if c > 'I' then 1 else 0) - (if c > 'L' then 1 else 0) - (if c > 'O' then 1 else 0) - (if c > 'U' then 1 else 0)
  }

  predicate IsCrockford(c: char) {
    ('0' <= c <= '9' || 'A' <= c <= 'Z') && c != 'I' && c != 'L' && c != 'O' && c != 'U'
  }

  lemma AlphabetPlaces(i: nat)
    requires i < |ALPHABET|
    ensures IsCrockford(ALPHABET[i]) && PlaceOf(ALPHABET[i]) == i
  {
  }

  lemma PlaceIsOne(c: char, d: char)
    requires IsCrockford(c) && IsCrockford(d) && PlaceOf(c) == PlaceOf(d)
    ensures c == d
  {
  }

  /** The alphabet is the digits and capital letters without the four that invite mistakes. */
  lemma AlphabetIsCrockford(c: char)
    ensures c in ALPHABET <==> ('0' <= c <= '9' || 'A' <= c <= 'Z') && c != 'I' && c != 'L' && c != 'O' && c != 'U'
  {
    AlphabetAscends();
    if IsCrockford(c) {
      AlphabetPlaces(PlaceOf(c));
      PlaceIsOne(c, ALPHABET[PlaceOf(c)]);
    }
    if i: nat :| i < |ALPHABET| && ALPHABET[i] == c {
      AlphabetPlaces(i);
    }
  }
}
