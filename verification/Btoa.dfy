/** The compact `btoa` and `atob`. `btoa` walks its string in steps of three quarters of an index and keeps the bytes
    in a 32-bit shift register; here the index is counted in quarters, so `q` stands for `i = q / 4`. */
module Btoa {
  import opened Arithmetic
  import opened Base64
  import opened Common

  type CodeUnit = u: int | 0 <= u < 0x10000

  datatype CodecError = InvalidCharacter

  /** ECMAScript's ToInt32, which every shift applies to its left operand. */
  function ToInt32(x: int): int {
    (x + 0x80000000) % 0x100000000 - 0x80000000
  }

  /** What the shifts that occur divide by. */
  function Pow2(s: nat): (p: nat)
    requires s in {0, 2, 4, 6, 8}
    ensures p > 0
  {
    if s == 0 then 1 else if s == 2 then 4 else if s == 4 then 16 else if s == 6 then 64 else 256
  }

  predicate Latin1(a: seq<CodeUnit>) {
    forall i :: 0 <= i < |a| ==> a[i] < 0x100
  }

  /** The units as bytes. */
  function Low(a: seq<CodeUnit>): (b: seq<Byte>)
    ensures |b| == |a|
    ensures Latin1(a) ==> b == a
  {
    seq(|a|, i requires 0 <= i < |a| => a[i] % 0x100)
  }

  // ---- btoa ----

  lemma Register(o: int, n: Byte)
    ensures (ToInt32(o * 0x100) + n) % 0x100 == n
    ensures (ToInt32(o * 0x100) + n) % 0x10000 == o % 0x100 * 0x100 + n
  {
    var k := (o * 0x100 + 0x80000000) / 0x100000000;
    assert ToInt32(o * 0x100) == o * 0x100 - 0x100000000 * k;
    DivUnique(ToInt32(o * 0x100) + n, 0x100, o - 0x1000000 * k, n);
    DivUnique(ToInt32(o * 0x100) + n, 0x10000, o / 0x100 - 0x10000 * k, o % 0x100 * 0x100 + n);
  }

  /** Shifting the last two bytes right and masking with 63. */
  lemma Shifted(o: int, p: Byte, n: Byte)
    requires o % 0x10000 == p as int * 0x100 + n
    ensures o / Pow2(2) % 64 == n / 4
    ensures o / Pow2(4) % 64 == p % 4 * 16 + n / 16
    ensures o / Pow2(6) % 64 == p % 16 * 4 + n / 64
    ensures o / Pow2(8) % 64 == p % 64
  {
    var h: int, p: int, n: int := o / 0x10000, p, n;
    ShiftedBy(o, h, p, n, 4);
    ShiftedBy(o, h, p, n, 16);
    ShiftedBy(o, h, p, n, 64);
    ShiftedBy(o, h, p, n, 256);
    assert Pow2(2) == 4 && Pow2(4) == 16 && Pow2(6) == 64 && Pow2(8) == 256;
  }

  /** The quotient by `m` keeps `m / 4` of the values of `p` and shifts out those of `n`. */
  lemma ShiftedBy(o: int, h: int, p: int, n: int, m: int)
    requires o == 0x10000 * h + 0x100 * p + n && 0 <= p < 0x100 && 0 <= n < 0x100
    requires m == 4 || m == 16 || m == 64 || m == 256
    ensures o / m % 64 == p % (m / 4) * (0x100 / m) + n / m
  {
    var q, r := n / m, n % m;
    var a, b := p / (m / 4), p % (m / 4);
    if m == 4 {
      DivUnique(o, 4, 0x4000 * h + 0x40 * p + q, r);
      DivUnique(0x4000 * h + 0x40 * p + q, 64, 0x100 * h + p, q);
    } else if m == 16 {
      DivUnique(o, 16, 0x1000 * h + 16 * p + q, r);
      DivUnique(0x1000 * h + 16 * p + q, 64, 0x40 * h + a, b * 16 + q);
    } else if m == 64 {
      DivUnique(o, 64, 0x400 * h + 4 * p + q, r);
      DivUnique(0x400 * h + 4 * p + q, 64, 0x10 * h + a, b * 4 + q);
    } else {
      DivUnique(o, 256, 0x100 * h + p, n);
      DivUnique(0x100 * h + p, 64, 4 * h + a, b);
    }
  }

  /** The byte read last before character `k` is put out. */
  function LastRead(b: seq<Byte>, k: nat): Byte {
    if k == 0 then 0 else ByteAt(b, 3 * k / 4)
  }

  lemma Past(b: seq<Byte>, i: nat)
    ensures i >= |b| ==> ByteAt(b, i) == 0 && ByteAt(b, i + 1) == 0
  {
  }

  /** The masked register is the sextet of RFC 4648, and 0 where the alphabet is `=`. */
  lemma RegisterSextet(b: seq<Byte>, k: nat, o: int)
    requires o % 0x10000 == LastRead(b, k) as int * 0x100 + LastRead(b, k + 1)
    ensures o / Pow2(8 - 3 * (k + 1) % 4 * 2) % 64 == SextetAt(b, k)
    ensures 3 * k / 4 >= |b| ==> SextetAt(b, k) == 0
  {
    hide ByteAt, Pow2;
    Shifted(o, LastRead(b, k), LastRead(b, k + 1));
    var g, m := k / 4, k % 4;
    DivUnique(3 * k, 4, 3 * g + (if m == 0 then 0 else m - 1), if m == 0 then 0 else 4 - m);
    DivUnique(3 * (k + 1), 4, if m == 3 then 3 * g + 3 else 3 * g + m, 3 - m);
    Past(b, 3 * k / 4);
  }

  /** One character goes out as RFC 4648 has it, and the loop stops after the last. */
  lemma Emits(b: seq<Byte>, k: nat, index: Sextet, padding: bool)
    requires index == SextetAt(b, k) && padding == (|b| <= 3 * k / 4)
    requires k < |Text(b)|
    ensures Text(b)[..k + 1] == Text(b)[..k] + (if !padding then [Lookup(index)] else if index == 0 then "=" else "")
  {
    hide Text, Lookup;
    TextIs(b);
    assert 3 * k / 4 >= |b| ==> SextetAt(b, k) == 0;
  }

  lemma Room(b: seq<Byte>, k: nat)
    requires k <= |Text(b)|
    ensures k < |Text(b)| <==> 3 * k / 4 < |b| || 3 * k % 4 != 0
  {
    hide Text;
    TextIs(b);
  }

  /** `charCodeAt`, as a shift reads it: past the end it is NaN, which counts as 0 and is not above 255. */
  function UnitAt(a: seq<CodeUnit>, i: nat): CodeUnit {
    if i < |a| then a[i] else 0
  }

  /** The units that `k` steps have read fit in a byte. */
  predicate Fits(a: seq<CodeUnit>, k: nat) {
    k > 0 ==> forall i :: 0 <= i < |a| && i <= 3 * k / 4 ==> a[i] < 0x100
  }

  lemma ReadNext(a: seq<CodeUnit>, k: nat)
    requires Fits(a, k)
    ensures UnitAt(a, 3 * (k + 1) / 4) > 0xFF ==> !Latin1(a)
    ensures UnitAt(a, 3 * (k + 1) / 4) <= 0xFF ==>
      Fits(a, k + 1) && LastRead(Low(a), k + 1) == UnitAt(a, 3 * (k + 1) / 4)
  {
    assert 3 * (k + 1) / 4 <= 3 * k / 4 + 1;
  }

  lemma AllRead(a: seq<CodeUnit>, k: nat)
    requires Fits(a, k) && 3 * k / 4 >= |a|
    ensures Latin1(a)
  {
  }

  /** `btoa` */
  method Btoa(a: seq<CodeUnit>) returns (r: Result<string, CodecError>)
    ensures r == if Latin1(a) then Ok(Text(Low(a))) else Err(InvalidCharacter)
  {
    hide Text, ToInt32, Pow2, SextetAt, Lookup, LastRead, Fits, Latin1, UnitAt, Low;
    ghost var b := Low(a);
    var c := "";
    var q, o, padding := 0, 0, false;
    ghost var k := 0;
    Start(a);
    while q / 4 < |a| || q % 4 != 0
      invariant q == 3 * k && k <= |Text(b)| && c == Text(b)[..k]
      invariant padding ==> |a| <= q / 4
      invariant o % 0x100 == LastRead(b, k)
      invariant Fits(a, k)
      decreases |Text(b)| - k
    {
      Room(b, k);
      ReadNext(a, k);
      if |a| <= q / 4 {
        padding := true;
      }
      q := q + 3;
      var n := UnitAt(a, q / 4);
      if n > 0xFF {
        return Err(InvalidCharacter);
      }
      Register(o, n);
      o := ToInt32(o * 0x100) + n;
      RegisterSextet(b, k, o);
      var index := o / Pow2(8 - q % 4 * 2) % 64;
      Emits(b, k, index, padding);
      c := c + if !padding then [Lookup(index)] else if index == 0 then "=" else "";
      k := k + 1;
    }
    Room(b, k);
    AllRead(a, k);
    assert c == Text(b);
    r := Ok(c);
  }

  lemma Start(a: seq<CodeUnit>)
    ensures Fits(a, 0) && LastRead(Low(a), 0) == 0
  {
  }

  // ---- atob ----

  /** The index of a character in the alphabet string, which ends in `=`, so that a pad inside the text counts as 64. */
  function IndexIn(c: char): (x: int)
    ensures -1 <= x <= 64
  {
    if InAlphabet(c) then RevLookup(c) else if c == '=' then 64 else -1
  }

  /** The index is the place in the alphabet and the pad, and exactly what is not there is skipped. */
  lemma IndexInIs(c: char)
    ensures IndexIn(c) == -1 <==> c !in ALPHABET + "="
    ensures IndexIn(c) != -1 ==> (ALPHABET + "=")[IndexIn(c)] == c
  {
    RevLookupIs(c);
  }

  /** The text without the pads at its end. */
  function Stripped(s: string): string {
    if s != [] && s[|s| - 1] == '=' then Stripped(s[..|s| - 1]) else s
  }

  /** The indices of the characters that are not skipped. */
  function Indices(s: string): (ds: seq<nat>)
    ensures forall i :: 0 <= i < |ds| ==> ds[i] <= 64
  {
    if s == [] then []
    else if IndexIn(s[|s| - 1]) == -1 then Indices(s[..|s| - 1])
    else Indices(s[..|s| - 1]) + [IndexIn(s[|s| - 1])]
  }

  /** Groups of four indices make three bytes; two or three left over make one or two. */
  function Unpacked(ds: seq<nat>): seq<Byte> {
    if |ds| < 2 then []
    else if |ds| == 2 then [First(ds)]
    else if |ds| == 3 then [First(ds), Second(ds)]
    else [First(ds), Second(ds), Third(ds)] + Unpacked(ds[4..])
  }

  function First(ds: seq<nat>): Byte
    requires 2 <= |ds|
  {
    Join2(ds) / 16 % 0x100
  }

  function Second(ds: seq<nat>): Byte
    requires 3 <= |ds|
  {
    Join3(ds) / 4 % 0x100
  }

  function Third(ds: seq<nat>): Byte
    requires 4 <= |ds|
  {
    Join4(ds) % 0x100
  }

  function Join2(ds: seq<nat>): nat
    requires 2 <= |ds|
  {
    64 * ds[0] + ds[1]
  }

  function Join3(ds: seq<nat>): nat
    requires 3 <= |ds|
  {
    64 * Join2(ds) + ds[2]
  }

  function Join4(ds: seq<nat>): nat
    requires 4 <= |ds|
  {
    64 * Join3(ds) + ds[3]
  }

  /** What the accumulator holds: the indices of the last group so far. */
  function Held(ds: seq<nat>): nat {
    if ds == [] then 0
    else if (|ds| - 1) % 4 == 0 then ds[|ds| - 1]
    else 64 * Held(ds[..|ds| - 1]) + ds[|ds| - 1]
  }

  /** How far the accumulator is shifted after index number `i`: 4, 2 or 0 bits. */
  function Shift(i: nat): (s: nat)
    ensures s in {0, 2, 4, 6}
  {
    if i % 4 == 0 then 0 else 8 - 2 * (i % 4)
  }

  /** The accumulator stays below 2^25, so shifting it loses nothing. */
  lemma {:induction false} HeldBound(ds: seq<nat>)
    requires forall i :: 0 <= i < |ds| ==> ds[i] <= 64
    ensures Held(ds) <= if |ds| % 4 == 1 then 64 else if |ds| % 4 == 2 then 4160 else if |ds| % 4 == 3 then 266304
      else 17043520
  {
    if ds != [] {
      HeldBound(ds[..|ds| - 1]);
    }
  }

  /** The byte that index number `i` puts out. */
  function Emitted(n: nat, i: nat): Byte {
    n / Pow2(Shift(i)) % 0x100
  }

  lemma EmittedMod(n: nat, i: nat)
    ensures Emitted(n, i) == Emitted(n, i + 4)
  {
  }

  lemma HeldShort(ds: seq<nat>)
    ensures |ds| == 1 ==> Held(ds) == ds[0]
    ensures |ds| == 2 ==> Held(ds) == Join2(ds) && Emitted(Held(ds), 2) == First(ds)
    ensures |ds| == 3 ==> Held(ds) == Join3(ds) && Emitted(Held(ds), 3) == Second(ds)
    ensures |ds| == 4 ==> Held(ds) == Join4(ds) && Emitted(Held(ds), 4) == Third(ds)
  {
    if 1 < |ds| <= 4 {
      HeldShort(ds[..|ds| - 1]);
    }
  }

  lemma SnocShort(ds: seq<nat>, a: nat)
    requires |ds| < 4
    ensures Unpacked(ds + [a])
      == Unpacked(ds) + if |ds| == 0 then [] else [Emitted(Held(ds + [a]), |ds| + 1)]
  {
    hide Emitted, Held, First, Second, Third, Unpacked;
    HeldShort(ds + [a]);
    SameJoins(ds, a);
    UnpackedShort(ds);
    UnpackedShort(ds + [a]);
  }

  lemma UnpackedShort(ds: seq<nat>)
    ensures |ds| < 2 ==> Unpacked(ds) == []
    ensures |ds| == 2 ==> Unpacked(ds) == [First(ds)]
    ensures |ds| == 3 ==> Unpacked(ds) == [First(ds), Second(ds)]
    ensures |ds| == 4 ==> Unpacked(ds) == [First(ds), Second(ds), Third(ds)]
  {
    hide First, Second, Third;
  }

  lemma SameJoins(ds: seq<nat>, a: nat)
    ensures 2 <= |ds| ==> First(ds + [a]) == First(ds)
    ensures 3 <= |ds| ==> Second(ds + [a]) == Second(ds)
    ensures 4 <= |ds| ==> Third(ds + [a]) == Third(ds)
  {
  }

  /** One index more puts out one byte more, except the first of a group. */
  lemma {:induction false} UnpackedSnoc(ds: seq<nat>, a: nat)
    ensures Unpacked(ds + [a])
      == Unpacked(ds) + if |ds| % 4 == 0 then [] else [Emitted(Held(ds + [a]), |ds| + 1)]
  {
    hide Held, First, Second, Third, Emitted;
    if 4 <= |ds| {
      UnpackedSnoc(ds[4..], a);
      assert (ds + [a])[4..] == ds[4..] + [a];
      HeldTail(ds + [a]);
      EmittedMod(Held(ds + [a]), |ds| - 3);
      SameJoins(ds, a);
    } else {
      SnocShort(ds, a);
    }
  }

  lemma HeldStep(ds: seq<nat>)
    requires ds != []
    ensures Held(ds)
      == if (|ds| - 1) % 4 == 0 then ds[|ds| - 1] else 64 * Held(ds[..|ds| - 1]) + ds[|ds| - 1]
  {
  }

  lemma {:induction false} HeldTail(ds: seq<nat>)
    requires 5 <= |ds|
    ensures Held(ds) == Held(ds[4..])
  {
    hide Held;
    var n := |ds| - 1;
    HeldStep(ds);
    HeldStep(ds[4..]);
    assert ds[4..][n - 4] == ds[n] && (n - 4) % 4 == n % 4;
    if n % 4 != 0 {
      HeldTail(ds[..n]);
      assert ds[..n][4..] == ds[4..][..n - 4];
    }
  }

  lemma ToInt32Small(n: int)
    requires 0 <= n < 0x80000000
    ensures ToInt32(n) == n
  {
  }

  lemma Next(ds: seq<nat>, a: nat)
    requires a <= 64 && forall i :: 0 <= i < |ds| ==> ds[i] <= 64
    ensures var n := if |ds| % 4 != 0 then 64 * Held(ds) + a else a;
      Held(ds + [a]) == n && ToInt32(n) == n
      && Unpacked(ds + [a]) == Unpacked(ds) + if |ds| % 4 == 0 then [] else [Emitted(n, |ds| + 1)]
  {
    hide Unpacked, Emitted, ToInt32;
    assert (ds + [a])[..|ds|] == ds;
    HeldBound(ds + [a]);
    ToInt32Small(Held(ds + [a]));
    UnpackedSnoc(ds, a);
  }

  lemma IndicesSnoc(s: string, f: nat)
    requires 0 < f <= |s|
    ensures Indices(s[..f])
      == if IndexIn(s[f - 1]) == -1 then Indices(s[..f - 1]) else Indices(s[..f - 1]) + [IndexIn(s[f - 1])]
  {
    hide IndexIn;
    assert s[..f][..f - 1] == s[..f - 1];
  }

  lemma Empty(s: string)
    ensures Indices(s[..0]) == [] && Held([]) == 0 && Unpacked([]) == []
  {
  }

  function Atobbed(t: string): Result<seq<Byte>, CodecError> {
    if |Stripped(t)| % 4 == 1 then Err(InvalidCharacter) else Ok(Unpacked(Indices(Stripped(t))))
  }

  /** `atob`, on every string. */
  method Atob(t: string) returns (r: Result<seq<Byte>, CodecError>)
    ensures r == Atobbed(t)
  {
    hide Unpacked, Held, Shift, Pow2, ToInt32, Indices;
    var o := Stripped(t);
    if |o| % 4 == 1 {
      return Err(InvalidCharacter);
    }
    var n, i, f, c := 0, 0, 0, [];
    Empty(o);
    while f < |o|
      invariant 0 <= f <= |o|
      invariant i == |Indices(o[..f])| && n == Held(Indices(o[..f])) && c == Unpacked(Indices(o[..f]))
    {
      var a := IndexIn(o[f]);
      f := f + 1;
      IndicesSnoc(o, f);
      if a != -1 {
        Next(Indices(o[..f - 1]), a);
        n := if i % 4 != 0 then 64 * n + a else a;
        i := i + 1;
        if (i - 1) % 4 != 0 {
          c := c + [Emitted(ToInt32(n), i)];
        }
      }
    }
    assert o[..f] == o;
    r := Ok(c);
  }

  lemma {:induction false} IndicesConcat(a: string, b: string)
    ensures Indices(a + b) == Indices(a) + Indices(b)
    decreases |b|
  {
    if b == [] {
      assert a + b == a && Indices(b) == [];
    } else {
      hide Indices, IndexIn;
      var front, last := b[..|b| - 1], b[|b| - 1];
      IndicesConcat(a, front);
      IndicesLast(a + front, last);
      IndicesLast(front, last);
      Regroup(a, front, [last]);
      assert b == front + [last];
      Regroup(Indices(a), Indices(front), Indices(b)[|Indices(front)|..]);
    }
  }

  lemma Regroup<T>(a: seq<T>, b: seq<T>, c: seq<T>)
    ensures a + (b + c) == a + b + c
  {
  }

  lemma IndicesLast(s: string, c: char)
    ensures Indices(s + [c]) == Indices(s) + (if IndexIn(c) == -1 then [] else [IndexIn(c)])
  {
    hide IndexIn;
    assert (s + [c])[..|s + [c]| - 1] == s;
  }

  /** A character that is not in the alphabet makes no difference, except to the length and to where the pads begin. */
  lemma Skipped(a: string, c: char, b: string)
    requires c !in ALPHABET + "="
    ensures Indices(a + [c] + b) == Indices(a + b)
  {
    IndexInIs(c);
    IndicesConcat(a + [c], b);
    IndicesConcat(a, [c]);
    IndicesConcat(a, b);
    assert [c][..0] == [];
  }

  // ---- atob undoes btoa ----

  lemma {:induction false} StrippedIs(s: string, v: nat)
    requires v <= |s| && (v > 0 ==> s[v - 1] != '=')
    requires forall i :: v <= i < |s| ==> s[i] == '='
    ensures Stripped(s) == s[..v]
  {
    if v < |s| {
      StrippedIs(s[..|s| - 1], v);
      assert s[..|s| - 1][..v] == s[..v];
    } else {
      assert s[..v] == s;
    }
  }

  /** The sextets of the first `v` characters. */
  function Sextets(b: seq<Byte>, v: nat): seq<nat> {
    seq(v, k requires 0 <= k < v => SextetAt(b, k) as nat)
  }

  lemma {:induction false} IndicesAre(s: string, b: seq<Byte>, v: nat)
    requires v <= |s|
    requires forall k :: 0 <= k < v ==> s[k] == Lookup(SextetAt(b, k))
    ensures Indices(s[..v]) == Sextets(b, v)
  {
    hide Lookup, SextetAt;
    if v > 0 {
      IndicesAre(s, b, v - 1);
      IndicesSnoc(s, v);
      LookupRev(SextetAt(b, v - 1), '=');
      assert Sextets(b, v) == Sextets(b, v - 1) + [SextetAt(b, v - 1)];
    }
  }

  lemma Join(b0: Byte, b1: Byte, b2: Byte)
    ensures var x0: int, x1: int, x2: int, x3: int := b0 / 4, b0 % 4 * 16 + b1 / 16, b1 % 16 * 4 + b2 / 64, b2 % 64;
      (64 * x0 + x1) / 16 % 0x100 == b0
      && (64 * (64 * x0 + x1) + x2) / 4 % 0x100 == b1
      && (64 * (64 * (64 * x0 + x1) + x2) + x3) % 0x100 == b2
  {
    JoinParts(b0 / 4, b0 % 4, b1 / 16, b1 % 16, b2 / 64, b2 % 64);
  }

  /** The three bytes, each in two parts, come out of the four sextets. */
  lemma JoinParts(h0: int, l0: int, h1: int, l1: int, h2: int, l2: int)
    requires 0 <= h0 < 64 && 0 <= l0 < 4 && 0 <= h1 < 16 && 0 <= l1 < 16 && 0 <= h2 < 4 && 0 <= l2 < 64
    ensures var x0, x1, x2, x3 := h0, l0 * 16 + h1, l1 * 4 + h2, l2;
      (64 * x0 + x1) / 16 % 0x100 == h0 * 4 + l0
      && (64 * (64 * x0 + x1) + x2) / 4 % 0x100 == h1 * 16 + l1
      && (64 * (64 * (64 * x0 + x1) + x2) + x3) % 0x100 == h2 * 64 + l2
  {
    var b0, b1, b2 := h0 * 4 + l0, h1 * 16 + l1, h2 * 64 + l2;
    DivUnique(16 * b0 + h1, 16, b0, h1);
    DivUnique(4 * (0x100 * b0 + b1) + h2, 4, 0x100 * b0 + b1, h2);
    DivUnique(0x100 * b0 + b1, 0x100, b0, b1);
    DivUnique(0x100 * (0x100 * b0 + b1) + b2, 0x100, 0x100 * b0 + b1, b2);
  }

  lemma BytePart(b: int, m: int)
    requires m > 0
    ensures b / m * m + b % m == b
  {
  }

  lemma {:induction false} UnpackedSextets(b: seq<Byte>, g: nat, r: nat)
    requires |b| == 3 * g + r && r < 3
    ensures Unpacked(Sextets(b, 4 * g + (if r == 0 then 0 else r + 1))) == b
  {
    var v := 4 * g + (if r == 0 then 0 else r + 1);
    hide SextetAt;
    if g > 0 {
      UnpackedSextets(b[3..], g - 1, r);
      SextetsTail(b, v);
      hide Sextets, Unpacked;
      BytePart(b[0], 4);
      BytePart(b[1], 16);
      BytePart(b[2], 64);
      UnpackedCons(Sextets(b, v), b[0], b[1], b[2], b[0] / 4, b[0] % 4, b[1] / 16, b[1] % 16, b[2] / 64, b[2] % 64);
      assert b == [b[0], b[1], b[2]] + b[3..];
    } else if r > 0 {
      UnpackedLast(b, v);
    }
  }

  lemma UnpackedLast(b: seq<Byte>, v: nat)
    requires 1 <= |b| <= 2 && v == |b| + 1
    ensures Unpacked(Sextets(b, v)) == b
  {
    Join(b[0], ByteAt(b, 1), 0);
    var x0: int, x1: int, x2: int := b[0] / 4, b[0] % 4 * 16 + ByteAt(b, 1) / 16, ByteAt(b, 1) % 16 * 4;
    assert Sextets(b, 2) == [x0, x1];
    assert |b| == 2 ==> Sextets(b, 3) == [x0, x1, x2];
    hide Sextets;
  }

  lemma UnpackedLong(ds: seq<nat>)
    requires 4 <= |ds|
    ensures Unpacked(ds) == [First(ds), Second(ds), Third(ds)] + Unpacked(ds[4..])
  {
    hide First, Second, Third;
  }

  lemma UnpackedCons(ds: seq<nat>, b0: Byte, b1: Byte, b2: Byte, h0: nat, l0: nat, h1: nat, l1: nat, h2: nat, l2: nat)
    requires 4 <= |ds| && ds[..4] == [h0, l0 * 16 + h1, l1 * 4 + h2, l2]
    requires h0 < 64 && l0 < 4 && h1 < 16 && l1 < 16 && h2 < 4 && l2 < 64
    requires b0 == h0 * 4 + l0 && b1 == h1 * 16 + l1 && b2 == h2 * 64 + l2
    ensures Unpacked(ds) == [b0, b1, b2] + Unpacked(ds[4..])
  {
    FirstThree(ds, h0, l0, h1, l1, h2, l2);
    ThreeMore(ds, b0, b1, b2);
  }

  lemma ThreeMore(ds: seq<nat>, b0: Byte, b1: Byte, b2: Byte)
    requires 4 <= |ds| && First(ds) == b0 && Second(ds) == b1 && Third(ds) == b2
    ensures Unpacked(ds) == [b0, b1, b2] + Unpacked(ds[4..])
  {
    hide First, Second, Third;
    UnpackedLong(ds);
    hide Unpacked;
  }

  lemma FirstThree(ds: seq<nat>, h0: nat, l0: nat, h1: nat, l1: nat, h2: nat, l2: nat)
    requires 4 <= |ds| && ds[..4] == [h0, l0 * 16 + h1, l1 * 4 + h2, l2]
    requires h0 < 64 && l0 < 4 && h1 < 16 && l1 < 16 && h2 < 4 && l2 < 64
    ensures First(ds) == h0 * 4 + l0 && Second(ds) == h1 * 16 + l1 && Third(ds) == h2 * 64 + l2
  {
    hide First, Second, Third;
    ThreeAre(ds, h0, l0 * 16 + h1, l1 * 4 + h2, l2);
    JoinParts(h0, l0, h1, l1, h2, l2);
  }

  lemma ThreeAre(ds: seq<nat>, x0: nat, x1: nat, x2: nat, x3: nat)
    requires 4 <= |ds| && ds[..4] == [x0, x1, x2, x3]
    ensures First(ds) == (64 * x0 + x1) / 16 % 0x100
    ensures Second(ds) == (64 * (64 * x0 + x1) + x2) / 4 % 0x100
    ensures Third(ds) == (64 * (64 * (64 * x0 + x1) + x2) + x3) % 0x100
  {
    assert ds[0] == ds[..4][0] && ds[1] == ds[..4][1] && ds[2] == ds[..4][2] && ds[3] == ds[..4][3];
  }

  lemma SextetsTail(b: seq<Byte>, v: nat)
    requires 3 <= |b| && 4 <= v
    ensures Sextets(b, v)[4..] == Sextets(b[3..], v - 4)
    ensures Sextets(b, v)[..4] == [b[0] / 4, b[0] % 4 * 16 + b[1] / 16, b[1] % 16 * 4 + b[2] / 64, b[2] % 64]
  {
    assert Sextets(b, v)[..4] == [SextetAt(b, 0), SextetAt(b, 1), SextetAt(b, 2), SextetAt(b, 3)];
    assert Sextets(b, v)[4..] == Sextets(b[3..], v - 4) by {
      forall k | 4 <= k < v ensures SextetAt(b, k) == SextetAt(b[3..], k - 4) {
        SextetTail(b, k);
      }
    }
  }

  lemma SextetTail(b: seq<Byte>, k: nat)
    requires 3 <= |b| && 4 <= k
    ensures SextetAt(b, k) == SextetAt(b[3..], k - 4)
  {
    assert 3 * k / 4 == 3 + 3 * (k - 4) / 4 && k % 4 == (k - 4) % 4;
  }

  /** `atob` reads the encoding of any bytes back. */
  lemma AtobText(b: seq<Byte>)
    ensures Atobbed(Text(b)) == Ok(b)
  {
    hide Text, Unpacked, Indices, Stripped, Sextets, Lookup, SextetAt;
    var g, r := |b| / 3, |b| % 3;
    var v := 4 * g + (if r == 0 then 0 else r + 1);
    TextIs(b);
    StrippedIs(Text(b), v);
    IndicesAre(Text(b), b, v);
    UnpackedSextets(b, g, r);
  }

  /** `atob(btoa(a))` is `a`, for every Latin-1 string. */
  lemma AtobBtoa(a: seq<CodeUnit>)
    requires Latin1(a)
    ensures Atobbed(Text(Low(a))) == Ok(a)
  {
    AtobText(Low(a));
  }
}
