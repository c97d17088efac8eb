/** The buffer's variable-width integers: `readUIntLE` to `writeIntBE`, for the 1 to 6 bytes whose values a
    double holds exactly. `x & 0xFF` is the remainder by 256. */
module IntCodec {
  import opened Arithmetic
  import opened Common

  type Byte = b: int | 0 <= b < 0x100

  datatype RangeError = ValueOutOfBounds | IndexOutOfRange

  function Pow256(n: nat): (p: nat)
    ensures p >= 1
  {
    if n == 0 then 1 else 0x100 * Pow256(n - 1)
  }

  /** The half range of a signed integer of `n` bytes: `Math.pow(2, 8 * n - 1)`. */
  function Limit(n: nat): int
    requires n > 0
  {
    0x80 * Pow256(n - 1)
  }

  // ---- the meaning of the bytes ----

  /** The low `n` bytes of `v` in two's complement, least significant first. */
  function Digits(v: int, n: nat): (b: seq<Byte>)
    ensures |b| == n
    decreases n
  {
    if n == 0 then [] else [v % 0x100] + Digits(v / 0x100, n - 1)
  }

  function Unsigned(b: seq<Byte>): nat {
    if b == [] then 0 else b[0] + 0x100 * Unsigned(b[1..])
  }

  function Signed(b: seq<Byte>): int
    requires b != []
  {
    if Unsigned(b) >= Limit(|b|) then Unsigned(b) - Pow256(|b|) else Unsigned(b)
  }

  function Reversed(b: seq<Byte>): (r: seq<Byte>)
    ensures |r| == |b|
    ensures forall k :: 0 <= k < |b| ==> r[k] == b[|b| - 1 - k]
  {
    seq(|b|, k requires 0 <= k < |b| => b[|b| - 1 - k])
  }

  // ---- division ----

  lemma Spread(m: int, h: int, l: int)
    ensures m * (0x100 * h + l) == 0x100 * m * h + m * l
    ensures 0x100 * (m * h) == 0x100 * m * h
  {
  }

  lemma Product(m: int, l: int)
    requires m > 0 && 0 <= l < 0x100
    ensures 0 <= m * l <= m * 0xFF
  {
  }

  /** Dividing by 256 more shifts out one more byte. */
  lemma DivStep(v: int, m: int)
    requires m > 0
    ensures v / (0x100 * m) == v / m / 0x100
    ensures v % (0x100 * m) == m * (v / m % 0x100) + v % m
  {
    var q, r := v / m, v % m;
    var h, l := q / 0x100, q % 0x100;
    Parts(v, m, q, r);
    Spread(m, h, l);
    Product(m, l);
    Stepped(v, m, q, r, h, l);
  }

  lemma Parts(v: int, m: int, q: int, r: int)
    requires m > 0 && q == v / m && r == v % m
    ensures v == m * q + r && 0 <= r < m
  {
  }

  lemma Stepped(v: int, m: int, q: int, r: int, h: int, l: int)
    requires m > 0 && v == m * q + r && 0 <= r < m && q == 0x100 * h + l
    requires m * (0x100 * h + l) == 0x100 * m * h + m * l && 0 <= m * l <= m * 0xFF
    ensures v / (0x100 * m) == h && v % (0x100 * m) == m * l + r
  {
    DivUnique(v, 0x100 * m, h, m * l + r);
  }

  /** A division followed by a shift by nothing: the quotient rounded towards zero. */
  function Truncated(v: int, m: int): int
    requires m > 0
  {
    if v >= 0 then v / m else -(-v / m)
  }

  lemma Negated(m: int, q: int)
    ensures m * -q == -(m * q) && m * (-q - 1) == -(m * q) - m
  {
  }

  /** The quotient rounded down is one less when a negative value leaves a remainder. */
  lemma Borrow(v: int, m: int)
    requires m > 0
    ensures v / m == Truncated(v, m) - (if v < 0 && v % m != 0 then 1 else 0)
  {
    if v < 0 {
      var q, r := -v / m, -v % m;
      Parts(-v, m, q, r);
      Negated(m, q);
      if r == 0 {
        DivUnique(v, m, -q, 0);
      } else {
        DivUnique(v, m, -q - 1, m - r);
      }
    }
  }

  // ---- digits ----

  lemma {:induction false} DigitAt(v: int, n: nat, k: nat)
    requires k < n
    ensures Digits(v, n)[k] == v / Pow256(k) % 0x100
    decreases n
  {
    if k > 0 {
      DigitAt(v / 0x100, n - 1, k - 1);
      DivSwap(v, Pow256(k - 1));
    }
  }

  lemma DivSwap(v: int, m: int)
    requires m > 0
    ensures v / 0x100 / m == v / (0x100 * m)
  {
    var q, r := v / 0x100, v % 0x100;
    Parts(q, m, q / m, q % m);
    Spread(m, q / m, 0);
    DivUnique(v, 0x100 * m, q / m, 0x100 * (q % m) + r);
  }

  lemma Rejoined(v: int, m: int, q: int, h: int, l: int)
    requires m > 0 && q == v / 0x100 && q == m * h + l && 0 <= l < m && 0x100 * (m * h) == 0x100 * m * h
    ensures v % (0x100 * m) == 0x100 * l + v % 0x100
  {
    DivUnique(v, 0x100 * m, h, 0x100 * l + v % 0x100);
  }

  /** The digits give the value back, up to multiples of `256^n`. */
  lemma {:induction false} UnsignedDigits(v: int, n: nat)
    ensures Unsigned(Digits(v, n)) == v % Pow256(n)
    decreases n
  {
    if n > 0 {
      UnsignedDigits(v / 0x100, n - 1);
      var q, m := v / 0x100, Pow256(n - 1);
      Parts(q, m, q / m, q % m);
      Spread(m, q / m, 0);
      Rejoined(v, m, q, q / m, q % m);
      assert Digits(v, n)[1..] == Digits(q, n - 1);
    }
  }

  lemma {:induction false} UnsignedBound(b: seq<Byte>)
    ensures Unsigned(b) < Pow256(|b|)
  {
    if b != [] {
      UnsignedBound(b[1..]);
    }
  }

  lemma {:induction false} DigitsUnsigned(b: seq<Byte>)
    ensures Digits(Unsigned(b), |b|) == b
  {
    if b != [] {
      DigitsUnsigned(b[1..]);
      assert Unsigned(b) / 0x100 == Unsigned(b[1..]) && Unsigned(b) % 0x100 == b[0];
    }
  }

  /** Reading what was written gives every value in range back, unsigned and signed. */
  lemma ValueRoundTrip(v: int, n: nat)
    requires n > 0
    ensures 0 <= v < Pow256(n) ==> Unsigned(Digits(v, n)) == v
    ensures -Limit(n) <= v < Limit(n) ==> Signed(Digits(v, n)) == v
  {
    var m := Pow256(n);
    UnsignedDigits(v, n);
    if 0 <= v < m {
      DivUnique(v, m, 0, v);
    } else if -m <= v < 0 {
      DivUnique(v, m, -1, v + m);
    }
  }

  /** Writing what was read gives every byte sequence back, unsigned and signed. */
  lemma BytesRoundTrip(b: seq<Byte>)
    requires b != []
    ensures Digits(Unsigned(b), |b|) == b && Unsigned(b) < Pow256(|b|)
    ensures Digits(Signed(b), |b|) == b && -Limit(|b|) <= Signed(b) < Limit(|b|)
  {
    hide Digits, Unsigned;
    DigitsUnsigned(b);
    UnsignedBound(b);
    DigitsWrap(Unsigned(b), |b|);
  }

  /** `256^n` more or less does not change the low `n` bytes. */
  lemma {:induction false} DigitsWrap(v: int, n: nat)
    ensures Digits(v - Pow256(n), n) == Digits(v, n)
    decreases n
  {
    if n > 0 {
      var m := Pow256(n - 1);
      DivUnique(v - 0x100 * m, 0x100, v / 0x100 - m, v % 0x100);
      DigitsWrap(v / 0x100, n - 1);
    }
  }

  /** The value of the low bytes and one byte more. */
  lemma {:induction false} UnsignedSnoc(b: seq<Byte>, d: Byte)
    ensures Unsigned(b + [d]) == Unsigned(b) + Pow256(|b|) * d
  {
    if b == [] {
      assert b + [d] == [d];
      assert Unsigned([d]) == d + 0x100 * Unsigned([]);
    } else {
      assert (b + [d])[1..] == b[1..] + [d];
      UnsignedSnoc(b[1..], d);
      assert 0x100 * (Pow256(|b| - 1) * d) == Pow256(|b|) * d;
    }
  }

  // ---- reading ----

  method ReadUIntLE(buf: array<Byte>, offset: nat, byteLength: nat) returns (r: Result<int, RangeError>)
    requires 1 <= byteLength <= 6
    ensures if offset + byteLength > buf.Length then r == Err(IndexOutOfRange)
            else r == Ok(Unsigned(buf[offset..offset + byteLength]))
  {
    if offset + byteLength > buf.Length {
      return Err(IndexOutOfRange);
    }
    var val := SumLE(buf, offset, byteLength);
    r := Ok(val);
  }

  /** The loop that `readUIntLE` and `readIntLE` share. */
  method SumLE(buf: array<Byte>, offset: nat, byteLength: nat) returns (val: int)
    requires 1 <= byteLength && offset + byteLength <= buf.Length
    ensures val == Unsigned(buf[offset..offset + byteLength])
  {
    val := buf[offset];
    var mul: int := 1;
    var i := 1;
    assert buf[offset..offset + 1] == [buf[offset]];
    while i < byteLength
      invariant 1 <= i <= byteLength && 0x100 * mul == Pow256(i)
      invariant val == Unsigned(buf[offset..offset + i])
    {
      mul := mul * 0x100;
      UnsignedSnoc(buf[offset..offset + i], buf[offset + i]);
      assert buf[offset..offset + i + 1] == buf[offset..offset + i] + [buf[offset + i]];
      val := val + buf[offset + i] * mul;
      i := i + 1;
    }
  }

  /** One more byte in front is one more at the end of the reversed bytes. */
  lemma ReversedStep(b: seq<Byte>, i: nat)
    requires i < |b|
    ensures Reversed(b[i..]) == Reversed(b[i + 1..]) + [b[i]]
    ensures i == |b| - 1 ==> Reversed(b[i..]) == [b[i]]
  {
  }

  method SumBE(buf: array<Byte>, offset: nat, byteLength: nat) returns (val: int)
    requires 1 <= byteLength && offset + byteLength <= buf.Length
    ensures val == Unsigned(Reversed(buf[offset..offset + byteLength]))
  {
    ghost var b := buf[offset..offset + byteLength];
    var i := byteLength - 1;
    val := buf[offset + i];
    var mul: int := 1;
    ReversedStep(b, i);
    hide Reversed;
    while i > 0
      invariant 0 <= i < byteLength && 0x100 * mul == Pow256(byteLength - i)
      invariant val == Unsigned(Reversed(b[i..]))
    {
      mul := mul * 0x100;
      i := i - 1;
      UnsignedSnoc(Reversed(b[i + 1..]), b[i]);
      ReversedStep(b, i);
      val := val + buf[offset + i] * mul;
    }
    assert b[0..] == b;
  }

  method ReadUIntBE(buf: array<Byte>, offset: nat, byteLength: nat) returns (r: Result<int, RangeError>)
    requires 1 <= byteLength <= 6
    ensures if offset + byteLength > buf.Length then r == Err(IndexOutOfRange)
            else r == Ok(Unsigned(Reversed(buf[offset..offset + byteLength])))
  {
    if offset + byteLength > buf.Length {
      return Err(IndexOutOfRange);
    }
    var val := SumBE(buf, offset, byteLength);
    r := Ok(val);
  }

  method ReadIntLE(buf: array<Byte>, offset: nat, byteLength: nat) returns (r: Result<int, RangeError>)
    requires 1 <= byteLength <= 6
    ensures if offset + byteLength > buf.Length then r == Err(IndexOutOfRange)
            else r == Ok(Signed(buf[offset..offset + byteLength]))
  {
    if offset + byteLength > buf.Length {
      return Err(IndexOutOfRange);
    }
    var val := SumLE(buf, offset, byteLength);
    if val >= Limit(byteLength) {
      val := val - Pow256(byteLength);
    }
    r := Ok(val);
  }

  method ReadIntBE(buf: array<Byte>, offset: nat, byteLength: nat) returns (r: Result<int, RangeError>)
    requires 1 <= byteLength <= 6
    ensures if offset + byteLength > buf.Length then r == Err(IndexOutOfRange)
            else r == Ok(Signed(Reversed(buf[offset..offset + byteLength])))
  {
    if offset + byteLength > buf.Length {
      return Err(IndexOutOfRange);
    }
    var val := SumBE(buf, offset, byteLength);
    if val >= Limit(byteLength) {
      val := val - Pow256(byteLength);
    }
    r := Ok(val);
  }

  // ---- writing ----

  /** The bytes of `b` from `offset` on are replaced by `d`. */
  function Patched(b: seq<Byte>, offset: nat, d: seq<Byte>): seq<Byte>
    requires offset + |d| <= |b|
  {
    b[..offset] + d + b[offset + |d|..]
  }

  lemma PatchedIs(now: seq<Byte>, was: seq<Byte>, offset: nat, d: seq<Byte>)
    requires |now| == |was| && offset + |d| <= |was|
    requires forall k :: 0 <= k < |d| ==> now[offset + k] == d[k]
    requires forall k :: 0 <= k < |was| && !(offset <= k < offset + |d|) ==> now[k] == was[k]
    ensures now == Patched(was, offset, d)
  {
  }

  /** `checkInt` */
  function CheckInt(length: nat, value: int, offset: nat, ext: nat, max: int, min: int): Option<RangeError> {
    if value > max || value < min then Some(ValueOutOfBounds)
    else if offset + ext > length then Some(IndexOutOfRange)
    else None
  }

  method WriteUIntLE(buf: array<Byte>, value: int, offset: nat, byteLength: nat) returns (r: Result<nat, RangeError>)
    requires 1 <= byteLength <= 6
    modifies buf
    ensures r == Err(ValueOutOfBounds) <==> !(0 <= value < Pow256(byteLength))
    ensures r == Err(IndexOutOfRange) <==> 0 <= value < Pow256(byteLength) && offset + byteLength > buf.Length
    ensures match CheckInt(buf.Length, value, offset, byteLength, Pow256(byteLength) - 1, 0)
            case Some(e) => r == Err(e) && buf[..] == old(buf[..])
            case None => r == Ok(offset + byteLength)
                         && buf[..] == Patched(old(buf[..]), offset, Digits(value, byteLength))
  {
    hide Patched, Digits, Reversed;
    var e := CheckInt(buf.Length, value, offset, byteLength, Pow256(byteLength) - 1, 0);
    if e.Some? {
      return Err(e.value);
    }
    ghost var was := buf[..];
    ghost var d := Digits(value, byteLength);
    DigitAt(value, byteLength, 0);
    var mul, i := 1, 1;
    buf[offset] := value % 0x100;
    while i < byteLength
      invariant 1 <= i <= byteLength && mul == Pow256(i - 1)
      invariant forall k :: 0 <= k < i ==> buf[offset + k] == d[k]
      invariant forall k :: 0 <= k < buf.Length && !(offset <= k < offset + byteLength) ==> buf[k] == was[k]
    {
      mul := mul * 0x100;
      DigitAt(value, byteLength, i);
      buf[offset + i] := Truncated(value, mul) % 0x100;
      i := i + 1;
    }
    PatchedIs(buf[..], was, offset, d);
    r := Ok(offset + byteLength);
  }

  method WriteUIntBE(buf: array<Byte>, value: int, offset: nat, byteLength: nat) returns (r: Result<nat, RangeError>)
    requires 1 <= byteLength <= 6
    modifies buf
    ensures r == Err(ValueOutOfBounds) <==> !(0 <= value < Pow256(byteLength))
    ensures r == Err(IndexOutOfRange) <==> 0 <= value < Pow256(byteLength) && offset + byteLength > buf.Length
    ensures match CheckInt(buf.Length, value, offset, byteLength, Pow256(byteLength) - 1, 0)
            case Some(e) => r == Err(e) && buf[..] == old(buf[..])
            case None => r == Ok(offset + byteLength)
                         && buf[..] == Patched(old(buf[..]), offset, Reversed(Digits(value, byteLength)))
  {
    hide Patched, Digits, Reversed;
    var e := CheckInt(buf.Length, value, offset, byteLength, Pow256(byteLength) - 1, 0);
    if e.Some? {
      return Err(e.value);
    }
    ghost var was := buf[..];
    ghost var d := Digits(value, byteLength);
    DigitAt(value, byteLength, 0);
    var i, mul := byteLength - 1, 1;
    buf[offset + i] := value % 0x100;
    while i > 0
      invariant 0 <= i < byteLength && mul == Pow256(byteLength - 1 - i)
      invariant forall k :: 0 <= k < byteLength - i ==> buf[offset + byteLength - 1 - k] == d[k]
      invariant forall k :: 0 <= k < buf.Length && !(offset <= k < offset + byteLength) ==> buf[k] == was[k]
    {
      i := i - 1;
      mul := mul * 0x100;
      DigitAt(value, byteLength, byteLength - 1 - i);
      buf[offset + i] := Truncated(value, mul) % 0x100;
    }
    assert forall k :: 0 <= k < byteLength ==> buf[..][offset + k] == Reversed(d)[k];
    PatchedIs(buf[..], was, offset, Reversed(d));
    r := Ok(offset + byteLength);
  }

  /** The borrow of the next byte: some byte written so far is not zero. */
  lemma NextBorrow(v: int, n: nat, i: nat)
    requires 0 < i < n
    ensures v % Pow256(i) != 0 <==> v % Pow256(i - 1) != 0 || Digits(v, n)[i - 1] != 0
    ensures Digits(v, n)[i] == (Truncated(v, Pow256(i)) - (if v < 0 && v % Pow256(i) != 0 then 1 else 0)) % 0x100
  {
    var m := Pow256(i - 1);
    DigitAt(v, n, i - 1);
    DigitAt(v, n, i);
    DivStep(v, m);
    Multiple(m, v / m % 0x100);
    Borrow(v, 0x100 * m);
  }

  method WriteIntLE(buf: array<Byte>, value: int, offset: nat, byteLength: nat) returns (r: Result<nat, RangeError>)
    requires 1 <= byteLength <= 6
    modifies buf
    ensures r == Err(ValueOutOfBounds) <==> !(-Limit(byteLength) <= value < Limit(byteLength))
    ensures r == Err(IndexOutOfRange) <==>
      -Limit(byteLength) <= value < Limit(byteLength) && offset + byteLength > buf.Length
    ensures match CheckInt(buf.Length, value, offset, byteLength, Limit(byteLength) - 1, -Limit(byteLength))
            case Some(e) => r == Err(e) && buf[..] == old(buf[..])
            case None => r == Ok(offset + byteLength)
                         && buf[..] == Patched(old(buf[..]), offset, Digits(value, byteLength))
  {
    hide Patched, Digits, Reversed, Truncated, Limit;
    var e := CheckInt(buf.Length, value, offset, byteLength, Limit(byteLength) - 1, -Limit(byteLength));
    if e.Some? {
      return Err(e.value);
    }
    ghost var was := buf[..];
    ghost var d := Digits(value, byteLength);
    DigitAt(value, byteLength, 0);
    var i, mul, sub := 1, 1, 0;
    buf[offset] := value % 0x100;
    while i < byteLength
      invariant 1 <= i <= byteLength && mul == Pow256(i - 1)
      invariant sub == if value < 0 && value % mul != 0 then 1 else 0
      invariant forall k :: 0 <= k < i ==> buf[offset + k] == d[k]
      invariant forall k :: 0 <= k < buf.Length && !(offset <= k < offset + byteLength) ==> buf[k] == was[k]
    {
      NextBorrow(value, byteLength, i);
      mul := mul * 0x100;
      if value < 0 && sub == 0 && buf[offset + i - 1] != 0 {
        sub := 1;
      }
      buf[offset + i] := (Truncated(value, mul) - sub) % 0x100;
      i := i + 1;
    }
    PatchedIs(buf[..], was, offset, d);
    r := Ok(offset + byteLength);
  }

  method WriteIntBE(buf: array<Byte>, value: int, offset: nat, byteLength: nat) returns (r: Result<nat, RangeError>)
    requires 1 <= byteLength <= 6
    modifies buf
    ensures r == Err(ValueOutOfBounds) <==> !(-Limit(byteLength) <= value < Limit(byteLength))
    ensures r == Err(IndexOutOfRange) <==>
      -Limit(byteLength) <= value < Limit(byteLength) && offset + byteLength > buf.Length
    ensures match CheckInt(buf.Length, value, offset, byteLength, Limit(byteLength) - 1, -Limit(byteLength))
            case Some(e) => r == Err(e) && buf[..] == old(buf[..])
            case None => r == Ok(offset + byteLength)
                         && buf[..] == Patched(old(buf[..]), offset, Reversed(Digits(value, byteLength)))
  {
    hide Patched, Digits, Reversed, Truncated, Limit;
    var e := CheckInt(buf.Length, value, offset, byteLength, Limit(byteLength) - 1, -Limit(byteLength));
    if e.Some? {
      return Err(e.value);
    }
    ghost var was := buf[..];
    ghost var d := Digits(value, byteLength);
    DigitAt(value, byteLength, 0);
    var i, mul, sub := byteLength - 1, 1, 0;
    buf[offset + i] := value % 0x100;
    while i > 0
      invariant 0 <= i < byteLength && mul == Pow256(byteLength - 1 - i)
      invariant sub == if value < 0 && value % mul != 0 then 1 else 0
      invariant forall k :: 0 <= k < byteLength - i ==> buf[offset + byteLength - 1 - k] == d[k]
      invariant forall k :: 0 <= k < buf.Length && !(offset <= k < offset + byteLength) ==> buf[k] == was[k]
    {
      i := i - 1;
      NextBorrow(value, byteLength, byteLength - 1 - i);
      mul := mul * 0x100;
      if value < 0 && sub == 0 && buf[offset + i + 1] != 0 {
        sub := 1;
      }
      buf[offset + i] := (Truncated(value, mul) - sub) % 0x100;
    }
    assert forall k :: 0 <= k < byteLength ==> buf[..][offset + k] == Reversed(d)[k];
    PatchedIs(buf[..], was, offset, Reversed(d));
    r := Ok(offset + byteLength);
  }
}
