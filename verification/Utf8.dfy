/** UTF-8 and UTF-16: `utf8ToBytes`, `utf8Slice` and `decodeCodePointsArray`. Shifts and masks by powers of two are
    written as divisions and remainders; `|` joins bit fields that do not overlap and is written as a sum. */
module Utf8 {
  import opened Arithmetic
  import opened Common

  type Byte = b: int | 0 <= b < 0x100
  type Unit = u: int | 0 <= u < 0x10000

  const REPLACEMENT := 0xFFFD

  // ---- code points ----

  predicate IsScalar(c: int) {
    0 <= c < 0xD800 || 0xE000 <= c < 0x110000
  }

  predicate IsLead(u: Unit) {
    0xD800 <= u < 0xDC00
  }

  predicate IsTrail(u: Unit) {
    0xDC00 <= u < 0xE000
  }

  /** UTF-16 of a code point (RFC 2781, section 2.1). */
  function Units(c: int): seq<Unit>
    requires IsScalar(c)
  {
    if c < 0x10000 then [c] else [0xD800 + (c - 0x10000) / 0x400, 0xDC00 + (c - 0x10000) % 0x400]
  }

  function PairValue(lead: Unit, trail: Unit): (c: int)
    ensures IsLead(lead) && IsTrail(trail) ==> 0x10000 <= c < 0x110000
  {
    0x10000 + (lead - 0xD800) * 0x400 + (trail - 0xDC00)
  }

  /** UTF-16 read as code points (RFC 2781, section 2.2), each unpaired surrogate as U+FFFD. */
  function Scalars(s: seq<Unit>): (r: seq<int>)
    ensures forall i :: 0 <= i < |r| ==> IsScalar(r[i])
  {
    if s == [] then []
    else if IsLead(s[0]) && |s| > 1 && IsTrail(s[1]) then [PairValue(s[0], s[1])] + Scalars(s[2..])
    else [if IsLead(s[0]) || IsTrail(s[0]) then REPLACEMENT else s[0]] + Scalars(s[1..])
  }

  predicate WellFormed16(s: seq<Unit>) {
    s == [] || (IsLead(s[0]) && |s| > 1 && IsTrail(s[1]) && WellFormed16(s[2..]))
    || (!IsLead(s[0]) && !IsTrail(s[0]) && WellFormed16(s[1..]))
  }

  /** UTF-8 of a code point (RFC 3629, section 3), as the encoder's branches write it. */
  function Encode1(c: int): (r: seq<Byte>)
    requires IsScalar(c)
    ensures 1 <= |r| <= 4
  {
    if c < 0x80 then [c]
    else if c < 0x800 then [0xC0 + c / 0x40, 0x80 + c % 0x40]
    else if c < 0x10000 then [0xE0 + c / 0x1000, 0x80 + c / 0x40 % 0x40, 0x80 + c % 0x40]
    else [0xF0 + c / 0x40000, 0x80 + c / 0x1000 % 0x40, 0x80 + c / 0x40 % 0x40, 0x80 + c % 0x40]
  }

  function EncodeEach(cs: seq<int>): (r: seq<seq<Byte>>)
    requires forall i :: 0 <= i < |cs| ==> IsScalar(cs[i])
    ensures |r| == |cs|
    ensures forall i :: 0 <= i < |cs| ==> r[i] == Encode1(cs[i])
  {
    if cs == [] then [] else [Encode1(cs[0])] + EncodeEach(cs[1..])
  }

  function Flat(items: seq<seq<Byte>>): seq<Byte> {
    if items == [] then [] else items[0] + Flat(items[1..])
  }

  // ---- well-formed UTF-8, as in the grammar of RFC 3629, section 4 ----

  predicate Tail(b: Byte) {
    0x80 <= b <= 0xBF
  }

  /** The length of the well-formed character that `b` starts with; 0 if it starts with none. */
  function CharLength(b: seq<Byte>): (n: nat)
    ensures n <= |b| && n <= 4
  {
    if |b| >= 1 && b[0] <= 0x7F then 1
    else if |b| >= 2 && 0xC2 <= b[0] <= 0xDF && Tail(b[1]) then 2
    else if |b| >= 3 && Tail(b[2])
            && ((b[0] == 0xE0 && 0xA0 <= b[1] <= 0xBF) || (0xE1 <= b[0] <= 0xEC && Tail(b[1]))
                || (b[0] == 0xED && 0x80 <= b[1] <= 0x9F) || (0xEE <= b[0] <= 0xEF && Tail(b[1]))) then 3
    else if |b| >= 4 && Tail(b[2]) && Tail(b[3])
            && ((b[0] == 0xF0 && 0x90 <= b[1] <= 0xBF) || (0xF1 <= b[0] <= 0xF3 && Tail(b[1]))
                || (b[0] == 0xF4 && 0x80 <= b[1] <= 0x8F)) then 4
    else 0
  }

  predicate WellFormed8(b: seq<Byte>) {
    b == [] || (CharLength(b) > 0 && WellFormed8(b[CharLength(b)..]))
  }

  // ---- the encoder ----

  /** The characters that the loop of `utf8ToBytes` writes, from a lead surrogate that waits for its trail
      (0 for none) and the rest of the string. */
  function Items(lead: int, s: seq<Unit>): seq<seq<Byte>>
    requires lead == 0 || 0xD800 <= lead < 0xDC00
    decreases |s|
  {
    if s == [] then []
    else
      var c := s[0];
      if 0xD7FF < c < 0xE000 then
        if lead == 0 then
          if c > 0xDBFF || |s| == 1 then [Encode1(REPLACEMENT)] + Items(0, s[1..])
          else Items(c, s[1..])
        else if c < 0xDC00 then [Encode1(REPLACEMENT)] + Items(c, s[1..])
        else [Encode1(PairValue(lead, c))] + Items(0, s[1..])
      else if lead != 0 then [Encode1(REPLACEMENT)] + ([Encode1(c)] + Items(0, s[1..]))
      else [Encode1(c)] + Items(0, s[1..])
  }

  /** The items that fit in `units` bytes, up to the first that does not. No limit is `None`. */
  function Fit(items: seq<seq<Byte>>, units: Option<int>): seq<Byte> {
    if items == [] then []
    else match units
      case None => items[0] + Fit(items[1..], None)
      case Some(n) => if |items[0]| <= n then items[0] + Fit(items[1..], Some(n - |items[0]|)) else []
  }

  /** `utf8ToBytes`. A limit of 0 counts as none. A replacement that does not fit is skipped, but leaves `units`
      negative, so that nothing after it is written either. */
  method Utf8ToBytes(s: seq<Unit>, limit: int) returns (bytes: seq<Byte>)
    ensures bytes == Fit(Items(0, s), if limit == 0 then None else Some(limit))
  {
    hide Fit, Encode1, PairValue;
    var units: Option<int> := if limit == 0 then None else Some(limit);
    ghost var goal := Fit(Items(0, s), units);
    var lead := 0;
    bytes := [];
    var i := 0;
    while i < |s|
      invariant 0 <= i <= |s| && (lead == 0 || 0xD800 <= lead < 0xDC00)
      invariant goal == bytes + Fit(Items(lead, s[i..]), units)
    {
      var c: int := s[i];
      assert s[i..][0] == c && s[i..][1..] == s[i + 1..];
      i := i + 1;
      if 0xD7FF < c < 0xE000 {
        if lead == 0 {
          if c > 0xDBFF || i == |s| {
            bytes, units := PushReplacement(bytes, units, Items(0, s[i..]));
            continue;
          }
          lead := c;
          continue;
        }
        if c < 0xDC00 {
          bytes, units := PushReplacement(bytes, units, Items(c, s[i..]));
          lead := c;
          continue;
        }
        c := PairValue(lead, c);
      } else if lead != 0 {
        bytes, units := PushReplacement(bytes, units, [Encode1(c)] + Items(0, s[i..]));
      }
      lead := 0;
      var stop;
      bytes, units, stop := PushItem(bytes, units, Encode1(c), Items(0, s[i..]));
      if stop {
        return;
      }
    }
    FitEmpty(units);
  }

  function Less(units: Option<int>, n: nat): Option<int> {
    match units case None => None case Some(u) => Some(u - n)
  }

  /** The replacement character, which is left out if it does not fit; the room it would need is taken all the same. */
  method PushReplacement(bytes: seq<Byte>, units: Option<int>, ghost rest: seq<seq<Byte>>)
    returns (out: seq<Byte>, left: Option<int>)
    ensures left == Less(units, 3)
    ensures bytes + Fit([Encode1(REPLACEMENT)] + rest, units) == out + Fit(rest, left)
  {
    left := Less(units, 3);
    out := if left == None || left.value > -1 then bytes + [0xEF, 0xBF, 0xBD] else bytes;
    FitNothing(rest, left);
  }

  /** A character of the string, which ends the encoding if it does not fit. */
  method PushItem(bytes: seq<Byte>, units: Option<int>, item: seq<Byte>, ghost rest: seq<seq<Byte>>)
    returns (out: seq<Byte>, left: Option<int>, stop: bool)
    ensures bytes + Fit([item] + rest, units) == if stop then out else out + Fit(rest, left)
  {
    left := Less(units, |item|);
    stop := left.Some? && left.value < 0;
    out := if stop then bytes else bytes + item;
  }

  lemma FitEmpty(units: Option<int>)
    ensures Fit([], units) == []
  {
  }

  lemma FitNothing(items: seq<seq<Byte>>, units: Option<int>)
    ensures units.Some? && units.value < 0 ==> Fit(items, units) == []
  {
  }

  // ---- the decoder ----

  /** A byte that continues a sequence: its two high bits are 1 and 0. */
  predicate Continues(b: Byte) {
    b / 0x40 == 2
  }

  /** `bytesPerSequence` */
  function SequenceLength(first: Byte): (n: nat)
    ensures 1 <= n <= 4
  {
    if first > 0xEF then 4 else if first > 0xDF then 3 else if first > 0xBF then 2 else 1
  }

  /** The code point of the sequence that `b` starts with, if the branch for its length accepts it. */
  function ReadSequence(b: seq<Byte>): Option<int>
    requires b != [] && SequenceLength(b[0]) <= |b|
  {
    match SequenceLength(b[0])
    case 1 => if b[0] < 0x80 then Some(b[0]) else None
    case 2 =>
      var t := Join2(b[0], b[1]);
      if Continues(b[1]) && t > 0x7F then Some(t) else None
    case 3 =>
      var t := Join3(b[0], b[1], b[2]);
      if Continues(b[1]) && Continues(b[2]) && t > 0x7FF && (t < 0xD800 || t > 0xDFFF) then Some(t) else None
    case _ =>
      var t := Join4(b[0], b[1], b[2], b[3]);
      if Continues(b[1]) && Continues(b[2]) && Continues(b[3]) && t > 0xFFFF && t < 0x110000 then Some(t) else None
  }

  function Join2(b0: int, b1: int): int {
    b0 % 0x20 * 0x40 + b1 % 0x40
  }

  function Join3(b0: int, b1: int, b2: int): int {
    b0 % 0x10 * 0x1000 + b1 % 0x40 * 0x40 + b2 % 0x40
  }

  function Join4(b0: int, b1: int, b2: int, b3: int): int {
    b0 % 0x10 * 0x40000 + b1 % 0x40 * 0x1000 + b2 % 0x40 * 0x40 + b3 % 0x40
  }

  /** One turn of the loop of `utf8Slice`: the code point, and how many bytes it took. */
  function Decode1(b: seq<Byte>): (r: (int, nat))
    requires b != []
    ensures IsScalar(r.0) && 1 <= r.1 <= |b|
  {
    var n := SequenceLength(b[0]);
    match if n <= |b| then ReadSequence(b) else None
    case Some(c) => (c, n)
    case None => (REPLACEMENT, 1)
  }

  function CodePoints(b: seq<Byte>): (r: seq<int>)
    ensures forall i :: 0 <= i < |r| ==> IsScalar(r[i])
    decreases |b|
  {
    if b == [] then [] else [Decode1(b).0] + CodePoints(b[Decode1(b).1..])
  }

  function UnitsEach(cs: seq<int>): seq<Unit>
    requires forall i :: 0 <= i < |cs| ==> IsScalar(cs[i])
  {
    if cs == [] then [] else Units(cs[0]) + UnitsEach(cs[1..])
  }

  const MAX_ARGUMENTS_LENGTH := 0x1000

  /** `decodeCodePointsArray`: the code units in chunks of bounded length, joined. */
  method JoinChunks(codePoints: seq<Unit>) returns (res: seq<Unit>)
    ensures res == codePoints
  {
    if |codePoints| <= MAX_ARGUMENTS_LENGTH {
      return codePoints;
    }
    res := [];
    var i := 0;
    while i < |codePoints|
      invariant 0 <= i && res == codePoints[..if i <= |codePoints| then i else |codePoints|]
    {
      var end := if i + MAX_ARGUMENTS_LENGTH <= |codePoints| then i + MAX_ARGUMENTS_LENGTH else |codePoints|;
      res := res + codePoints[i..end];
      i := i + MAX_ARGUMENTS_LENGTH;
    }
  }

  /** `utf8Slice` */
  method Utf8Slice(buf: array<Byte>, start: nat, end: nat) returns (text: seq<Unit>)
    ensures var stop := if buf.Length < end then buf.Length else end;
            text == if start < stop then UnitsEach(CodePoints(buf[start..stop])) else []
  {
    hide Decode1, Units;
    var stop := if buf.Length < end then buf.Length else end;
    var res: seq<Unit> := [];
    var i := start;
    while i < stop
      invariant start <= i && (start < stop ==> i <= stop)
      invariant start < stop ==> UnitsEach(CodePoints(buf[start..stop])) == res + UnitsEach(CodePoints(buf[i..stop]))
      invariant start >= stop ==> res == []
    {
      var (c, n) := Decode1(buf[i..stop]);
      assert buf[i..stop][n..] == buf[i + n..stop];
      res := res + Units(c);
      i := i + n;
    }
    text := JoinChunks(res);
  }

  // ---- one character ----

  lemma DecodeEncode1(c: int, rest: seq<Byte>)
    requires IsScalar(c)
    ensures Decode1(Encode1(c) + rest) == (c, |Encode1(c)|)
  {
    hide Join2, Join3, Join4;
    var e := Encode1(c);
    var b := e + rest;
    assert forall i :: 0 <= i < |e| ==> b[i] == e[i];
    if 0x80 <= c < 0x800 {
      JoinSplit2(c);
    } else if 0x800 <= c < 0x10000 {
      JoinSplit3(c);
    } else if 0x10000 <= c {
      JoinSplit4(c);
    }
  }

  lemma JoinSplit2(c: int)
    requires 0 <= c < 0x800
    ensures Join2(0xC0 + c / 0x40, 0x80 + c % 0x40) == c
  {
  }

  lemma JoinSplit3(c: int)
    requires 0 <= c < 0x10000
    ensures Join3(0xE0 + c / 0x1000, 0x80 + c / 0x40 % 0x40, 0x80 + c % 0x40) == c
  {
    DigitsOf(c);
    Join3Is(c / 0x1000, c / 0x40 % 0x40, c % 0x40);
  }

  lemma JoinSplit4(c: int)
    requires 0 <= c < 0x110000
    ensures Join4(0xF0 + c / 0x40000, 0x80 + c / 0x1000 % 0x40, 0x80 + c / 0x40 % 0x40, 0x80 + c % 0x40) == c
  {
    DigitsOf(c);
    Join4Is(c / 0x40000, c / 0x1000 % 0x40, c / 0x40 % 0x40, c % 0x40);
  }

  lemma LowBits(high: int, low: int)
    requires high == 0x80 && 0 <= low < 0x40
    ensures (high + low) % 0x40 == low
  {
  }

  lemma Join3Is(x2: int, x1: int, x0: int)
    requires 0 <= x2 < 0x10 && 0 <= x1 < 0x40 && 0 <= x0 < 0x40
    ensures Join3(0xE0 + x2, 0x80 + x1, 0x80 + x0) == (x2 * 0x40 + x1) * 0x40 + x0
  {
    LowBits(0x80, x1);
    LowBits(0x80, x0);
    assert (0xE0 + x2) % 0x10 == x2;
  }

  lemma Join4Is(x3: int, x2: int, x1: int, x0: int)
    requires 0 <= x3 < 0x10 && 0 <= x2 < 0x40 && 0 <= x1 < 0x40 && 0 <= x0 < 0x40
    ensures Join4(0xF0 + x3, 0x80 + x2, 0x80 + x1, 0x80 + x0) == ((x3 * 0x40 + x2) * 0x40 + x1) * 0x40 + x0
  {
    LowBits(0x80, x2);
    LowBits(0x80, x1);
    LowBits(0x80, x0);
    assert (0xF0 + x3) % 0x10 == x3;
  }

  /** A number is made of its digits to the base of 64, */
  lemma DigitsOf(c: int)
    ensures c == (c / 0x1000 * 0x40 + c / 0x40 % 0x40) * 0x40 + c % 0x40
    ensures c / 0x1000 == c / 0x40000 * 0x40 + c / 0x1000 % 0x40
  {
    Nested(c);
  }

  lemma Nested(c: int)
    ensures c / 0x1000 == c / 0x40 / 0x40 && c / 0x40000 == c / 0x1000 / 0x40
  {
  }

  /** and its digits are these. */
  lemma Digits3(x2: int, x1: int, x0: int)
    requires 0 <= x1 < 0x40 && 0 <= x0 < 0x40
    ensures var c := (x2 * 0x40 + x1) * 0x40 + x0; c / 0x1000 == x2 && c / 0x40 % 0x40 == x1 && c % 0x40 == x0
  {
    Shifted(x2 * 0x40 + x1, x0);
    Shifted(x2, x1);
    Nested((x2 * 0x40 + x1) * 0x40 + x0);
  }

  lemma Shifted(q: int, low: int)
    requires 0 <= low < 0x40
    ensures (q * 0x40 + low) / 0x40 == q && (q * 0x40 + low) % 0x40 == low
  {
    DivUnique(q * 0x40 + low, 0x40, q, low);
  }

  lemma CharLengthEncode1(c: int, rest: seq<Byte>)
    requires IsScalar(c)
    ensures CharLength(Encode1(c) + rest) == |Encode1(c)|
  {
    var e := Encode1(c);
    assert forall i :: 0 <= i < |e| ==> (e + rest)[i] == e[i];
    DigitsOf(c);
    if 0x800 <= c < 0x10000 {
      Length3(e + rest, c / 0x1000, c / 0x40 % 0x40, c % 0x40);
    } else if 0x10000 <= c {
      Length4(e + rest, c / 0x40000, c / 0x1000 % 0x40, c / 0x40 % 0x40, c % 0x40);
    }
  }

  /** Three bytes are a well-formed character if and only if their digits make up a code point of that size. */
  lemma Length3(b: seq<Byte>, x2: int, x1: int, x0: int)
    requires |b| >= 3 && b[0] == 0xE0 + x2 && b[1] == 0x80 + x1 && b[2] == 0x80 + x0
    requires 0 <= x2 < 0x10 && 0 <= x1 < 0x40 && 0 <= x0 < 0x40
    ensures var c := (x2 * 0x40 + x1) * 0x40 + x0;
      if c >= 0x800 && (c < 0xD800 || c > 0xDFFF) then CharLength(b) == 3 else CharLength(b) == 0
  {
  }

  lemma Length4(b: seq<Byte>, x3: int, x2: int, x1: int, x0: int)
    requires |b| >= 4 && b[0] == 0xF0 + x3 && b[1] == 0x80 + x2 && b[2] == 0x80 + x1 && b[3] == 0x80 + x0
    requires 0 <= x3 < 0x10 && 0 <= x2 < 0x40 && 0 <= x1 < 0x40 && 0 <= x0 < 0x40
    ensures var c := ((x3 * 0x40 + x2) * 0x40 + x1) * 0x40 + x0;
      if 0x10000 <= c < 0x110000 then CharLength(b) == 4 else CharLength(b) == 0
  {
  }

  lemma SplitJoin2(b0: int, b1: int)
    requires 0xC0 <= b0 < 0xE0 && 0x80 <= b1 < 0xC0
    ensures var c := Join2(b0, b1); 0xC0 + c / 0x40 == b0 && 0x80 + c % 0x40 == b1
  {
  }

  /** A turn of the decoder reads a well-formed character and gives the code point that encodes to it, or
      replaces one byte when there is no well-formed character. */
  lemma Decode1Is(b: seq<Byte>)
    requires b != []
    ensures var (c, n) := Decode1(b);
            if CharLength(b) > 0 then n == CharLength(b) && Encode1(c) == b[..n] else c == REPLACEMENT && n == 1
  {
    var n := SequenceLength(b[0]);
    if n <= |b| {
      if n == 2 {
        Decode1Is2(b);
      } else if n == 3 {
        Decode1Is3(b);
      } else if n == 4 {
        Decode1Is4(b);
      }
    }
  }

  lemma Decode1Is2(b: seq<Byte>)
    requires |b| >= 2 && SequenceLength(b[0]) == 2
    ensures var r := ReadSequence(b);
            if CharLength(b) > 0 then CharLength(b) == 2 && r.Some? && IsScalar(r.value) && Encode1(r.value) == b[..2]
            else r == None
  {
    if Continues(b[1]) {
      SplitJoin2(b[0], b[1]);
    }
  }

  lemma ContinuesIs(b: Byte)
    ensures Continues(b) <==> Tail(b)
  {
  }

  lemma Decode1Is3(b: seq<Byte>)
    requires |b| >= 3 && SequenceLength(b[0]) == 3
    ensures var r := ReadSequence(b);
            if CharLength(b) > 0 then CharLength(b) == 3 && r.Some? && IsScalar(r.value) && Encode1(r.value) == b[..3]
            else r == None
  {
    ContinuesIs(b[1]);
    ContinuesIs(b[2]);
    if Tail(b[1]) && Tail(b[2]) {
      var x2: int, x1: int, x0: int := b[0] - 0xE0, b[1] - 0x80, b[2] - 0x80;
      Join3Is(x2, x1, x0);
      Length3(b, x2, x1, x0);
      Digits3(x2, x1, x0);
      hide Join3, CharLength, Continues;
    }
  }

  lemma Decode1Is4(b: seq<Byte>)
    requires |b| >= 4 && SequenceLength(b[0]) == 4
    ensures var r := ReadSequence(b);
            if CharLength(b) > 0 then CharLength(b) == 4 && r.Some? && IsScalar(r.value) && Encode1(r.value) == b[..4]
            else r == None
  {
    ContinuesIs(b[1]);
    ContinuesIs(b[2]);
    ContinuesIs(b[3]);
    if Tail(b[1]) && Tail(b[2]) && Tail(b[3]) {
      var x3: int, x2: int, x1: int, x0: int := b[0] - 0xF0, b[1] - 0x80, b[2] - 0x80, b[3] - 0x80;
      var c := ((x3 * 0x40 + x2) * 0x40 + x1) * 0x40 + x0;
      Join4Is(x3, x2, x1, x0);
      Length4(b, x3, x2, x1, x0);
      if 0x10000 <= c < 0x110000 {
        Encode4(x3, x2, x1, x0);
        assert b[..4] == [0xF0 + x3, 0x80 + x2, 0x80 + x1, 0x80 + x0];
      }
      hide Join4, CharLength, Continues, Encode1;
    }
  }

  lemma Encode4(x3: int, x2: int, x1: int, x0: int)
    requires 0 <= x3 < 0x10 && 0 <= x2 < 0x40 && 0 <= x1 < 0x40 && 0 <= x0 < 0x40
    requires 0x10000 <= ((x3 * 0x40 + x2) * 0x40 + x1) * 0x40 + x0 < 0x110000
    ensures Encode1(((x3 * 0x40 + x2) * 0x40 + x1) * 0x40 + x0) == [0xF0 + x3, 0x80 + x2, 0x80 + x1, 0x80 + x0]
  {
    Digits3(x3 * 0x40 + x2, x1, x0);
    Shifted(x3, x2);
    Nested(((x3 * 0x40 + x2) * 0x40 + x1) * 0x40 + x0);
  }

  lemma ScalarsUnits(c: int, rest: seq<Unit>)
    requires IsScalar(c)
    ensures Scalars(Units(c) + rest) == [c] + Scalars(rest)
    ensures WellFormed16(Units(c) + rest) <==> WellFormed16(rest)
  {
    var s := Units(c) + rest;
    if c < 0x10000 {
      assert s[1..] == rest;
    } else {
      assert s[2..] == rest;
    }
  }

  // ---- whole strings ----

  /** `utf8ToBytes` without a limit. */
  function Encode(s: seq<Unit>): seq<Byte> {
    Flat(Items(0, s))
  }

  /** `utf8Slice` of a whole buffer. */
  function Decode(b: seq<Byte>): seq<Unit> {
    UnitsEach(CodePoints(b))
  }

  predicate EndsInTwoLeads(s: seq<Unit>) {
    |s| >= 2 && IsLead(s[|s| - 1]) && IsLead(s[|s| - 2])
  }

  /** A lead surrogate at the very end is dropped if it comes right after another one. */
  function Kept(s: seq<Unit>): seq<Unit> {
    if EndsInTwoLeads(s) then s[..|s| - 1] else s
  }

  /** The encoder writes the characters of the string read as UTF-16, unpaired surrogates replaced, but for the
      lead surrogate that it drops. */
  lemma {:induction false} ItemsAre(s: seq<Unit>)
    ensures Items(0, s) == EncodeEach(Scalars(Kept(s)))
    decreases |s|, 1
  {
    if s == [] {
      assert Kept(s) == [];
    } else {
      hide Kept, Scalars;
      var rest := s[1..];
      if IsLead(s[0]) && |s| > 1 {
        ItemsAfterLead(s[0], rest);
        assert [s[0]] + rest == s;
      } else {
        ItemsAre(rest);
        KeptTail(s);
      }
    }
  }

  lemma KeptTail(s: seq<Unit>)
    requires s != [] && !(IsLead(s[0]) && |s| > 1 && (IsTrail(s[1]) || (IsLead(s[1]) && |s| == 2)))
    ensures Scalars(Kept(s))
         == [if IsLead(s[0]) || IsTrail(s[0]) then REPLACEMENT else s[0]] + Scalars(Kept(s[1..]))
  {
    KeptRest(s);
    ScalarsOne(Kept(s));
    hide Scalars, Kept;
  }

  lemma KeptRest(s: seq<Unit>)
    requires s != [] && !(IsLead(s[0]) && |s| == 2 && IsLead(s[1]))
    ensures Kept(s) != [] && Kept(s)[0] == s[0] && Kept(s)[1..] == Kept(s[1..])
    ensures |Kept(s)| > 1 ==> Kept(s)[1] == s[1]
  {
    if EndsInTwoLeads(s) {
      assert s[..|s| - 1][1..] == s[1..][..|s| - 2];
      assert EndsInTwoLeads(s[1..]);
    } else {
      assert !EndsInTwoLeads(s[1..]);
    }
  }

  lemma ScalarsOne(s: seq<Unit>)
    requires s != [] && !(IsLead(s[0]) && |s| > 1 && IsTrail(s[1]))
    ensures Scalars(s) == [if IsLead(s[0]) || IsTrail(s[0]) then REPLACEMENT else s[0]] + Scalars(s[1..])
  {
  }

  lemma KeptPair(s: seq<Unit>)
    requires |s| >= 2 && IsLead(s[0]) && IsTrail(s[1])
    ensures Scalars(Kept(s)) == [PairValue(s[0], s[1])] + Scalars(Kept(s[2..]))
  {
    KeptRest(s);
    KeptRest(s[1..]);
    assert Kept(s)[2..] == Kept(s)[1..][1..] && s[2..] == s[1..][1..];
    hide Kept;
  }

  /** Of two leads that are the whole string one is dropped. */
  lemma TwoLeads(s: seq<Unit>)
    requires |s| == 2 && IsLead(s[0]) && IsLead(s[1])
    ensures EncodeEach(Scalars(Kept(s))) == [Encode1(REPLACEMENT)]
  {
    assert Kept(s) == [s[0]];
    assert Scalars([s[0]]) == [REPLACEMENT];
  }

  lemma {:induction false} ItemsAfterLead(lead: Unit, s: seq<Unit>)
    requires IsLead(lead) && s != []
    ensures Items(lead, s) == EncodeEach(Scalars(Kept([lead] + s)))
    decreases |s|, 0
  {
    hide Kept, Scalars, Encode1, PairValue;
    var all, rest := [lead] + s, s[1..];
    assert all[1..] == s && all[2..] == rest;
    if IsTrail(s[0]) {
      ItemsAre(rest);
      KeptPair(all);
    } else if IsLead(s[0]) {
      if rest == [] {
        TwoLeads(all);
      } else {
        ItemsAfterLead(s[0], rest);
        assert [s[0]] + rest == s;
        KeptTail(all);
      }
    } else {
      ItemsAre(rest);
      KeptTail(all);
      KeptTail(s);
    }
  }

  /** The encoder writes every character of the string read as UTF-16 exactly when the string does not end in two
      lead surrogates. */
  lemma EncodesAll(s: seq<Unit>)
    ensures Items(0, s) == EncodeEach(Scalars(s)) <==> !EndsInTwoLeads(s)
  {
    ItemsAre(s);
    if EndsInTwoLeads(s) {
      DroppedLead(s);
    }
  }

  lemma AloneLead(lead: Unit)
    requires IsLead(lead)
    ensures Scalars([lead]) == [REPLACEMENT]
  {
    ScalarsOne([lead]);
    assert [lead][1..] == [];
  }

  lemma {:induction false} DroppedLead(s: seq<Unit>)
    requires EndsInTwoLeads(s)
    ensures |Scalars(s)| == |Scalars(s[..|s| - 1])| + 1
    decreases |s|
  {
    var init := s[..|s| - 1];
    if |s| == 2 {
      assert s[1..] == [s[1]] && init == [s[0]];
      ScalarsOne(s);
      AloneLead(s[0]);
      AloneLead(s[1]);
    } else if IsLead(s[0]) && IsTrail(s[1]) {
      DroppedLead(s[2..]);
      assert init[2..] == s[2..][..|s| - 3];
    } else {
      DroppedLead(s[1..]);
      assert init[1..] == s[1..][..|s| - 2];
    }
  }

  lemma {:induction false} DecodeEncodeEach(cs: seq<int>)
    requires forall i :: 0 <= i < |cs| ==> IsScalar(cs[i])
    ensures CodePoints(Flat(EncodeEach(cs))) == cs
    ensures WellFormed8(Flat(EncodeEach(cs)))
  {
    hide Decode1, Encode1, CharLength;
    if cs != [] {
      var e, rest := Encode1(cs[0]), Flat(EncodeEach(cs[1..]));
      assert EncodeEach(cs)[1..] == EncodeEach(cs[1..]);
      assert (e + rest)[|e|..] == rest;
      DecodeEncode1(cs[0], rest);
      CharLengthEncode1(cs[0], rest);
      DecodeEncodeEach(cs[1..]);
    }
  }

  lemma {:induction false} ScalarsUnitsEach(cs: seq<int>)
    requires forall i :: 0 <= i < |cs| ==> IsScalar(cs[i])
    ensures Scalars(UnitsEach(cs)) == cs && WellFormed16(UnitsEach(cs)) && !EndsInTwoLeads(UnitsEach(cs))
  {
    hide Units;
    if cs != [] {
      ScalarsUnitsEach(cs[1..]);
      ScalarsUnits(cs[0], UnitsEach(cs[1..]));
    }
    WellFormedEnd(UnitsEach(cs));
  }

  /** A well-formed string does not end in a lead surrogate. */
  lemma {:induction false} WellFormedEnd(s: seq<Unit>)
    requires WellFormed16(s)
    ensures s != [] ==> !IsLead(s[|s| - 1])
    decreases |s|
  {
    if s != [] {
      if IsLead(s[0]) {
        WellFormedEnd(s[2..]);
      } else {
        WellFormedEnd(s[1..]);
      }
    }
  }

  lemma UnitsPair(lead: Unit, trail: Unit)
    requires IsLead(lead) && IsTrail(trail)
    ensures Units(PairValue(lead, trail)) == [lead, trail]
  {
    DivUnique((lead - 0xD800) * 0x400 + (trail - 0xDC00), 0x400, lead - 0xD800, trail - 0xDC00);
  }

  lemma {:induction false} UnitsScalars(s: seq<Unit>)
    requires WellFormed16(s)
    ensures UnitsEach(Scalars(s)) == s
    decreases |s|
  {
    if s != [] {
      if IsLead(s[0]) {
        UnitsScalars(s[2..]);
        UnitsPair(s[0], s[1]);
        assert [s[0], s[1]] == s[..2];
        assert s[..2] + s[2..] == s;
      } else {
        UnitsScalars(s[1..]);
        assert [s[0]] + s[1..] == s;
      }
    }
  }

  lemma {:induction false} EncodeCodePoints(b: seq<Byte>)
    requires WellFormed8(b)
    ensures Flat(EncodeEach(CodePoints(b))) == b
    decreases |b|
  {
    hide Decode1, Encode1, CharLength;
    if b != [] {
      Decode1Is(b);
      var (c, n) := Decode1(b);
      EncodeCodePoints(b[n..]);
      assert EncodeEach(CodePoints(b))[1..] == EncodeEach(CodePoints(b[n..]));
      assert b[..n] + b[n..] == b;
    }
  }

  /** For every string, paired or not, the encoder writes well-formed UTF-8. */
  lemma EncodeIsWellFormed(s: seq<Unit>)
    ensures WellFormed8(Encode(s))
    ensures CodePoints(Encode(s)) == Scalars(Kept(s))
  {
    ItemsAre(s);
    DecodeEncodeEach(Scalars(Kept(s)));
  }

  /** For every byte sequence the decoder gives well-formed UTF-16. */
  lemma DecodeIsWellFormed(b: seq<Byte>)
    ensures WellFormed16(Decode(b)) && Scalars(Decode(b)) == CodePoints(b)
  {
    ScalarsUnitsEach(CodePoints(b));
  }

  /** Encoding and decoding gives a string back exactly when it is well-formed UTF-16. */
  lemma DecodeEncode(s: seq<Unit>)
    ensures Decode(Encode(s)) == s <==> WellFormed16(s)
  {
    EncodeIsWellFormed(s);
    DecodeIsWellFormed(Encode(s));
    if WellFormed16(s) {
      WellFormedEnd(s);
      UnitsScalars(s);
    }
  }

  /** Decoding and encoding gives bytes back exactly when they are well-formed UTF-8. */
  lemma EncodeDecode(b: seq<Byte>)
    ensures Encode(Decode(b)) == b <==> WellFormed8(b)
  {
    EncodeIsWellFormed(Decode(b));
    ScalarsUnitsEach(CodePoints(b));
    ItemsAre(Decode(b));
    if WellFormed8(b) {
      EncodeCodePoints(b);
    }
  }

  /** With a limit the encoder writes whole characters from the start, as many as fit. */
  lemma {:induction false} FitIsPrefix(items: seq<seq<Byte>>, n: int) returns (k: nat)
    ensures k <= |items| && Fit(items, Some(n)) == Flat(items[..k])
    ensures n >= 0 ==> |Flat(items[..k])| <= n
    ensures k < |items| ==> |Flat(items[..k])| + |items[k]| > n
  {
    if items == [] || |items[0]| > n {
      k := 0;
    } else {
      k := FitIsPrefix(items[1..], n - |items[0]|);
      assert items[..k + 1][1..] == items[1..][..k];
      k := k + 1;
    }
  }

  lemma {:induction false} FitAll(items: seq<seq<Byte>>)
    ensures Fit(items, None) == Flat(items)
  {
    if items != [] {
      FitAll(items[1..]);
    }
  }

  lemma {:induction false} FlatPrefix(cs: seq<int>, k: nat)
    requires forall i :: 0 <= i < |cs| ==> IsScalar(cs[i])
    requires k <= |cs|
    ensures EncodeEach(cs)[..k] == EncodeEach(cs[..k])
  {
  }

  /** Whatever the string and the limit, the encoder's output is well-formed UTF-8. */
  lemma LimitedIsWellFormed(s: seq<Unit>, n: int)
    ensures WellFormed8(Fit(Items(0, s), Some(n)))
  {
    var cs := Scalars(Kept(s));
    ItemsAre(s);
    var k := FitIsPrefix(EncodeEach(cs), n);
    FlatPrefix(cs, k);
    DecodeEncodeEach(cs[..k]);
  }
}
