/** `indexOf`, `lastIndexOf` and `includes` of the buffer, over bytes. */
module BufferSearch {
  import opened Common

  type Byte = b: int | 0 <= b < 0x100

  const K_MAX_LENGTH := 0x7fffffff

  // ---- what a search looks for ----

  predicate MatchAt(arr: seq<Byte>, val: seq<Byte>, p: int) {
    0 <= p <= |arr| - |val| && arr[p..p + |val|] == val
  }

  predicate NoMatchIn(arr: seq<Byte>, val: seq<Byte>, lo: int, hi: int) {
    forall p :: lo <= p < hi ==> !MatchAt(arr, val, p)
  }

  /** `r` is the least match at or after `from`, or -1 as there is none. */
  predicate IsFirst(arr: seq<Byte>, val: seq<Byte>, from: int, r: int) {
    if r == -1 then NoMatchIn(arr, val, from, |arr| + 1)
    else from <= r && MatchAt(arr, val, r) && NoMatchIn(arr, val, from, r)
  }

  /** `r` is the greatest match at or before `upTo`, or -1 as there is none. */
  predicate IsLast(arr: seq<Byte>, val: seq<Byte>, upTo: int, r: int) {
    if r == -1 then NoMatchIn(arr, val, 0, upTo + 1)
    else r <= upTo && MatchAt(arr, val, r) && NoMatchIn(arr, val, r + 1, upTo + 1)
  }

  // ---- arrayIndexOf ----

  lemma Mismatch(arr: seq<Byte>, val: seq<Byte>, p: int, j: int)
    requires 0 <= p && 0 <= j < |val| && p + j < |arr| && arr[p + j] != val[j]
    ensures !MatchAt(arr, val, p)
  {
    if p + |val| <= |arr| {
      assert arr[p..p + |val|][j] == arr[p + j];
    }
  }

  /** The first `j` bytes of `val` are at `p`. */
  predicate Partial(arr: seq<Byte>, val: seq<Byte>, p: int, j: int) {
    0 <= p && 0 <= j <= |val| && p + j <= |arr| && arr[p..p + j] == val[..j]
  }

  lemma Complete(arr: seq<Byte>, val: seq<Byte>, p: int)
    requires Partial(arr, val, p, |val|)
    ensures MatchAt(arr, val, p)
  {
    assert val[..|val|] == val;
  }

  lemma NoMatchNone(arr: seq<Byte>, val: seq<Byte>, lo: int)
    ensures NoMatchIn(arr, val, lo, lo)
  {
  }

  lemma NoMatchSnoc(arr: seq<Byte>, val: seq<Byte>, lo: int, hi: int)
    requires NoMatchIn(arr, val, lo, hi) && !MatchAt(arr, val, hi)
    ensures NoMatchIn(arr, val, lo, hi + 1)
  {
    hide MatchAt;
  }

  lemma NoRoom(arr: seq<Byte>, val: seq<Byte>, lo: int, hi: int)
    requires NoMatchIn(arr, val, lo, hi) && |arr| < hi + |val|
    ensures NoMatchIn(arr, val, lo, |arr| + 1)
  {
  }

  lemma Extend(arr: seq<Byte>, val: seq<Byte>, p: int, j: int)
    requires 0 <= p && 0 <= j < |val| && p + j < |arr|
    requires j == 0 || Partial(arr, val, p, j)
    requires arr[p + j] == val[j]
    ensures Partial(arr, val, p, j + 1)
  {
    assert arr[p..p] == val[..0];
    assert arr[p..p + j + 1] == arr[p..p + j] + [arr[p + j]];
    assert val[..j + 1] == val[..j] + [val[j]];
  }

  /** The forward half. A mismatch sets `i` back to the start of the failed attempt; the search ends all the same, as
      the start of the attempt then moves on. */
  method ForwardIndexOf(arr: seq<Byte>, val: seq<Byte>, byteOffset: nat) returns (r: int)
    requires val != []
    ensures IsFirst(arr, val, byteOffset, r)
  {
    hide MatchAt, NoMatchIn, Partial;
    var foundIndex := -1;
    var i := byteOffset;
    NoMatchNone(arr, val, byteOffset);
    while i < |arr|
      invariant byteOffset <= i
      invariant foundIndex != -1 ==>
        byteOffset <= foundIndex < i <= |arr| && i - foundIndex < |val| && Partial(arr, val, foundIndex, i - foundIndex)
      invariant NoMatchIn(arr, val, byteOffset, if foundIndex == -1 then i else foundIndex)
      decreases |arr| - (if foundIndex == -1 then i else foundIndex), |arr| - i
    {
      var j := if foundIndex == -1 then 0 else i - foundIndex;
      if arr[i] == val[j] {
        if foundIndex == -1 {
          foundIndex := i;
        }
        Extend(arr, val, foundIndex, i - foundIndex);
        if i - foundIndex + 1 == |val| {
          Complete(arr, val, foundIndex);
          return foundIndex;
        }
      } else {
        Mismatch(arr, val, i - j, j);
        NoMatchSnoc(arr, val, byteOffset, i - j);
        if foundIndex != -1 {
          i := i - (i - foundIndex);
        }
        foundIndex := -1;
      }
      i := i + 1;
    }
    NoRoom(arr, val, byteOffset, if foundIndex == -1 then i else foundIndex);
    r := -1;
  }

  /** The backward half. */
  method BackwardIndexOf(arr: seq<Byte>, val: seq<Byte>, byteOffset: nat) returns (r: int)
    ensures IsLast(arr, val, byteOffset, r)
  {
    var start: int := if byteOffset + |val| > |arr| then |arr| - |val| else byteOffset;
    var i := start;
    while i >= 0
      invariant -1 <= i <= start || i == start
      invariant NoMatchIn(arr, val, i + 1, byteOffset + 1)
    {
      var found := true;
      var j := 0;
      while j < |val|
        invariant 0 <= j <= |val| && Partial(arr, val, i, j)
      {
        if arr[i + j] != val[j] {
          Mismatch(arr, val, i, j);
          found := false;
          break;
        }
        Extend(arr, val, i, j);
        j := j + 1;
      }
      if found {
        Complete(arr, val, i);
        return i;
      }
      i := i - 1;
    }
    r := -1;
  }

  // ---- bidirectionalIndexOf ----

  datatype Needle = Bytes(bytes: seq<Byte>) | Number(value: int)

  /** `Buffer.from` is done, and a number is searched for as its low byte. */
  function Pattern(val: Needle): seq<Byte> {
    match val
    case Bytes(bytes) => bytes
    case Number(value) => [value % 0x100]
  }

  /** Where the caller asks to start: a missing offset means the whole buffer, a negative one counts from the end. */
  function Start(length: nat, byteOffset: Option<int>, dir: bool): int {
    match byteOffset
    case None => if dir then 0 else length
    case Some(offset) => if offset < 0 then (if dir && length + offset < 0 then 0 else length + offset) else offset
  }

  /** `bidirectionalIndexOf`, for an integral offset or none. Clamping the offset to 32 bits and to the buffer never
      changes the answer. */
  method BidirectionalIndexOf(buffer: seq<Byte>, val: Needle, byteOffset: Option<int>, dir: bool) returns (r: int)
    requires |buffer| <= K_MAX_LENGTH
    ensures Pattern(val) == [] ==> r == -1
    ensures Pattern(val) != [] && dir ==> IsFirst(buffer, Pattern(val), Start(|buffer|, byteOffset, dir), r)
    ensures Pattern(val) != [] && !dir ==> IsLast(buffer, Pattern(val), Start(|buffer|, byteOffset, dir), r)
  {
    if |buffer| == 0 {
      return -1;
    }
    var offset: int;
    match byteOffset {
      case None =>
        offset := if dir then 0 else |buffer| - 1;
      case Some(given) =>
        offset := if given > 0x7fffffff then 0x7fffffff else if given < -0x80000000 then -0x80000000 else given;
    }
    if offset < 0 {
      offset := |buffer| + offset;
    }
    if offset >= |buffer| {
      if dir {
        return -1;
      }
      offset := |buffer| - 1;
    } else if offset < 0 {
      if !dir {
        return -1;
      }
      offset := 0;
    }
    var pattern := Pattern(val);
    if |pattern| == 0 {
      return -1;
    }
    if dir {
      r := ForwardIndexOf(buffer, pattern, offset);
    } else {
      r := BackwardIndexOf(buffer, pattern, offset);
    }
  }

  /** `includes`: false for the empty needle. */
  method Includes(buffer: seq<Byte>, val: Needle, byteOffset: Option<int>) returns (found: bool)
    requires |buffer| <= K_MAX_LENGTH
    ensures Pattern(val) == [] ==> !found
    ensures Pattern(val) != [] ==>
      (found <==> exists p :: Start(|buffer|, byteOffset, true) <= p && MatchAt(buffer, Pattern(val), p))
  {
    var r := BidirectionalIndexOf(buffer, val, byteOffset, true);
    found := r != -1;
  }

  // ---- a number is searched for as its low byte ----

  lemma MatchByte(buffer: seq<Byte>, value: int, p: int)
    ensures MatchAt(buffer, Pattern(Number(value)), p) <==> 0 <= p < |buffer| && (buffer[p] - value) % 0x100 == 0
  {
    if 0 <= p < |buffer| {
      assert buffer[p..p + 1] == [buffer[p]];
    }
  }

  /** The first byte, and the last, that is the number modulo 256. */
  lemma NumberIs(buffer: seq<Byte>, value: int, from: int, r: int)
    ensures IsFirst(buffer, Pattern(Number(value)), from, r) && r != -1 ==>
      from <= r < |buffer| && (forall p :: 0 <= p < |buffer| && from <= p ==>
        ((buffer[p] - value) % 0x100 == 0 ==> r <= p)) && (buffer[r] - value) % 0x100 == 0
    ensures IsFirst(buffer, Pattern(Number(value)), from, -1) <==>
      forall p :: 0 <= p < |buffer| && from <= p ==> (buffer[p] - value) % 0x100 != 0
  {
    hide MatchAt, Pattern;
    forall p ensures MatchAt(buffer, Pattern(Number(value)), p)
      <==> 0 <= p < |buffer| && (buffer[p] - value) % 0x100 == 0
    {
      MatchByte(buffer, value, p);
    }
  }

  // ---- the two directions agree ----

  lemma FirstAndLast(buffer: seq<Byte>, val: seq<Byte>, first: int, last: int)
    requires val != []
    requires IsFirst(buffer, val, 0, first) && IsLast(buffer, val, |buffer|, last)
    ensures first == -1 <==> last == -1
    ensures first <= last
    ensures forall p :: MatchAt(buffer, val, p) ==> first <= p <= last
    ensures first == last && first != -1 ==> forall p :: MatchAt(buffer, val, p) <==> p == first
  {
    assert last != -1 ==> MatchAt(buffer, val, last) && 0 <= last <= |buffer|;
  }
}
