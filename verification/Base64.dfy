/** Base64 (RFC 4648, section 4): the base64-js encoder and decoder, and the compact `btoa` and `atob`.
    Shifts and masks are written as divisions and remainders; `|` of bit fields that do not overlap, as a sum. */
module Base64 {
  import opened Arithmetic
  import opened Common

  type Byte = b: int | 0 <= b < 0x100
  type Sextet = x: int | 0 <= x < 64

  // ---- the alphabet ----

  /** `lookup` */
  function Lookup(x: Sextet): (c: char)
    ensures c != '='
  {
    if x < 26 then 'A' + x as char
    else if x < 52 then 'a' + (x - 26) as char
    else if x < 62 then '0' + (x - 52) as char
    else if x == 62 then '+'
    else '/'
  }

  /** `revLookup`, with the URL-safe characters; a character without an entry shifts like 0. */
  function RevLookup(c: char): Sextet {
    if 'A' <= c <= 'Z' then (c - 'A') as int
    else if 'a' <= c <= 'z' then (c - 'a') as int + 26
    else if '0' <= c <= '9' then (c - '0') as int + 52
    else if c == '+' || c == '-' then 62
    else if c == '/' || c == '_' then 63
    else 0
  }

  /** The characters of RFC 4648, table 1. */
  predicate InAlphabet(c: char) {
    'A' <= c <= 'Z' || 'a' <= c <= 'z' || '0' <= c <= '9' || c == '+' || c == '/'
  }

  lemma LookupRev(x: Sextet, c: char)
    ensures RevLookup(Lookup(x)) == x && InAlphabet(Lookup(x))
    ensures InAlphabet(c) ==> Lookup(RevLookup(c)) == c
  {
  }

  // The alphabet of RFC 4648, table 1, in order.
  const UPPER := "ABCDEFGHIJKLMNOPQRSTUVWXYZ"
  const LOWER := "abcdefghijklmnopqrstuvwxyz"
  const DIGITS := "0123456789"
  const ALPHABET := UPPER + LOWER + DIGITS + "+/"

  lemma Places(x: Sextet)
    ensures |UPPER| == |LOWER| == 26 && |DIGITS| == 10
    ensures x < 26 ==> UPPER[x] == 'A' + x as char && LOWER[x] == 'a' + x as char
    ensures x < 10 ==> DIGITS[x] == '0' + x as char
  {
  }

  lemma LookupIs(x: Sextet)
    ensures |ALPHABET| == 64 && Lookup(x) == ALPHABET[x]
  {
    Places(if x < 26 then x else if x < 52 then x - 26 else if x < 62 then x - 52 else 0);
  }

  /** The characters of the alphabet stand for their places, those of the URL-safe one (RFC 4648, section 5) for the same
      sextets, and all others for 0. */
  lemma RevLookupIs(c: char)
    ensures |ALPHABET| == 64 && (InAlphabet(c) <==> c in ALPHABET)
    ensures c in ALPHABET ==> ALPHABET[RevLookup(c)] == c
    ensures ALPHABET[RevLookup('-')] == '+' && ALPHABET[RevLookup('_')] == '/'
    ensures c !in ALPHABET && c != '-' && c != '_' ==> RevLookup(c) == 0
  {
    LookupIs(RevLookup(c));
    LookupIs(62);
    LookupIs(63);
    LookupRev(RevLookup(c), c);
    if c in ALPHABET {
      Placed(c);
    }
    assert RevLookup('-') == 62 && RevLookup('_') == 63;
    assert InAlphabet(c) || c == '-' || c == '_' || RevLookup(c) == 0;
  }

  lemma Placed(c: char)
    requires c in ALPHABET
    ensures InAlphabet(c)
  {
    LookupIs(0);
    var x: nat :| x < |ALPHABET| && ALPHABET[x] == c;
    LookupIs(x);
    LookupRev(x, c);
  }

  // ---- the encoding ----

  /** `tripletToBase64` */
  function Triplet(num: int): (t: string)
    requires 0 <= num < 0x1000000
    ensures |t| == 4
  {
    [Lookup(num / 0x40000 % 64), Lookup(num / 0x1000 % 64), Lookup(num / 0x40 % 64), Lookup(num % 64)]
  }

  function Pack3(b0: Byte, b1: Byte, b2: Byte): (num: int)
    ensures 0 <= num < 0x1000000
  {
    b0 as int * 0x10000 + b1 as int * 0x100 + b2
  }

  /** The text of a byte sequence: four characters for three bytes, a short last group padded. */
  function Text(b: seq<Byte>): string {
    if |b| == 0 then []
    else if |b| < 3 then LastGroup(b)
    else Triplet(Pack3(b[0], b[1], b[2])) + Text(b[3..])
  }

  /** The padding branches of `fromByteArray`. */
  function LastGroup(b: seq<Byte>): string
    requires 1 <= |b| <= 2
  {
    if |b| == 1 then [Lookup(b[0] / 4), Lookup(b[0] as int * 16 % 64), '=', '=']
    else
      var tmp := b[0] as int * 0x100 + b[1];
      [Lookup(tmp / 0x400), Lookup(tmp / 0x10 % 64), Lookup(tmp * 4 % 64), '=']
  }

  lemma {:induction false} TextConcat(a: seq<Byte>, b: seq<Byte>)
    requires |a| % 3 == 0
    ensures Text(a + b) == Text(a) + Text(b)
  {
    hide Triplet;
    if a == [] {
      assert a + b == b;
    } else {
      assert (a + b)[3..] == a[3..] + b;
      TextConcat(a[3..], b);
    }
  }

  lemma TextStep(b: seq<Byte>, i: nat, end: nat)
    requires i + 3 <= end <= |b|
    ensures Text(b[i..end]) == Triplet(Pack3(b[i], b[i + 1], b[i + 2])) + Text(b[i + 3..end])
  {
    hide Triplet;
    assert b[i..end][3..] == b[i + 3..end];
  }

  lemma TextShort(b: seq<Byte>)
    requires |b| < 3
    ensures Text(b) == if b == [] then "" else LastGroup(b)
  {
  }

  /** `encodeChunk`, on a stretch of whole groups. */
  method EncodeChunk(uint8: seq<Byte>, start: nat, end: nat) returns (output: string)
    requires start <= end <= |uint8| && (end - start) % 3 == 0
    ensures output == Text(uint8[start..end])
  {
    hide Triplet, Text;
    output := [];
    TextShort(uint8[end..end]);
    var i := start;
    while i < end
      invariant start <= i <= end && (end - i) % 3 == 0
      invariant output + Text(uint8[i..end]) == Text(uint8[start..end])
    {
      TextStep(uint8, i, end);
      var tmp := Pack3(uint8[i], uint8[i + 1], uint8[i + 2]);
      output := output + Triplet(tmp);
      i := i + 3;
    }
  }

  lemma TextCut(b: seq<Byte>, i: nat, end: nat)
    requires i <= end <= |b| && (end - i) % 3 == 0
    ensures Text(b[i..]) == Text(b[i..end]) + Text(b[end..])
  {
    hide Text;
    TextConcat(b[i..end], b[end..]);
    assert b[i..end] + b[end..] == b[i..];
  }

  lemma ChunkAdded(b: seq<Byte>, i: nat, end: nat, text: string)
    requires i <= end <= |b| && (end - i) % 3 == 0
    ensures text + Text(b[i..end]) + Text(b[end..]) == text + Text(b[i..])
  {
    hide Text;
    TextCut(b, i, end);
  }

  const MAX_CHUNK_LENGTH := 16383

  /** `fromByteArray`: cutting the input into chunks makes no difference. */
  method FromByteArray(uint8: seq<Byte>) returns (text: string)
    ensures text == Text(uint8)
  {
    hide Text, LastGroup, Pack3, Triplet;
    var len := |uint8|;
    var extraBytes := len % 3;
    var len2 := len - extraBytes;
    text := [];
    var i := 0;
    while i < len2
      invariant 0 <= i <= len2 && i % 3 == 0
      invariant text + Text(uint8[i..]) == Text(uint8)
    {
      var end := if i + MAX_CHUNK_LENGTH > len2 then len2 else i + MAX_CHUNK_LENGTH;
      assert (end - i) % 3 == 0;
      var part := EncodeChunk(uint8, i, end);
      ChunkAdded(uint8, i, end, text);
      text := text + part;
      i := end;
    }
    TextShort(uint8[len2..]);
    if extraBytes != 0 {
      text := text + LastGroup(uint8[len2..]);
    }
  }

  // ---- the text, character by character ----

  /** Byte `i`, or the zero that the encoder shifts in past the end. */
  function ByteAt(b: seq<Byte>, i: nat): Byte {
    if i < |b| then b[i] else 0
  }

  /** The six bits of character `k`. */
  function SextetAt(b: seq<Byte>, k: nat): Sextet {
    var i := 3 * k / 4;
    if k % 4 == 0 then ByteAt(b, i) / 4
    else if k % 4 == 1 then ByteAt(b, i) % 4 * 16 + ByteAt(b, i + 1) / 16
    else if k % 4 == 2 then ByteAt(b, i) % 16 * 4 + ByteAt(b, i + 1) / 64
    else ByteAt(b, i) % 64
  }

  /** RFC 4648, section 4: character `k` encodes bits `6k` to `6k + 5`, and is a pad if no byte holds bit `6k`. */
  function CharAt(b: seq<Byte>, k: nat): char {
    if 3 * k / 4 < |b| then Lookup(SextetAt(b, k)) else '='
  }

  lemma Pack3Bits(b0: Byte, b1: Byte, b2: Byte)
    ensures var num := Pack3(b0, b1, b2);
      num / 0x40000 % 64 == b0 / 4 && num / 0x1000 % 64 == b0 % 4 * 16 + b1 / 16
      && num / 0x40 % 64 == b1 % 16 * 4 + b2 / 64 && num % 64 == b2 % 64
  {
    var num := Pack3(b0, b1, b2);
    var h0: int, l0: int, h1: int, l1: int, h2: int, l2: int := b0 / 4, b0 % 4, b1 / 16, b1 % 16, b2 / 64, b2 % 64;
    DivUnique(num, 0x40000, h0, l0 * 0x10000 + b1 * 0x100 + b2);
    DivUnique(num, 0x1000, h0 * 64 + l0 * 16 + h1, l1 * 0x100 + b2);
    DivUnique(h0 * 64 + l0 * 16 + h1, 64, h0, l0 * 16 + h1);
    DivUnique(num, 0x40, b0 * 0x400 + h1 * 64 + l1 * 4 + h2, l2);
    DivUnique(b0 * 0x400 + h1 * 64 + l1 * 4 + h2, 64, b0 * 16 + h1, l1 * 4 + h2);
  }

  lemma TripletIs(b: seq<Byte>, k: nat)
    requires 3 <= |b| && k < 4
    ensures Triplet(Pack3(b[0], b[1], b[2]))[k] == CharAt(b, k)
  {
    hide Lookup, Pack3;
    Pack3Bits(b[0], b[1], b[2]);
  }

  lemma ShortBits(b0: Byte, b1: Byte)
    ensures b0 * 16 % 64 == b0 % 4 * 16 && b1 * 4 % 64 == b1 % 16 * 4
    ensures var tmp: int := b0 as int * 0x100 + b1;
      tmp / 0x400 == b0 / 4 && tmp / 0x10 % 64 == b0 % 4 * 16 + b1 / 16 && tmp * 4 % 64 == b1 % 16 * 4
  {
    var tmp: int := b0 as int * 0x100 + b1;
    var h0: int, l0: int, h1: int, l1: int := b0 / 4, b0 % 4, b1 / 16, b1 % 16;
    DivUnique(b0 as int * 16, 64, h0, l0 * 16);
    DivUnique(b1 as int * 4, 64, h1, l1 * 4);
    DivUnique(tmp, 0x400, h0, l0 * 0x100 + b1);
    DivUnique(tmp, 0x10, h0 * 64 + l0 * 16 + h1, l1);
    DivUnique(h0 * 64 + l0 * 16 + h1, 64, h0, l0 * 16 + h1);
    DivUnique(tmp * 4, 64, b0 * 16 + h1, l1 * 4);
  }

  lemma LastGroupIs(b: seq<Byte>)
    requires 1 <= |b| <= 2
    ensures LastGroup(b) == [Lookup(b[0] / 4), Lookup(b[0] % 4 * 16 + ByteAt(b, 1) / 16),
                             if |b| == 1 then '=' else Lookup(b[1] % 16 * 4), '=']
  {
    hide Lookup;
    ShortBits(b[0], ByteAt(b, 1));
  }

  lemma ShortIs(b: seq<Byte>, k: nat)
    requires 1 <= |b| <= 2 && k < 4
    ensures LastGroup(b)[k] == CharAt(b, k)
  {
    LastGroupIs(b);
    ShortSextets(b);
    hide Lookup, SextetAt, ByteAt, LastGroup;
    if k == 0 || k == 1 {
      assert 3 * k / 4 == 0;
    } else {
      assert 3 * k / 4 == k - 1;
    }
  }

  lemma ShortSextets(b: seq<Byte>)
    ensures SextetAt(b, 0) == ByteAt(b, 0) / 4 && SextetAt(b, 1) == ByteAt(b, 0) % 4 * 16 + ByteAt(b, 1) / 16
    ensures SextetAt(b, 2) == ByteAt(b, 1) % 16 * 4 + ByteAt(b, 2) / 64
    ensures |b| >= 1 ==> ByteAt(b, 0) == b[0]
    ensures if |b| >= 2 then ByteAt(b, 1) == b[1] else ByteAt(b, 1) == 0
    ensures |b| <= 2 ==> ByteAt(b, 2) == 0
  {
    assert 3 * 1 / 4 == 0 && 3 * 2 / 4 == 1;
  }

  lemma CharAtTail(b: seq<Byte>, k: nat)
    requires 3 <= |b| && 4 <= k
    ensures CharAt(b, k) == CharAt(b[3..], k - 4)
  {
    hide Lookup;
    assert 3 * k / 4 == 3 + 3 * (k - 4) / 4 && k % 4 == (k - 4) % 4;
  }

  lemma {:induction false} TextIs(b: seq<Byte>)
    ensures |Text(b)| == (|b| + 2) / 3 * 4
    ensures forall k :: 0 <= k < |Text(b)| ==> Text(b)[k] == CharAt(b, k)
  {
    hide CharAt, Text, Pack3;
    if |b| < 3 {
      TextShort(b);
      if b != [] {
        forall k | 0 <= k < 4 ensures Text(b)[k] == CharAt(b, k) {
          ShortIs(b, k);
        }
      }
    } else {
      TextStep(b, 0, |b|);
      assert b[0..|b|] == b && b[0 + 3..|b|] == b[3..];
      TextIs(b[3..]);
      forall k | 0 <= k < |Text(b)| ensures Text(b)[k] == CharAt(b, k) {
        if k < 4 {
          TripletIs(b, k);
        } else {
          CharAtTail(b, k);
        }
      }
    }
  }

  // ---- the decoding ----

  datatype DecodeError = InvalidLength | NegativeArrayLength

  /** The four sextets of a group in one number. */
  function Bits(s: string): int
    requires |s| == 4
  {
    RevLookup(s[0]) * 0x40000 + RevLookup(s[1]) * 0x1000 + RevLookup(s[2]) * 0x40 + RevLookup(s[3])
  }

  function Unpack3(tmp: int): seq<Byte> {
    [tmp / 0x10000 % 0x100, tmp / 0x100 % 0x100, tmp % 0x100]
  }

  function Groups(s: string): (b: seq<Byte>)
    requires |s| % 4 == 0
    ensures 4 * |b| == 3 * |s|
  {
    if s == [] then [] else Unpack3(Bits(s[..4])) + Groups(s[4..])
  }

  /** The place of the first pad, or the length if there is none. */
  function ValidLen(s: string): (v: nat)
    ensures v <= |s|
    ensures forall i :: 0 <= i < v ==> s[i] != '='
    ensures v < |s| ==> s[v] == '='
  {
    if s == [] || s[0] == '=' then 0 else 1 + ValidLen(s[1..])
  }

  function PlaceHoldersLen(s: string): nat {
    if ValidLen(s) == |s| then 0 else 4 - ValidLen(s) % 4
  }

  /** Where the groups that the main loop decodes end; with four placeholders the last whole group is left out. */
  function WholeLen(s: string): (w: int)
    ensures w <= |s| && w % 4 == 0
  {
    if PlaceHoldersLen(s) == 4 then ValidLen(s) - 4 else ValidLen(s) - ValidLen(s) % 4
  }

  /** What follows the whole groups. */
  function Tail(s: string): seq<Byte>
    requires |s| % 4 == 0 && 0 <= WholeLen(s)
  {
    var i, placeHoldersLen := WholeLen(s), PlaceHoldersLen(s);
    if placeHoldersLen == 2 then
      [(RevLookup(s[i]) * 4 + RevLookup(s[i + 1]) / 0x10) % 0x100]
    else if placeHoldersLen == 1 then
      var tmp := RevLookup(s[i]) * 0x400 + RevLookup(s[i + 1]) * 0x10 + RevLookup(s[i + 2]) / 4;
      [tmp / 0x100 % 0x100, tmp % 0x100]
    else if placeHoldersLen == 4 then [0, 0]
    else []
  }

  /** What `toByteArray` makes of any string. */
  function Decoded(s: string): Result<seq<Byte>, DecodeError> {
    if |s| % 4 > 0 then Err(InvalidLength)
    else if WholeLen(s) < 0 then Err(NegativeArrayLength)
    else Ok(Groups(s[..WholeLen(s)]) + Tail(s))
  }

  /** `_byteLength` */
  function ByteLength(s: string): int {
    (ValidLen(s) + PlaceHoldersLen(s)) * 3 / 4 - PlaceHoldersLen(s)
  }

  /** The text in the URL-safe alphabet. */
  function UrlSafe(s: string): (t: string)
    ensures |t| == |s|
    ensures forall i :: 0 <= i < |s| ==> t[i] == if s[i] == '+' then '-' else if s[i] == '/' then '_' else s[i]
  {
    seq(|s|, i requires 0 <= i < |s| => if s[i] == '+' then '-' else if s[i] == '/' then '_' else s[i])
  }

  lemma UrlSafeBits(s: string)
    requires |s| == 4
    ensures Bits(UrlSafe(s)) == Bits(s)
  {
  }

  lemma {:induction false} UrlSafeGroups(s: string)
    requires |s| % 4 == 0
    ensures Groups(UrlSafe(s)) == Groups(s)
  {
    if s != [] {
      UrlSafeGroups(s[4..]);
      UrlSafeBits(s[..4]);
      assert UrlSafe(s)[4..] == UrlSafe(s[4..]) && UrlSafe(s)[..4] == UrlSafe(s[..4]);
    }
  }

  lemma {:induction false} UrlSafeLen(s: string)
    ensures ValidLen(UrlSafe(s)) == ValidLen(s)
  {
    if s != [] {
      UrlSafeLen(s[1..]);
      assert UrlSafe(s)[1..] == UrlSafe(s[1..]);
    }
  }

  lemma UrlSafeTail(s: string)
    requires |s| % 4 == 0 && 0 <= WholeLen(s)
    ensures WholeLen(UrlSafe(s)) == WholeLen(s) && Tail(UrlSafe(s)) == Tail(s)
  {
    UrlSafeLen(s);
    hide ValidLen;
    assert forall i :: 0 <= i < |s| ==> RevLookup(UrlSafe(s)[i]) == RevLookup(s[i]);
    hide RevLookup;
  }

  /** Both alphabets are decoded alike, on every string. */
  lemma UrlSafeDecoded(s: string)
    ensures Decoded(UrlSafe(s)) == Decoded(s)
  {
    UrlSafeLen(s);
    hide ValidLen, Groups, Tail;
    if |s| % 4 == 0 && 0 <= WholeLen(s) {
      UrlSafeTail(s);
      UrlSafeGroups(s[..WholeLen(s)]);
      assert UrlSafe(s)[..WholeLen(s)] == UrlSafe(s[..WholeLen(s)]);
    }
  }

  lemma GroupsNone(s: string)
    ensures Groups(s[..0]) == []
  {
  }

  lemma {:induction false} GroupsSnoc(s: string, i: nat)
    requires i % 4 == 0 && i + 4 <= |s|
    ensures Groups(s[..i + 4]) == Groups(s[..i]) + Unpack3(Bits(s[i..i + 4]))
  {
    hide Unpack3, Bits;
    if i == 0 {
      assert s[..4][4..] == [];
      assert s[0..4] == s[..4][..4];
    } else {
      GroupsSnoc(s[4..], i - 4);
      assert s[..i + 4][4..] == s[4..][..i];
      assert s[..i + 4][..4] == s[..i][..4];
      assert s[..i][4..] == s[4..][..i - 4];
      assert s[4..][i - 4..i] == s[i..i + 4];
    }
  }

  /** A fresh byte array. */
  function Zeros(n: nat): seq<Byte> {
    seq(n, _ => 0)
  }

  lemma Lens(s: string)
    requires |s| % 4 == 0
    ensures ByteLength(s) < 0 <==> WholeLen(s) < 0
    ensures WholeLen(s) <= |s| && WholeLen(s) % 4 == 0
    ensures 0 <= WholeLen(s) ==> ByteLength(s) == WholeLen(s) / 4 * 3 + |Tail(s)|
  {
    hide ValidLen, RevLookup;
  }

  /** The source's bound of the loop, which may be between two groups, stops at the same group. */
  lemma LoopBound(s: string, i: int)
    requires |s| % 4 == 0 && i % 4 == 0 && i <= WholeLen(s)
    ensures WholeLen(s) % 4 == 0 && (i < WholeLen(s) ==> i + 4 <= WholeLen(s))
    ensures i < (if PlaceHoldersLen(s) > 0 then ValidLen(s) - 4 else ValidLen(s)) <==> i < WholeLen(s)
  {
    hide ValidLen;
  }

  /** `toByteArray`: the array has `_byteLength` elements, and the loop and the two tails fill it. */
  method ToByteArray(b64: string) returns (r: Result<seq<Byte>, DecodeError>)
    ensures r == Decoded(b64)
    ensures r.Ok? ==> |r.value| == ByteLength(b64)
  {
    if |b64| % 4 > 0 {
      return Err(InvalidLength);
    }
    Lens(b64);
    hide Groups, Tail, Bits, WholeLen, ValidLen, PlaceHoldersLen, ByteLength;
    if ByteLength(b64) < 0 {
      return Err(NegativeArrayLength);
    }
    var arr := new Byte[ByteLength(b64)](_ => 0);
    assert arr[..] == Zeros(arr.Length);
    var curByte := FillGroups(arr, b64);
    FillTail(arr, curByte, b64, WholeLen(b64), Groups(b64[..WholeLen(b64)]));
    r := Ok(arr[..]);
  }

  /** The loop of `toByteArray`. */
  method FillGroups(arr: array<Byte>, b64: string) returns (curByte: nat)
    requires |b64| % 4 == 0 && 0 <= WholeLen(b64) <= |b64| && WholeLen(b64) % 4 == 0
    requires WholeLen(b64) / 4 * 3 <= arr.Length
    requires arr[..] == Zeros(arr.Length)
    modifies arr
    ensures curByte == WholeLen(b64) / 4 * 3
    ensures arr[..] == Groups(b64[..WholeLen(b64)]) + Zeros(arr.Length - curByte)
  {
    hide Groups, Tail, Bits, WholeLen, ValidLen, Unpack3, Zeros, PlaceHoldersLen;
    var validLen: int, placeHoldersLen := ValidLen(b64), PlaceHoldersLen(b64);
    var len: int := if placeHoldersLen > 0 then validLen - 4 else validLen;
    curByte := 0;
    var i := 0;
    ghost var g := 0;
    GroupsNone(b64);
    while i < len
      invariant i == 4 * g && 0 <= i <= WholeLen(b64)
      invariant curByte == 3 * g
      invariant arr[..] == Groups(b64[..i]) + Zeros(arr.Length - curByte)
    {
      LoopBound(b64, i);
      GroupsSnoc(b64, i);
      i, curByte := FillGroup(arr, curByte, b64, i, Groups(b64[..i]));
      g := g + 1;
    }
    LoopBound(b64, i);
  }

  /** One turn of the loop. */
  method FillGroup(arr: array<Byte>, at: nat, b64: string, i: nat, ghost done: seq<Byte>) returns (next: nat, curByte: nat)
    requires i + 4 <= |b64| && at + 3 <= arr.Length
    requires |done| == at && arr[..] == done + Zeros(arr.Length - at)
    modifies arr
    ensures next == i + 4 && curByte == at + 3
    ensures arr[..] == done + Unpack3(Bits(b64[i..i + 4])) + Zeros(arr.Length - at - 3)
  {
    hide RevLookup;
    var tmp: int := RevLookup(b64[i]) * 0x40000 + RevLookup(b64[i + 1]) * 0x1000 + RevLookup(b64[i + 2]) * 0x40
      + RevLookup(b64[i + 3]);
    curByte := at;
    arr[curByte] := tmp / 0x10000 % 0x100;
    curByte := curByte + 1;
    arr[curByte] := tmp / 0x100 % 0x100;
    curByte := curByte + 1;
    arr[curByte] := tmp % 0x100;
    curByte := curByte + 1;
    next := i + 4;
  }

  lemma TailRoom(s: string)
    requires |s| % 4 == 0 && 0 <= WholeLen(s)
    ensures 1 <= PlaceHoldersLen(s) <= 2 ==> WholeLen(s) + 4 <= |s|
  {
    hide ValidLen;
  }

  /** The two statements after the loop. */
  method FillTail(arr: array<Byte>, at: nat, b64: string, i: nat, ghost done: seq<Byte>)
    requires |b64| % 4 == 0 && i == WholeLen(b64) && arr.Length == at + |Tail(b64)|
    requires |done| == at && arr[..] == done + Zeros(arr.Length - at)
    modifies arr
    ensures arr[..] == done + Tail(b64)
  {
    TailRoom(b64);
    hide RevLookup, ValidLen, WholeLen;
    var placeHoldersLen := PlaceHoldersLen(b64);
    var curByte := at;
    if placeHoldersLen == 2 {
      var tmp: int := RevLookup(b64[i]) * 4 + RevLookup(b64[i + 1]) / 0x10;
      arr[curByte] := tmp % 0x100;
      curByte := curByte + 1;
    }
    if placeHoldersLen == 1 {
      var tmp: int := RevLookup(b64[i]) * 0x400 + RevLookup(b64[i + 1]) * 0x10 + RevLookup(b64[i + 2]) / 4;
      arr[curByte] := tmp / 0x100 % 0x100;
      curByte := curByte + 1;
      arr[curByte] := tmp % 0x100;
      curByte := curByte + 1;
    }
  }

  // ---- decoding undoes encoding ----

  lemma UnpackPack(b0: Byte, b1: Byte, b2: Byte)
    ensures Unpack3(Pack3(b0, b1, b2)) == [b0, b1, b2]
  {
    var num := Pack3(b0, b1, b2);
    DivUnique(num, 0x10000, b0, b1 * 0x100 + b2);
    DivUnique(num, 0x100, b0 * 0x100 + b1, b2);
    DivUnique(b0 * 0x100 + b1, 0x100, b0, b1);
  }

  lemma BitsTriplet(b0: Byte, b1: Byte, b2: Byte)
    ensures Bits(Triplet(Pack3(b0, b1, b2))) == Pack3(b0, b1, b2)
  {
    hide Lookup, RevLookup;
    var num := Pack3(b0, b1, b2);
    Pack3Bits(b0, b1, b2);
    LookupRev(num / 0x40000 % 64, '=');
    LookupRev(num / 0x1000 % 64, '=');
    LookupRev(num / 0x40 % 64, '=');
    LookupRev(num % 64, '=');
  }

  lemma {:induction false} GroupsText(b: seq<Byte>)
    requires |b| % 3 == 0
    ensures |Text(b)| % 4 == 0 && Groups(Text(b)) == b
  {
    hide Text, Triplet, Pack3, Bits, Unpack3;
    if b == [] {
      TextShort(b);
    } else {
      GroupsText(b[3..]);
      var t := Triplet(Pack3(b[0], b[1], b[2]));
      TextStep(b, 0, |b|);
      assert b[0..|b|] == b && b[0 + 3..|b|] == b[3..];
      GroupsCons(t, Text(b[3..]));
      BitsTriplet(b[0], b[1], b[2]);
      UnpackPack(b[0], b[1], b[2]);
      assert b == [b[0], b[1], b[2]] + b[3..];
    }
  }

  lemma GroupsCons(t: string, rest: string)
    requires |t| == 4 && |rest| % 4 == 0
    ensures |t + rest| % 4 == 0 && Groups(t + rest) == Unpack3(Bits(t)) + Groups(rest)
  {
    hide Bits, Unpack3;
    assert (t + rest)[..4] == t && (t + rest)[4..] == rest;
  }

  lemma ValidLenIs(s: string, v: nat)
    requires v <= |s| && (v < |s| ==> s[v] == '=')
    requires forall i :: 0 <= i < v ==> s[i] != '='
    ensures ValidLen(s) == v
  {
    assert ValidLen(s) >= v;
  }

  /** The pads of an encoding are where the bytes run out. */
  lemma TextValidLen(b: seq<Byte>, g: nat, r: nat)
    requires |b| == 3 * g + r && r < 3
    ensures ValidLen(Text(b)) == 4 * g + (if r == 0 then 0 else r + 1)
    ensures |Text(b)| == 4 * g + (if r == 0 then 0 else 4)
  {
    hide Text, SextetAt, Lookup, ValidLen;
    TextIs(b);
    DivUnique(|b| + 2, 3, if r == 0 then g else g + 1, if r == 0 then 2 else r - 1);
    ValidLenIs(Text(b), 4 * g + (if r == 0 then 0 else r + 1));
  }

  lemma TailOne(s: string, b: Byte)
    requires |s| % 4 == 0 && PlaceHoldersLen(s) == 2
    requires s[WholeLen(s)..] == LastGroup([b])
    ensures Tail(s) == [b]
  {
    hide Lookup, RevLookup, ValidLen;
    var i := WholeLen(s);
    assert s[i] == s[i..][0] && s[i + 1] == s[i..][1];
    LookupRev(b / 4, '=');
    LookupRev(b as int * 16 % 64, '=');
    ShortBits(b, 0);
  }

  lemma TailTwo(s: string, b: seq<Byte>)
    requires |s| % 4 == 0 && PlaceHoldersLen(s) == 1 && |b| == 2
    requires s[WholeLen(s)..] == LastGroup(b)
    ensures Tail(s) == b
  {
    hide Lookup, RevLookup, ValidLen;
    var i := WholeLen(s);
    assert s[i] == s[i..][0] && s[i + 1] == s[i..][1] && s[i + 2] == s[i..][2];
    ShortBits(b[0], b[1]);
    LookupRev(b[0] / 4, '=');
    LookupRev(b[0] % 4 * 16 + b[1] / 16, '=');
    LookupRev(b[1] % 16 * 4, '=');
    JoinTwo(b[0], b[1]);
  }

  lemma JoinTwo(b0: Byte, b1: Byte)
    ensures var tmp: int := b0 as int / 4 * 0x400 + (b0 as int % 4 * 16 + b1 / 16) * 0x10 + b1 % 16 * 4 / 4;
      tmp / 0x100 % 0x100 == b0 && tmp % 0x100 == b1
  {
    var tmp: int := b0 as int * 0x100 + b1;
    assert b0 as int / 4 * 0x400 + (b0 as int % 4 * 16 + b1 / 16) * 0x10 + b1 % 16 * 4 / 4 == tmp;
    DivUnique(tmp, 0x100, b0, b1);
  }

  lemma WholeText(b: seq<Byte>, g: nat, r: nat)
    requires |b| == 3 * g + r && r < 3
    ensures WholeLen(Text(b)) == 4 * g && WholeLen(Text(b)) % 4 == 0
    ensures PlaceHoldersLen(Text(b)) == if r == 0 then 0 else 3 - r
    ensures ByteLength(Text(b)) == |b|
    ensures |Text(b)| % 4 == 0
  {
    hide Text, ValidLen;
    TextValidLen(b, g, r);
    DivUnique(ValidLen(Text(b)), 4, g, if r == 0 then 0 else r + 1);
  }

  lemma TextSplit(b: seq<Byte>, g: nat, r: nat)
    requires |b| == 3 * g + r && r < 3
    ensures var w, t := b[..3 * g], b[3 * g..];
      Text(b) == Text(w) + Text(t) && |Text(w)| == 4 * g && |Text(w)| % 4 == 0 && Groups(Text(w)) == w
  {
    hide Text, Groups;
    var w, t := b[..3 * g], b[3 * g..];
    assert b == w + t;
    TextConcat(w, t);
    GroupsText(w);
    TextValidLen(w, g, 0);
  }

  /** `toByteArray(fromByteArray(b))` is `b`, for all byte sequences. */
  lemma DecodedText(b: seq<Byte>)
    ensures Decoded(Text(b)) == Ok(b)
    ensures ByteLength(Text(b)) == |b|
  {
    hide Text, Decoded, ByteLength;
    DecodedParts(b, |b| / 3, |b| % 3);
  }

  lemma DecodedParts(b: seq<Byte>, g: nat, r: nat)
    requires |b| == 3 * g + r && r < 3
    ensures Decoded(Text(b)) == Ok(b)
    ensures ByteLength(Text(b)) == |b|
  {
    hide Text, ValidLen, Groups, LastGroup, Tail, WholeLen, PlaceHoldersLen, ByteLength, Decoded;
    var s, w, t := Text(b), b[..3 * g], b[3 * g..];
    WholeText(b, g, r);
    TextSplit(b, g, r);
    TextShort(t);
    assert s[4 * g..] == Text(t);
    TailText(s, t);
    DecodedIs(s, Text(w), w, t);
    assert b == w + t;
  }

  lemma DecodedIs(s: string, whole: string, w: seq<Byte>, t: seq<Byte>)
    requires |s| % 4 == 0 && |whole| % 4 == 0 && WholeLen(s) == |whole|
    requires whole <= s && Groups(whole) == w && Tail(s) == t
    ensures Decoded(s) == Ok(w + t)
  {
    hide ValidLen, Groups, Tail, WholeLen, PlaceHoldersLen;
    assert s[..WholeLen(s)] == whole;
  }

  lemma TailText(s: string, t: seq<Byte>)
    requires |t| < 3 && |s| % 4 == 0 && 0 <= WholeLen(s) <= |s|
    requires PlaceHoldersLen(s) == if t == [] then 0 else 3 - |t|
    requires s[WholeLen(s)..] == if t == [] then "" else LastGroup(t)
    ensures Tail(s) == t
  {
    hide ValidLen, LastGroup;
    if |t| == 1 {
      assert t == [t[0]];
      TailOne(s, t[0]);
    } else if |t| == 2 {
      TailTwo(s, t);
    }
  }

  // ---- which texts are encodings ----

  /** RFC 4648, sections 3.3 to 3.5: only the alphabet, pads only at the end of the last group, and no stray bits
      before a pad. */
  predicate Canonical(s: string) {
    if s == [] then true
    else if |s| < 4 then false
    else if |s| == 4 && s[3] == '=' then
      InAlphabet(s[0]) && InAlphabet(s[1])
      && if s[2] == '=' then RevLookup(s[1]) % 16 == 0 else InAlphabet(s[2]) && RevLookup(s[2]) % 4 == 0
    else
      InAlphabet(s[0]) && InAlphabet(s[1]) && InAlphabet(s[2]) && InAlphabet(s[3]) && Canonical(s[4..])
  }

  predicate AllInAlphabet(t: string)
    requires |t| == 4
  {
    InAlphabet(t[0]) && InAlphabet(t[1]) && InAlphabet(t[2]) && InAlphabet(t[3])
  }

  lemma CanonicalCons(t: string, rest: string)
    requires |t| == 4 && AllInAlphabet(t) && Canonical(rest)
    ensures Canonical(t + rest)
  {
    assert (t + rest)[4..] == rest;
  }

  lemma TripletInAlphabet(num: int)
    requires 0 <= num < 0x1000000
    ensures AllInAlphabet(Triplet(num))
  {
    hide Lookup, RevLookup, InAlphabet;
    LookupRev(num / 0x40000 % 64, '=');
    LookupRev(num / 0x1000 % 64, '=');
    LookupRev(num / 0x40 % 64, '=');
    LookupRev(num % 64, '=');
  }

  lemma {:induction false} TextIsCanonical(b: seq<Byte>)
    ensures Canonical(Text(b))
  {
    hide Triplet, Pack3, AllInAlphabet, LastGroup;
    if 3 <= |b| {
      TextIsCanonical(b[3..]);
      var t := Triplet(Pack3(b[0], b[1], b[2]));
      TripletInAlphabet(Pack3(b[0], b[1], b[2]));
      CanonicalCons(t, Text(b[3..]));
    } else if b != [] {
      GroupIsCanonical(b);
    }
  }

  lemma GroupIsCanonical(b: seq<Byte>)
    requires 1 <= |b| <= 2
    ensures Canonical(LastGroup(b))
  {
    LastGroupIs(b);
    hide Lookup, RevLookup, InAlphabet, LastGroup;
    LookupRev(b[0] / 4, '=');
    if |b| == 1 {
      assert ByteAt(b, 1) / 16 == 0;
      LookupRev(b[0] % 4 * 16, '=');
    } else {
      assert ByteAt(b, 1) == b[1];
      LookupRev(b[0] % 4 * 16 + b[1] / 16, '=');
      LookupRev(b[1] % 16 * 4, '=');
    }
  }

  lemma GroupBytes(t: string)
    requires |t| == 4 && AllInAlphabet(t)
    ensures 0 <= Bits(t) < 0x1000000 && Triplet(Bits(t)) == t
  {
    hide Lookup, RevLookup, InAlphabet;
    var x0: int, x1: int, x2: int, x3: int := RevLookup(t[0]), RevLookup(t[1]), RevLookup(t[2]), RevLookup(t[3]);
    LookupRev(0, t[0]);
    LookupRev(0, t[1]);
    LookupRev(0, t[2]);
    LookupRev(0, t[3]);
    DivUnique(Bits(t), 0x40000, x0, x1 * 0x1000 + x2 * 0x40 + x3);
    DivUnique(Bits(t), 0x1000, x0 * 0x40 + x1, x2 * 0x40 + x3);
    DivUnique(x0 * 0x40 + x1, 0x40, x0, x1);
    DivUnique(Bits(t), 0x40, x0 * 0x1000 + x1 * 0x40 + x2, x3);
    DivUnique(x0 * 0x1000 + x1 * 0x40 + x2, 0x40, x0 * 0x40 + x1, x2);
  }

  lemma PackUnpack(num: int) returns (b0: Byte, b1: Byte, b2: Byte)
    requires 0 <= num < 0x1000000
    ensures Pack3(b0, b1, b2) == num
  {
    DivUnique(num / 0x100, 0x100, num / 0x100 / 0x100, num / 0x100 % 0x100);
    b0, b1, b2 := num / 0x100 / 0x100, num / 0x100 % 0x100, num % 0x100;
  }

  lemma LastBytes(s: string) returns (b: seq<Byte>)
    requires |s| == 4 && s[3] == '=' && Canonical(s)
    ensures Text(b) == s
  {
    hide Lookup, RevLookup, InAlphabet;
    var x0: int, x1: int, x2: int := RevLookup(s[0]), RevLookup(s[1]), RevLookup(s[2]);
    LookupRev(0, s[0]);
    LookupRev(0, s[1]);
    LookupRev(0, s[2]);
    var b0: Byte := x0 * 4 + x1 / 16;
    DivUnique(b0, 4, x0, x1 / 16);
    if s[2] == '=' {
      b := [b0];
      ShortBits(b0, 0);
    } else {
      var b1: Byte := x1 % 16 * 16 + x2 / 4;
      DivUnique(b1, 16, x1 % 16, x2 / 4);
      b := [b0, b1];
      ShortBits(b0, b1);
    }
    TextShort(b);
  }

  /** Every canonical text is the encoding of some bytes. */
  lemma {:induction false} CanonicalIsText(s: string) returns (b: seq<Byte>)
    requires Canonical(s)
    ensures Text(b) == s
  {
    if s == [] {
      b := [];
    } else if |s| == 4 && s[3] == '=' {
      b := LastBytes(s);
    } else {
      var rest := CanonicalIsText(s[4..]);
      GroupBytes(s[..4]);
      var b0, b1, b2 := PackUnpack(Bits(s[..4]));
      b := [b0, b1, b2] + rest;
      hide Triplet, Bits, Pack3;
      assert b[3..] == rest;
      assert s == s[..4] + s[4..];
    }
  }

  /** `fromByteArray` gives a decoded text back exactly if it was canonical. */
  lemma EncodeDecoded(s: string)
    ensures Decoded(s).Ok? && Text(Decoded(s).value) == s <==> Canonical(s)
  {
    hide Text, Decoded, Canonical;
    if Canonical(s) {
      var b := CanonicalIsText(s);
      DecodedText(b);
    }
    if Decoded(s).Ok? {
      TextIsCanonical(Decoded(s).value);
    }
  }
}
