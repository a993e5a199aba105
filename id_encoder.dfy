/**
 * src/utils/idEncoder.ts: `encodeId(id)` is `btoa(id)` with every `=`
 * removed, and `decodeId(encoded)` is `atob(encoded)`.
 *
 * `btoa` is the base64 encoding of section 4 of RFC 4648 (standard
 * alphabet) with the padding of section 3.2, applied to the string's code
 * units taken as bytes; it throws when a code unit is above U+00FF.
 * `atob` is the forgiving-base64 decode of the WHATWG Infra standard, which
 * accepts input whose padding has been stripped.
 */
module IdEncoder {
  import opened Common
  import Seqs

  /** The exception both `btoa` and `atob` throw. */
  const InvalidCharacter := "InvalidCharacterError"

  /** The character of the base64 alphabet for a 6-bit value (table 1 of RFC 4648). */
  function SextetChar(v: nat): (c: char)
    requires v < 64
  {
    if v < 26 then ('A' as int + v) as char
    else if v < 52 then ('a' as int + (v - 26)) as char
    else if v < 62 then ('0' as int + (v - 52)) as char
    else if v == 62 then '+'
    else '/'
  }

  /** The 6-bit value of an alphabet character, `None` for any other character. */
  function SextetValue(c: char): (v: Option<nat>)
    ensures v.Some? ==> v.value < 64
  {
    if 'A' <= c <= 'Z' then Some(c as int - 'A' as int)
    else if 'a' <= c <= 'z' then Some(c as int - 'a' as int + 26)
    else if '0' <= c <= '9' then Some(c as int - '0' as int + 52)
    else if c == '+' then Some(62)
    else if c == '/' then Some(63)
    else None
  }

  predicate InAlphabet(c: char)
  {
    SextetValue(c).Some?
  }

  lemma SextetRoundTrip(v: nat)
    requires v < 64
    ensures SextetValue(SextetChar(v)) == Some(v)
  {
  }

  /** Every code unit fits in a byte, as `btoa` demands. */
  predicate IsByteString(s: string)
  {
    forall i :: 0 <= i < |s| ==> s[i] as int < 256
  }

  function Group1(a: char): (r: string)
    requires a as int < 256
    ensures |r| == 2
  {
    var x := a as int;
    [SextetChar(x / 4), SextetChar(x % 4 * 16)]
  }

  function Group2(a: char, b: char): (r: string)
    requires a as int < 256 && b as int < 256
    ensures |r| == 3
  {
    var x, y := a as int, b as int;
    [SextetChar(x / 4), SextetChar(x % 4 * 16 + y / 16), SextetChar(y % 16 * 4)]
  }

  function Group3(a: char, b: char, c: char): (r: string)
    requires a as int < 256 && b as int < 256 && c as int < 256
    ensures |r| == 4
  {
    var x, y, z := a as int, b as int, c as int;
    [SextetChar(x / 4), SextetChar(x % 4 * 16 + y / 16), SextetChar(y % 16 * 4 + z / 64), SextetChar(z % 64)]
  }

  /** Base64 with `=` padding: what `btoa` returns for a byte string. */
  function EncodePadded(s: string): (r: string)
    requires IsByteString(s)
    ensures |r| % 4 == 0
    decreases |s|
  {
    if |s| == 0 then ""
    else if |s| == 1 then Group1(s[0]) + "=="
    else if |s| == 2 then Group2(s[0], s[1]) + "="
    else Group3(s[0], s[1], s[2]) + EncodePadded(s[3..])
  }

  /** Base64 without padding: the last group keeps only the characters that carry bits. */
  function EncodeUnpadded(s: string): (r: string)
    requires IsByteString(s)
    ensures |r| % 4 != 1
    decreases |s|
  {
    if |s| == 0 then ""
    else if |s| == 1 then Group1(s[0])
    else if |s| == 2 then Group2(s[0], s[1])
    else Group3(s[0], s[1], s[2]) + EncodeUnpadded(s[3..])
  }

  /** `btoa(s)` */
  function Btoa(s: string): (r: Result<string>)
    ensures r.Thrown? <==> !IsByteString(s)
  {
    if IsByteString(s) then Ok(EncodePadded(s)) else Thrown(InvalidCharacter)
  }

  predicate NotPad(c: char) { c != '=' }

  /** `encodeId(id)`: `btoa(id).replace(/=/g, '')` */
  function EncodeId(id: string): Result<string>
  {
    match Btoa(id)
    case Ok(b) => Ok(Seqs.Filter(b, NotPad))
    case Thrown(m) => Thrown(m)
  }

  /** ASCII white space as the WHATWG Infra standard defines it: TAB, LF, FF, CR and SPACE. */
  predicate IsAsciiWhitespace(c: char)
  {
    c == '\t' || c == '\n' || c == '\U{000C}' || c == '\r' || c == ' '
  }

  predicate NotWhitespace(c: char) { !IsAsciiWhitespace(c) }

  /** Step 2 of forgiving-base64 decode: at a length divisible by 4, one or two trailing `=` are dropped. */
  function StripPadding(d: string): (r: string)
    ensures |r| <= |d|
  {
    if |d| % 4 == 0 && |d| >= 2 && d[|d| - 2..] == "==" then d[..|d| - 2]
    else if |d| % 4 == 0 && |d| >= 1 && d[|d| - 1] == '=' then d[..|d| - 1]
    else d
  }

  /** The 6-bit value of a character; only ever applied to alphabet characters. */
  function Val(c: char): (v: nat)
    ensures v < 64
    ensures InAlphabet(c) ==> Some(v) == SextetValue(c)
  {
    match SextetValue(c)
    case Some(v) => v
    case None => 0
  }

  /** The first byte of a group, from its first two characters. */
  function Hi(p: char, q: char): char
  {
    (Val(p) * 4 + Val(q) / 16) as char
  }

  /** The second byte of a group, from its second and third characters. */
  function Mid(q: char, r: char): char
  {
    (Val(q) % 16 * 16 + Val(r) / 4) as char
  }

  /** The third byte of a group, from its third and fourth characters. */
  function Lo(r: char, t: char): char
  {
    (Val(r) % 4 * 64 + Val(t)) as char
  }

  /** Steps 5 to 8 of forgiving-base64 decode: every 4 characters give 3 bytes; 2 or 3 left-over characters give 1 or 2 bytes, their spare bits dropped. */
  function DecodeChars(d: string): (r: string)
    requires |d| % 4 != 1
    decreases |d|
  {
    if |d| == 0 then ""
    else if |d| == 2 then [Hi(d[0], d[1])]
    else if |d| == 3 then [Hi(d[0], d[1]), Mid(d[1], d[2])]
    else [Hi(d[0], d[1]), Mid(d[1], d[2]), Lo(d[2], d[3])] + DecodeChars(d[4..])
  }

  /** `atob(data)`: forgiving-base64 decode; the result holds one character per byte. */
  function Atob(data: string): (r: Result<string>)
    ensures r.Ok? ==> IsByteString(r.value)
  {
    var d := StripPadding(Seqs.Filter(data, NotWhitespace));
    if |d| % 4 == 1 then Thrown(InvalidCharacter)
    else if exists i :: 0 <= i < |d| && !InAlphabet(d[i]) then Thrown(InvalidCharacter)
    else
      var r := DecodeChars(d);
      DecodeIsBytes(d);
      Ok(r)
  }

  lemma {:induction false} DecodeIsBytes(d: string)
    requires |d| % 4 != 1
    ensures IsByteString(DecodeChars(d))
    decreases |d|
  {
    if |d| > 3 {
      DecodeIsBytes(d[4..]);
    }
  }

  /** `decodeId(encoded)` */
  function DecodeId(encoded: string): Result<string>
  {
    Atob(encoded)
  }

  // ---------------------------------------------------------------------
  // Properties of encodeId and decodeId

  /** The three bytes of a full group come back from its four sextets. */
  lemma Group3Bits(x: int, y: int, z: int)
    requires 0 <= x < 256 && 0 <= y < 256 && 0 <= z < 256
    ensures x / 4 < 64 && x % 4 * 16 + y / 16 < 64 && y % 16 * 4 + z / 64 < 64 && z % 64 < 64
    ensures x / 4 * 4 + (x % 4 * 16 + y / 16) / 16 == x
    ensures (x % 4 * 16 + y / 16) % 16 * 16 + (y % 16 * 4 + z / 64) / 4 == y
    ensures (y % 16 * 4 + z / 64) % 4 * 64 + z % 64 == z
  {
  }

  lemma HiOf(x: int, y: int)
    requires 0 <= x < 256 && 0 <= y < 256
    ensures Hi(SextetChar(x / 4), SextetChar(x % 4 * 16 + y / 16)) == x as char
  {
    Group3Bits(x, y, 0);
    SextetRoundTrip(x / 4);
    SextetRoundTrip(x % 4 * 16 + y / 16);
  }

  lemma MidOf(x: int, y: int, z: int)
    requires 0 <= x < 256 && 0 <= y < 256 && 0 <= z < 256
    ensures Mid(SextetChar(x % 4 * 16 + y / 16), SextetChar(y % 16 * 4 + z / 64)) == y as char
  {
    Group3Bits(x, y, z);
    SextetRoundTrip(x % 4 * 16 + y / 16);
    SextetRoundTrip(y % 16 * 4 + z / 64);
  }

  lemma LoOf(y: int, z: int)
    requires 0 <= y < 256 && 0 <= z < 256
    ensures Lo(SextetChar(y % 16 * 4 + z / 64), SextetChar(z % 64)) == z as char
  {
    Group3Bits(0, y, z);
    SextetRoundTrip(y % 16 * 4 + z / 64);
    SextetRoundTrip(z % 64);
  }

  lemma DecodeGroup1(a: char)
    requires a as int < 256
    ensures DecodeChars(Group1(a)) == [a]
  {
    HiOf(a as int, 0);
  }

  lemma DecodeGroup2(a: char, b: char)
    requires a as int < 256 && b as int < 256
    ensures DecodeChars(Group2(a, b)) == [a, b]
  {
    HiOf(a as int, b as int);
    MidOf(a as int, b as int, 0);
  }

  /** Four alphabet characters in front of `rest` decode to their three bytes in front of the decoded `rest`. */
  lemma DecodeQuad(g: string, rest: string)
    requires |g| == 4
    requires |rest| % 4 != 1
    ensures DecodeChars(g + rest) == [Hi(g[0], g[1]), Mid(g[1], g[2]), Lo(g[2], g[3])] + DecodeChars(rest)
  {
    var d := g + rest;
    assert d[4..] == rest;
  }

  lemma DecodeGroup3(a: char, b: char, c: char)
    requires a as int < 256 && b as int < 256 && c as int < 256
    ensures var g := Group3(a, b, c); Hi(g[0], g[1]) == a && Mid(g[1], g[2]) == b && Lo(g[2], g[3]) == c
  {
    HiOf(a as int, b as int);
    MidOf(a as int, b as int, c as int);
    LoOf(b as int, c as int);
  }

  lemma {:induction false} DecodeEncode(s: string)
    requires IsByteString(s)
    ensures DecodeChars(EncodeUnpadded(s)) == s
    decreases |s|
  {
    if |s| == 1 {
      DecodeGroup1(s[0]);
    } else if |s| == 2 {
      DecodeGroup2(s[0], s[1]);
      assert s == [s[0], s[1]];
    } else if |s| > 2 {
      DecodeEncode(s[3..]);
      DecodeEncodeStep(s);
    }
  }

  lemma DecodeEncodeStep(s: string)
    requires IsByteString(s) && |s| > 2
    requires DecodeChars(EncodeUnpadded(s[3..])) == s[3..]
    ensures DecodeChars(EncodeUnpadded(s)) == s
  {
    UnpaddedUnfold(s);
    DecodeGroup3(s[0], s[1], s[2]);
    DecodeFront(s, Group3(s[0], s[1], s[2]), EncodeUnpadded(s[3..]));
  }

  lemma DecodeFront(s: string, g: string, rest: string)
    requires |s| > 2 && |g| == 4 && |rest| % 4 != 1
    requires Hi(g[0], g[1]) == s[0] && Mid(g[1], g[2]) == s[1] && Lo(g[2], g[3]) == s[2]
    requires DecodeChars(rest) == s[3..]
    ensures DecodeChars(g + rest) == s
  {
    DecodeQuad(g, rest);
    assert [s[0], s[1], s[2]] + s[3..] == s;
  }

  lemma UnpaddedUnfold(s: string)
    requires IsByteString(s) && |s| > 2
    ensures EncodeUnpadded(s) == Group3(s[0], s[1], s[2]) + EncodeUnpadded(s[3..])
  {
  }

  /** Four characters for every three bytes, rounded up. */
  lemma {:induction false} EncodeUnpaddedLength(s: string)
    requires IsByteString(s)
    ensures |EncodeUnpadded(s)| == (4 * |s| + 2) / 3
    decreases |s|
  {
    if |s| > 2 {
      EncodeUnpaddedLength(s[3..]);
    }
  }

  lemma SextetInAlphabet(v: nat)
    requires v < 64
    ensures InAlphabet(SextetChar(v)) && SextetChar(v) != '='
  {
    SextetRoundTrip(v);
  }

  /** Every character of a group belongs to the alphabet. */
  lemma GroupsInAlphabet(a: char, b: char, c: char)
    requires a as int < 256 && b as int < 256 && c as int < 256
    ensures forall i :: 0 <= i < 2 ==> InAlphabet(Group1(a)[i])
    ensures forall i :: 0 <= i < 3 ==> InAlphabet(Group2(a, b)[i])
    ensures forall i :: 0 <= i < 4 ==> InAlphabet(Group3(a, b, c)[i])
  {
    var x, y, z := a as int, b as int, c as int;
    SextetInAlphabet(x / 4);
    SextetInAlphabet(x % 4 * 16);
    SextetInAlphabet(x % 4 * 16 + y / 16);
    SextetInAlphabet(y % 16 * 4);
    SextetInAlphabet(y % 16 * 4 + z / 64);
    SextetInAlphabet(z % 64);
  }

  lemma AlphabetAppend(g: string, rest: string)
    requires forall i :: 0 <= i < |g| ==> InAlphabet(g[i])
    requires forall i :: 0 <= i < |rest| ==> InAlphabet(rest[i])
    ensures forall i :: 0 <= i < |g + rest| ==> InAlphabet((g + rest)[i])
  {
  }

  /** The unpadded encoding uses the base64 alphabet only. */
  lemma {:induction false} EncodeUnpaddedInAlphabet(s: string)
    requires IsByteString(s)
    ensures forall i :: 0 <= i < |EncodeUnpadded(s)| ==> InAlphabet(EncodeUnpadded(s)[i])
    decreases |s|
  {
    if |s| == 1 {
      GroupsInAlphabet(s[0], 0 as char, 0 as char);
    } else if |s| == 2 {
      GroupsInAlphabet(s[0], s[1], 0 as char);
    } else if |s| > 2 {
      EncodeUnpaddedInAlphabet(s[3..]);
      UnpaddedUnfold(s);
      GroupsInAlphabet(s[0], s[1], s[2]);
      AlphabetAppend(Group3(s[0], s[1], s[2]), EncodeUnpadded(s[3..]));
    }
  }

  lemma PaddedUnfold(s: string)
    requires IsByteString(s) && |s| > 2
    ensures EncodePadded(s) == Group3(s[0], s[1], s[2]) + EncodePadded(s[3..])
  {
  }

  /** Filtering out `=` keeps a group of alphabet characters whole. */
  lemma FilterPadAppend(g: string, tail: string, rest: string)
    requires forall i :: 0 <= i < |g| ==> InAlphabet(g[i])
    requires Seqs.Filter(tail, NotPad) == rest
    ensures Seqs.Filter(g + tail, NotPad) == g + rest
  {
    Seqs.FilterAppend(g, tail, NotPad);
    Seqs.FilterKeepsAll(g, NotPad);
  }

  /** Removing `=` from the padded encoding leaves the unpadded one. */
  lemma {:induction false} StripEqualsPadding(s: string)
    requires IsByteString(s)
    ensures Seqs.Filter(EncodePadded(s), NotPad) == EncodeUnpadded(s)
    decreases |s|
  {
    if |s| == 1 {
      GroupsInAlphabet(s[0], 0 as char, 0 as char);
      FilterPadAppend(Group1(s[0]), "==", "");
    } else if |s| == 2 {
      GroupsInAlphabet(s[0], s[1], 0 as char);
      FilterPadAppend(Group2(s[0], s[1]), "=", "");
    } else if |s| > 2 {
      StripEqualsPadding(s[3..]);
      PaddedUnfold(s);
      UnpaddedUnfold(s);
      GroupsInAlphabet(s[0], s[1], s[2]);
      FilterPadAppend(Group3(s[0], s[1], s[2]), EncodePadded(s[3..]), EncodeUnpadded(s[3..]));
    }
  }

  /** `encodeId` returns the unpadded base64 of a byte string, and throws otherwise. */
  lemma EncodeIdIsUnpaddedBase64(id: string)
    ensures IsByteString(id) ==> EncodeId(id) == Ok(EncodeUnpadded(id))
    ensures !IsByteString(id) ==> EncodeId(id) == Thrown(InvalidCharacter)
  {
    if IsByteString(id) {
      StripEqualsPadding(id);
    }
  }

  /** The encoded id never contains `=` and has ceil(4n/3) characters. */
  lemma EncodeIdShape(id: string)
    requires IsByteString(id)
    ensures EncodeId(id).Ok?
    ensures '=' !in EncodeId(id).value
    ensures |EncodeId(id).value| == (4 * |id| + 2) / 3
  {
    EncodeIdIsUnpaddedBase64(id);
    EncodeUnpaddedLength(id);
  }

  /** Text made of alphabet characters only has no padding to strip. */
  lemma NoPaddingToStrip(e: string)
    requires forall i :: 0 <= i < |e| ==> InAlphabet(e[i])
    ensures StripPadding(e) == e
  {
    if |e| >= 1 {
      assert InAlphabet(e[|e| - 1]);
    }
    if |e| >= 2 {
      assert InAlphabet(e[|e| - 2]);
      assert e[|e| - 2..][0] == e[|e| - 2];
    }
  }

  /** `decodeId(encodeId(id)) == id` for every id whose code units fit in a byte. */
  lemma DecodeIdEncodeId(id: string)
    requires IsByteString(id)
    ensures EncodeId(id).Ok? && DecodeId(EncodeId(id).value) == Ok(id)
  {
    EncodeIdIsUnpaddedBase64(id);
    var e := EncodeUnpadded(id);
    EncodeUnpaddedInAlphabet(id);
    Seqs.FilterKeepsAll(e, NotWhitespace);
    NoPaddingToStrip(e);
    DecodeEncode(id);
  }
}
