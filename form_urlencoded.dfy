/**
 * The application/x-www-form-urlencoded serializer of the WHATWG URL Standard
 * (section 5.2), which `URLSearchParams.toString()` runs, and a parser for
 * what it produces (section 5.1) that undoes it.
 *
 * Serializing percent-encodes each name and value after encoding it as UTF-8:
 * ASCII alphanumerics and `*`, `-`, `.`, `_` are copied, a space becomes `+`,
 * and every other byte becomes `%` followed by two upper-case hex digits.
 */
module FormUrlEncoded {
  import opened Wrappers
  import Text

  // ---------------------------------------------------------------------------
  // UTF-8
  // ---------------------------------------------------------------------------

  predicate IsByte(b: int) {
    0 <= b < 256
  }

  predicate AreBytes(bs: seq<int>) {
    forall k :: 0 <= k < |bs| ==> IsByte(bs[k])
  }

  /** The UTF-8 encoding of one Unicode scalar value. */
  function Utf8(c: char): (bs: seq<int>)
    ensures 1 <= |bs| <= 4 && AreBytes(bs)
  {
    var cp := c as int;
    if cp < 0x80 then [cp]
    else if cp < 0x800 then [0xC0 + cp / 64, 0x80 + cp % 64]
    else if cp < 0x10000 then [0xE0 + cp / 4096, 0x80 + (cp / 64) % 64, 0x80 + cp % 64]
    else [0xF0 + cp / 262144, 0x80 + (cp / 4096) % 64, 0x80 + (cp / 64) % 64, 0x80 + cp % 64]
  }

  /** How many bytes a UTF-8 sequence has, read from its first byte; 0 for a byte that cannot start one. */
  function Utf8Length(b0: int): nat {
    if 0 <= b0 < 0x80 then 1
    else if 0xC0 <= b0 < 0xE0 then 2
    else if 0xE0 <= b0 < 0xF0 then 3
    else if 0xF0 <= b0 < 0xF8 then 4
    else 0
  }

  predicate IsContinuation(b: int) {
    0x80 <= b < 0xC0
  }

  function ScalarOf(cp: int): Option<char> {
    if 0 <= cp < 0xD800 || 0xE000 <= cp < 0x11_0000 then Some(cp as char) else None
  }

  /** The scalar value a complete UTF-8 sequence stands for, or `None` if it is not one. */
  function Utf8Decode(bs: seq<int>): Option<char> {
    if |bs| == 1 && 0 <= bs[0] < 0x80 then ScalarOf(bs[0])
    else if |bs| == 2 && 0xC0 <= bs[0] < 0xE0 && IsContinuation(bs[1]) then
      ScalarOf((bs[0] - 0xC0) * 64 + (bs[1] - 0x80))
    else if |bs| == 3 && 0xE0 <= bs[0] < 0xF0 && IsContinuation(bs[1]) && IsContinuation(bs[2]) then
      ScalarOf((bs[0] - 0xE0) * 4096 + (bs[1] - 0x80) * 64 + (bs[2] - 0x80))
    else if |bs| == 4 && 0xF0 <= bs[0] < 0xF8 && IsContinuation(bs[1]) && IsContinuation(bs[2])
         && IsContinuation(bs[3]) then
      ScalarOf((bs[0] - 0xF0) * 262144 + (bs[1] - 0x80) * 4096 + (bs[2] - 0x80) * 64 + (bs[3] - 0x80))
    else None
  }

  lemma Utf8RoundTrip2(c: char)
    requires 0x80 <= c as int < 0x800
    ensures Utf8Decode(Utf8(c)) == Some(c)
  {
    var cp := c as int;
    assert (cp / 64) * 64 + cp % 64 == cp;
  }

  lemma Utf8RoundTrip3(c: char)
    requires 0x800 <= c as int < 0x10000
    ensures Utf8Decode(Utf8(c)) == Some(c)
  {
    var cp := c as int;
    var hi, mid, lo := cp / 4096, (cp / 64) % 64, cp % 64;
    assert cp / 64 == hi * 64 + mid;
    assert hi * 4096 + mid * 64 + lo == cp;
  }

  lemma Utf8RoundTrip4(c: char)
    requires 0x10000 <= c as int
    ensures Utf8Decode(Utf8(c)) == Some(c)
  {
    var cp := c as int;
    var b0, b1, b2, b3 := cp / 262144, (cp / 4096) % 64, (cp / 64) % 64, cp % 64;
    assert cp / 4096 == b0 * 64 + b1;
    assert cp / 64 == (cp / 4096) * 64 + b2;
    assert b0 * 262144 + b1 * 4096 + b2 * 64 + b3 == cp;
  }

  /** Decoding undoes encoding, and the first byte announces the length of the sequence. */
  lemma Utf8RoundTrip(c: char)
    ensures Utf8Decode(Utf8(c)) == Some(c)
    ensures Utf8Length(Utf8(c)[0]) == |Utf8(c)|
  {
    var cp := c as int;
    if cp < 0x80 {
    } else if cp < 0x800 {
      Utf8RoundTrip2(c);
    } else if cp < 0x10000 {
      Utf8RoundTrip3(c);
    } else {
      Utf8RoundTrip4(c);
    }
  }

  // ---------------------------------------------------------------------------
  // Percent-encoding
  // ---------------------------------------------------------------------------

  /** The code points the serializer copies unchanged. */
  predicate IsUnescaped(c: char) {
    ('a' <= c <= 'z') || ('A' <= c <= 'Z') || ('0' <= c <= '9') || c == '*' || c == '-' || c == '.' || c == '_'
  }

  /** The characters an encoded name or value is made of. */
  predicate IsEncodedChar(c: char) {
    IsUnescaped(c) || c == '+' || c == '%'
  }

  function HexDigit(d: int): (c: char)
    requires 0 <= d < 16
    ensures IsUnescaped(c)
  {
    if d < 10 then (d + '0' as int) as char else (d - 10 + 'A' as int) as char
  }

  predicate IsHexDigit(c: char) {
    ('0' <= c <= '9') || ('A' <= c <= 'F') || ('a' <= c <= 'f')
  }

  function HexValue(c: char): (d: int)
    requires IsHexDigit(c)
    ensures 0 <= d < 16
  {
    if '0' <= c <= '9' then c as int - '0' as int
    else if 'A' <= c <= 'F' then c as int - 'A' as int + 10
    else c as int - 'a' as int + 10
  }

  /** `%XX` for each byte, with upper-case hex digits. */
  function PercentBytes(bs: seq<int>): (r: string)
    requires AreBytes(bs)
    ensures |r| == 3 * |bs|
    ensures forall k :: 0 <= k < |bs| ==>
              r[3 * k] == '%' && r[3 * k + 1] == HexDigit(bs[k] / 16) && r[3 * k + 2] == HexDigit(bs[k] % 16)
    ensures forall k :: 0 <= k < |r| ==> IsEncodedChar(r[k])
  {
    if bs == [] then ""
    else
      var rest := PercentBytes(bs[1..]);
      var r := ['%', HexDigit(bs[0] / 16), HexDigit(bs[0] % 16)] + rest;
      assert forall k :: 1 <= k < |bs| ==> r[3 * k] == rest[3 * (k - 1)];
      r
  }

  function EncodeChar(c: char): (r: string)
    ensures |r| >= 1
    ensures forall k :: 0 <= k < |r| ==> IsEncodedChar(r[k])
  {
    if IsUnescaped(c) then [c]
    else if c == ' ' then "+"
    else PercentBytes(Utf8(c))
  }

  /** Percent-encode after encoding with UTF-8, space as plus. */
  function EncodeComponent(s: string): (r: string)
    ensures forall k :: 0 <= k < |r| ==> IsEncodedChar(r[k])
  {
    if s == [] then "" else EncodeChar(s[0]) + EncodeComponent(s[1..])
  }

  /** `name=value` for one tuple. */
  function Entry(pair: (string, string)): (r: string)
    ensures '=' in r && '&' !in r
  {
    var n := EncodeComponent(pair.0);
    var r := n + "=" + EncodeComponent(pair.1);
    assert r[|n|] == '=';
    r
  }

  function Entries(pairs: seq<(string, string)>): (r: seq<string>)
    ensures |r| == |pairs|
    ensures forall k :: 0 <= k < |r| ==> r[k] == Entry(pairs[k])
  {
    if pairs == [] then [] else [Entry(pairs[0])] + Entries(pairs[1..])
  }

  /** The serializer: the entries joined with `&`, the empty string for no tuples. */
  function Serialize(pairs: seq<(string, string)>): string {
    Text.Join(Entries(pairs), '&')
  }

  /** The serialization is empty exactly when there are no tuples. */
  lemma SerializeEmptyIff(pairs: seq<(string, string)>)
    ensures Serialize(pairs) == "" <==> pairs == []
  {
    if pairs != [] {
      var e := Entries(pairs);
      assert e[0] == Entry(pairs[0]);
      if |pairs| > 1 {
        assert Text.Join(e, '&') == e[0] + ['&'] + Text.Join(e[1..], '&');
      }
    }
  }

  // ---------------------------------------------------------------------------
  // Parsing
  // ---------------------------------------------------------------------------

  /** The byte written as the `k`-th `%XX` triple of `s`, if there is one. */
  function ByteAt(s: string, k: nat): (r: Option<int>)
    ensures r.Some? ==> 3 * k + 3 <= |s| && IsByte(r.value)
  {
    if 3 * k + 3 <= |s| && s[3 * k] == '%' && IsHexDigit(s[3 * k + 1]) && IsHexDigit(s[3 * k + 2])
    then Some(HexValue(s[3 * k + 1]) * 16 + HexValue(s[3 * k + 2]))
    else None
  }

  /** The bytes of the first `n` `%XX` triples of `s`. */
  function Bytes(s: string, n: nat): (r: Option<seq<int>>)
    ensures r.Some? ==> |r.value| == n && 3 * n <= |s|
  {
    if n == 0 then Some([])
    else match (Bytes(s, n - 1), ByteAt(s, n - 1))
      case (Some(prev), Some(b)) => Some(prev + [b])
      case _ => None
  }

  function Prepend(c: char, r: Option<string>): Option<string> {
    match r
    case Some(s) => Some([c] + s)
    case None => None
  }

  /** Undoes `EncodeComponent`; `None` for a string it cannot have produced. */
  function DecodeComponent(s: string): Option<string>
    decreases |s|
  {
    if s == [] then Some("")
    else if s[0] == '+' then Prepend(' ', DecodeComponent(s[1..]))
    else if s[0] != '%' then Prepend(s[0], DecodeComponent(s[1..]))
    else match ByteAt(s, 0)
      case None => None
      case Some(b0) =>
        var n := Utf8Length(b0);
        if n == 0 then None
        else match Bytes(s, n)
          case None => None
          case Some(bs) =>
            match Utf8Decode(bs)
            case None => None
            case Some(c) => Prepend(c, DecodeComponent(s[3 * n..]))
  }

  /** One `name=value` piece; a piece without `=` has the empty value. */
  function ParsePiece(p: string): Option<(string, string)> {
    var i := Text.IndexOf(p, '=');
    var name := DecodeComponent(p[..i]);
    var value := DecodeComponent(if i < |p| then p[i + 1..] else "");
    if name.Some? && value.Some? then Some((name.value, value.value)) else None
  }

  /** Parses the pieces in order, skipping empty ones. */
  function ParsePieces(pieces: seq<string>): Option<seq<(string, string)>> {
    if pieces == [] then Some([])
    else
      var rest := ParsePieces(pieces[1..]);
      if pieces[0] == "" then rest
      else match (ParsePiece(pieces[0]), rest)
        case (Some(p), Some(ps)) => Some([p] + ps)
        case _ => None
  }

  /** The parser: split on `&`, then each piece on its first `=`, then decode. */
  function Parse(q: string): Option<seq<(string, string)>> {
    ParsePieces(Text.Split(q, '&'))
  }

  // ---------------------------------------------------------------------------
  // Round trip
  // ---------------------------------------------------------------------------

  lemma HexRoundTrip(b: int)
    requires IsByte(b)
    ensures IsHexDigit(HexDigit(b / 16)) && IsHexDigit(HexDigit(b % 16))
    ensures HexValue(HexDigit(b / 16)) * 16 + HexValue(HexDigit(b % 16)) == b
  {
  }

  /** A `%XX` triple written for byte `b` at triple position `k` reads back as `b`. */
  lemma ByteAtTriple(s: string, k: nat, b: int)
    requires IsByte(b) && 3 * k + 3 <= |s|
    requires s[3 * k] == '%' && s[3 * k + 1] == HexDigit(b / 16) && s[3 * k + 2] == HexDigit(b % 16)
    ensures ByteAt(s, k) == Some(b)
  {
    HexRoundTrip(b);
  }

  /** The `k`-th triple of a percent-encoding reads back as the `k`-th byte. */
  lemma ByteAtPercent(bs: seq<int>, rest: string, k: nat)
    requires AreBytes(bs)
    requires k < |bs|
    ensures ByteAt(PercentBytes(bs) + rest, k) == Some(bs[k])
  {
    var p := PercentBytes(bs);
    var b := bs[k];
    assert p[3 * k] == '%' && p[3 * k + 1] == HexDigit(b / 16) && p[3 * k + 2] == HexDigit(b % 16);
    ByteAtTriple(p + rest, k, b);
  }

  lemma {:induction false} BytesOfPercent(bs: seq<int>, rest: string, n: nat)
    requires AreBytes(bs)
    requires n <= |bs|
    ensures Bytes(PercentBytes(bs) + rest, n) == Some(bs[..n])
  {
    if n > 0 {
      BytesOfPercent(bs, rest, n - 1);
      ByteAtPercent(bs, rest, n - 1);
      assert bs[..n - 1] + [bs[n - 1]] == bs[..n];
    }
  }

  /** Decoding the encoding of `c` followed by anything gives `c` followed by the decoding of the rest. */
  lemma DecodeEncodedChar(c: char, rest: string)
    ensures DecodeComponent(EncodeChar(c) + rest) == Prepend(c, DecodeComponent(rest))
  {
    var s := EncodeChar(c) + rest;
    if IsUnescaped(c) || c == ' ' {
      assert s[1..] == rest;
    } else {
      DecodePercentEncoded(c, rest);
    }
  }

  /** The facts about a percent-encoded byte run that the decoder reads. */
  lemma PercentRun(bs: seq<int>, rest: string)
    requires AreBytes(bs) && bs != []
    ensures (PercentBytes(bs) + rest)[0] == '%'
    ensures ByteAt(PercentBytes(bs) + rest, 0) == Some(bs[0])
    ensures Bytes(PercentBytes(bs) + rest, |bs|) == Some(bs)
    ensures (PercentBytes(bs) + rest)[3 * |bs|..] == rest
  {
    ByteAtPercent(bs, rest, 0);
    BytesOfPercent(bs, rest, |bs|);
    assert bs[..|bs|] == bs;
  }

  lemma DecodePercentEncoded(c: char, rest: string)
    requires !IsUnescaped(c) && c != ' '
    ensures DecodeComponent(PercentBytes(Utf8(c)) + rest) == Prepend(c, DecodeComponent(rest))
  {
    var bs := Utf8(c);
    Utf8RoundTrip(c);
    PercentRun(bs, rest);
  }

  /** Decoding undoes encoding for every string. */
  lemma {:induction false} DecodeEncode(s: string)
    ensures DecodeComponent(EncodeComponent(s)) == Some(s)
  {
    if s != [] {
      DecodeEncode(s[1..]);
      DecodeEncodedChar(s[0], EncodeComponent(s[1..]));
      assert [s[0]] + s[1..] == s;
    }
  }

  lemma ParseEntry(pair: (string, string))
    ensures ParsePiece(Entry(pair)) == Some(pair)
  {
    var n := EncodeComponent(pair.0);
    var v := EncodeComponent(pair.1);
    var e := n + "=" + v;
    assert e == n + ("=" + v);
    Text.IndexOfPrefix(n, '=', "=" + v);
    assert e[..|n|] == n;
    assert e[|n| + 1..] == v;
    DecodeEncode(pair.0);
    DecodeEncode(pair.1);
  }

  lemma {:induction false} ParseEntries(pairs: seq<(string, string)>)
    ensures ParsePieces(Entries(pairs)) == Some(pairs)
  {
    if pairs != [] {
      var e := Entries(pairs);
      assert e[1..] == Entries(pairs[1..]);
      ParseEntries(pairs[1..]);
      ParseEntry(pairs[0]);
      assert e[0] != "";
      assert [pairs[0]] + pairs[1..] == pairs;
    }
  }

  /** Parsing the serialization of any list of tuples gives back that list, in order. */
  lemma ParseSerialize(pairs: seq<(string, string)>)
    ensures Parse(Serialize(pairs)) == Some(pairs)
  {
    if pairs == [] {
      assert Text.Split("", '&') == [""];
    } else {
      var e := Entries(pairs);
      Text.SplitJoin(e, '&');
      ParseEntries(pairs);
    }
  }
}
