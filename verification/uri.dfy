/**
 * The `encodeURI` host function that `byteLen` (jQuery.textGauge.js:29)
 * applies before counting, as section 15.1.3.3 of ECMAScript 5.1 defines it:
 * the text is a sequence of UTF-16 code units, characters of the unescaped
 * set are copied, every other code point is written as the `%XY` escapes of
 * its UTF-8 octets, and a lone surrogate raises URIError.
 */
module Uri {
  import opened Wrappers
  import opened ByteLength

  /** A UTF-16 code unit: what one position of a JavaScript string holds. */
  type CodeUnit = c: int | 0 <= c < 0x1_0000

  /** A JavaScript string; its `length` is the number of code units. */
  type Text = seq<CodeUnit>

  datatype UriError = UriError

  predicate IsHighSurrogate(c: CodeUnit) { 0xD800 <= c <= 0xDBFF }

  predicate IsLowSurrogate(c: CodeUnit) { 0xDC00 <= c <= 0xDFFF }

  /** uriReserved, uriUnescaped (letters, digits, uriMark) and "#". */
  predicate IsUnescaped(c: CodeUnit)
  {
    || 'a' as int <= c <= 'z' as int
    || 'A' as int <= c <= 'Z' as int
    || '0' as int <= c <= '9' as int
    || (c < 0x80 && (c as char) in ";/?:@&=+$,-_.!~*'()#")
  }

  /** The code point of a surrogate pair. */
  function CodePoint(high: CodeUnit, low: CodeUnit): (v: nat)
    requires IsHighSurrogate(high) && IsLowSurrogate(low)
    ensures 0x1_0000 <= v < 0x11_0000
  {
    (high - 0xD800) * 0x400 + (low - 0xDC00) + 0x1_0000
  }

  /** Number of UTF-8 octets of code point `v`. */
  function Utf8Width(v: nat): nat
  {
    if v < 0x80 then 1 else if v < 0x800 then 2 else if v < 0x1_0000 then 3 else 4
  }

  /** The UTF-8 octets of code point `v` (table 21 of ECMAScript 5.1). */
  function Utf8Bytes(v: nat): (r: seq<nat>)
    requires v < 0x11_0000
    ensures |r| == Utf8Width(v)
    ensures forall i :: 0 <= i < |r| ==> r[i] < 0x100
  {
    if v < 0x80 then [v]
    else if v < 0x800 then [0xC0 + v / 0x40, 0x80 + v % 0x40]
    else if v < 0x1_0000 then [0xE0 + v / 0x1000, 0x80 + v / 0x40 % 0x40, 0x80 + v % 0x40]
    else [0xF0 + v / 0x4_0000, 0x80 + v / 0x1000 % 0x40, 0x80 + v / 0x40 % 0x40, 0x80 + v % 0x40]
  }

  /** Reads back a code point from its UTF-8 octets. */
  function Utf8Decode(r: seq<int>): int
  {
    if |r| == 1 then r[0]
    else if |r| == 2 then (r[0] - 0xC0) * 0x40 + (r[1] - 0x80)
    else if |r| == 3 then (r[0] - 0xE0) * 0x1000 + (r[1] - 0x80) * 0x40 + (r[2] - 0x80)
    else if |r| == 4 then (r[0] - 0xF0) * 0x4_0000 + (r[1] - 0x80) * 0x1000 + (r[2] - 0x80) * 0x40 + (r[3] - 0x80)
    else -1
  }

  /** The octets are a UTF-8 encoding of `v`: a lead octet, continuation octets, and they decode to `v`. */
  lemma Utf8RoundTrip(v: nat)
    requires v < 0x11_0000
    ensures Utf8Decode(Utf8Bytes(v)) == v
    ensures forall i :: 1 <= i < |Utf8Bytes(v)| ==> 0x80 <= Utf8Bytes(v)[i] < 0xC0
  {
    var r := Utf8Bytes(v);
    var a, b, c := v / 0x40, v / 0x1000, v / 0x4_0000;
    assert v == a * 0x40 + v % 0x40;
    assert b == a / 0x40 && a == b * 0x40 + a % 0x40;
    assert c == b / 0x40 && b == c * 0x40 + b % 0x40;
    if v < 0x80 {
    } else if v < 0x800 {
      assert r == [0xC0 + a, 0x80 + v % 0x40];
    } else if v < 0x1_0000 {
      assert r == [0xE0 + b, 0x80 + a % 0x40, 0x80 + v % 0x40];
    } else {
      assert r == [0xF0 + c, 0x80 + b % 0x40, 0x80 + a % 0x40, 0x80 + v % 0x40];
    }
  }

  function HexDigit(d: nat): (c: char)
    requires d < 16
    ensures IsHexDigit(c) && c != '%'
  {
    "0123456789ABCDEF"[d]
  }

  /** Writes each octet as `%XY` with upper-case hexadecimal digits. */
  function Escape(octets: seq<nat>): (e: string)
    requires forall i :: 0 <= i < |octets| ==> octets[i] < 0x100
    ensures |e| == 3 * |octets|
    ensures WellEscaped(e) && Units(e) == |octets|
    decreases |octets|
  {
    if octets == [] then []
    else
      var b := octets[0];
      var triplet := ['%', HexDigit(b / 16), HexDigit(b % 16)];
      var rest := Escape(octets[1..]);
      assert triplet[3..] == [] && WellEscaped(triplet) && Units(triplet) == 1;
      WellEscapedConcat(triplet, rest);
      triplet + rest
  }

  function Prepend(prefix: string, r: Result<string, UriError>): Result<string, UriError>
  {
    if r.Failure? then r else Success(prefix + r.value)
  }

  /** `encodeURI(s)`: the escaped text, or URIError on a lone surrogate. */
  function EncodeUri(s: Text): Result<string, UriError>
    decreases |s|
  {
    if s == [] then Success([])
    else if IsUnescaped(s[0]) then Prepend([s[0] as char], EncodeUri(s[1..]))
    else if IsLowSurrogate(s[0]) then Failure(UriError)
    else if !IsHighSurrogate(s[0]) then Prepend(Escape(Utf8Bytes(s[0])), EncodeUri(s[1..]))
    else if |s| == 1 || !IsLowSurrogate(s[1]) then Failure(UriError)
    else Prepend(Escape(Utf8Bytes(CodePoint(s[0], s[1]))), EncodeUri(s[2..]))
  }

  /** The surrogate at `i` is part of a high-then-low pair. */
  predicate PairedAt(s: Text, i: int)
    requires 0 <= i < |s|
  {
    && (IsHighSurrogate(s[i]) ==> i + 1 < |s| && IsLowSurrogate(s[i + 1]))
    && (IsLowSurrogate(s[i]) ==> i > 0 && IsHighSurrogate(s[i - 1]))
  }

  /** Well-formed UTF-16: no lone surrogate. */
  predicate WellFormed(s: Text)
  {
    forall i :: 0 <= i < |s| ==> PairedAt(s, i)
  }

  /** Reference length of the UTF-8 encoding of a UTF-16 string. */
  function Utf8Len(s: Text): nat
    decreases |s|
  {
    if s == [] then 0
    else if s[0] < 0x80 then 1 + Utf8Len(s[1..])
    else if s[0] < 0x800 then 2 + Utf8Len(s[1..])
    else if IsHighSurrogate(s[0]) && |s| >= 2 && IsLowSurrogate(s[1]) then 4 + Utf8Len(s[2..])
    else 3 + Utf8Len(s[1..])
  }

  lemma WellFormedDropOne(s: Text)
    requires s != [] && !IsHighSurrogate(s[0]) && !IsLowSurrogate(s[0])
    ensures WellFormed(s) <==> WellFormed(s[1..])
  {
    var t := s[1..];
    if WellFormed(s) {
      forall j | 0 <= j < |t| ensures PairedAt(t, j) {
        assert PairedAt(s, j + 1);
      }
    }
    if WellFormed(t) {
      forall i | 0 <= i < |s| ensures PairedAt(s, i) {
        if i > 0 { assert PairedAt(t, i - 1); }
      }
    }
  }

  lemma WellFormedDropPair(s: Text)
    requires |s| >= 2 && IsHighSurrogate(s[0]) && IsLowSurrogate(s[1])
    ensures WellFormed(s) <==> WellFormed(s[2..])
  {
    var t := s[2..];
    if WellFormed(s) {
      forall j | 0 <= j < |t| ensures PairedAt(t, j) {
        assert PairedAt(s, j + 2);
      }
    }
    if WellFormed(t) {
      forall i | 0 <= i < |s| ensures PairedAt(s, i) {
        if i > 1 { assert PairedAt(t, i - 2); }
      }
    }
  }

  /** `encodeURI` throws exactly on text that is not well-formed UTF-16. */
  lemma {:induction false} EncodeSucceedsIffWellFormed(s: Text)
    ensures EncodeUri(s).Success? <==> WellFormed(s)
    decreases |s|
  {
    if s == [] {
    } else if IsLowSurrogate(s[0]) {
      assert !PairedAt(s, 0);
    } else if !IsHighSurrogate(s[0]) {
      EncodeSucceedsIffWellFormed(s[1..]);
      WellFormedDropOne(s);
    } else if |s| == 1 || !IsLowSurrogate(s[1]) {
      assert !PairedAt(s, 0);
    } else {
      EncodeSucceedsIffWellFormed(s[2..]);
      WellFormedDropPair(s);
    }
  }

  /** Copied characters are ASCII, and '%' is not one of them. */
  lemma UnescapedIsAscii(c: CodeUnit)
    requires IsUnescaped(c)
    ensures c < 0x80 && c as char != '%'
  {
  }

  /** Putting a correctly escaped prefix of `n` units before correctly escaped text. */
  lemma PrependCounts(p: string, n: nat, r: Result<string, UriError>, m: nat)
    requires WellEscaped(p) && Units(p) == n
    requires r.Success? ==> WellEscaped(r.value) && Units(r.value) == m
    ensures Prepend(p, r).Success? ==> WellEscaped(Prepend(p, r).value) && Units(Prepend(p, r).value) == n + m
  {
    if r.Success? {
      WellEscapedConcat(p, r.value);
    }
  }

  /** `EncodeUri(s)` is correctly escaped and its units are the UTF-8 octets of `s`. */
  predicate CountsUtf8(s: Text)
  {
    EncodeUri(s).Success? ==> WellEscaped(EncodeUri(s).value) && Units(EncodeUri(s).value) == Utf8Len(s)
  }

  lemma CopiedStep(s: Text)
    requires s != [] && IsUnescaped(s[0]) && CountsUtf8(s[1..])
    ensures CountsUtf8(s)
  {
    UnescapedIsAscii(s[0]);
    SingleCharacter(s[0] as char);
    PrependCounts([s[0] as char], 1, EncodeUri(s[1..]), Utf8Len(s[1..]));
  }

  lemma EscapedStep(s: Text)
    requires s != [] && !IsUnescaped(s[0]) && !IsLowSurrogate(s[0]) && !IsHighSurrogate(s[0])
    requires CountsUtf8(s[1..])
    ensures CountsUtf8(s)
  {
    PrependCounts(Escape(Utf8Bytes(s[0])), Utf8Width(s[0]), EncodeUri(s[1..]), Utf8Len(s[1..]));
  }

  lemma PairStep(s: Text)
    requires |s| >= 2 && IsHighSurrogate(s[0]) && IsLowSurrogate(s[1]) && CountsUtf8(s[2..])
    ensures CountsUtf8(s)
  {
    PrependCounts(Escape(Utf8Bytes(CodePoint(s[0], s[1]))), 4, EncodeUri(s[2..]), Utf8Len(s[2..]));
  }

  /**
   * What `encodeURI` emits is correctly escaped, and its units, counted as
   * `byteLen` counts them, are exactly the UTF-8 octets of the text.
   */
  lemma {:induction false} EncodeCountsUtf8(s: Text)
    ensures CountsUtf8(s)
    decreases |s|
  {
    if s == [] {
    } else if IsUnescaped(s[0]) {
      EncodeCountsUtf8(s[1..]);
      CopiedStep(s);
    } else if IsLowSurrogate(s[0]) {
    } else if !IsHighSurrogate(s[0]) {
      EncodeCountsUtf8(s[1..]);
      EscapedStep(s);
    } else if |s| == 1 || !IsLowSurrogate(s[1]) {
    } else {
      EncodeCountsUtf8(s[2..]);
      PairStep(s);
    }
  }

  /** `byteLen(text)` is the UTF-8 length of `text` whenever `encodeURI` does not throw. */
  lemma ByteLenIsUtf8Length(s: Text)
    requires EncodeUri(s).Success?
    ensures ByteLen(EncodeUri(s).value) == Utf8Len(s)
    ensures 0 <= ByteLen(EncodeUri(s).value) <= |EncodeUri(s).value|
  {
    EncodeCountsUtf8(s);
    TripletsCountOnce(EncodeUri(s).value);
  }

  /** A three-octet character and four ASCII letters: five code units, seven bytes. */
  lemma EuroSignExample()
    ensures var t: Text := [0x20AC, 0x61, 0x62, 0x63, 0x64];
            && |t| == 5
            && EncodeUri(t).Success?
            && ByteLen(EncodeUri(t).value) == 7
  {
    var t: Text := [0x20AC, 0x61, 0x62, 0x63, 0x64];
    assert WellFormed(t) by {
      forall i | 0 <= i < |t| ensures PairedAt(t, i) { }
    }
    EncodeSucceedsIffWellFormed(t);
    ByteLenIsUtf8Length(t);
    assert Utf8Len(t[5..]) == 0;
    assert Utf8Len(t[4..]) == 1 by { assert t[4..][1..] == t[5..]; }
    assert Utf8Len(t[3..]) == 2 by { assert t[3..][1..] == t[4..]; }
    assert Utf8Len(t[2..]) == 3 by { assert t[2..][1..] == t[3..]; }
    assert Utf8Len(t[1..]) == 4 by { assert t[1..][1..] == t[2..]; }
  }
}
