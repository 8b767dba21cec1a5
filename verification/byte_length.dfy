/**
 * The byte counter `byteLen` of jQuery.textGauge.js (lines 27-37). It takes
 * text that `encodeURI` has already percent-encoded, splits it on '%' and
 * counts every `%XX` triplet as a single unit.
 */
module ByteLength {

  /** Number of occurrences of `c` in `s`. */
  function Occurrences(s: string, c: char): nat
    decreases |s|
  {
    if s == [] then 0
    else (if s[0] == c then 1 else 0) + Occurrences(s[1..], c)
  }

  /** `String.prototype.split` with a one-character separator: the pieces between separators. */
  function Split(s: string, sep: char): (r: seq<string>)
    ensures |r| >= 1
    decreases |s|
  {
    if s == [] then [[]]
    else
      var rest := Split(s[1..], sep);
      if s[0] == sep then [[]] + rest
      else [[s[0]] + rest[0]] + rest[1..]
  }

  /** `Array.prototype.join` with a one-character separator. */
  function Join(pieces: seq<string>, sep: char): string
    decreases |pieces|
  {
    if |pieces| == 0 then []
    else if |pieces| == 1 then pieces[0]
    else pieces[0] + [sep] + Join(pieces[1..], sep)
  }

  /** Splitting and joining again on the same separator gives back the string. */
  lemma {:induction false} SplitJoin(s: string, sep: char)
    ensures Join(Split(s, sep), sep) == s
    decreases |s|
  {
    if s != [] {
      var rest := Split(s[1..], sep);
      SplitJoin(s[1..], sep);
      if s[0] == sep {
        assert Split(s, sep) == [[]] + rest;
      } else if |rest| == 1 {
        assert Join(Split(s, sep), sep) == [s[0]] + rest[0];
        assert s == [s[0]] + s[1..];
      } else {
        var r := Split(s, sep);
        assert r[1..] == rest[1..];
        calc {
          Join(r, sep);
          r[0] + [sep] + Join(r[1..], sep);
          [s[0]] + rest[0] + [sep] + Join(rest[1..], sep);
          [s[0]] + (rest[0] + [sep] + Join(rest[1..], sep));
          [s[0]] + Join(rest, sep);
          [s[0]] + s[1..];
        }
      }
    }
  }

  /** No piece contains the separator, and there is one piece more than separators. */
  lemma {:induction false} SplitPieces(s: string, sep: char)
    ensures |Split(s, sep)| == Occurrences(s, sep) + 1
    ensures forall i :: 0 <= i < |Split(s, sep)| ==> sep !in Split(s, sep)[i]
    decreases |s|
  {
    if s != [] {
      SplitPieces(s[1..], sep);
    }
  }

  /** jQuery.textGauge.js:27-37, with `encodeURI(str)` already applied (see module Uri). */
  function ByteLen(escStr: string): int
  {
    if '%' in escStr then
      var len := |Split(escStr, '%')| - 1;
      len + (|escStr| - len * 3)
    else
      |escStr|
  }

  /** Each '%' removes two units from the length, whether or not a triplet follows it. */
  lemma ByteLenFormula(escStr: string)
    ensures ByteLen(escStr) == |escStr| - 2 * Occurrences(escStr, '%')
    ensures '%' !in escStr ==> ByteLen(escStr) == |escStr|
  {
    SplitPieces(escStr, '%');
    if '%' !in escStr {
      NoOccurrences(escStr, '%');
    }
  }

  lemma {:induction false} NoOccurrences(s: string, c: char)
    requires c !in s
    ensures Occurrences(s, c) == 0
    decreases |s|
  {
    if s != [] {
      NoOccurrences(s[1..], c);
    }
  }

  predicate IsHexDigit(c: char)
  {
    '0' <= c <= '9' || 'A' <= c <= 'F' || 'a' <= c <= 'f'
  }

  /** Every '%' in `e` opens a `%XX` triplet of two hexadecimal digits, as `encodeURI` emits them. */
  predicate WellEscaped(e: string)
    decreases |e|
  {
    if e == [] then true
    else if e[0] == '%' then |e| >= 3 && IsHexDigit(e[1]) && IsHexDigit(e[2]) && WellEscaped(e[3..])
    else WellEscaped(e[1..])
  }

  /** Reference count of units: a `%XX` triplet is one unit, any other character is one unit. */
  function Units(e: string): nat
    decreases |e|
  {
    if e == [] then 0
    else if e[0] == '%' && |e| >= 3 then 1 + Units(e[3..])
    else 1 + Units(e[1..])
  }

  lemma {:induction false} UnitsPlusOverhead(e: string)
    requires WellEscaped(e)
    ensures |e| == Units(e) + 2 * Occurrences(e, '%')
    decreases |e|
  {
    if e != [] {
      if e[0] == '%' {
        UnitsPlusOverhead(e[3..]);
        assert e[1..][1..] == e[2..] && e[2..][1..] == e[3..];
        assert e[1..][0] == e[1] && e[2..][0] == e[2];
        calc {
          Occurrences(e, '%');
          1 + Occurrences(e[1..], '%');
          1 + Occurrences(e[2..], '%');
          1 + Occurrences(e[3..], '%');
        }
      } else {
        UnitsPlusOverhead(e[1..]);
      }
    }
  }

  /**
   * For correctly escaped text, `byteLen` counts each `%XX` triplet once and
   * every other character once, and never exceeds the escaped length.
   */
  lemma TripletsCountOnce(e: string)
    requires WellEscaped(e)
    ensures ByteLen(e) == Units(e)
    ensures 0 <= ByteLen(e) <= |e|
  {
    ByteLenFormula(e);
    UnitsPlusOverhead(e);
  }

  /** Without the triplet guarantee the count can go negative: a lone '%' counts -1. */
  lemma LonePercentCountsNegative()
    ensures !WellEscaped("%")
    ensures ByteLen("%") == -1
  {
    assert Split("%", '%') == [[], []] by {
      assert "%"[1..] == [];
    }
  }

  /** A single character other than '%' is one unit. */
  lemma SingleCharacter(c: char)
    requires c != '%'
    ensures WellEscaped([c]) && Units([c]) == 1
  {
    assert [c][1..] == [];
  }

  /** Units of a concatenation whose first part is correctly escaped. */
  lemma {:induction false} WellEscapedConcat(a: string, b: string)
    requires WellEscaped(a)
    ensures WellEscaped(a + b) == WellEscaped(b)
    ensures Units(a + b) == Units(a) + Units(b)
    decreases |a|
  {
    if a == [] {
      assert a + b == b;
    } else if a[0] == '%' {
      assert (a + b)[3..] == a[3..] + b;
      WellEscapedConcat(a[3..], b);
    } else {
      assert (a + b)[1..] == a[1..] + b;
      WellEscapedConcat(a[1..], b);
    }
  }
}
