/** String helpers with JavaScript's meaning: `split` on one character,
    decimal rendering of integers, `trim` and `toLowerCase`. */
module Text {
  import opened Wrappers

  /** `s || fallback` on a string that may be undefined: a missing or empty string gives way
      to the fallback. */
  function OrElse(s: Option<string>, fallback: string): (r: string)
    ensures s.Some? && s.value != "" ==> r == s.value
    ensures s.None? || s.value == "" ==> r == fallback
  {
    if s.Some? && s.value != "" then s.value else fallback
  }

  /** Number of occurrences of `c` in `s`. */
  function Count(s: string, c: char): nat
  {
    if |s| == 0 then 0 else (if s[0] == c then 1 else 0) + Count(s[1..], c)
  }

  /** `s.split(sep)` for a one-character separator: every piece, empty ones included. */
  function Split(s: string, sep: char): (parts: seq<string>)
    ensures |parts| == Count(s, sep) + 1
    decreases |s|
  {
    if |s| == 0 then [""]
    else
      var rest := Split(s[1..], sep);
      if s[0] == sep then [""] + rest
      else [[s[0]] + rest[0]] + rest[1..]
  }

  /** `parts.join(sep)`, the inverse of `Split`. */
  function Join(parts: seq<string>, sep: char): string
    requires |parts| >= 1
  {
    if |parts| == 1 then parts[0] else parts[0] + [sep] + Join(parts[1..], sep)
  }

  /** Splitting and joining again gives back the original string. */
  lemma {:induction false} SplitJoin(s: string, sep: char)
    ensures Join(Split(s, sep), sep) == s
    decreases |s|
  {
    if |s| > 0 {
      var rest := Split(s[1..], sep);
      SplitJoin(s[1..], sep);
      if s[0] == sep {
        assert Split(s, sep) == [""] + rest;
        assert ([""] + rest)[1..] == rest;
        assert s == [sep] + s[1..];
      } else {
        var parts := Split(s, sep);
        assert parts == [[s[0]] + rest[0]] + rest[1..];
        if |rest| == 1 {
          assert parts == [[s[0]] + rest[0]];
          assert s == [s[0]] + s[1..];
        } else {
          assert parts[1..] == rest[1..];
          assert Join(rest, sep) == rest[0] + [sep] + Join(rest[1..], sep);
          assert s == [s[0]] + s[1..];
        }
      }
    }
  }

  /** No piece of a split contains the separator. */
  lemma {:induction false} SplitPiecesFree(s: string, sep: char)
    ensures forall i :: 0 <= i < |Split(s, sep)| ==> sep !in Split(s, sep)[i]
    decreases |s|
  {
    if |s| > 0 {
      SplitPiecesFree(s[1..], sep);
      var rest := Split(s[1..], sep);
      if s[0] != sep {
        var parts := Split(s, sep);
        forall i | 0 <= i < |parts|
          ensures sep !in parts[i]
        {
          if i == 0 {
            assert parts[0] == [s[0]] + rest[0];
          } else {
            assert parts[i] == rest[i];
          }
        }
      }
    }
  }

  /** A string without the separator splits into itself. */
  lemma {:induction false} SplitFree(s: string, sep: char)
    requires sep !in s
    ensures Split(s, sep) == [s]
    decreases |s|
  {
    if |s| > 0 {
      assert s[0] in s;
      assert forall c :: c in s[1..] ==> c in s;
      SplitFree(s[1..], sep);
      assert s == [s[0]] + s[1..];
    }
  }

  /** Two separator-free pieces around one separator split back into exactly those pieces. */
  lemma {:induction false} SplitAround(a: string, b: string, sep: char)
    requires sep !in a && sep !in b
    ensures Split(a + [sep] + b, sep) == [a, b]
  {
    SplitPrefix(a, b, sep);
    SplitFree(b, sep);
  }

  /** A separator-free prefix followed by the separator becomes the first piece. */
  lemma {:induction false} SplitPrefix(a: string, b: string, sep: char)
    requires sep !in a
    ensures Split(a + [sep] + b, sep) == [a] + Split(b, sep)
    decreases |a|
  {
    var s := a + [sep] + b;
    if |a| == 0 {
      assert s == [sep] + b;
      assert s[1..] == b;
    } else {
      assert s[1..] == a[1..] + [sep] + b;
      assert a[0] in a;
      assert forall c :: c in a[1..] ==> c in a;
      SplitPrefix(a[1..], b, sep);
      assert a == [a[0]] + a[1..];
    }
  }

  /** A split into exactly two pieces recovers the string as `first + sep + second`. */
  lemma SplitTwoParts(s: string, sep: char)
    requires |Split(s, sep)| == 2
    ensures s == Split(s, sep)[0] + [sep] + Split(s, sep)[1]
    ensures sep !in Split(s, sep)[0] && sep !in Split(s, sep)[1]
  {
    SplitJoin(s, sep);
    SplitPiecesFree(s, sep);
    var parts := Split(s, sep);
    assert Join(parts, sep) == parts[0] + [sep] + Join(parts[1..], sep);
    assert parts[1..] == [parts[1]];
  }

  function DigitChar(d: nat): char
    requires d < 10
  {
    "0123456789"[d]
  }

  predicate IsDigit(c: char) { '0' <= c <= '9' }

  predicate AllDigits(s: string) { forall i :: 0 <= i < |s| ==> IsDigit(s[i]) }

  /** Decimal rendering of a natural number, as `String(n)` gives it. */
  function NatToString(n: nat): (s: string)
    ensures |s| >= 1 && AllDigits(s)
    decreases n
  {
    if n < 10 then [DigitChar(n)] else NatToString(n / 10) + [DigitChar(n % 10)]
  }

  /** Decimal rendering of an integer, with a leading '-' for negative values. */
  function IntToString(i: int): string
  {
    if i < 0 then "-" + NatToString(-i) else NatToString(i)
  }

  /** The value of a string of decimal digits (leading zeros allowed). */
  function ParseDigits(s: string): nat
    requires AllDigits(s)
  {
    if |s| == 0 then 0 else ParseDigits(s[..|s| - 1]) * 10 + (s[|s| - 1] as int - '0' as int)
  }

  /** Reading back a rendered natural number gives the number. */
  lemma {:induction false} ParseNatToString(n: nat)
    ensures ParseDigits(NatToString(n)) == n
    decreases n
  {
    if n >= 10 {
      ParseNatToString(n / 10);
      var s := NatToString(n);
      assert s[..|s| - 1] == NatToString(n / 10);
    }
  }

  /** Characters removed by `String.prototype.trim`: the white space and line terminators of
      ECMAScript (tab, line and form feeds, carriage return, the space separators of Unicode
      category Zs, the line and paragraph separators, and the byte order mark). */
  predicate IsSpace(c: char)
  {
    || c == '\t' || c == '\n' || c == '\U{000B}' || c == '\U{000C}' || c == '\r' || c == ' '
    || c == '\U{00A0}' || c == '\U{1680}' || '\U{2000}' <= c <= '\U{200A}'
    || c == '\U{2028}' || c == '\U{2029}' || c == '\U{202F}' || c == '\U{205F}'
    || c == '\U{3000}' || c == '\U{FEFF}'
  }

  function TrimStart(s: string): (r: string)
    ensures |r| <= |s| && r == s[|s| - |r|..]
    ensures |r| > 0 ==> !IsSpace(r[0])
    ensures forall i :: 0 <= i < |s| - |r| ==> IsSpace(s[i])
  {
    if |s| > 0 && IsSpace(s[0]) then TrimStart(s[1..]) else s
  }

  function TrimEnd(s: string): (r: string)
    ensures |r| <= |s| && r == s[..|r|]
    ensures |r| > 0 ==> !IsSpace(r[|r| - 1])
    ensures forall i :: |r| <= i < |s| ==> IsSpace(s[i])
  {
    if |s| > 0 && IsSpace(s[|s| - 1]) then TrimEnd(s[..|s| - 1]) else s
  }

  /** `s.trim()`: the longest middle part with no whitespace at either end. */
  function Trim(s: string): (r: string)
    ensures |r| > 0 ==> !IsSpace(r[0]) && !IsSpace(r[|r| - 1])
    ensures |r| <= |s|
    ensures (|s| == 0 || (!IsSpace(s[0]) && !IsSpace(s[|s| - 1]))) ==> r == s
  {
    TrimEnd(TrimStart(s))
  }

  /** Trimming twice is trimming once. */
  lemma TrimIdempotent(s: string)
    ensures Trim(Trim(s)) == Trim(s)
  {
    var r := Trim(s);
    if |r| > 0 {
      assert TrimStart(r) == r;
      assert TrimEnd(r) == r;
    }
  }

  /** Ideographic and other Unicode spaces are trimmed like ASCII ones. */
  lemma UnicodeSpacesTrimmed()
    ensures Trim("\U{3000}") == ""
  {
    assert IsSpace('\U{3000}');
    assert "\U{3000}"[1..] == "";
  }

  // ---------------------------------------------------------------- letter case

  /** The case folding of a regular expression's `i` flag on an ASCII letter. Routes are
      matched this way, not by `toLowerCase`. */
  function AsciiFold(c: char): char
  {
    if 'A' <= c <= 'Z' then (c as int + 32) as char else c
  }

  /** Both sides of a case-insensitive comparison with an ASCII pattern. */
  function FoldAscii(s: string): (r: string)
    ensures |r| == |s|
    ensures forall i :: 0 <= i < |s| ==> r[i] == AsciiFold(s[i])
  {
    seq(|s|, i requires 0 <= i < |s| => AsciiFold(s[i]))
  }

  /** Text without upper-case ASCII letters is its own fold. */
  lemma FoldOfLowercase(s: string)
    requires forall i :: 0 <= i < |s| ==> !('A' <= s[i] <= 'Z')
    ensures FoldAscii(s) == s
  {
  }

  /** The lower-case mapping `toLowerCase` applies to one character: ASCII and Latin-1
      capitals, the basic Cyrillic capitals, the Kelvin and Angstrom signs, and the capital I
      with dot above, which becomes two characters. */
  function LowerCode(c: char): (r: string)
    ensures 1 <= |r| <= 2
    ensures 'A' <= c <= 'Z' ==> r == [(c as int + 32) as char]
    ensures c == '\U{212A}' ==> r == "k"
    ensures c == '\U{0130}' ==> r == "i\U{0307}"
    ensures !IsSpace(c) ==> forall i :: 0 <= i < |r| ==> !IsSpace(r[i])
    ensures forall i :: 0 <= i < |r| ==> !('A' <= r[i] <= 'Z')
  {
    if 'A' <= c <= 'Z' || ('\U{00C0}' <= c <= '\U{00DE}' && c != '\U{00D7}')
       || '\U{0410}' <= c <= '\U{042F}' then [(c as int + 32) as char]
    else if '\U{0400}' <= c <= '\U{040F}' then [(c as int + 80) as char]
    else if c == '\U{0130}' then "i\U{0307}"
    else if c == '\U{212A}' then "k"
    else if c == '\U{212B}' then "\U{00E5}"
    else [c]
  }

  /** `s.toLowerCase()`: each character replaced by its lower-case mapping. */
  function ToLower(s: string): (r: string)
    ensures |r| >= |s|
    ensures forall i :: 0 <= i < |r| ==> !('A' <= r[i] <= 'Z')
    ensures (forall i :: 0 <= i < |s| ==> !IsSpace(s[i])) ==> forall i :: 0 <= i < |r| ==> !IsSpace(r[i])
  {
    if |s| == 0 then [] else LowerCode(s[0]) + ToLower(s[1..])
  }

  /** Lower-casing works character by character, so it distributes over concatenation. */
  lemma {:induction false} ToLowerAppend(a: string, b: string)
    ensures ToLower(a + b) == ToLower(a) + ToLower(b)
    decreases |a|
  {
    if |a| > 0 {
      assert (a + b)[0] == a[0];
      assert (a + b)[1..] == a[1..] + b;
      ToLowerAppend(a[1..], b);
      calc {
        ToLower(a + b);
        LowerCode(a[0]) + ToLower(a[1..] + b);
        LowerCode(a[0]) + (ToLower(a[1..]) + ToLower(b));
        (LowerCode(a[0]) + ToLower(a[1..])) + ToLower(b);
      }
    } else {
      assert a + b == b;
    }
  }

  /** The first character of the lower-cased text comes from the first character. */
  lemma ToLowerFirst(t: string)
    requires |t| > 0
    ensures |ToLower(t)| > 0 && ToLower(t)[0] == LowerCode(t[0])[0]
  {
  }

  /** The last character of the lower-cased text comes from the last character. */
  lemma ToLowerLast(t: string)
    requires |t| > 0
    ensures var r := ToLower(t); var lc := LowerCode(t[|t| - 1]); |r| > 0 && r[|r| - 1] == lc[|lc| - 1]
  {
    var last := t[|t| - 1];
    assert t == t[..|t| - 1] + [last];
    ToLowerAppend(t[..|t| - 1], [last]);
    assert ToLower([last]) == LowerCode(last) + ToLower([last][1..]);
    assert ToLower([last][1..]) == [];
  }

  /** A mapped character is already lower case. */
  lemma LowerCodeFixed(c: char)
    ensures ToLower(LowerCode(c)) == LowerCode(c)
  {
    var r := LowerCode(c);
    assert ToLower(r[1..]) == r[1..] by {
      if |r| == 2 { assert ToLower(r[1..][1..]) == []; }
    }
  }

  /** Lower-casing twice is lower-casing once. */
  lemma {:induction false} ToLowerIdempotent(s: string)
    ensures ToLower(ToLower(s)) == ToLower(s)
    decreases |s|
  {
    if |s| > 0 {
      ToLowerIdempotent(s[1..]);
      LowerCodeFixed(s[0]);
      ToLowerAppend(LowerCode(s[0]), ToLower(s[1..]));
    }
  }

  /** Only the dotted capital I lengthens a string; everything else maps one to one. */
  lemma {:induction false} ToLowerLengthPreserved(s: string)
    requires forall i :: 0 <= i < |s| ==> s[i] != '\U{0130}'
    ensures |ToLower(s)| == |s|
    decreases |s|
  {
    if |s| > 0 {
      ToLowerLengthPreserved(s[1..]);
    }
  }

  /** The characters the ASCII-only reading misses: the Kelvin sign becomes `k`, and the dotted
      capital I becomes two characters. */
  lemma ToLowerUnicodeExamples()
    ensures ToLower("\U{212A}M") == "km"
    ensures ToLower("\U{0130}") == "i\U{0307}"
    ensures |ToLower("\U{0130}")| > |"\U{0130}"|
  {
    assert ToLower("\U{212A}M") == LowerCode('\U{212A}') + ToLower("M");
    assert ToLower("M") == "m" + ToLower("");
  }
}
