/**
 * The few Python string operations the core relies on, as total functions on
 * `string`: `str.strip`, `str.lower`, `str.startswith`, `str.split` with one
 * separator, the part after the first occurrence of a character (`s.split(c, 1)[1]`),
 * the part before the first occurrence of a separator (`s.split(sep)[0]`),
 * `int(s)` in base 10 and `str(n)` / `f"{n}"` for integers.
 *
 * Only ASCII is modelled: whitespace for `strip` is the ASCII part of what
 * Python's `str.isspace` accepts, lower-casing maps `A`..`Z` only, and `int`
 * accepts only the digits `0`..`9` and skips only the C-locale whitespace.
 */
module PyStr {
  import opened Wrappers

  // ---------------------------------------------------------------------------
  // Whitespace and str.strip()
  // ---------------------------------------------------------------------------

  /** The ASCII characters Python's `str.isspace`, and so `strip`, treat as whitespace. */
  predicate IsSpace(c: char)
  {
    c == ' ' || c == '\t' || c == '\n' || c == '\r' || c == '\U{0B}' || c == '\U{0C}'
    || c == '\U{1C}' || c == '\U{1D}' || c == '\U{1E}' || c == '\U{1F}'
  }

  /** The first position at or after `i` that holds no whitespace, or `|s|`. */
  function SkipSpaces(s: string, i: nat): (k: nat)
    requires i <= |s|
    ensures i <= k <= |s| && (k == |s| || !IsSpace(s[k]))
    ensures forall m :: i <= m < k ==> IsSpace(s[m])
    decreases |s| - i
  {
    if i == |s| || !IsSpace(s[i]) then i else SkipSpaces(s, i + 1)
  }

  /** The end of `s[..j]` once its trailing whitespace is dropped. */
  function SkipSpacesBack(s: string, j: nat): (k: nat)
    requires j <= |s|
    ensures k <= j && (k == 0 || !IsSpace(s[k - 1]))
    ensures forall m :: k <= m < j ==> IsSpace(s[m])
  {
    if j == 0 || !IsSpace(s[j - 1]) then j else SkipSpacesBack(s, j - 1)
  }

  /** `s.lstrip()`: drops the leading whitespace and nothing else. */
  function LStrip(s: string): (r: string)
    ensures |r| <= |s| && r == s[|s| - |r|..]
    ensures r == [] || !IsSpace(r[0])
    ensures forall i :: 0 <= i < |s| - |r| ==> IsSpace(s[i])
  {
    s[SkipSpaces(s, 0)..]
  }

  /** `s.rstrip()`: drops the trailing whitespace and nothing else. */
  function RStrip(s: string): (r: string)
    ensures |r| <= |s| && r == s[..|r|]
    ensures r == [] || !IsSpace(r[|r| - 1])
    ensures forall i :: |r| <= i < |s| ==> IsSpace(s[i])
  {
    s[..SkipSpacesBack(s, |s|)]
  }

  /** `s.strip()`. */
  function Strip(s: string): string
  {
    RStrip(LStrip(s))
  }

  /** A string that neither starts nor ends with whitespace is its own `strip()`. */
  lemma StripNoSpace(s: string)
    requires s == [] || (!IsSpace(s[0]) && !IsSpace(s[|s| - 1]))
    ensures Strip(s) == s
  {
  }

  /** Whatever surrounds it, `strip()` removes only whitespace from the two ends. */
  lemma StripIsInfix(s: string)
    ensures exists i, j ::
              && 0 <= i <= j <= |s| && Strip(s) == s[i..j]
              && (forall k :: 0 <= k < i ==> IsSpace(s[k]))
              && (forall k :: j <= k < |s| ==> IsSpace(s[k]))
    ensures Strip(s) == [] || (!IsSpace(Strip(s)[0]) && !IsSpace(Strip(s)[|Strip(s)| - 1]))
  {
    var l := LStrip(s);
    var i := |s| - |l|;
    var j := i + |RStrip(l)|;
    assert Strip(s) == s[i..j];
    forall k | j <= k < |s| ensures IsSpace(s[k]) {
      assert s[k] == l[k - i];
    }
  }

  // ---------------------------------------------------------------------------
  // str.lower() and str.startswith()
  // ---------------------------------------------------------------------------

  function LowerChar(c: char): char
  {
    if 'A' <= c <= 'Z' then (c as int + 32) as char else c
  }

  /** `s.lower()`, on ASCII letters. */
  function AsciiLower(s: string): (r: string)
    ensures |r| == |s|
  {
    seq(|s|, i requires 0 <= i < |s| => LowerChar(s[i]))
  }

  /** `s.startswith(prefix)`. */
  predicate StartsWith(s: string, prefix: string)
  {
    |prefix| <= |s| && s[..|prefix|] == prefix
  }

  // ---------------------------------------------------------------------------
  // str.split(sep) with a one-character separator, and its inverse str.join
  // ---------------------------------------------------------------------------

  /** `s.split(sep)`: the pieces between occurrences of `sep`, always at least one. */
  function Split(s: string, sep: char): (r: seq<string>)
    ensures |r| >= 1
  {
    if |s| == 0 then [""]
    else if s[0] == sep then [""] + Split(s[1..], sep)
    else
      var rest := Split(s[1..], sep);
      [[s[0]] + rest[0]] + rest[1..]
  }

  /** No piece of a split holds the separator. */
  lemma {:induction false} SplitPiecesLackSeparator(s: string, sep: char)
    ensures forall i :: 0 <= i < |Split(s, sep)| ==> sep !in Split(s, sep)[i]
  {
    if |s| > 0 {
      SplitPiecesLackSeparator(s[1..], sep);
    }
  }

  /** `[sep].join(parts)`. */
  function Join(parts: seq<string>, sep: char): string
  {
    if |parts| == 0 then ""
    else if |parts| == 1 then parts[0]
    else parts[0] + [sep] + Join(parts[1..], sep)
  }

  /** Joining the pieces of a split gives back the original string. */
  lemma {:induction false} JoinSplit(s: string, sep: char)
    ensures Join(Split(s, sep), sep) == s
  {
    if |s| == 0 {
    } else if s[0] == sep {
      JoinSplit(s[1..], sep);
      var rest := Split(s[1..], sep);
      assert Split(s, sep) == [""] + rest;
      assert ([""] + rest)[1..] == rest;
    } else {
      JoinSplit(s[1..], sep);
      var rest := Split(s[1..], sep);
      var r := [[s[0]] + rest[0]] + rest[1..];
      assert Split(s, sep) == r;
      if |rest| == 1 {
        assert Join(r, sep) == [s[0]] + rest[0];
      } else {
        assert r[1..] == rest[1..];
        assert Join(rest, sep) == rest[0] + [sep] + Join(rest[1..], sep);
        assert Join(r, sep) == [s[0]] + rest[0] + [sep] + Join(rest[1..], sep);
      }
    }
  }

  /** Splitting a string with no separator in it gives the string alone. */
  lemma {:induction false} SplitNoSeparator(s: string, sep: char)
    requires sep !in s
    ensures Split(s, sep) == [s]
  {
    if |s| > 0 {
      assert sep !in s[1..] by {
        forall k | 0 <= k < |s| - 1 ensures s[1..][k] != sep { assert s[1..][k] == s[k + 1]; }
      }
      SplitNoSeparator(s[1..], sep);
      assert [s[0]] + s[1..] == s;
    }
  }

  /** Splitting `a + sep + b`, where `a` holds no separator, puts `a` first and the split of `b` after it. */
  lemma {:induction false} SplitCons(a: string, sep: char, b: string)
    requires sep !in a
    ensures Split(a + [sep] + b, sep) == [a] + Split(b, sep)
  {
    if |a| == 0 {
      assert a + [sep] + b == [sep] + b;
      assert ([sep] + b)[1..] == b;
    } else {
      var s := a + [sep] + b;
      assert s[0] == a[0];
      assert s[1..] == a[1..] + [sep] + b;
      assert sep !in a[1..] by {
        forall k | 0 <= k < |a| - 1 ensures a[1..][k] != sep { assert a[1..][k] == a[k + 1]; }
      }
      SplitCons(a[1..], sep, b);
      assert [a[0]] + a[1..] == a;
    }
  }

  // ---------------------------------------------------------------------------
  // s.split(c, 1)[1] and s.split(sep)[0]
  // ---------------------------------------------------------------------------

  /**
   * `s.split(c, 1)[1]`: what follows the first `c`; `None` where Python's
   * indexing raises `IndexError` because `c` does not occur.
   */
  function AfterFirst(s: string, c: char): (r: Option<string>)
    ensures r.Some? <==> c in s
    ensures r.Some? ==> exists i :: 0 <= i < |s| && s[i] == c && c !in s[..i] && r.value == s[i + 1..]
  {
    if |s| == 0 then None
    else if s[0] == c then
      assert s[..0] == [];
      Some(s[1..])
    else
      var r := AfterFirst(s[1..], c);
      if r.Some? then
        var i :| 0 <= i < |s[1..]| && s[1..][i] == c && c !in s[1..][..i] && r.value == s[1..][i + 1..];
        assert s[..i + 1] == [s[0]] + s[1..][..i];
        assert s[i + 2..] == s[1..][i + 1..];
        r
      else
        assert c !in s[1..];
        assert s == [s[0]] + s[1..];
        r
  }

  /** When `a` holds no `c`, what follows the first `c` of `a + [c] + b` is `b`. */
  lemma {:induction false} AfterFirstAt(a: string, c: char, b: string)
    requires c !in a
    ensures AfterFirst(a + [c] + b, c) == Some(b)
  {
    var s := a + [c] + b;
    if |a| == 0 {
      assert s == [c] + b;
    } else {
      assert s[0] == a[0];
      assert s[1..] == a[1..] + [c] + b;
      assert c !in a[1..] by {
        forall k | 0 <= k < |a| - 1 ensures a[1..][k] != c { assert a[1..][k] == a[k + 1]; }
      }
      AfterFirstAt(a[1..], c, b);
    }
  }

  /** `s.split(sep)[0]`: everything before the first occurrence of `sep`, or all of `s`. */
  function BeforeFirst(s: string, sep: string): (r: string)
    requires |sep| > 0
    ensures |r| <= |s| && r == s[..|r|]
    ensures |r| == |s| || StartsWith(s[|r|..], sep)
    ensures forall i :: 0 <= i < |r| ==> !StartsWith(s[i..], sep)
  {
    if StartsWith(s, sep) || |s| == 0 then ""
    else
      var r := BeforeFirst(s[1..], sep);
      assert forall i :: 1 <= i <= |r| ==> s[i..] == s[1..][i - 1..];
      [s[0]] + r
  }

  // ---------------------------------------------------------------------------
  // int(s) and str(n)
  // ---------------------------------------------------------------------------

  predicate IsDigit(c: char)
  {
    '0' <= c <= '9'
  }

  function DigitValue(c: char): nat
    requires IsDigit(c)
  {
    c as int - '0' as int
  }

  function DigitChar(d: nat): (c: char)
    requires d < 10
    ensures IsDigit(c) && DigitValue(c) == d
  {
    (d + '0' as int) as char
  }

  /** Only digits and underscores. */
  predicate IsDigitsOrUnderscores(s: string)
  {
    forall i :: 0 <= i < |s| ==> IsDigit(s[i]) || s[i] == '_'
  }

  /**
   * The body of a base-10 literal as Python's `int(str)` accepts it: one or
   * more digits, with single underscores allowed between two digits.
   */
  predicate IsDigitBody(s: string)
  {
    && |s| > 0
    && IsDigit(s[0])
    && IsDigit(s[|s| - 1])
    && IsDigitsOrUnderscores(s)
    && forall i :: 0 <= i < |s| - 1 && s[i] == '_' ==> s[i + 1] != '_'
  }

  /** The number the digits of `s` spell, underscores skipped. */
  function DigitsValue(s: string): nat
    requires IsDigitsOrUnderscores(s)
  {
    if |s| == 0 then 0
    else if s[|s| - 1] == '_' then DigitsValue(s[..|s| - 1])
    else DigitsValue(s[..|s| - 1]) * 10 + DigitValue(s[|s| - 1])
  }

  /**
   * The whitespace CPython's `int` skips around a number in an ASCII string:
   * the C-locale set of `Py_ISSPACE`, without the separators `\x1c`..`\x1f`
   * that `strip` also removes.
   */
  predicate IsIntSpace(c: char)
  {
    c == ' ' || c == '\t' || c == '\n' || c == '\r' || c == '\U{0B}' || c == '\U{0C}'
  }

  /** Only whitespace that `int` skips. */
  predicate AllIntSpace(w: string)
  {
    forall i :: 0 <= i < |w| ==> IsIntSpace(w[i])
  }

  /** The first position at or after `i` that `int` does not skip, or `|s|`. */
  function SkipIntSpaces(s: string, i: nat): (k: nat)
    requires i <= |s|
    ensures i <= k <= |s| && (k == |s| || !IsIntSpace(s[k]))
    ensures forall m :: i <= m < k ==> IsIntSpace(s[m])
    decreases |s| - i
  {
    if i == |s| || !IsIntSpace(s[i]) then i else SkipIntSpaces(s, i + 1)
  }

  /** The end of `s[..j]` once the trailing whitespace `int` skips is dropped. */
  function SkipIntSpacesBack(s: string, j: nat): (k: nat)
    requires j <= |s|
    ensures k <= j && (k == 0 || !IsIntSpace(s[k - 1]))
    ensures forall m :: k <= m < j ==> IsIntSpace(s[m])
  {
    if j == 0 || !IsIntSpace(s[j - 1]) then j else SkipIntSpacesBack(s, j - 1)
  }

  /** What `int` reads once it has skipped the whitespace at both ends. */
  function IntStrip(s: string): string
  {
    var l := s[SkipIntSpaces(s, 0)..];
    l[..SkipIntSpacesBack(l, |l|)]
  }

  /**
   * `sys.get_int_max_str_digits()` at its default: `int` refuses a decimal
   * string with more digits than this.
   */
  const MaxStrDigits := 4300

  /** The number of digits in `s`, underscores not counted. */
  function DigitCount(s: string): nat
  {
    if |s| == 0 then 0
    else DigitCount(s[..|s| - 1]) + (if s[|s| - 1] == '_' then 0 else 1)
  }

  /** A digit body `int` accepts: well formed, and within the digit limit. */
  predicate IsAcceptedBody(s: string)
  {
    IsDigitBody(s) && DigitCount(s) <= MaxStrDigits
  }

  /**
   * `int(s)` in base 10: whitespace `int` skips at both ends, then an
   * optional `+` or `-`, then a digit body of at most `MaxStrDigits` digits.
   * `None` where Python raises `ValueError`.
   */
  function ParseInt(s: string): Option<int>
  {
    ParseLiteral(IntStrip(s))
  }

  /** What `int` makes of the text between the skipped whitespace: a sign, then a digit body. */
  function ParseLiteral(t: string): Option<int>
  {
    if |t| > 0 && (t[0] == '+' || t[0] == '-') then
      if IsAcceptedBody(t[1..]) then
        var v: int := DigitsValue(t[1..]);
        Some(if t[0] == '-' then -v else v)
      else None
    else if IsAcceptedBody(t) then Some(DigitsValue(t))
    else None
  }

  /** A string that neither starts nor ends with whitespace `int` skips is read as it stands. */
  lemma IntStripNoSpace(s: string)
    requires s == [] || (!IsIntSpace(s[0]) && !IsIntSpace(s[|s| - 1]))
    ensures IntStrip(s) == s
  {
  }

  /** `int` rejects a string that, once stripped, starts with neither a sign nor a digit. */
  lemma ParseIntRejects(s: string)
    requires |s| > 0 && !IsIntSpace(s[0]) && !IsIntSpace(s[|s| - 1])
    requires !IsDigit(s[0]) && s[0] != '+' && s[0] != '-'
    ensures ParseInt(s) == None
  {
    IntStripNoSpace(s);
  }

  /**
   * `int` does not skip the separators `\x1c`..`\x1f` that `strip` removes:
   * `"\x1c8000".strip()` is `"8000"`, yet `int("\x1c8000")` raises.
   */
  lemma IntSkipsLessThanStrip()
    ensures Strip("\U{1C}8000") == "8000"
    ensures ParseInt("\U{1C}8000") == None
  {
    ParseIntRejects("\U{1C}8000");
  }

  /** `int` removes any padding of the whitespace it skips from a string that has none at its ends. */
  lemma IntStripPadded(w1: string, t: string, w2: string)
    requires AllIntSpace(w1) && AllIntSpace(w2)
    requires t != [] && !IsIntSpace(t[0]) && !IsIntSpace(t[|t| - 1])
    ensures IntStrip(w1 + t + w2) == t
  {
    var s := w1 + t + w2;
    assert s[|w1|] == t[0];
    assert forall m :: 0 <= m < |w1| ==> s[m] == w1[m];
    assert SkipIntSpaces(s, 0) == |w1|;
    var l := t + w2;
    assert s[|w1|..] == l;
    assert l[|t| - 1] == t[|t| - 1];
    assert forall m :: |t| <= m < |l| ==> l[m] == w2[m - |t|];
    assert SkipIntSpacesBack(l, |l|) == |t|;
    assert l[..|t|] == t;
  }

  /** The shortest decimal spelling of `n`, as `str(n)` writes it. */
  function Decimal(n: nat): (r: string)
    ensures |r| > 0 && forall i :: 0 <= i < |r| ==> IsDigit(r[i])
  {
    if n < 10 then [DigitChar(n)] else Decimal(n / 10) + [DigitChar(n % 10)]
  }

  function Abs(n: int): nat
  {
    if n < 0 then -n else n
  }

  /** Without underscores every character is counted. */
  lemma {:induction false} DigitCountPlain(s: string)
    requires forall i :: 0 <= i < |s| ==> s[i] != '_'
    ensures DigitCount(s) == |s|
  {
    if |s| > 0 {
      DigitCountPlain(s[..|s| - 1]);
    }
  }

  /** `str(n)` for an integer of either sign. */
  function IntString(n: int): string
  {
    if n < 0 then "-" + Decimal(-n) else Decimal(n)
  }

  /** Reading back the digits `Decimal` writes gives the number. */
  lemma {:induction false} DecimalValue(n: nat)
    ensures IsDigitBody(Decimal(n)) && DigitsValue(Decimal(n)) == n
  {
    if n >= 10 {
      DecimalValue(n / 10);
      var d := Decimal(n / 10);
      assert (d + [DigitChar(n % 10)])[..|d|] == d;
    }
  }



  /** A sign and a digit body hold no whitespace at their ends, so `int` reads them as they stand. */
  lemma SignedStrip(sign: string, body: string)
    requires sign == "" || sign == "+" || sign == "-"
    requires IsDigitBody(body)
    ensures IntStrip(sign + body) == sign + body
    ensures sign == "" ==> sign + body == body
    ensures sign != "" ==> (sign + body)[0] == sign[0] && (sign + body)[1..] == body
  {
    var s := sign + body;
    assert s[|s| - 1] == body[|body| - 1];
    if sign == "" {
      assert s == body;
    } else {
      assert s[0] == sign[0] && s[1..] == body;
    }
    IntStripNoSpace(s);
  }

  /** An optional sign and a body within the digit limit spell the body's value, negated after `-`. */
  lemma ParseLiteralSigned(sign: string, body: string)
    requires sign == "" || sign == "+" || sign == "-"
    requires IsAcceptedBody(body)
    ensures ParseLiteral(sign + body) == Some(if sign == "-" then -(DigitsValue(body) as int) else DigitsValue(body))
  {
    var t := sign + body;
    if sign == "" {
      assert t == body && IsDigit(t[0]);
    } else {
      assert t[0] == sign[0] && t[1..] == body;
    }
  }

  /** `int` reads an optional sign and a body within the digit limit as the body's value, negated after `-`. */
  lemma ParseIntSigned(sign: string, body: string)
    requires sign == "" || sign == "+" || sign == "-"
    requires IsAcceptedBody(body)
    ensures ParseInt(sign + body) == Some(if sign == "-" then -(DigitsValue(body) as int) else DigitsValue(body))
  {
    SignedStrip(sign, body);
    ParseLiteralSigned(sign, body);
  }

  /** `int` refuses a well-formed number with more than `MaxStrDigits` digits, signed or not. */
  lemma ParseIntDigitLimit(sign: string, body: string)
    requires sign == "" || sign == "+" || sign == "-"
    requires IsDigitBody(body) && DigitCount(body) > MaxStrDigits
    ensures ParseInt(sign + body) == None
  {
    SignedStrip(sign, body);
    assert !IsAcceptedBody(body);
    var t := sign + body;
    if sign == "" {
      assert t == body && IsDigit(t[0]);
    } else {
      assert t[0] == sign[0] && t[1..] == body;
    }
  }

  /** The digits `str` writes for a natural number within the limit are a body `int` accepts. */
  lemma DecimalAccepted(m: nat)
    requires |Decimal(m)| <= MaxStrDigits
    ensures IsAcceptedBody(Decimal(m)) && DigitsValue(Decimal(m)) == m
  {
    DecimalValue(m);
    DigitCountPlain(Decimal(m));
  }

  /** `int(str(n)) == n` for every integer of at most `MaxStrDigits` digits. */
  lemma ParseIntString(n: int)
    requires |Decimal(Abs(n))| <= MaxStrDigits
    ensures ParseInt(IntString(n)) == Some(n)
  {
    var d := Decimal(Abs(n));
    DecimalAccepted(Abs(n));
    if n < 0 {
      assert IntString(n) == "-" + d;
      ParseIntSigned("-", d);
    } else {
      assert IntString(n) == "" + d;
      ParseIntSigned("", d);
    }
  }


  /** Two numbers with the same decimal spelling are equal. */
  lemma DecimalInjective(m: nat, n: nat)
    requires Decimal(m) == Decimal(n)
    ensures m == n
  {
    DecimalValue(m);
    DecimalValue(n);
  }

  /** `int` tolerates the whitespace it skips around the number: `int(w1 + str(n) + w2) == n`. */
  lemma ParseIntPadded(w1: string, n: int, w2: string)
    requires AllIntSpace(w1) && AllIntSpace(w2)
    requires |Decimal(Abs(n))| <= MaxStrDigits
    ensures ParseInt(w1 + IntString(n) + w2) == Some(n)
  {
    var s := IntString(n);
    var d := Decimal(Abs(n));
    assert s[|s| - 1] == d[|d| - 1];
    IntStripPadded(w1, s, w2);
    IntStripNoSpace(s);
    ParseIntSameStrip(w1 + s + w2, s);
    ParseIntString(n);
  }

  /** `int` sees only what is left once the whitespace it skips is gone. */
  lemma ParseIntSameStrip(a: string, b: string)
    requires IntStrip(a) == IntStrip(b)
    ensures ParseInt(a) == ParseInt(b)
  {
  }



}
