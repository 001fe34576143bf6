/** The parts of Python's `str` that the endpoint parser relies on:
    `find`, `split` with a one-character separator, and `int()` on a
    decimal literal. */
module Text {
  import opened Results

  /** Number of occurrences of `c` in `s`. */
  function Count(s: string, c: char): (n: nat)
    ensures n <= |s|
    ensures n == 0 <==> c !in s
  {
    if s == [] then 0 else (if s[0] == c then 1 else 0) + Count(s[1..], c)
  }

  lemma {:induction false} CountConcat(a: string, b: string, c: char)
    ensures Count(a + b, c) == Count(a, c) + Count(b, c)
    decreases |a|
  {
    if a == [] {
      assert a + b == b;
    } else {
      assert (a + b)[1..] == a[1..] + b;
      CountConcat(a[1..], b, c);
    }
  }

  /** `s.find(c)`: the first index of `c`, or -1 when there is none. */
  function Find(s: string, c: char): (i: int)
    ensures -1 <= i < |s|
    ensures i == -1 <==> c !in s
    ensures 0 <= i ==> s[i] == c && c !in s[..i]
  {
    if s == [] then -1
    else if s[0] == c then 0
    else
      var k := Find(s[1..], c);
      assert s[1..][..k + 1] == s[1..k + 2];
      if k < 0 then -1 else k + 1
  }

  lemma {:induction false} FindAfterFree(a: string, c: char, rest: string)
    requires c !in a
    ensures Find(a + [c] + rest, c) == |a|
    decreases |a|
  {
    if a != [] {
      assert (a + [c] + rest)[1..] == a[1..] + [c] + rest;
      FindAfterFree(a[1..], c, rest);
    }
  }

  /** `s.split(sep)`: the pieces between the occurrences of `sep`,
      including empty ones; there is always at least one piece. */
  function Split(s: string, sep: char): (parts: seq<string>)
    ensures |parts| >= 1
    decreases |s|
  {
    if s == [] then [""]
    else
      var rest := Split(s[1..], sep);
      if s[0] == sep then [""] + rest
      else [[s[0]] + rest[0]] + rest[1..]
  }

  /** `sep.join(parts)`, the inverse of `Split`. */
  function Join(parts: seq<string>, sep: char): string
    requires |parts| >= 1
    decreases |parts|
  {
    if |parts| == 1 then parts[0] else parts[0] + [sep] + Join(parts[1..], sep)
  }

  /** Joining the pieces of a split gives back the original text. */
  lemma {:induction false} SplitJoin(s: string, sep: char)
    ensures Join(Split(s, sep), sep) == s
    decreases |s|
  {
    if s != [] {
      var rest := Split(s[1..], sep);
      SplitJoin(s[1..], sep);
      if s[0] == sep {
        assert ([""] + rest)[1..] == rest;
      } else if |rest| > 1 {
        var parts := [[s[0]] + rest[0]] + rest[1..];
        assert parts[1..] == rest[1..];
        calc {
          Join(parts, sep);
          [s[0]] + rest[0] + [sep] + Join(rest[1..], sep);
          [s[0]] + Join(rest, sep);
          s;
        }
      }
    }
  }

  /** There is one more piece than there are separators. */
  lemma {:induction false} SplitCount(s: string, sep: char)
    ensures |Split(s, sep)| == Count(s, sep) + 1
    decreases |s|
  {
    if s != [] {
      SplitCount(s[1..], sep);
    }
  }

  /** No piece contains the separator. */
  lemma {:induction false} SplitPiecesFree(s: string, sep: char)
    ensures forall k :: 0 <= k < |Split(s, sep)| ==> sep !in Split(s, sep)[k]
    decreases |s|
  {
    if s != [] {
      SplitPiecesFree(s[1..], sep);
      var rest := Split(s[1..], sep);
      if s[0] != sep {
        var parts := Split(s, sep);
        forall k | 0 <= k < |parts| ensures sep !in parts[k] {
          if k == 0 {
            assert parts[0] == [s[0]] + rest[0];
          } else {
            assert parts[k] == rest[k];
          }
        }
      }
    }
  }

  /** A leading character other than the separator joins the first piece. */
  lemma SplitStep(c: char, r: string, sep: char)
    requires c != sep
    ensures Split([c] + r, sep) == [[c] + Split(r, sep)[0]] + Split(r, sep)[1..]
  {
    assert ([c] + r)[1..] == r;
  }

  /** A separator-free prefix becomes the start of the first piece. */
  lemma {:induction false} SplitPrefix(a: string, t: string, sep: char)
    requires sep !in a
    ensures Split(a + t, sep) == [a + Split(t, sep)[0]] + Split(t, sep)[1..]
    decreases |a|
  {
    if a != [] {
      var u := Split(t, sep);
      SplitPrefix(a[1..], t, sep);
      assert a + t == [a[0]] + (a[1..] + t);
      SplitStep(a[0], a[1..] + t, sep);
      assert [a[0]] + (a[1..] + u[0]) == a + u[0];
    } else {
      var parts := Split(t, sep);
      assert a + t == t && a + parts[0] == parts[0];
      assert [parts[0]] + parts[1..] == parts;
    }
  }

  /** Text without the separator splits into itself alone. */
  lemma SplitNoSep(s: string, sep: char)
    requires sep !in s
    ensures Split(s, sep) == [s]
  {
    SplitPrefix(s, "", sep);
    assert s + "" == s;
  }

  /** Text with exactly one separator splits into the two sides. */
  lemma SplitAround(a: string, b: string, sep: char)
    requires sep !in a && sep !in b
    ensures Split(a + [sep] + b, sep) == [a, b]
  {
    SplitNoSep(b, sep);
    assert Split([sep] + b, sep) == [""] + Split(b, sep);
    assert a + [sep] + b == a + ([sep] + b);
    SplitPrefix(a, [sep] + b, sep);
    assert a + "" == a;
  }

  predicate IsDigit(c: char) { '0' <= c <= '9' }

  predicate AllDigits(s: string) { forall i :: 0 <= i < |s| ==> IsDigit(s[i]) }

  /** The value of a string of decimal digits, most significant first. */
  function DigitsValue(s: string): nat
    requires AllDigits(s)
    decreases |s|
  {
    if s == [] then 0
    else 10 * DigitsValue(s[..|s| - 1]) + (s[|s| - 1] as int - '0' as int)
  }

  /** The text with one leading sign character removed, if it has one. */
  function Unsigned(s: string): string
  {
    if |s| > 0 && (s[0] == '+' || s[0] == '-') then s[1..] else s
  }

  /** The default limit of Python 3.11 and later on the number of digits
      `int()` converts from, and `str()` renders into, base 10
      (`sys.get_int_max_str_digits()`). */
  const MaxStrDigits: nat := 4300

  /** What this model accepts as an integer literal: an optional sign
      followed by one to `MaxStrDigits` ASCII decimal digits. */
  predicate IsIntLiteral(s: string)
  {
    var d := Unsigned(s);
    0 < |d| <= MaxStrDigits && AllDigits(d)
  }

  /** Python's `int(s)`: the value of the literal, `None` where Python
      would raise `ValueError`. */
  function ParseInt(s: string): (r: Option<int>)
    ensures r.Some? <==> IsIntLiteral(s)
    ensures r.Some? && s[0] != '-' ==> r.value >= 0
  {
    if !IsIntLiteral(s) then None
    else
      var v: int := DigitsValue(Unsigned(s));
      Some(if s[0] == '-' then -v else v)
  }

  /** Empty text and a bare sign are not integers. */
  lemma ParseIntEmpty()
    ensures ParseInt("") == None && ParseInt("+") == None && ParseInt("-") == None
  {
    assert Unsigned("+") == "";
    assert Unsigned("-") == "";
  }

  /** A character that is neither a digit nor a leading sign makes the
      text unparseable. */
  lemma ParseIntNonNumeric(s: string, j: nat)
    requires j < |s| && !IsDigit(s[j])
    requires j > 0 || (s[0] != '+' && s[0] != '-')
    ensures ParseInt(s) == None
  {
    var d := Unsigned(s);
    if d != s {
      assert d[j - 1] == s[j];
    } else {
      assert d[j] == s[j];
    }
  }

  /** More digits than the limit allows are rejected, even when they are
      all decimal digits. */
  lemma ParseIntTooManyDigits(s: string)
    requires |Unsigned(s)| > MaxStrDigits
    ensures ParseInt(s) == None
  {
  }

  lemma AllDigitsConcat(a: string, b: string)
    requires AllDigits(a) && AllDigits(b)
    ensures AllDigits(a + b)
  {
    forall j | 0 <= j < |a + b| ensures IsDigit((a + b)[j]) {
      if j >= |a| {
        assert (a + b)[j] == b[j - |a|];
      }
    }
  }

  /** `k` zero characters. */
  function Zeros(k: nat): (z: string)
    ensures |z| == k && AllDigits(z)
  {
    seq(k, _ => '0')
  }

  lemma {:induction false} DigitsValueZeroPrefix(s: string)
    requires AllDigits(s)
    ensures DigitsValue("0" + s) == DigitsValue(s)
    decreases |s|
  {
    if s != [] {
      var t := "0" + s;
      assert t[..|t| - 1] == "0" + s[..|s| - 1];
      assert t[|t| - 1] == s[|s| - 1];
      DigitsValueZeroPrefix(s[..|s| - 1]);
    } else {
      assert DigitsValue("0"[..0]) == 0;
    }
  }

  /** Leading zeros do not change the value of a digit string. */
  lemma {:induction false} DigitsValueLeadingZeros(k: nat, s: string)
    requires AllDigits(s)
    ensures DigitsValue(Zeros(k) + s) == DigitsValue(s)
    decreases k
  {
    if k > 0 {
      assert Zeros(k) + s == "0" + (Zeros(k - 1) + s);
      DigitsValueZeroPrefix(Zeros(k - 1) + s);
      DigitsValueLeadingZeros(k - 1, s);
    } else {
      assert Zeros(k) + s == s;
    }
  }

  lemma ParseIntUnsigned(d: string)
    requires 0 < |d| <= MaxStrDigits && AllDigits(d)
    ensures ParseInt(d) == Some(DigitsValue(d))
  {
    assert IsDigit(d[0]);
  }

  lemma ParseIntPlus(d: string)
    requires 0 < |d| <= MaxStrDigits && AllDigits(d)
    ensures ParseInt("+" + d) == Some(DigitsValue(d))
  {
    assert Unsigned("+" + d) == d;
  }

  lemma ParseIntMinus(d: string)
    requires 0 < |d| <= MaxStrDigits && AllDigits(d)
    ensures ParseInt("-" + d) == Some(-(DigitsValue(d) as int))
  {
    assert Unsigned("-" + d) == d;
  }

  /** A digit string within the limit, with or without a sign. */
  lemma ParseIntSigned(d: string)
    requires 0 < |d| <= MaxStrDigits && AllDigits(d)
    ensures ParseInt(d) == Some(DigitsValue(d))
    ensures ParseInt("+" + d) == Some(DigitsValue(d))
    ensures ParseInt("-" + d) == Some(-(DigitsValue(d) as int))
  {
    ParseIntUnsigned(d);
    ParseIntPlus(d);
    ParseIntMinus(d);
  }

  /** A leading `+` and leading zeros leave the value unchanged:
      `int("+007") == int("7")`. */
  lemma ParseIntNonCanonical(k: nat, s: string)
    requires |s| > 0 && AllDigits(s) && k + |s| <= MaxStrDigits
    ensures ParseInt(s) == Some(DigitsValue(s))
    ensures ParseInt(Zeros(k) + s) == Some(DigitsValue(s))
    ensures ParseInt("+" + (Zeros(k) + s)) == Some(DigitsValue(s))
  {
    var d := Zeros(k) + s;
    assert 0 < |d| <= MaxStrDigits && AllDigits(d) && DigitsValue(d) == DigitsValue(s) by {
      AllDigitsConcat(Zeros(k), s);
      DigitsValueLeadingZeros(k, s);
    }
    assert ParseInt(s) == Some(DigitsValue(s)) by { ParseIntUnsigned(s); }
    assert ParseInt(d) == Some(DigitsValue(d)) by { ParseIntUnsigned(d); }
    assert ParseInt("+" + d) == Some(DigitsValue(d)) by { ParseIntPlus(d); }
  }

  function DigitChar(d: nat): (c: char)
    requires d < 10
    ensures IsDigit(c) && c as int - '0' as int == d
  {
    ('0' as int + d) as char
  }

  /** Decimal rendering of a natural number, without leading zeros. */
  function ShowNat(n: nat): (s: string)
    ensures |s| > 0 && AllDigits(s)
    decreases n
  {
    if n < 10 then [DigitChar(n)] else ShowNat(n / 10) + [DigitChar(n % 10)]
  }

  function Abs(n: int): nat { if n < 0 then -n else n }

  /** Decimal rendering of an integer, `str(n)` in Python; Python raises
      instead when the rendering has more than `MaxStrDigits` digits. */
  function ShowInt(n: int): string
  {
    if n < 0 then "-" + ShowNat(-n) else ShowNat(n)
  }

  lemma {:induction false} DigitsValueShowNat(n: nat)
    ensures DigitsValue(ShowNat(n)) == n
    decreases n
  {
    if n >= 10 {
      var s := ShowNat(n);
      assert s[..|s| - 1] == ShowNat(n / 10);
      DigitsValueShowNat(n / 10);
    }
  }

  /** `int(str(n)) == n` for every integer of either sign whose rendering
      is within the digit limit. */
  lemma ParseShowRoundTrip(n: int)
    requires |ShowNat(Abs(n))| <= MaxStrDigits
    ensures ParseInt(ShowInt(n)) == Some(n)
  {
    var s := ShowInt(n);
    if n < 0 {
      assert Unsigned(s) == ShowNat(-n);
      DigitsValueShowNat(-n);
    } else {
      assert IsDigit(s[0]);
      DigitsValueShowNat(n);
    }
  }
}
