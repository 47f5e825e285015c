/**
 * The Python string built-ins the voter loader and the list view rely on:
 * `str.strip()`, `str.split(',')`, `str.upper()`, `int(...)` on a string, the
 * decimal rendering of an integer, and the code-point order a database uses
 * for `ORDER BY` on a text column.
 */
module Text {
  import opened Wrappers

  /** Python's `str.isspace()` for one character. */
  predicate IsSpace(c: char)
  {
    var n := c as int;
    (9 <= n <= 13) || (28 <= n <= 32) || n == 0x85 || n == 0xA0 || n == 0x1680
    || (0x2000 <= n <= 0x200A) || n == 0x2028 || n == 0x2029 || n == 0x202F
    || n == 0x205F || n == 0x3000
  }

  /**
   * The whitespace `int()` skips around a number: the ASCII characters
   * `\t \n \v \f \r` and space, and non-ASCII whitespace. Unlike
   * `str.isspace()`, it does not count the separators U+001C to U+001F.
   */
  predicate IsIntSpace(c: char)
  {
    IsSpace(c) && !(28 <= c as int <= 31)
  }

  /** `s` with its leading characters in `space` removed. */
  function StripLeft(s: string, space: char -> bool): (r: string)
    ensures |r| <= |s| && r == s[|s| - |r|..]
    ensures forall i :: 0 <= i < |s| - |r| ==> space(s[i])
    ensures r == [] || !space(r[0])
  {
    if |s| > 0 && space(s[0]) then StripLeft(s[1..], space) else s
  }

  /** `s` with its trailing characters in `space` removed. */
  function StripRight(s: string, space: char -> bool): (r: string)
    ensures |r| <= |s| && r == s[..|r|]
    ensures forall i :: |r| <= i < |s| ==> space(s[i])
    ensures r == [] || !space(r[|r| - 1])
  {
    if |s| > 0 && space(s[|s| - 1]) then StripRight(s[..|s| - 1], space) else s
  }

  /** `s` with the characters in `space` removed from both ends. */
  function StripBy(s: string, space: char -> bool): (r: string)
    ensures |r| <= |s|
    ensures r == [] || (!space(r[0]) && !space(r[|r| - 1]))
  {
    StripRight(StripLeft(s, space), space)
  }

  /** `str.strip()`: whitespace removed from both ends. */
  function Strip(s: string): (r: string)
    ensures |r| <= |s|
    ensures r == [] || (!IsSpace(r[0]) && !IsSpace(r[|r| - 1]))
  {
    StripBy(s, IsSpace)
  }

  /** What `str.strip()` removes is whitespace, and what it keeps is a contiguous part of `s`. */
  lemma StripSlice(s: string) returns (lo: nat)
    ensures lo + |Strip(s)| <= |s| && Strip(s) == s[lo..lo + |Strip(s)|]
    ensures forall i :: 0 <= i < lo ==> IsSpace(s[i])
    ensures forall i :: lo + |Strip(s)| <= i < |s| ==> IsSpace(s[i])
  {
    lo := StripBySlice(s, IsSpace);
  }

  /** Stripping the characters of `space` keeps a contiguous middle part and removes only characters of `space`. */
  lemma StripBySlice(s: string, space: char -> bool) returns (lo: nat)
    ensures var r := StripBy(s, space);
      lo + |r| <= |s| && r == s[lo..lo + |r|]
    ensures forall i :: 0 <= i < lo ==> space(s[i])
    ensures forall i :: lo + |StripBy(s, space)| <= i < |s| ==> space(s[i])
  {
    var l := StripLeft(s, space);
    lo := |s| - |l|;
    var r := StripRight(l, space);
    assert StripBy(s, space) == r;
    assert l == s[lo..];
    assert r == l[..|r|] == s[lo..lo + |r|];
    forall i | lo + |r| <= i < |s|
      ensures space(s[i])
    {
      assert s[i] == l[i - lo];
    }
  }

  /** A string with no character of `space` at either end is left as it is. */
  lemma StripByNoop(s: string, space: char -> bool)
    requires s == [] || (!space(s[0]) && !space(s[|s| - 1]))
    ensures StripBy(s, space) == s
  {
  }

  /** A string with no whitespace at either end is its own strip. */
  lemma StripNoop(s: string)
    requires s == [] || (!IsSpace(s[0]) && !IsSpace(s[|s| - 1]))
    ensures Strip(s) == s
  {
    StripByNoop(s, IsSpace);
  }

  /** `sep.join(parts)` for a one-character separator. */
  function Join(parts: seq<string>, sep: char): string
  {
    if parts == [] then ""
    else if |parts| == 1 then parts[0]
    else parts[0] + [sep] + Join(parts[1..], sep)
  }

  /** `s.split(sep)` for a one-character separator: the pieces between separators, empty ones included. */
  function Split(s: string, sep: char): (r: seq<string>)
    ensures |r| >= 1
    ensures forall i :: 0 <= i < |r| ==> sep !in r[i]
  {
    if s == [] then [""]
    else
      var rest := Split(s[1..], sep);
      if s[0] == sep then [""] + rest else [[s[0]] + rest[0]] + rest[1..]
  }

  /** Joining the pieces back with the separator gives the string split. */
  lemma {:induction false} JoinSplit(s: string, sep: char)
    ensures Join(Split(s, sep), sep) == s
  {
    if s != [] {
      var rest := Split(s[1..], sep);
      JoinSplit(s[1..], sep);
      if s[0] != sep {
        if |rest| == 1 {
          assert s == [s[0]] + rest[0];
        } else {
          assert rest == [rest[0]] + rest[1..];
          assert Join(rest, sep) == rest[0] + [sep] + Join(rest[1..], sep);
          assert s == [s[0]] + s[1..];
        }
      }
    }
  }

  /** Splitting a join of separator-free pieces gives the pieces back. */
  lemma {:induction false} SplitJoin(parts: seq<string>, sep: char)
    requires |parts| >= 1
    requires forall i :: 0 <= i < |parts| ==> sep !in parts[i]
    ensures Split(Join(parts, sep), sep) == parts
  {
    if |parts| == 1 {
      SplitNoSeparator(parts[0], sep);
    } else {
      SplitJoin(parts[1..], sep);
      SplitAfterSeparator(parts[0], Join(parts[1..], sep), sep);
      assert parts == [parts[0]] + parts[1..];
    }
  }

  lemma {:induction false} SplitNoSeparator(s: string, sep: char)
    requires sep !in s
    ensures Split(s, sep) == [s]
  {
    if s != [] {
      SplitNoSeparator(s[1..], sep);
      assert s == [s[0]] + s[1..];
    }
  }

  /** A separator-free `a`, then a separator, then `b`: `a` is the first piece, the rest is `b`'s pieces. */
  lemma {:induction false} SplitAfterSeparator(a: string, b: string, sep: char)
    requires sep !in a
    ensures Split(a + [sep] + b, sep) == [a] + Split(b, sep)
  {
    if a == [] {
      assert a + [sep] + b == [sep] + b;
      assert ([sep] + b)[1..] == b;
    } else {
      SplitAfterSeparator(a[1..], b, sep);
      assert (a + [sep] + b)[1..] == a[1..] + [sep] + b;
      assert a == [a[0]] + a[1..];
    }
  }

  /** Splitting text that has a separator after the first `|Split(a)|` pieces: the pieces of `a`, then those of `b`. */
  lemma {:induction false} SplitAppend(a: string, b: string, sep: char)
    ensures Split(a + [sep] + b, sep) == Split(a, sep) + Split(b, sep)
  {
    var pa, pb := Split(a, sep), Split(b, sep);
    JoinSplit(a, sep);
    JoinSplit(b, sep);
    JoinAppend(pa, pb, sep);
    SplitJoin(pa + pb, sep);
  }

  lemma {:induction false} JoinAppend(pa: seq<string>, pb: seq<string>, sep: char)
    requires |pa| >= 1 && |pb| >= 1
    ensures Join(pa + pb, sep) == Join(pa, sep) + [sep] + Join(pb, sep)
  {
    if |pa| == 1 {
      assert (pa + pb)[1..] == pb;
    } else {
      JoinAppend(pa[1..], pb, sep);
      assert (pa + pb)[1..] == pa[1..] + pb;
    }
  }

  /** The joined text starts with the first piece and ends with the last one. */
  lemma {:induction false} JoinEnds(parts: seq<string>, sep: char)
    requires |parts| >= 1 && |parts[0]| >= 1 && |parts[|parts| - 1]| >= 1
    ensures var t := Join(parts, sep); |t| >= 1 && t[0] == parts[0][0]
    ensures var t := Join(parts, sep); var z := parts[|parts| - 1]; t[|t| - 1] == z[|z| - 1]
  {
    if |parts| > 1 {
      var rest := parts[1..];
      assert rest[|rest| - 1] == parts[|parts| - 1];
      if |rest| >= 1 && |rest[0]| >= 1 {
        JoinEnds(rest, sep);
      } else {
        JoinEndsLast(rest, sep);
      }
    }
  }

  lemma {:induction false} JoinEndsLast(parts: seq<string>, sep: char)
    requires |parts| >= 1 && |parts[|parts| - 1]| >= 1
    ensures var t := Join(parts, sep); var z := parts[|parts| - 1]; |t| >= 1 && t[|t| - 1] == z[|z| - 1]
  {
    if |parts| > 1 {
      var rest := parts[1..];
      assert rest[|rest| - 1] == parts[|parts| - 1];
      JoinEndsLast(rest, sep);
    }
  }

  /** ASCII upper-casing of one character. */
  function UpperChar(c: char): char
  {
    if 'a' <= c <= 'z' then (c as int - 32) as char else c
  }

  /** `str.upper()`, with the ASCII letters mapped (see README for other scripts). */
  function Upper(s: string): (r: string)
    ensures |r| == |s|
  {
    seq(|s|, i requires 0 <= i < |s| => UpperChar(s[i]))
  }

  /** `f.upper() == 'Y'` holds of exactly the two spellings of yes. */
  lemma UpperIsY(f: string)
    ensures Upper(f) == "Y" <==> f == "Y" || f == "y"
  {
    if |f| == 1 && Upper(f) == "Y" {
      assert Upper(f)[0] == UpperChar(f[0]) == 'Y';
    }
  }

  /** Code-point lexicographic order on strings: the default text collation of `ORDER BY`. */
  predicate StrLe(a: string, b: string)
  {
    if a == [] then true
    else if b == [] then false
    else if a[0] != b[0] then a[0] < b[0]
    else StrLe(a[1..], b[1..])
  }

  lemma {:induction false} StrLeTotal(a: string, b: string)
    ensures StrLe(a, b) || StrLe(b, a)
  {
    if a != [] && b != [] && a[0] == b[0] {
      StrLeTotal(a[1..], b[1..]);
    }
  }

  lemma {:induction false} StrLeAntisymmetric(a: string, b: string)
    requires StrLe(a, b) && StrLe(b, a)
    ensures a == b
  {
    if a != [] && b != [] {
      StrLeAntisymmetric(a[1..], b[1..]);
      assert a == [a[0]] + a[1..] && b == [b[0]] + b[1..];
    }
  }

  lemma {:induction false} StrLeTransitive(a: string, b: string, c: string)
    requires StrLe(a, b) && StrLe(b, c)
    ensures StrLe(a, c)
  {
    if a != [] && b != [] && c != [] && a[0] == b[0] && b[0] == c[0] {
      StrLeTransitive(a[1..], b[1..], c[1..]);
    }
  }

  predicate IsDigit(c: char)
  {
    '0' <= c <= '9'
  }

  /**
   * The digit part of a Python integer literal: ASCII digits, with single
   * underscores allowed between two digits (`1_000`).
   */
  predicate IsDigitRun(s: string)
  {
    && |s| > 0 && IsDigit(s[0]) && IsDigit(s[|s| - 1])
    && (forall i :: 0 <= i < |s| ==> IsDigit(s[i]) || s[i] == '_')
    && (forall i :: 0 <= i < |s| - 1 ==> s[i] == '_' ==> s[i + 1] != '_')
  }

  /** The number the digits of `s` spell, underscores skipped. */
  function DigitsValue(s: string): nat
  {
    if s == [] then 0
    else
      var c := s[|s| - 1];
      var init := DigitsValue(s[..|s| - 1]);
      if IsDigit(c) then 10 * init + (c as int - '0' as int) else init
  }

  /**
   * Python's `int(s)` on a string: surrounding `int()` whitespace allowed,
   * then an optional sign, then a digit run. `None` is the `ValueError` it
   * raises.
   */
  function ParseInt(s: string): (r: Option<int>)
    ensures r.Some? <==>
      var t := StripBy(s, IsIntSpace);
      IsDigitRun(t) || (|t| > 0 && (t[0] == '+' || t[0] == '-') && IsDigitRun(t[1..]))
  {
    ParseSigned(StripBy(s, IsIntSpace))
  }

  /** `int()` of a text already stripped of whitespace: an optional sign, then a digit run. */
  function ParseSigned(t: string): (r: Option<int>)
    ensures r.Some? <==>
      IsDigitRun(t) || (|t| > 0 && (t[0] == '+' || t[0] == '-') && IsDigitRun(t[1..]))
    ensures IsDigitRun(t) ==> r == Some(DigitsValue(t))
    ensures |t| > 0 && t[0] == '+' && IsDigitRun(t[1..]) ==> r == Some(DigitsValue(t[1..]))
    ensures |t| > 0 && t[0] == '-' && IsDigitRun(t[1..]) ==> r == Some(-(DigitsValue(t[1..]) as int))
  {
    if |t| > 0 && (t[0] == '+' || t[0] == '-') then
      if IsDigitRun(t[1..]) then
        var n: int := DigitsValue(t[1..]);
        var v: int := if t[0] == '-' then -n else n;
        Some(v)
      else None
    else if IsDigitRun(t) then Some(DigitsValue(t))
    else None
  }

  /** Leading characters of `space` are removed, and nothing after them. */
  lemma {:induction false} StripLeftSkips(pre: string, rest: string, space: char -> bool)
    requires forall i :: 0 <= i < |pre| ==> space(pre[i])
    requires rest == [] || !space(rest[0])
    ensures StripLeft(pre + rest, space) == rest
  {
    if pre != [] {
      assert (pre + rest)[1..] == pre[1..] + rest;
      StripLeftSkips(pre[1..], rest, space);
    }
  }

  /** Trailing characters of `space` are removed, and nothing before them. */
  lemma {:induction false} StripRightSkips(rest: string, post: string, space: char -> bool)
    requires forall i :: 0 <= i < |post| ==> space(post[i])
    requires rest == [] || !space(rest[|rest| - 1])
    ensures StripRight(rest + post, space) == rest
  {
    if post != [] {
      assert (rest + post)[..|rest + post| - 1] == rest + post[..|post| - 1];
      StripRightSkips(rest, post[..|post| - 1], space);
    }
  }

  /** Stripping removes exactly the characters of `space` around a middle part that neither starts nor ends with one. */
  lemma StripAround(pre: string, t: string, post: string, space: char -> bool)
    requires forall i :: 0 <= i < |pre| ==> space(pre[i])
    requires forall i :: 0 <= i < |post| ==> space(post[i])
    requires t != [] && !space(t[0]) && !space(t[|t| - 1])
    ensures StripBy(pre + t + post, space) == t
  {
    assert (t + post)[0] == t[0];
    assert pre + t + post == pre + (t + post);
    StripLeftSkips(pre, t + post, space);
    StripRightSkips(t, post, space);
  }

  /** `int()` skips any `int()` whitespace around a number, such as `" \t42\n"`. */
  lemma ParseIntSkipsSpaces(pre: string, t: string, post: string)
    requires forall i :: 0 <= i < |pre| ==> IsIntSpace(pre[i])
    requires forall i :: 0 <= i < |post| ==> IsIntSpace(post[i])
    requires IsDigitRun(t)
    ensures ParseInt(pre + t + post) == Some(DigitsValue(t))
  {
    assert !IsIntSpace(t[0]) && !IsIntSpace(t[|t| - 1]);
    StripAround(pre, t, post, IsIntSpace);
  }

  /** `int()` refuses a number after a file separator (U+001C), which `str.strip()` would skip. */
  lemma ParseIntRefusesSeparator()
    ensures ParseInt([28 as char, '5']) == None
    ensures Strip([28 as char, '5']) == "5"
  {
    assert StripBy([28 as char, '5'], IsIntSpace) == [28 as char, '5'];
    assert StripLeft([28 as char, '5'], IsSpace) == "5";
  }

  /** The decimal digits of `n`, most significant first, without leading zeros. */
  function ShowNat(n: nat): (r: string)
    ensures |r| >= 1
    ensures forall i :: 0 <= i < |r| ==> IsDigit(r[i])
  {
    var d := [('0' as int + n % 10) as char];
    if n < 10 then d else ShowNat(n / 10) + d
  }

  /** `str(n)` for an integer. */
  function ShowInt(n: int): string
  {
    if n < 0 then "-" + ShowNat(-n) else ShowNat(n)
  }

  /** Reading back the digits of `n` gives `n`. */
  lemma {:induction false} DigitsOfShowNat(n: nat)
    ensures DigitsValue(ShowNat(n)) == n
  {
    var s := ShowNat(n);
    assert s[|s| - 1] == ('0' as int + n % 10) as char;
    if n >= 10 {
      DigitsOfShowNat(n / 10);
      assert s[..|s| - 1] == ShowNat(n / 10);
    }
  }

  /** `str(n)` of a natural number is a digit run. */
  lemma ShowNatIsDigitRun(n: nat)
    ensures IsDigitRun(ShowNat(n))
  {
    var d := ShowNat(n);
    assert IsDigit(d[0]) && IsDigit(d[|d| - 1]);
  }

  /** `int()` of a digit run is its value. */
  lemma ParseDigitRun(t: string)
    requires IsDigitRun(t)
    ensures ParseInt(t) == Some(DigitsValue(t))
  {
    assert !IsIntSpace(t[0]) && !IsIntSpace(t[|t| - 1]);
    StripByNoop(t, IsIntSpace);
  }

  /** `int()` of a minus sign and a digit run is the negated value. */
  lemma ParseNegativeDigitRun(t: string)
    requires IsDigitRun(t)
    ensures ParseInt("-" + t) == Some(-(DigitsValue(t) as int))
  {
    var s := "-" + t;
    assert s[1..] == t;
    assert s[0] == '-' && s[|s| - 1] == t[|t| - 1];
    assert !IsIntSpace(s[0]) && !IsIntSpace(s[|s| - 1]);
    StripByNoop(s, IsIntSpace);
    assert ParseSigned(s) == Some(-(DigitsValue(t) as int));
  }

  /** `int()` of an optionally signed digit run inside `int()` whitespace, such as `" -5 "` or `"+5"`: a minus negates, a plus does not. */
  lemma ParseSignedSkipsSpaces(pre: string, sign: string, t: string, post: string)
    requires forall i :: 0 <= i < |pre| ==> IsIntSpace(pre[i])
    requires forall i :: 0 <= i < |post| ==> IsIntSpace(post[i])
    requires sign == "" || sign == "+" || sign == "-"
    requires IsDigitRun(t)
    ensures ParseInt(pre + sign + t + post)
         == Some(if sign == "-" then -(DigitsValue(t) as int) else DigitsValue(t))
  {
    var u := sign + t;
    assert u[|u| - 1] == t[|t| - 1];
    assert u[0] == if sign == "" then t[0] else sign[0];
    assert pre + sign + t + post == pre + u + post;
    StripAround(pre, u, post, IsIntSpace);
    ParseIntOfStripped(pre + u + post, u);
    if sign == "" {
      assert u == t;
      ParseDigitRun(t);
    } else if sign == "-" {
      ParseNegativeDigitRun(t);
    } else {
      ParsePositiveDigitRun(t);
    }
  }

  /** `int()` reads a text as it reads the text stripped of `int()` whitespace. */
  lemma ParseIntOfStripped(s: string, u: string)
    requires u != [] && !IsIntSpace(u[0]) && !IsIntSpace(u[|u| - 1])
    requires StripBy(s, IsIntSpace) == u
    ensures ParseInt(s) == ParseInt(u)
  {
    StripByNoop(u, IsIntSpace);
  }

  /** `int()` of a plus sign and a digit run is the value of the run. */
  lemma ParsePositiveDigitRun(t: string)
    requires IsDigitRun(t)
    ensures ParseInt("+" + t) == Some(DigitsValue(t))
  {
    var s := "+" + t;
    assert s[1..] == t;
    assert s[0] == '+' && s[|s| - 1] == t[|t| - 1];
    assert !IsIntSpace(s[0]) && !IsIntSpace(s[|s| - 1]);
    StripByNoop(s, IsIntSpace);
    assert ParseSigned(s) == Some(DigitsValue(t));
  }


  /** `int(str(n)) == n`: the integer parser inverts the decimal rendering. */
  lemma ParseShowInt(n: int)
    ensures ParseInt(ShowInt(n)) == Some(n)
  {
    var m: nat := if n < 0 then -n else n;
    DigitsOfShowNat(m);
    ShowNatIsDigitRun(m);
    if n < 0 {
      ParseNegativeDigitRun(ShowNat(m));
    } else {
      ParseDigitRun(ShowNat(m));
    }
  }
}
