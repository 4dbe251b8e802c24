/**
 * Python's `str()` of an integer, its inverse, and `os.path.join` on POSIX,
 * which together build the tile paths `{z}/{x}/{y}.png`.
 */
module Text {
  import opened Wrappers

  predicate IsDigit(c: char) {
    '0' <= c <= '9'
  }

  predicate AllDigits(s: string) {
    forall i :: 0 <= i < |s| ==> IsDigit(s[i])
  }

  function DigitChar(d: nat): (c: char)
    requires d < 10
    ensures IsDigit(c) && DigitValue(c) == d
  {
    ('0' as int + d) as char
  }

  function DigitValue(c: char): nat
    requires IsDigit(c)
  {
    c as int - '0' as int
  }

  /** Decimal digits of a natural number, most significant first, no leading zeros. */
  function NatStr(n: nat): (s: string)
    ensures |s| > 0 && AllDigits(s)
  {
    if n < 10 then [DigitChar(n)] else NatStr(n / 10) + [DigitChar(n % 10)]
  }

  /** `str(n)` for a Python int: a minus sign before the digits of a negative number. */
  function IntStr(n: int): (s: string)
    ensures |s| > 0 && '/' !in s
    ensures s[0] == '-' || IsDigit(s[0])
  {
    if n < 0 then "-" + NatStr(-n) else NatStr(n)
  }

  /** The value of a string of decimal digits. */
  function ParseNat(s: string): nat
    requires AllDigits(s)
  {
    if s == [] then 0 else 10 * ParseNat(s[..|s| - 1]) + DigitValue(s[|s| - 1])
  }

  /** `int(s)` restricted to optionally signed decimal digits. */
  function ParseInt(s: string): Option<int> {
    if |s| > 0 && AllDigits(s) then Some(ParseNat(s))
    else if |s| > 1 && s[0] == '-' && AllDigits(s[1..]) then Some(-(ParseNat(s[1..]) as int))
    else None
  }

  lemma {:induction false} ParseNatStr(n: nat)
    ensures ParseNat(NatStr(n)) == n
  {
    if n >= 10 {
      var s := NatStr(n);
      assert s[..|s| - 1] == NatStr(n / 10);
      ParseNatStr(n / 10);
    }
  }

  /** Printing an integer and reading it back gives the integer. */
  lemma ParseIntStr(n: int)
    ensures ParseInt(IntStr(n)) == Some(n)
  {
    if n < 0 {
      assert IntStr(n)[1..] == NatStr(-n);
      ParseNatStr(-n);
    } else {
      ParseNatStr(n);
    }
  }

  /** `str` is injective: different integers print differently. */
  lemma IntStrInjective(m: int, n: int)
    requires IntStr(m) == IntStr(n)
    ensures m == n
  {
    ParseIntStr(m);
    ParseIntStr(n);
  }

  /**
   * One step of `os.path.join` on POSIX: an absolute component replaces the
   * path; otherwise a separator is inserted unless the path is empty or
   * already ends with one.
   */
  function JoinStep(path: string, b: string): (r: string)
    ensures |b| > 0 && b[0] == '/' ==> r == b
    ensures !(|b| > 0 && b[0] == '/') ==> |path| + |b| <= |r| <= |path| + |b| + 1
  {
    if |b| > 0 && b[0] == '/' then b
    else if path == [] || path[|path| - 1] == '/' then path + b
    else path + "/" + b
  }

  predicate EndsWith(s: string, t: string) {
    |t| <= |s| && s[|s| - |t|..] == t
  }

  /** `os.path.join(a, *parts)` on POSIX: the components joined left to right. */
  function Join(a: string, parts: seq<string>): (r: string)
    ensures parts != [] ==> |parts[|parts| - 1]| <= |r|
    ensures parts != [] && |parts[|parts| - 1]| > 0 && parts[|parts| - 1][0] == '/' ==> r == parts[|parts| - 1]
    decreases parts
  {
    if parts == [] then a else Join(JoinStep(a, parts[0]), parts[1..])
  }

  /** A joined path ends with its last component. */
  lemma {:induction false} JoinEndsWith(a: string, parts: seq<string>)
    requires parts != []
    ensures EndsWith(Join(a, parts), parts[|parts| - 1])
    decreases parts
  {
    var r, rest := JoinStep(a, parts[0]), parts[1..];
    if rest == [] {
      assert Join(a, parts) == r;
      JoinStepEndsWith(a, parts[0]);
    } else {
      assert Join(a, parts) == Join(r, rest);
      assert rest[|rest| - 1] == parts[|parts| - 1];
      JoinEndsWith(r, rest);
    }
  }

  /** One step of the join ends with the component it adds. */
  lemma JoinStepEndsWith(path: string, b: string)
    ensures EndsWith(JoinStep(path, b), b)
  {
    var r := JoinStep(path, b);
    if !(|b| > 0 && b[0] == '/') {
      var sep := if path == [] || path[|path| - 1] == '/' then "" else "/";
      assert r == (path + sep) + b;
    }
  }

  /** Joining a relative component keeps the path as a prefix and ends with the component. */
  lemma JoinRelative(a: string, b: string)
    requires |b| > 0 && b[0] != '/'
    ensures Join(a, [b]) == a + (if a == [] || a[|a| - 1] == '/' then "" else "/") + b
  {
    var sep := if a == [] || a[|a| - 1] == '/' then "" else "/";
    assert [b][1..] == [];
    assert Join(a, [b]) == JoinStep(a, b);
    if sep == "" {
      assert a + sep == a;
    } else {
      assert JoinStep(a, b) == a + "/" + b;
    }
  }

  /** Joining two components that neither start nor end with a slash puts one slash before each. */
  lemma JoinPlain(a: string, b: string, c: string)
    requires |a| > 0 && a[|a| - 1] != '/'
    requires |b| > 0 && b[0] != '/' && b[|b| - 1] != '/'
    requires |c| > 0 && c[0] != '/'
    ensures Join(a, [b, c]) == a + "/" + b + "/" + c
  {
    assert [b, c][1..] == [c];
    assert JoinStep(a, b) == a + "/" + b;
    JoinRelative(a + "/" + b, c);
    assert (a + "/" + b)[|a + "/" + b| - 1] == b[|b| - 1];
  }

  /** The index of the first `c` in `s`, or `|s|` when there is none. */
  function IndexOf(s: string, c: char): (i: nat)
    ensures i <= |s|
    ensures i < |s| ==> s[i] == c
    ensures forall k :: 0 <= k < i ==> s[k] != c
  {
    if s == [] then 0 else if s[0] == c then 0 else 1 + IndexOf(s[1..], c)
  }
}
