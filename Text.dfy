/**
 * The small pieces of Python string handling the core relies on:
 * `str.strip()` and `str.strip(chars)`, `str.splitlines()`, `sep.join(...)`
 * and the decimal rendering of an integer in an f-string.
 */
module Text {

  /** The ASCII characters `str.strip()` removes when called without an argument. */
  const Whitespace: set<char> := {' ', '\t', '\n', '\r', '\U{0B}', '\U{0C}', '\U{1C}', '\U{1D}', '\U{1E}', '\U{1F}'}

  /** `s.lstrip(cs)`: drop the longest prefix made of characters in `cs`. */
  function TrimLeft(s: string, cs: set<char>): (r: string)
    ensures |r| <= |s| && r == s[|s| - |r|..]
    ensures forall i :: 0 <= i < |s| - |r| ==> s[i] in cs
    ensures r != [] ==> r[0] !in cs
    decreases |s|
  {
    if s != [] && s[0] in cs then TrimLeft(s[1..], cs) else s
  }

  /** `s.rstrip(cs)`: drop the longest suffix made of characters in `cs`. */
  function TrimRight(s: string, cs: set<char>): (r: string)
    ensures |r| <= |s| && r == s[..|r|]
    ensures forall i :: |r| <= i < |s| ==> s[i] in cs
    ensures r != [] ==> r[|r| - 1] !in cs
    decreases |s|
  {
    if s != [] && s[|s| - 1] in cs then TrimRight(s[..|s| - 1], cs) else s
  }

  /**
   * `s.strip(cs)`: the result is a contiguous piece of `s`, everything cut off
   * on either side is in `cs`, and the result neither starts nor ends with a
   * character of `cs`.
   */
  function Strip(s: string, cs: set<char>): (r: string)
    ensures var i := |s| - |TrimLeft(s, cs)|;
      && i + |r| <= |s| && r == s[i..i + |r|]
      && (forall j :: 0 <= j < i ==> s[j] in cs)
      && (forall j :: i + |r| <= j < |s| ==> s[j] in cs)
    ensures r != [] ==> r[0] !in cs && r[|r| - 1] !in cs
  {
    TrimRight(TrimLeft(s, cs), cs)
  }

  /** `Strip` is determined by its contract: cutting a `cs`-only prefix and suffix off a clean core gives the core. */
  lemma StripUnique(x: string, core: string, y: string, cs: set<char>)
    requires forall j :: 0 <= j < |x| ==> x[j] in cs
    requires forall j :: 0 <= j < |y| ==> y[j] in cs
    requires core != [] ==> core[0] !in cs && core[|core| - 1] !in cs
    ensures Strip(x + core + y, cs) == core
  {
    if core == [] {
      var s := x + core + y;
      assert s == s + [];
      assert forall j :: 0 <= j < |s| ==> s[j] in cs by {
        forall j | 0 <= j < |s| ensures s[j] in cs {
          if j >= |x| { assert s[j] == y[j - |x|]; }
        }
      }
      TrimLeftUnique(s, [], cs);
    } else {
      assert x + core + y == x + (core + y);
      TrimLeftUnique(x, core + y, cs);
      TrimRightUnique(core, y, cs);
    }
  }

  lemma {:induction false} TrimLeftUnique(x: string, t: string, cs: set<char>)
    requires forall j :: 0 <= j < |x| ==> x[j] in cs
    requires t != [] ==> t[0] !in cs
    ensures TrimLeft(x + t, cs) == t
    decreases |x|
  {
    if x == [] {
      assert x + t == t;
    } else {
      assert (x + t)[1..] == x[1..] + t;
      TrimLeftUnique(x[1..], t, cs);
    }
  }

  lemma {:induction false} TrimRightUnique(t: string, y: string, cs: set<char>)
    requires forall j :: 0 <= j < |y| ==> y[j] in cs
    requires t != [] ==> t[|t| - 1] !in cs
    ensures TrimRight(t + y, cs) == t
    decreases |y|
  {
    if y == [] {
      assert t + y == t;
    } else {
      assert (t + y)[..|t + y| - 1] == t + y[..|y| - 1];
      TrimRightUnique(t, y[..|y| - 1], cs);
    }
  }

  /** The pieces of `s` between occurrences of `sep`; there is always one more piece than separators. */
  function Split(s: string, sep: char): (parts: seq<string>)
    ensures |parts| >= 1
    ensures forall i :: 0 <= i < |parts| ==> sep !in parts[i]
  {
    if s == [] then [[]]
    else
      var rest := Split(s[1..], sep);
      if s[0] == sep then [[]] + rest
      else [[s[0]] + rest[0]] + rest[1..]
  }

  /** `sep.join(parts)` for a one-character separator. */
  function Join(sep: char, parts: seq<string>): (s: string)
  {
    if |parts| == 0 then []
    else if |parts| == 1 then parts[0]
    else parts[0] + [sep] + Join(sep, parts[1..])
  }

  /** Joining the pieces back with the separator restores the string. */
  lemma {:induction false} JoinSplit(s: string, sep: char)
    ensures Join(sep, Split(s, sep)) == s
  {
    if s != [] {
      var rest := Split(s[1..], sep);
      JoinSplit(s[1..], sep);
      if s[0] == sep {
        assert Join(sep, [[]] + rest) == [] + [sep] + Join(sep, rest);
        assert s == [sep] + s[1..];
      } else if |rest| == 1 {
        assert Split(s, sep) == [[s[0]] + rest[0]];
        assert s == [s[0]] + s[1..];
      } else {
        var parts := [[s[0]] + rest[0]] + rest[1..];
        assert parts[1..] == rest[1..];
        assert Join(sep, parts) == [s[0]] + (rest[0] + [sep] + Join(sep, rest[1..]));
        assert s == [s[0]] + s[1..];
      }
    }
  }

  /** Splitting a join of separator-free pieces gives the pieces back. */
  lemma {:induction false} SplitJoin(parts: seq<string>, sep: char)
    requires |parts| >= 1
    requires forall i :: 0 <= i < |parts| ==> sep !in parts[i]
    ensures Split(Join(sep, parts), sep) == parts
  {
    if |parts| == 1 {
      SplitFree(parts[0], sep);
    } else {
      SplitJoin(parts[1..], sep);
      SplitAfter(parts[0], Join(sep, parts[1..]), sep);
      assert [parts[0]] + parts[1..] == parts;
    }
  }

  lemma {:induction false} SplitFree(p: string, sep: char)
    requires sep !in p
    ensures Split(p, sep) == [p]
  {
    if p != [] {
      SplitFree(p[1..], sep);
      assert p == [p[0]] + p[1..];
    }
  }

  lemma {:induction false} SplitAfter(p: string, t: string, sep: char)
    requires sep !in p
    ensures Split(p + [sep] + t, sep) == [p] + Split(t, sep)
  {
    var s := p + [sep] + t;
    if p == [] {
      assert s == [sep] + t;
      assert s[1..] == t;
    } else {
      assert s[1..] == p[1..] + [sep] + t;
      SplitAfter(p[1..], t, sep);
      assert [p[0]] + p[1..] == p;
    }
  }

  /**
   * `s.splitlines()` with `'\n'` as the only line break: like `Split`, except
   * that a final line break does not start an empty last line, and the empty
   * string has no lines.
   */
  function SplitLines(s: string): (lines: seq<string>)
    ensures lines == [] <==> s == []
    ensures forall i :: 0 <= i < |lines| ==> '\n' !in lines[i]
    ensures s != [] ==> Join('\n', lines) + (if s[|s| - 1] == '\n' then "\n" else "") == s
  {
    if s == [] then []
    else if s[|s| - 1] == '\n' then
      JoinSplit(s[..|s| - 1], '\n');
      assert s[..|s| - 1] + "\n" == s;
      Split(s[..|s| - 1], '\n')
    else
      JoinSplit(s, '\n');
      assert s + "" == s;
      Split(s, '\n')
  }

  /** The decimal digit character of `d`. */
  function Digit(d: nat): (c: char)
    requires d < 10
  {
    "0123456789"[d]
  }

  function DigitValue(c: char): (d: nat)
  {
    if '0' <= c <= '9' then (c - '0') as nat else 0
  }

  /** `str(n)` / `f"{n}"` for a non-negative integer: decimal, no leading zero. */
  function DecimalString(n: nat): (s: string)
    ensures s != []
    ensures forall i :: 0 <= i < |s| ==> '0' <= s[i] <= '9'
    ensures s[0] == '0' ==> n == 0 && s == "0"
  {
    if n < 10 then [Digit(n)] else DecimalString(n / 10) + [Digit(n % 10)]
  }

  /** The value of a string of decimal digits (`int(s)` on digits). */
  function ParseDecimal(s: string): (n: nat)
  {
    if s == [] then 0 else 10 * ParseDecimal(s[..|s| - 1]) + DigitValue(s[|s| - 1])
  }

  /** Reading the rendering back gives the number, so distinct numbers render differently. */
  lemma {:induction false} ParseDecimalString(n: nat)
    ensures ParseDecimal(DecimalString(n)) == n
  {
    var s := DecimalString(n);
    if n < 10 {
      assert s[..0] == [];
    } else {
      assert s[..|s| - 1] == DecimalString(n / 10);
      ParseDecimalString(n / 10);
    }
  }
}
