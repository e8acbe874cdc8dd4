/** The JavaScript string primitives the form and the PDF generator rely on:
    `String.prototype.trim`, the regular-expression classes `\s` and `\D`,
    and the two `replace` calls built on them. */
module Strings {

  /** ECMAScript WhiteSpace or LineTerminator: exactly the code points that
      `trim` strips and that the class `\s` matches. */
  predicate IsWhitespace(c: char) {
    var n := c as int;
    n == 0x09 || n == 0x0A || n == 0x0B || n == 0x0C || n == 0x0D
    || n == 0x20 || n == 0xA0 || n == 0x1680
    || (0x2000 <= n <= 0x200A)
    || n == 0x2028 || n == 0x2029 || n == 0x202F || n == 0x205F
    || n == 0x3000 || n == 0xFEFF
  }

  /** The class `\d`: the ASCII digits only. */
  predicate IsDigit(c: char) {
    '0' <= c <= '9'
  }

  ghost predicate AllWhitespace(s: string) {
    forall i :: 0 <= i < |s| ==> IsWhitespace(s[i])
  }

  ghost predicate NoWhitespace(s: string) {
    forall i :: 0 <= i < |s| ==> !IsWhitespace(s[i])
  }

  /** Drops the leading whitespace run. */
  function TrimStart(s: string): (r: string)
    ensures |r| <= |s|
    ensures forall i :: 0 <= i < |s| - |r| ==> IsWhitespace(s[i])
    ensures r != [] ==> !IsWhitespace(r[0])
  {
    if s != [] && IsWhitespace(s[0]) then TrimStart(s[1..]) else s
  }

  /** Drops the trailing whitespace run. */
  function TrimEnd(s: string): (r: string)
    ensures |r| <= |s|
    ensures forall i :: |r| <= i < |s| ==> IsWhitespace(s[i])
    ensures r != [] ==> !IsWhitespace(r[|r| - 1])
  {
    if s != [] && IsWhitespace(s[|s| - 1]) then TrimEnd(s[..|s| - 1]) else s
  }

  /** `s.trim()`: empty exactly when `s` is all whitespace, and otherwise
      neither starts nor ends with whitespace; TrimInfix shows it is the
      infix of `s` left once the outer whitespace runs are dropped. */
  function Trim(s: string): (r: string)
    ensures r == [] <==> AllWhitespace(s)
    ensures r != [] ==> !IsWhitespace(r[0]) && !IsWhitespace(r[|r| - 1])
    ensures |r| <= |s|
  {
    TrimBlank(s);
    TrimEnd(TrimStart(s))
  }

  /** What TrimStart keeps is a suffix of its input. */
  lemma {:induction false} TrimStartSuffix(s: string)
    ensures TrimStart(s) == s[|s| - |TrimStart(s)|..]
    decreases |s|
  {
    if s != [] && IsWhitespace(s[0]) {
      TrimStartSuffix(s[1..]);
      var r := TrimStart(s[1..]);
      assert s[1..][|s| - 1 - |r|..] == s[|s| - |r|..];
    }
  }

  /** What TrimEnd keeps is a prefix of its input. */
  lemma {:induction false} TrimEndPrefix(s: string)
    ensures TrimEnd(s) == s[..|TrimEnd(s)|]
    decreases |s|
  {
    if s != [] && IsWhitespace(s[|s| - 1]) {
      TrimEndPrefix(s[..|s| - 1]);
      var r := TrimEnd(s[..|s| - 1]);
      assert s[..|s| - 1][..|r|] == s[..|r|];
    }
  }

  /** `s.trim()` is an infix of `s` with only whitespace on either side. */
  lemma TrimInfix(s: string)
    ensures exists i ::
              && 0 <= i <= |s| - |Trim(s)| && Trim(s) == s[i..i + |Trim(s)|]
              && AllWhitespace(s[..i]) && AllWhitespace(s[i + |Trim(s)|..])
  {
    var t := TrimStart(s);
    var r := TrimEnd(t);
    TrimStartSuffix(s);
    TrimEndPrefix(t);
    var i := |s| - |t|;
    assert r == s[i..i + |r|];
    assert s[i + |r|..] == t[|r|..];
    assert AllWhitespace(s[..i]);
    assert AllWhitespace(s[i + |r|..]);
  }

  lemma TrimBlank(s: string)
    ensures var r := TrimEnd(TrimStart(s));
      && (r == [] <==> AllWhitespace(s))
      && (r != [] ==> !IsWhitespace(r[0]))
  {
    var t := TrimStart(s);
    var r := TrimEnd(t);
    if t != [] {
      TrimStartSuffix(s);
      assert t[0] == s[|s| - |t|];
      assert !IsWhitespace(t[0]);
    }
    if r != [] {
      TrimEndPrefix(t);
      assert r[0] == t[0];
    }
  }

  /** `s.replace(/\D/g, "")`: the digits of `s`, in order. */
  function Digits(s: string): (r: string)
    ensures |r| <= |s|
    ensures forall i :: 0 <= i < |r| ==> IsDigit(r[i])
  {
    if s == [] then []
    else (if IsDigit(s[0]) then [s[0]] else []) + Digits(s[1..])
  }

  /** Position of the first `c` in `s`, or `|s|` when there is none. */
  function IndexOf(s: string, c: char): (i: nat)
    ensures i <= |s|
    ensures i < |s| ==> s[i] == c
    ensures forall k :: 0 <= k < i ==> s[k] != c
  {
    if s == [] then 0
    else if s[0] == c then 0
    else 1 + IndexOf(s[1..], c)
  }

  /** `s.replace(/\s+/g, "_")`: every maximal whitespace run becomes one `_`. */
  function CollapseWhitespace(s: string): (r: string)
    ensures |r| <= |s|
    ensures NoWhitespace(r)
    decreases |s|
  {
    if s == [] then []
    else if IsWhitespace(s[0]) then "_" + CollapseWhitespace(TrimStart(s[1..]))
    else [s[0]] + CollapseWhitespace(s[1..])
  }

  // ---------------------------------------------------------------------
  // Digits: what it keeps and what it ignores

  /** Digits distributes over concatenation. */
  lemma {:induction false} DigitsAppend(a: string, b: string)
    ensures Digits(a + b) == Digits(a) + Digits(b)
    decreases |a|
  {
    if a != [] {
      var head := if IsDigit(a[0]) then [a[0]] else [];
      assert (a + b)[0] == a[0] && (a + b)[1..] == a[1..] + b;
      calc {
        Digits(a + b);
        head + Digits(a[1..] + b);
        { DigitsAppend(a[1..], b); }
        head + (Digits(a[1..]) + Digits(b));
        (head + Digits(a[1..])) + Digits(b);
      }
    } else {
      assert a + b == b;
    }
  }

  /** Every digit of `s` is kept as often as it occurs, nothing else is. */
  lemma {:induction false} DigitsCount(s: string)
    ensures forall c :: multiset(Digits(s))[c] == if IsDigit(c) then multiset(s)[c] else 0
    decreases |s|
  {
    if s != [] {
      DigitsCount(s[1..]);
      assert s == [s[0]] + s[1..];
    }
  }

  /** A formatting character (anything but a digit) inserted anywhere does
      not change the digits. */
  lemma IgnoresNonDigit(a: string, c: char, b: string)
    requires !IsDigit(c)
    ensures Digits(a + [c] + b) == Digits(a + b)
  {
    DigitsAppend(a + [c], b);
    DigitsAppend(a, [c]);
    DigitsAppend(a, b);
    assert Digits([c]) == [];
  }

  /** A string with a digit is not all whitespace. */
  lemma DigitsNotBlank(s: string)
    ensures Digits(s) != [] ==> !AllWhitespace(s)
  {
    if Digits(s) != [] {
      DigitsCount(s);
      var d := Digits(s)[0];
      assert d in multiset(Digits(s));
      assert d in multiset(s);
      assert d in s;
      var i :| 0 <= i < |s| && s[i] == d;
    }
  }

  // ---------------------------------------------------------------------
  // CollapseWhitespace: its decomposition and idempotence

  /** A whitespace-free string is left as it is. */
  lemma {:induction false} CollapseNoWhitespace(s: string)
    requires NoWhitespace(s)
    ensures CollapseWhitespace(s) == s
    decreases |s|
  {
    if s != [] {
      CollapseNoWhitespace(s[1..]);
    }
  }

  /** Collapsing twice is collapsing once. */
  lemma CollapseIdempotent(s: string)
    ensures CollapseWhitespace(CollapseWhitespace(s)) == CollapseWhitespace(s)
  {
    CollapseNoWhitespace(CollapseWhitespace(s));
  }

  /** A whitespace-free prefix is copied unchanged. */
  lemma {:induction false} CollapsePlainPrefix(a: string, b: string)
    requires NoWhitespace(a)
    ensures CollapseWhitespace(a + b) == a + CollapseWhitespace(b)
    decreases |a|
  {
    if a != [] {
      var s := a + b;
      assert s[0] == a[0] && !IsWhitespace(s[0]);
      assert s[1..] == a[1..] + b;
      calc {
        CollapseWhitespace(s);
        [a[0]] + CollapseWhitespace(a[1..] + b);
        { CollapsePlainPrefix(a[1..], b); }
        [a[0]] + (a[1..] + CollapseWhitespace(b));
        { assert [a[0]] + a[1..] == a; }
        a + CollapseWhitespace(b);
      }
    } else {
      assert a + b == b;
    }
  }

  /** A whole whitespace run in front of a non-whitespace character (or of
      the end) becomes a single `_`. */
  lemma CollapseRun(w: string, b: string)
    requires w != [] && AllWhitespace(w)
    requires b == [] || !IsWhitespace(b[0])
    ensures CollapseWhitespace(w + b) == "_" + CollapseWhitespace(b)
  {
    var s := w + b;
    assert s[0] == w[0] && IsWhitespace(s[0]);
    assert s[1..] == w[1..] + b;
    TrimStartRun(w[1..], b);
    assert CollapseWhitespace(s) == "_" + CollapseWhitespace(TrimStart(s[1..]));
  }

  lemma {:induction false} TrimStartRun(w: string, b: string)
    requires AllWhitespace(w)
    requires b == [] || !IsWhitespace(b[0])
    ensures TrimStart(w + b) == b
    decreases |w|
  {
    if w == [] {
      assert w + b == b;
    } else {
      assert (w + b)[1..] == w[1..] + b;
      TrimStartRun(w[1..], b);
    }
  }
}
