/** The JavaScript string operations the proxy and the contact validator
    rely on: `trim`, `split` on a one-character separator, `join` and
    `length` (which counts UTF-16 code units), with `IndexOf` as a
    specification helper that locates the first occurrence of a character. A Dafny `char` is a
    Unicode scalar value. */
module JsString {
  import opened Optional

  /** The characters `String.prototype.trim` removes and the regular
      expression class `\s` matches: the WhiteSpace and LineTerminator
      productions of ECMA-262 (sections 12.2 and 12.3), including every
      Unicode space separator. */
  predicate IsWhitespace(c: char) {
    var n := c as int;
    || n == 0x09 || n == 0x0A || n == 0x0B || n == 0x0C || n == 0x0D
    || n == 0x20 || n == 0xA0 || n == 0x1680 || (0x2000 <= n <= 0x200A)
    || n == 0x2028 || n == 0x2029 || n == 0x202F || n == 0x205F
    || n == 0x3000 || n == 0xFEFF
  }

  predicate IsBlank(s: string) {
    forall k :: 0 <= k < |s| ==> IsWhitespace(s[k])
  }

  /** Neither end of `s` is whitespace. */
  predicate IsTrimmed(s: string) {
    s == [] || (!IsWhitespace(s[0]) && !IsWhitespace(s[|s| - 1]))
  }

  lemma BlankConcat(a: string, b: string)
    requires IsBlank(a) && IsBlank(b)
    ensures IsBlank(a + b)
  {
    forall k | 0 <= k < |a + b|
      ensures IsWhitespace((a + b)[k])
    {
      if k >= |a| {
        assert (a + b)[k] == b[k - |a|];
      }
    }
  }

  /** `s` without its leading whitespace: a suffix of `s` whose removed
      prefix is blank and which does not itself start with whitespace. */
  function TrimStart(s: string): (r: string)
    ensures |r| <= |s| && r == s[|s| - |r|..]
    ensures IsBlank(s[..|s| - |r|])
    ensures r == [] || !IsWhitespace(r[0])
    decreases |s|
  {
    if |s| > 0 && IsWhitespace(s[0]) then
      var r := TrimStart(s[1..]);
      assert s[1..][|s| - 1 - |r|..] == s[|s| - |r|..];
      assert s[..|s| - |r|] == [s[0]] + s[1..][..|s| - 1 - |r|];
      BlankConcat([s[0]], s[1..][..|s| - 1 - |r|]);
      r
    else s
  }

  /** `s` without its trailing whitespace: a prefix of `s` whose removed
      suffix is blank and which does not itself end with whitespace. */
  function TrimEnd(s: string): (r: string)
    ensures |r| <= |s| && r == s[..|r|]
    ensures IsBlank(s[|r|..])
    ensures r == [] || !IsWhitespace(r[|r| - 1])
    decreases |s|
  {
    if |s| > 0 && IsWhitespace(s[|s| - 1]) then
      var r := TrimEnd(s[..|s| - 1]);
      assert s[..|s| - 1][..|r|] == s[..|r|];
      assert s[|r|..] == s[..|s| - 1][|r|..] + [s[|s| - 1]];
      BlankConcat(s[..|s| - 1][|r|..], [s[|s| - 1]]);
      r
    else s
  }

  /** What the two halves of trimming give together: `t` is `s` without
      its leading whitespace and `r` is `t` without its trailing
      whitespace, as `TrimStart` and `TrimEnd` promise them. */
  lemma TrimBothEnds(s: string, t: string, r: string)
    requires |t| <= |s| && t == s[|s| - |t|..] && IsBlank(s[..|s| - |t|])
    requires t == [] || !IsWhitespace(t[0])
    requires |r| <= |t| && r == t[..|r|] && IsBlank(t[|r|..])
    requires r == [] || !IsWhitespace(r[|r| - 1])
    ensures IsTrimmed(r)
    ensures r == [] <==> IsBlank(s)
  {
    if r == [] {
      assert t[|r|..] == t;
      BlankMargins(s, |s| - |t|);
    } else {
      FirstOfTrimmed(s, t, r, |s| - |t|);
    }
  }

  /** When trimming leaves something, its first character is the first
      non-whitespace character of `s`, so `s` is not blank. */
  lemma FirstOfTrimmed(s: string, t: string, r: string, p: nat)
    requires p <= |s| && t == s[p..] && t != [] && !IsWhitespace(t[0])
    requires r != [] && |r| <= |t| && r == t[..|r|]
    ensures !IsWhitespace(r[0]) && !IsBlank(s)
  {
    assert r[0] == t[0] == s[p];
  }

  /** `String.prototype.trim`: the result has no whitespace at either end,
      and it is empty exactly when `s` is all whitespace. */
  function Trim(s: string): (r: string)
    ensures IsTrimmed(r)
    ensures r == [] <==> IsBlank(s)
    ensures |r| <= |s|
  {
    var t := TrimStart(s);
    var r := TrimEnd(t);
    TrimBothEnds(s, t, r);
    r
  }

  /** The trimmed string is the slice of `s` between a blank prefix and a
      blank suffix. */
  lemma TrimSlice(s: string) returns (a: nat, b: nat)
    ensures a <= b <= |s|
    ensures Trim(s) == s[a..b]
    ensures IsBlank(s[..a]) && IsBlank(s[b..])
  {
    var t := TrimStart(s);
    var r := TrimEnd(t);
    a := |s| - |t|;
    b := a + |r|;
    assert Trim(s) == r == t[..|r|];
    assert t[..|r|] == s[a..b];
    assert t[|r|..] == s[b..];
  }

  lemma {:induction false} TrimStartUnique(s: string, a: nat)
    requires a <= |s| && IsBlank(s[..a])
    requires a == |s| || !IsWhitespace(s[a])
    ensures TrimStart(s) == s[a..]
    decreases a
  {
    if a > 0 {
      assert s[..a][0] == s[0];
      assert s[1..][..a - 1] == s[1..a];
      TrimStartUnique(s[1..], a - 1);
    }
  }

  lemma {:induction false} TrimEndUnique(s: string, b: nat)
    requires b <= |s| && IsBlank(s[b..])
    requires b == 0 || !IsWhitespace(s[b - 1])
    ensures TrimEnd(s) == s[..b]
    decreases |s| - b
  {
    if b < |s| {
      assert s[b..][|s| - 1 - b] == s[|s| - 1];
      var s' := s[..|s| - 1];
      assert s'[b..] == s[b..|s| - 1];
      assert s'[..b] == s[..b];
      TrimEndUnique(s', b);
    }
  }

  lemma BlankMargins(s: string, a: nat)
    requires a <= |s|
    requires IsBlank(s[..a]) && IsBlank(s[a..])
    ensures IsBlank(s)
  {
    forall k | 0 <= k < |s|
      ensures IsWhitespace(s[k])
    {
      if k < a {
        assert s[..a][k] == s[k];
      } else {
        assert s[a..][k - a] == s[k];
      }
    }
  }

  /** Conversely, cutting a blank prefix and a blank suffix off `s` so that
      no whitespace is left at either end always gives `Trim(s)`. */
  lemma TrimUnique(s: string, a: nat, b: nat)
    requires a <= b <= |s|
    requires IsBlank(s[..a]) && IsBlank(s[b..])
    requires IsTrimmed(s[a..b])
    ensures Trim(s) == s[a..b]
  {
    if a == b {
      BlankMargins(s, a);
      TrimOfBlank(s);
      assert s[a..b] == [];
    } else {
      TrimOfMargins(s, a, b);
    }
  }

  lemma TrimOfBlank(s: string)
    requires IsBlank(s)
    ensures Trim(s) == []
  {
  }

  /** `TrimUnique` when something is left between the margins. */
  lemma TrimOfMargins(s: string, a: nat, b: nat)
    requires a < b <= |s|
    requires IsBlank(s[..a]) && IsBlank(s[b..])
    requires !IsWhitespace(s[a]) && !IsWhitespace(s[b - 1])
    ensures Trim(s) == s[a..b]
  {
    TrimStartUnique(s, a);
    TrimEndOfSuffix(s, a, b);
    TrimIsBothEnds(s);
  }

  /** Trimming is trimming the start, then the end. */
  lemma TrimIsBothEnds(s: string)
    ensures Trim(s) == TrimEnd(TrimStart(s))
  {
  }

  /** The step of `TrimUnique` after the leading blanks are gone. */
  lemma TrimEndOfSuffix(s: string, a: nat, b: nat)
    requires a < b <= |s|
    requires IsBlank(s[b..])
    requires !IsWhitespace(s[b - 1])
    ensures TrimEnd(s[a..]) == s[a..b]
  {
    var t := s[a..];
    assert t[b - a..] == s[b..];
    TrimEndUnique(t, b - a);
  }

  /** Trimming leaves a string without whitespace at its ends as it is. */
  lemma TrimmedFixed(s: string)
    requires IsTrimmed(s)
    ensures Trim(s) == s
  {
    assert s[0..|s|] == s;
    TrimUnique(s, 0, |s|);
  }

  /** Trimming twice is trimming once. */
  lemma TrimIdempotent(s: string)
    ensures Trim(Trim(s)) == Trim(s)
  {
    TrimmedFixed(Trim(s));
  }

  /** Position of the first occurrence of `c`, as `indexOf` reports it
      (with `None` for JavaScript's -1). */
  function IndexOf(s: string, c: char): (r: Option<nat>)
    ensures r.None? <==> c !in s
    ensures r.Some? ==> r.value < |s| && s[r.value] == c && c !in s[..r.value]
    decreases |s|
  {
    if |s| == 0 then None
    else if s[0] == c then Some(0)
    else
      match IndexOf(s[1..], c)
      case None => assert s == [s[0]] + s[1..]; None
      case Some(i) => assert s[..i + 1] == [s[0]] + s[1..][..i]; Some(i + 1)
  }

  /** `s.split(sep)` for a one-character separator: the pieces between
      consecutive separators, at least one, none containing `sep`. */
  function Split(s: string, sep: char): (parts: seq<string>)
    ensures |parts| >= 1
    ensures forall k :: 0 <= k < |parts| ==> sep !in parts[k]
    decreases |s|
  {
    if |s| == 0 then [[]]
    else
      var rest := Split(s[1..], sep);
      if s[0] == sep then [[]] + rest
      else [[s[0]] + rest[0]] + rest[1..]
  }

  /** `parts.join(sep)`; the empty array joins to the empty string. */
  function Join(parts: seq<string>, sep: char): string
    decreases |parts|
  {
    if |parts| == 0 then []
    else if |parts| == 1 then parts[0]
    else parts[0] + [sep] + Join(parts[1..], sep)
  }

  /** Joining the pieces of a split restores the original string. */
  lemma {:induction false} JoinSplit(s: string, sep: char)
    ensures Join(Split(s, sep), sep) == s
    decreases |s|
  {
    if |s| > 0 {
      var rest := Split(s[1..], sep);
      var parts := Split(s, sep);
      JoinSplit(s[1..], sep);
      if s[0] == sep {
        assert parts[1..] == rest;
      } else {
        if |rest| > 1 {
          assert parts[1..] == rest[1..];
        }
      }
    }
  }

  lemma {:induction false} SplitNoSeparator(a: string, sep: char)
    requires sep !in a
    ensures Split(a, sep) == [a]
    decreases |a|
  {
    if |a| > 0 {
      SplitNoSeparator(a[1..], sep);
      assert a == [a[0]] + a[1..];
    }
  }

  /** Splitting at a separator that follows a separator-free prefix yields
      that prefix followed by the pieces of the remainder. */
  lemma {:induction false} SplitAtSeparator(a: string, sep: char, t: string)
    requires sep !in a
    ensures Split(a + [sep] + t, sep) == [a] + Split(t, sep)
    decreases |a|
  {
    var s := a + [sep] + t;
    if |a| == 0 {
      assert s[1..] == t;
    } else {
      assert s[1..] == a[1..] + [sep] + t;
      SplitAtSeparator(a[1..], sep, t);
      assert a == [a[0]] + a[1..];
    }
  }

  /** Splitting a joined sequence of separator-free pieces gives the pieces back. */
  lemma {:induction false} SplitJoin(parts: seq<string>, sep: char)
    requires |parts| >= 1
    requires forall k :: 0 <= k < |parts| ==> sep !in parts[k]
    ensures Split(Join(parts, sep), sep) == parts
    decreases |parts|
  {
    if |parts| == 1 {
      SplitNoSeparator(parts[0], sep);
    } else {
      SplitJoin(parts[1..], sep);
      SplitAtSeparator(parts[0], sep, Join(parts[1..], sep));
    }
  }

  /** The first piece of a split is the text before the first separator, and
      the remaining pieces are the split of the text after it. */
  lemma SplitAtFirst(s: string, sep: char)
    ensures IndexOf(s, sep).None? ==> Split(s, sep) == [s]
    ensures IndexOf(s, sep).Some? ==>
      var i := IndexOf(s, sep).value;
      Split(s, sep) == [s[..i]] + Split(s[i + 1..], sep)
  {
    match IndexOf(s, sep)
    case None =>
      SplitNoSeparator(s, sep);
    case Some(i) =>
      assert s == s[..i] + [sep] + s[i + 1..];
      SplitAtSeparator(s[..i], sep, s[i + 1..]);
  }

  /** A separator-free string joined with the rest of a string by a separator
      has that string as its first piece and the rest's pieces after it. */
  lemma SplitHead(a: string, sep: char, t: string)
    requires sep !in a
    ensures Split(a + [sep] + t, sep)[0] == a
    ensures Split(a + [sep] + t, sep)[1..] == Split(t, sep)
  {
    SplitAtSeparator(a, sep, t);
  }

  /** `s.length`: the number of UTF-16 code units, where a code point above
      U+FFFF takes two. */
  function Utf16Length(s: string): (n: nat)
    ensures |s| <= n <= 2 * |s|
    ensures (forall k :: 0 <= k < |s| ==> s[k] as int <= 0xFFFF) ==> n == |s|
    decreases |s|
  {
    if |s| == 0 then 0
    else (if s[0] as int > 0xFFFF then 2 else 1) + Utf16Length(s[1..])
  }
}
