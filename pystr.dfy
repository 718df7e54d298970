/** The parts of Python's `str` and `os.path` behaviour that the parsers and
    the file-name helpers rely on: `str.isspace`, `str.strip()`, `str.split()`,
    the substring test `t in s`, `int(token)`, `str(n)` for an `int`,
    `str.split(sep)` with a one-character separator, `os.path.basename` and
    the root part of `os.path.splitext` (POSIX paths). */
module PyStr {
  import opened Wrappers

  // ---------------------------------------------------------------------
  // Whitespace, strip, split

  /** `c.isspace()`: the characters Python treats as whitespace. */
  predicate IsSpace(c: char) {
    var n := c as int;
    (9 <= n <= 13) || (28 <= n <= 32) || n == 0x85 || n == 0xA0 || n == 0x1680 ||
    (0x2000 <= n <= 0x200A) || n == 0x2028 || n == 0x2029 || n == 0x202F ||
    n == 0x205F || n == 0x3000
  }

  predicate NoSpace(s: string) {
    forall i :: 0 <= i < |s| ==> !IsSpace(s[i])
  }

  predicate AllSpace(s: string) {
    forall i :: 0 <= i < |s| ==> IsSpace(s[i])
  }

  /** `s.lstrip()` */
  function StripLeft(s: string): string {
    if s == [] || !IsSpace(s[0]) then s else StripLeft(s[1..])
  }

  /** `s.rstrip()` */
  function StripRight(s: string): string {
    if s == [] || !IsSpace(s[|s| - 1]) then s else StripRight(s[..|s| - 1])
  }

  /** `s.strip()` */
  function Strip(s: string): string {
    StripRight(StripLeft(s))
  }

  /** `lstrip()` removes a whitespace prefix, and only that. */
  lemma {:induction false} StripLeftFacts(s: string)
    ensures |StripLeft(s)| <= |s|
    ensures StripLeft(s) == s[|s| - |StripLeft(s)|..]
    ensures StripLeft(s) == [] || !IsSpace(StripLeft(s)[0])
    ensures AllSpace(s[..|s| - |StripLeft(s)|])
  {
    if s != [] && IsSpace(s[0]) {
      var r := StripLeft(s[1..]);
      StripLeftFacts(s[1..]);
      assert s[1..][..|s| - 1 - |r|] == s[1..|s| - |r|];
    }
  }

  /** `rstrip()` removes a whitespace suffix, and only that. */
  lemma {:induction false} StripRightFacts(s: string)
    ensures |StripRight(s)| <= |s|
    ensures StripRight(s) == s[..|StripRight(s)|]
    ensures StripRight(s) == [] || !IsSpace(StripRight(s)[|StripRight(s)| - 1])
    ensures AllSpace(s[|StripRight(s)|..])
  {
    if s != [] && IsSpace(s[|s| - 1]) {
      var r := StripRight(s[..|s| - 1]);
      StripRightFacts(s[..|s| - 1]);
      assert s[..|s| - 1][..|r|] == s[..|r|];
      assert s[|r|..] == s[..|s| - 1][|r|..] + [s[|s| - 1]];
    }
  }

  /** Nothing is left of a string by `strip()` exactly when it is whitespace
      only, and a string without whitespace is left as it is. */
  lemma {:induction false} StripFacts(s: string)
    ensures Strip(s) == [] <==> AllSpace(s)
    ensures NoSpace(s) ==> Strip(s) == s
  {
    var l := StripLeft(s);
    var r := StripRight(l);
    StripLeftFacts(s);
    StripRightFacts(l);
    if r == [] {
      assert l[|r|..] == l;
      assert s[..|s| - |l|] == s;
    }
  }

  /** `not s.strip()`: the line is empty or whitespace only. */
  predicate IsBlank(s: string) {
    Strip(s) == []
  }

  /** Length of the run of non-whitespace characters that starts `s`. */
  function TokenLength(s: string): (n: nat)
    ensures n <= |s|
    ensures s != [] && !IsSpace(s[0]) ==> n > 0
  {
    if s == [] || IsSpace(s[0]) then 0 else TokenLength(s[1..]) + 1
  }

  /** The run ends at whitespace or at the end, and holds none. */
  lemma {:induction false} TokenLengthFacts(s: string)
    ensures NoSpace(s[..TokenLength(s)])
    ensures TokenLength(s) == |s| || IsSpace(s[TokenLength(s)])
  {
    if s != [] && !IsSpace(s[0]) {
      var n := TokenLength(s[1..]);
      TokenLengthFacts(s[1..]);
      assert s[..n + 1] == [s[0]] + s[1..][..n];
    }
  }

  /** `s.split()`: the maximal runs of non-whitespace characters, in order. */
  function Split(s: string): seq<string>
    decreases |s|
  {
    if s == [] then []
    else if IsSpace(s[0]) then Split(s[1..])
    else
      var n := TokenLength(s);
      [s[..n]] + Split(s[n..])
  }

  /** Every token is non-empty and holds no whitespace. */
  lemma {:induction false} SplitTokens(s: string)
    ensures forall k :: 0 <= k < |Split(s)| ==> Split(s)[k] != [] && NoSpace(Split(s)[k])
    decreases |s|
  {
    if s == [] {
    } else if IsSpace(s[0]) {
      SplitTokens(s[1..]);
    } else {
      var n := TokenLength(s);
      TokenLengthFacts(s);
      SplitTokens(s[n..]);
    }
  }

  /** Joining tokens with one blank between them, the inverse of `Split`. */
  function JoinSpaced(tokens: seq<string>): string {
    if tokens == [] then []
    else if |tokens| == 1 then tokens[0]
    else tokens[0] + " " + JoinSpaced(tokens[1..])
  }

  lemma {:induction false} SplitAllSpace(s: string)
    requires AllSpace(s)
    ensures Split(s) == []
    decreases |s|
  {
    if s != [] {
      SplitAllSpace(s[1..]);
    }
  }

  /** A blank line splits into no tokens at all. */
  lemma {:induction false} BlankSplitsToNothing(s: string)
    requires IsBlank(s)
    ensures Split(s) == []
  {
    StripFacts(s);
    SplitAllSpace(s);
  }

  lemma {:induction false} SplitSpacePrefix(w: string, s: string)
    requires AllSpace(w)
    ensures Split(w + s) == Split(s)
    decreases |w|
  {
    if w != [] {
      assert (w + s)[0] == w[0] && IsSpace(w[0]);
      assert (w + s)[1..] == w[1..] + s;
      assert Split(w + s) == Split(w[1..] + s);
      SplitSpacePrefix(w[1..], s);
    } else {
      assert w + s == s;
    }
  }

  /** A token followed by whitespace (or nothing) is split off whole. */
  lemma {:induction false} SplitToken(t: string, rest: string)
    requires t != [] && NoSpace(t)
    requires rest == [] || IsSpace(rest[0])
    ensures Split(t + rest) == [t] + Split(rest)
  {
    var s := t + rest;
    TokenLengthOf(t, rest);
    assert s[0] == t[0] && !IsSpace(t[0]);
    assert s[..|t|] == t && s[|t|..] == rest;
  }

  lemma {:induction false} TokenLengthOf(t: string, rest: string)
    requires NoSpace(t)
    requires rest == [] || IsSpace(rest[0])
    ensures TokenLength(t + rest) == |t|
    decreases |t|
  {
    if t != [] {
      assert (t + rest)[1..] == t[1..] + rest;
      TokenLengthOf(t[1..], rest);
    }
  }

  /** Round trip: splitting tokens joined by blanks gives the tokens back. */
  lemma {:induction false} SplitJoinSpaced(tokens: seq<string>)
    requires forall k :: 0 <= k < |tokens| ==> tokens[k] != [] && NoSpace(tokens[k])
    ensures Split(JoinSpaced(tokens)) == tokens
  {
    if tokens == [] {
    } else if |tokens| == 1 {
      SplitToken(tokens[0], []);
      assert tokens[0] + [] == tokens[0];
    } else {
      var rest := JoinSpaced(tokens[1..]);
      assert tokens[0] + " " + rest == tokens[0] + (" " + rest);
      SplitToken(tokens[0], " " + rest);
      assert AllSpace(" ");
      SplitSpacePrefix(" ", rest);
      SplitJoinSpaced(tokens[1..]);
    }
  }

  // ---------------------------------------------------------------------
  // Substring test

  predicate OccursAt(s: string, t: string, i: int) {
    0 <= i && i + |t| <= |s| && s[i..i + |t|] == t
  }

  /** `t in s` for two strings. */
  predicate Contains(s: string, t: string) {
    exists i :: 0 <= i <= |s| - |t| && OccursAt(s, t, i)
  }

  lemma {:induction false} ContainsMiddle(a: string, t: string, b: string)
    ensures Contains(a + t + b, t)
  {
    assert (a + t + b)[|a|..|a| + |t|] == t;
    assert OccursAt(a + t + b, t, |a|);
  }

  /** `in` is transitive: a substring of a substring is a substring. */
  lemma {:induction false} ContainsTransitive(s: string, t: string, u: string)
    requires Contains(s, t) && Contains(t, u)
    ensures Contains(s, u)
  {
    var i :| 0 <= i <= |s| - |t| && OccursAt(s, t, i);
    var j :| 0 <= j <= |t| - |u| && OccursAt(t, u, j);
    assert forall m :: 0 <= m < |u| ==> s[i + j + m] == t[j + m] == u[m];
    assert s[i + j..i + j + |u|] == u;
    assert OccursAt(s, u, i + j);
  }

  lemma {:induction false} ContainsInfix(s: string, t: string, u: string)
    requires Contains(t, u)
    ensures Contains(s + t, u) && Contains(t + s, u)
  {
    var i :| 0 <= i <= |t| - |u| && OccursAt(t, u, i);
    assert (s + t)[|s| + i..|s| + i + |u|] == t[i..i + |u|];
    assert OccursAt(s + t, u, |s| + i);
    assert (t + s)[i..i + |u|] == t[i..i + |u|];
    assert OccursAt(t + s, u, i);
  }

  // ---------------------------------------------------------------------
  // int(token) and str(n)

  predicate IsDigit(c: char) {
    '0' <= c <= '9'
  }

  /** The digits of an integer literal as `int()` accepts them: decimal
      digits, with single underscores allowed between two digits. */
  predicate IsDigitString(s: string) {
    |s| > 0 && IsDigit(s[0]) && IsDigit(s[|s| - 1]) &&
    (forall i :: 0 <= i < |s| ==> IsDigit(s[i]) || s[i] == '_') &&
    (forall i :: 0 <= i < |s| - 1 ==> s[i] == '_' ==> s[i + 1] != '_')
  }

  /** The value of a digit string, underscores ignored. */
  function DigitsValue(s: string): (v: nat)
    requires forall i :: 0 <= i < |s| ==> IsDigit(s[i]) || s[i] == '_'
  {
    if s == [] then 0
    else if s[|s| - 1] == '_' then DigitsValue(s[..|s| - 1])
    else
      assert IsDigit(s[|s| - 1]);
      DigitsValue(s[..|s| - 1]) * 10 + (s[|s| - 1] as int - '0' as int)
  }

  /** `int(token)` on a token produced by `split()`: an optional sign, then
      the digits; anything else is a `ValueError`, here `None`. (`int()` also
      ignores surrounding whitespace, which such a token never has.) */
  function ParseInt(t: string): (r: Option<int>)
  {
    if |t| > 0 && (t[0] == '+' || t[0] == '-') then
      if IsDigitString(t[1..]) then
        var v: int := DigitsValue(t[1..]);
        Some(if t[0] == '-' then -v else v)
      else None
    else if IsDigitString(t) then Some(DigitsValue(t))
    else None
  }

  function DigitChar(d: nat): (c: char)
    requires d < 10
    ensures IsDigit(c) && c as int - '0' as int == d
  {
    (('0' as int) + d) as char
  }

  /** `str(n)` for a non-negative `int`: its decimal digits, no leading zeros. */
  function NatToString(n: nat): (s: string)
    ensures |s| > 0
    ensures forall i :: 0 <= i < |s| ==> IsDigit(s[i])
    decreases n
  {
    if n < 10 then [DigitChar(n)] else NatToString(n / 10) + [DigitChar(n % 10)]
  }

  /** `str(n)` for any `int`. */
  function IntToString(n: int): (s: string)
    ensures |s| > 0
  {
    if n < 0 then "-" + NatToString(-n) else NatToString(n)
  }

  /** `str(n)` is made of digits and a leading minus sign, nothing else. */
  lemma {:induction false} IntToStringChars(n: int)
    ensures forall i :: 0 <= i < |IntToString(n)| ==>
              IsDigit(IntToString(n)[i]) || (i == 0 && IntToString(n)[i] == '-')
    ensures NoSpace(IntToString(n))
  {
  }

  /** `str(n)` contains no character other than digits and `-`. */
  lemma {:induction false} IntToStringExcludes(n: int, c: char)
    requires !IsDigit(c) && c != '-'
    ensures c !in IntToString(n)
  {
    IntToStringChars(n);
  }

  lemma {:induction false} NatToStringValue(n: nat)
    ensures IsDigitString(NatToString(n))
    ensures DigitsValue(NatToString(n)) == n
    decreases n
  {
    var s := NatToString(n);
    if n >= 10 {
      NatToStringValue(n / 10);
      assert s[..|s| - 1] == NatToString(n / 10);
    }
  }

  /** Round trip: `int(str(n)) == n` for every integer. */
  lemma {:induction false} ParseIntToString(n: int)
    ensures ParseInt(IntToString(n)) == Some(n)
  {
    var s := IntToString(n);
    NatToStringValue(if n < 0 then -n else n);
    if n < 0 {
      assert s[1..] == NatToString(-n);
    }
  }

  /** Distinct integers render as distinct strings. */
  lemma {:induction false} IntToStringInjective(m: int, n: int)
    requires IntToString(m) == IntToString(n)
    ensures m == n
  {
    ParseIntToString(m);
    ParseIntToString(n);
  }

  // ---------------------------------------------------------------------
  // str.split(sep) with a one-character separator

  /** `s.split(sep)`: the fields between separators, empty ones kept; never
      an empty list. */
  function SplitOn(s: string, sep: char): (r: seq<string>)
    ensures |r| >= 1
    ensures forall k :: 0 <= k < |r| ==> sep !in r[k]
  {
    if s == [] then [[]]
    else if s[0] == sep then [[]] + SplitOn(s[1..], sep)
    else
      var rest := SplitOn(s[1..], sep);
      [[s[0]] + rest[0]] + rest[1..]
  }

  /** Joining fields with a separator, the inverse of `SplitOn`. */
  function JoinOn(fields: seq<string>, sep: char): string
    requires |fields| >= 1
  {
    if |fields| == 1 then fields[0] else fields[0] + [sep] + JoinOn(fields[1..], sep)
  }

  /** Seven fields joined: each field, then the separator, then the join
      of the rest. */
  lemma {:induction false} JoinOnSeven(f: seq<string>, sep: char)
    requires |f| == 7
    ensures JoinOn(f, sep) ==
      f[0] + ([sep] + (f[1] + ([sep] + (f[2] + ([sep] + (f[3] + ([sep] +
      (f[4] + ([sep] + (f[5] + ([sep] + f[6])))))))))))
  {
    JoinOnCons(f, sep);
    JoinOnCons(f[1..], sep);
    assert f[1..][1..] == f[2..];
    JoinOnCons(f[2..], sep);
    assert f[2..][1..] == f[3..];
    JoinOnCons(f[3..], sep);
    assert f[3..][1..] == f[4..];
    JoinOnCons(f[4..], sep);
    assert f[4..][1..] == f[5..];
    JoinOnCons(f[5..], sep);
    assert f[5..][1..] == f[6..];
  }

  lemma {:induction false} JoinOnCons(fields: seq<string>, sep: char)
    requires |fields| >= 2
    ensures JoinOn(fields, sep) == fields[0] + ([sep] + JoinOn(fields[1..], sep))
  {
    assert fields[0] + [sep] + JoinOn(fields[1..], sep) ==
           fields[0] + ([sep] + JoinOn(fields[1..], sep));
  }

  lemma {:induction false} SplitOnField(a: string, sep: char, b: string)
    requires sep !in a
    ensures SplitOn(a + [sep] + b, sep) == [a] + SplitOn(b, sep)
    decreases |a|
  {
    var s := a + [sep] + b;
    if a == [] {
      assert s[1..] == b;
    } else {
      assert s[1..] == a[1..] + [sep] + b;
      SplitOnField(a[1..], sep, b);
      assert [s[0]] + a[1..] == a;
    }
  }

  lemma {:induction false} SplitOnNoSep(a: string, sep: char)
    requires sep !in a
    ensures SplitOn(a, sep) == [a]
    decreases |a|
  {
    if a != [] {
      SplitOnNoSep(a[1..], sep);
      assert [a[0]] + a[1..] == a;
    }
  }

  /** Round trip: splitting joined fields gives the fields back. */
  lemma {:induction false} SplitOnJoinOn(fields: seq<string>, sep: char)
    requires |fields| >= 1
    requires forall k :: 0 <= k < |fields| ==> sep !in fields[k]
    ensures SplitOn(JoinOn(fields, sep), sep) == fields
  {
    if |fields| == 1 {
      SplitOnNoSep(fields[0], sep);
    } else {
      SplitOnField(fields[0], sep, JoinOn(fields[1..], sep));
      SplitOnJoinOn(fields[1..], sep);
    }
  }

  /** A character that is neither the separator nor in any field is not in
      the joined string. */
  lemma {:induction false} JoinOnExcludes(fields: seq<string>, sep: char, c: char)
    requires |fields| >= 1 && c != sep
    requires forall k :: 0 <= k < |fields| ==> c !in fields[k]
    ensures c !in JoinOn(fields, sep)
  {
    if |fields| > 1 {
      JoinOnExcludes(fields[1..], sep, c);
      assert c !in fields[0] + [sep];
    }
  }

  /** Every field occurs in the joined string. */
  lemma {:induction false} JoinOnContainsField(fields: seq<string>, sep: char, k: nat)
    requires k < |fields|
    ensures Contains(JoinOn(fields, sep), fields[k])
  {
    if |fields| == 1 {
      ContainsMiddle([], fields[0], []);
      assert [] + fields[0] + [] == fields[0];
    } else if k == 0 {
      ContainsMiddle([], fields[0], [sep] + JoinOn(fields[1..], sep));
      assert [] + fields[0] + ([sep] + JoinOn(fields[1..], sep)) == JoinOn(fields, sep);
    } else {
      var rest := JoinOn(fields[1..], sep);
      assert fields[1..][k - 1] == fields[k];
      JoinOnContainsField(fields[1..], sep, k - 1);
      ContainsInfix(fields[0] + [sep], rest, fields[k]);
      assert JoinOn(fields, sep) == (fields[0] + [sep]) + rest;
    }
  }

  // ---------------------------------------------------------------------
  // os.path.basename and os.path.splitext

  /** Index of the last occurrence of `c` in `s`, if any. */
  function LastIndexOf(s: string, c: char): (r: Option<nat>)
    ensures r.None? ==> c !in s
    ensures r.Some? ==> r.value < |s| && s[r.value] == c && c !in s[r.value + 1..]
  {
    if s == [] then None
    else if s[|s| - 1] == c then Some(|s| - 1)
    else
      var r := LastIndexOf(s[..|s| - 1], c);
      assert s == s[..|s| - 1] + [s[|s| - 1]];
      r
  }

  /** `os.path.basename(p)`: what follows the last `/`. */
  function Basename(p: string): (r: string)
    ensures '/' !in r
    ensures |r| <= |p| && r == p[|p| - |r|..]
  {
    match LastIndexOf(p, '/')
    case None => p
    case Some(i) => p[i + 1..]
  }

  /** `os.path.splitext(p)[0]`: `p` without its last extension. A dot counts
      only after the last `/` and when some character other than a dot
      precedes it within the file name (so `.bashrc` keeps its name). */
  function SplitExtRoot(p: string): (r: string)
    ensures |r| <= |p| && r == p[..|r|]
  {
    var start := match LastIndexOf(p, '/') case None => 0 case Some(i) => i + 1;
    match LastIndexOf(p, '.')
    case None => p
    case Some(d) =>
      if start <= d && exists k :: start <= k < d && p[k] != '.' then p[..d] else p
  }

  lemma {:induction false} BasenameOf(dir: string, name: string)
    requires '/' !in name
    ensures Basename(dir + "/" + name) == name
  {
    var p := dir + "/" + name;
    assert p[|dir|] == '/';
    assert p[|dir| + 1..] == name;
  }

  lemma {:induction false} BasenameNoSlash(name: string)
    requires '/' !in name
    ensures Basename(name) == name
  {
  }

  /** The root of `stem.ext` is `stem` whenever the extension has no dot and
      the stem is not made of dots only. */
  lemma {:induction false} SplitExtRootOf(stem: string, ext: string)
    requires '/' !in stem && '/' !in ext && '.' !in ext
    requires exists k :: 0 <= k < |stem| && stem[k] != '.'
    ensures SplitExtRoot(stem + "." + ext) == stem
  {
    var p := stem + "." + ext;
    assert p[|stem|] == '.';
    assert p[|stem| + 1..] == ext;
    assert '/' !in p;
    var k :| 0 <= k < |stem| && stem[k] != '.';
    assert p[k] == stem[k];
    assert p[..|stem|] == stem;
  }

  /** Taking a whole sequence gives it back. */
  lemma {:induction false} TakeAll<T>(s: seq<T>)
    ensures s[..|s|] == s
  {
  }
}
