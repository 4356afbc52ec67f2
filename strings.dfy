/** The few JavaScript string operations the handlers rely on. */
module Strings {
  import opened Wrappers

  /** The characters `String.prototype.trim` removes: the WhiteSpace and
      LineTerminator code points of ECMAScript (tab, line feed, vertical tab,
      form feed, carriage return, the Unicode space separators, the line and
      paragraph separators and the byte order mark). */
  const Trimmable: set<char> := {
    '\t', '\n', '\U{000B}', '\U{000C}', '\r', ' ', '\U{00A0}', '\U{1680}',
    '\U{2000}', '\U{2001}', '\U{2002}', '\U{2003}', '\U{2004}', '\U{2005}',
    '\U{2006}', '\U{2007}', '\U{2008}', '\U{2009}', '\U{200A}',
    '\U{2028}', '\U{2029}', '\U{202F}', '\U{205F}', '\U{3000}', '\U{FEFF}' }

  predicate IsTrimmable(c: char) {
    c in Trimmable
  }

  /** JavaScript truthiness of a string that may be absent (`null` or
      `undefined`): present and non-empty. */
  predicate Truthy(s: Option<string>) {
    s.Some? && s.value != ""
  }

  /** `s` starts with `prefix`, as `String.prototype.startsWith`. */
  predicate StartsWith(s: string, prefix: string) {
    |prefix| <= |s| && s[..|prefix|] == prefix
  }

  /** `s` ends with `suffix`, as `String.prototype.endsWith`. */
  predicate EndsWith(s: string, suffix: string) {
    |suffix| <= |s| && s[|s| - |suffix|..] == suffix
  }

  /** `s` without its leading trimmable characters. */
  function TrimStart(s: string): (r: string)
    ensures |r| <= |s| && r == s[|s| - |r|..]
    ensures r == [] || !IsTrimmable(r[0])
  {
    if |s| > 0 && IsTrimmable(s[0]) then TrimStart(s[1..]) else s
  }

  /** `s` without its trailing trimmable characters. */
  function TrimEnd(s: string): (r: string)
    ensures |r| <= |s| && r == s[..|r|]
    ensures r == [] || !IsTrimmable(r[|r| - 1])
  {
    if |s| > 0 && IsTrimmable(s[|s| - 1]) then TrimEnd(s[..|s| - 1]) else s
  }

  lemma {:induction false} TrimStartRemovesTrimmable(s: string)
    ensures forall k :: 0 <= k < |s| - |TrimStart(s)| ==> IsTrimmable(s[k])
  {
    if |s| > 0 && IsTrimmable(s[0]) {
      var u := s[1..];
      assert TrimStart(s) == TrimStart(u);
      TrimStartRemovesTrimmable(u);
      TrimmableShift(s, 1, 0, |u| - |TrimStart(u)|);
    }
  }

  lemma {:induction false} TrimEndRemovesTrimmable(s: string)
    ensures forall k :: |TrimEnd(s)| <= k < |s| ==> IsTrimmable(s[k])
  {
    if |s| > 0 && IsTrimmable(s[|s| - 1]) {
      var u := s[..|s| - 1];
      assert TrimEnd(s) == TrimEnd(u);
      TrimEndRemovesTrimmable(u);
      TrimmablePrefix(s, |u|, |TrimEnd(u)|);
    }
  }

  /** How many leading characters `trim` removes. */
  function TrimOffset(s: string): (n: nat)
    ensures n <= |s|
  {
    |s| - |TrimStart(s)|
  }

  /** `String.prototype.trim`: neither starts nor ends with a trimmable
      character (its removing only those is `TrimIsInfix`). */
  function Trim(s: string): (r: string)
    ensures |r| <= |s|
    ensures r == [] || (!IsTrimmable(r[0]) && !IsTrimmable(r[|r| - 1]))
  {
    var t := TrimStart(s);
    var r := TrimEnd(t);
    assert r != [] ==> r[0] == t[0];
    r
  }

  /** The trim is the infix of `s` after its leading and before its trailing
      trimmable characters: only trimmable characters are removed, on either side. */
  lemma TrimIsInfix(s: string)
    ensures TrimOffset(s) + |Trim(s)| <= |s|
    ensures Trim(s) == s[TrimOffset(s)..TrimOffset(s) + |Trim(s)|]
    ensures forall k :: 0 <= k < TrimOffset(s) ==> IsTrimmable(s[k])
    ensures forall k :: TrimOffset(s) + |Trim(s)| <= k < |s| ==> IsTrimmable(s[k])
  {
    TrimSlice(s);
    TrimStartRemovesTrimmable(s);
    TrimTrailing(s);
  }

  lemma TrimSlice(s: string)
    ensures TrimOffset(s) + |Trim(s)| <= |s|
    ensures Trim(s) == s[TrimOffset(s)..TrimOffset(s) + |Trim(s)|]
  {
    var t, i := TrimStart(s), TrimOffset(s);
    var r := TrimEnd(t);
    assert Trim(s) == r && t == s[i..] && r == t[..|r|];
    assert s[i..][..|r|] == s[i..i + |r|];
  }

  lemma TrimTrailing(s: string)
    ensures forall k :: TrimOffset(s) + |Trim(s)| <= k < |s| ==> IsTrimmable(s[k])
  {
    var t, i := TrimStart(s), TrimOffset(s);
    var r := TrimEnd(t);
    assert Trim(s) == r && t == s[i..];
    TrimEndRemovesTrimmable(t);
    TrimmableShift(s, i, |r|, |t|);
  }

  /** Trimmable characters of the suffix `s[i..]` are trimmable characters of `s`. */
  lemma TrimmableShift(s: string, i: nat, lo: nat, hi: nat)
    requires i <= |s| && hi <= |s| - i
    requires forall j :: lo <= j < hi ==> IsTrimmable(s[i..][j])
    ensures forall k :: i + lo <= k < i + hi ==> IsTrimmable(s[k])
  {
    forall k | i + lo <= k < i + hi ensures IsTrimmable(s[k]) {
      assert s[i..][k - i] == s[k];
    }
  }

  /** Trimmable characters of the prefix `s[..n]` are trimmable characters of `s`. */
  lemma TrimmablePrefix(s: string, n: nat, lo: nat)
    requires n <= |s|
    requires forall j :: lo <= j < n ==> IsTrimmable(s[..n][j])
    ensures forall k :: lo <= k < n ==> IsTrimmable(s[k])
  {
    forall k | lo <= k < n ensures IsTrimmable(s[k]) {
      assert s[..n][k] == s[k];
    }
  }

  /** A string that neither starts nor ends with a trimmable character is its
      own trim; in particular trimming twice is trimming once. */
  lemma {:induction false} TrimFixedPoint(s: string)
    requires s == [] || (!IsTrimmable(s[0]) && !IsTrimmable(s[|s| - 1]))
    ensures Trim(s) == s
  {
    assert TrimStart(s) == s;
    assert TrimEnd(s) == s;
  }

  lemma TrimIdempotent(s: string)
    ensures Trim(Trim(s)) == Trim(s)
  {
    TrimFixedPoint(Trim(s));
  }

  /** `String.prototype.split` with a one-character separator: the maximal
      separator-free pieces, in order; there is always at least one. */
  function Split(s: string, sep: char): (parts: seq<string>)
    ensures |parts| >= 1
    ensures forall i :: 0 <= i < |parts| ==> sep !in parts[i]
  {
    if |s| == 0 then [""]
    else
      var rest := Split(s[1..], sep);
      if s[0] == sep then [""] + rest
      else [[s[0]] + rest[0]] + rest[1..]
  }

  /** Joining the pieces with the separator gives back the string. */
  lemma {:induction false} SplitJoin(s: string, sep: char)
    ensures Join(Split(s, sep), sep) == s
  {
    if |s| > 0 {
      var rest := Split(s[1..], sep);
      SplitJoin(s[1..], sep);
      if s[0] == sep {
        assert ([""] + rest)[1..] == rest;
      } else {
        var parts := [[s[0]] + rest[0]] + rest[1..];
        assert parts[1..] == rest[1..];
        assert s == [s[0]] + s[1..];
      }
    }
  }

  /** The position of the first occurrence of `c` in `s`. */
  function IndexOf(s: string, c: char): (i: nat)
    requires c in s
    ensures i < |s| && s[i] == c && c !in s[..i]
  {
    if s[0] == c then 0
    else
      assert s == [s[0]] + s[1..];
      1 + IndexOf(s[1..], c)
  }

  /** `Array.prototype.join` with a one-character separator. */
  function Join(parts: seq<string>, sep: char): string
  {
    if |parts| == 0 then ""
    else if |parts| == 1 then parts[0]
    else parts[0] + [sep] + Join(parts[1..], sep)
  }

  /** Splitting at a separator that occurs: the first piece is everything
      before its first occurrence, and joining the remaining pieces gives back
      everything after it, later separators included. Splitting a string
      without the separator gives the string alone. */
  lemma SplitAtFirst(s: string, sep: char)
    ensures sep !in s ==> Split(s, sep) == [s]
    ensures sep in s ==>
      var parts, i := Split(s, sep), IndexOf(s, sep);
      && |parts| >= 2 && parts[0] == s[..i] && Join(parts[1..], sep) == s[i + 1..]
  {
    var parts := Split(s, sep);
    SplitJoin(s, sep);
    if |parts| == 1 {
      assert s == parts[0];
    } else {
      assert s == parts[0] + [sep] + Join(parts[1..], sep);
      var n := |parts[0]|;
      assert s[..n] == parts[0];
      assert s[n] == sep;
      assert s[n + 1..] == Join(parts[1..], sep);
    }
  }

  /** Separator-free pieces come back unchanged from splitting their join. */
  lemma {:induction false} JoinSplit(parts: seq<string>, sep: char)
    requires |parts| >= 1
    requires forall i :: 0 <= i < |parts| ==> sep !in parts[i]
    ensures Split(Join(parts, sep), sep) == parts
  {
    if |parts| == 1 {
      SplitNoSeparator(parts[0], sep);
    } else {
      JoinSplit(parts[1..], sep);
      SplitConcat(parts[0], Join(parts[1..], sep), sep);
      assert parts == [parts[0]] + parts[1..];
    }
  }

  lemma {:induction false} SplitNoSeparator(s: string, sep: char)
    requires sep !in s
    ensures Split(s, sep) == [s]
  {
    SplitAtFirst(s, sep);
  }

  lemma {:induction false} SplitConcat(a: string, b: string, sep: char)
    requires sep !in a
    ensures Split(a + [sep] + b, sep) == [a] + Split(b, sep)
    decreases |a|
  {
    if |a| == 0 {
      assert a + [sep] + b == [sep] + b;
      assert ([sep] + b)[1..] == b;
    } else {
      SplitConcat(a[1..], b, sep);
      assert (a + [sep] + b)[1..] == a[1..] + [sep] + b;
      assert [a[0]] + a[1..] == a;
    }
  }
}
