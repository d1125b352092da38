/**
 * The few JavaScript built-ins the range engine relies on, modelled on
 * Dafny values: Array.prototype.indexOf, Array.prototype.filter with a
 * membership test, String.prototype.split with a one-character separator,
 * String.prototype.trim, and Array.prototype.join as the partner of split.
 */
module Js {

  datatype Option<T> = None | Some(value: T)

  /** Array.prototype.indexOf: the first position of x in s, or -1. */
  function IndexOf<T(==)>(s: seq<T>, x: T): (k: int)
    ensures -1 <= k < |s|
    ensures k == -1 <==> x !in s
    ensures 0 <= k ==> s[k] == x && x !in s[..k]
  {
    if |s| == 0 then -1
    else if s[0] == x then 0
    else
      var k := IndexOf(s[1..], x);
      assert k >= 0 ==> s[..k + 1] == [s[0]] + s[1..][..k];
      if k == -1 then -1 else k + 1
  }

  /** In a sequence without repetitions, indexOf finds every element where it stands. */
  lemma IndexOfDistinct<T>(s: seq<T>, k: int)
    requires forall i, j :: 0 <= i < j < |s| ==> s[i] != s[j]
    requires 0 <= k < |s|
    ensures IndexOf(s, s[k]) == k
  {
  }

  /** Array.prototype.filter keeping the elements of s that t includes. */
  function FilterIncludes<T(==,!new)>(s: seq<T>, t: seq<T>): (r: seq<T>)
    ensures |r| <= |s|
    ensures forall x :: x in r <==> x in s && x in t
  {
    if |s| == 0 then []
    else (if s[0] in t then [s[0]] else []) + FilterIncludes(s[1..], t)
  }

  /** Whether a Record<K, boolean> entry is set; a missing entry reads as undefined, which is false. */
  predicate Selected<K>(m: map<K, bool>, k: K)
  {
    k in m && m[k]
  }

  /** Array.prototype.filter keeping the elements whose Record<K, boolean> entry is true. */
  function FilterSelected<K(!new)>(s: seq<K>, m: map<K, bool>): (r: seq<K>)
    ensures |r| <= |s|
    ensures forall x :: x in r <==> x in s && Selected(m, x)
  {
    if |s| == 0 then []
    else (if Selected(m, s[0]) then [s[0]] else []) + FilterSelected(s[1..], m)
  }

  /** The characters String.prototype.trim removes: WhiteSpace and LineTerminator of ECMAScript. */
  predicate IsWhiteSpace(c: char)
  {
    c == '\t' || c == '\n' || c == '\U{0B}' || c == '\U{0C}' || c == '\r' || c == ' '
    || c == '\U{A0}' || c == '\U{1680}' || ('\U{2000}' <= c <= '\U{200A}')
    || c == '\U{2028}' || c == '\U{2029}' || c == '\U{202F}' || c == '\U{205F}'
    || c == '\U{3000}' || c == '\U{FEFF}'
  }

  predicate AllWhiteSpace(s: string)
  {
    forall k :: 0 <= k < |s| ==> IsWhiteSpace(s[k])
  }

  /** The index of the first character at or after i that is not white space, or |s|. */
  function TextStart(s: string, i: nat): (n: nat)
    requires i <= |s|
    ensures i <= n <= |s|
    ensures forall k :: i <= k < n ==> IsWhiteSpace(s[k])
    ensures n == |s| || !IsWhiteSpace(s[n])
    decreases |s| - i
  {
    if i < |s| && IsWhiteSpace(s[i]) then TextStart(s, i + 1) else i
  }

  /** TextStart is the only index with those properties. */
  lemma TextStartUnique(s: string, i: nat, n: nat)
    requires i <= n <= |s|
    requires forall k :: i <= k < n ==> IsWhiteSpace(s[k])
    requires n == |s| || !IsWhiteSpace(s[n])
    ensures TextStart(s, i) == n
  {
  }

  /** The index just past the last character before j that is not white space, or 0. */
  function TextEnd(s: string, j: nat): (n: nat)
    requires j <= |s|
    ensures n <= j
    ensures forall k :: n <= k < j ==> IsWhiteSpace(s[k])
    ensures n == 0 || !IsWhiteSpace(s[n - 1])
  {
    if j > 0 && IsWhiteSpace(s[j - 1]) then TextEnd(s, j - 1) else j
  }

  /** TextEnd is the only index with those properties. */
  lemma TextEndUnique(s: string, j: nat, n: nat)
    requires n <= j <= |s|
    requires forall k :: n <= k < j ==> IsWhiteSpace(s[k])
    requires n == 0 || !IsWhiteSpace(s[n - 1])
    ensures TextEnd(s, j) == n
  {
  }

  /** s without its leading white space. */
  function TrimStart(s: string): (r: string)
    ensures |r| <= |s| && r == s[|s| - |r|..]
    ensures AllWhiteSpace(s[..|s| - |r|])
    ensures r == [] || !IsWhiteSpace(r[0])
  {
    var n := TextStart(s, 0);
    assert forall k :: 0 <= k < n ==> s[..n][k] == s[k];
    s[n..]
  }

  /** s without its trailing white space. */
  function TrimEnd(s: string): (r: string)
    ensures |r| <= |s| && r == s[..|r|]
    ensures AllWhiteSpace(s[|r|..])
    ensures r == [] || !IsWhiteSpace(r[|r| - 1])
  {
    var n := TextEnd(s, |s|);
    assert forall k :: n <= k < |s| ==> s[n..][k - n] == s[k];
    s[..n]
  }

  /** String.prototype.trim; TrimInfix states what is removed. */
  function Trim(s: string): (r: string)
    ensures |r| <= |s|
    ensures r == [] || (!IsWhiteSpace(r[0]) && !IsWhiteSpace(r[|r| - 1]))
    ensures r == [] <==> AllWhiteSpace(s)
  {
    var t := TrimStart(s);
    assert s == s[..|s| - |t|] + t;
    TrimEnd(t)
  }

  /** trim keeps the infix of s that is left once white space is removed at both ends. */
  lemma TrimInfix(s: string)
    ensures var a := |s| - |TrimStart(s)|; var r := Trim(s);
      && a + |r| <= |s| && r == s[a..a + |r|]
      && AllWhiteSpace(s[..a]) && AllWhiteSpace(s[a + |r|..])
  {
    var a := TextStart(s, 0);
    var t := s[a..];
    assert TrimStart(s) == t;
    var b := TextEnd(t, |t|);
    assert TrimEnd(t) == t[..b];
    assert Trim(s) == t[..b];
    assert t[..b] == s[a..a + b];
    assert s[a + b..] == t[b..];
  }

  /** String.prototype.split(sep) for a one-character separator. */
  function Split(s: string, sep: char): (parts: seq<string>)
    ensures |parts| >= 1
    ensures forall k :: 0 <= k < |parts| ==> sep !in parts[k]
  {
    if |s| == 0 then [""]
    else
      var rest := Split(s[1..], sep);
      if s[0] == sep then [""] + rest
      else [[s[0]] + rest[0]] + rest[1..]
  }

  /** Array.prototype.join(sep), the inverse of Split. */
  function Join(parts: seq<string>, sep: char): string
    requires |parts| >= 1
  {
    if |parts| == 1 then parts[0] else parts[0] + [sep] + Join(parts[1..], sep)
  }

  lemma {:induction false} JoinSplit(s: string, sep: char)
    ensures Join(Split(s, sep), sep) == s
  {
    if |s| > 0 {
      var rest := Split(s[1..], sep);
      JoinSplit(s[1..], sep);
      if s[0] == sep {
        assert s == [sep] + s[1..];
      } else if |rest| == 1 {
        assert s == [s[0]] + s[1..];
      } else {
        assert Join(rest, sep) == rest[0] + [sep] + Join(rest[1..], sep);
        assert s == [s[0]] + s[1..];
      }
    }
  }

  /** Splitting at a separator between a and b splits a and b separately. */
  lemma {:induction false} SplitConcat(a: string, b: string, sep: char)
    ensures Split(a + [sep] + b, sep) == Split(a, sep) + Split(b, sep)
  {
    if |a| == 0 {
      assert a + [sep] + b == [sep] + b;
      assert ([sep] + b)[1..] == b;
    } else {
      var s := a + [sep] + b;
      assert s[0] == a[0] && s[1..] == a[1..] + [sep] + b;
      SplitConcat(a[1..], b, sep);
      var rest, left := Split(s[1..], sep), Split(a[1..], sep);
      assert rest == left + Split(b, sep);
      if a[0] != sep {
        assert rest[0] == left[0];
        assert rest[1..] == left[1..] + Split(b, sep);
      }
    }
  }

  /** Splitting text without the separator yields the text itself. */
  lemma {:induction false} SplitNoSeparator(s: string, sep: char)
    requires sep !in s
    ensures Split(s, sep) == [s]
  {
    if |s| > 0 {
      SplitNoSeparator(s[1..], sep);
      assert s == [s[0]] + s[1..];
    }
  }
}
