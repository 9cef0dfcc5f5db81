/**
 Strings as sequences of Unicode code points: white space, lower case, the byte order of Go
 strings (which for UTF-8 is the code-point order), and byte length.
 */
module Text {

  /** The white space of Go's unicode.IsSpace. */
  predicate IsSpace(c: char) {
    || '\t' <= c <= '\r'
    || c == ' ' || c == '\U{85}' || c == '\U{A0}' || c == '\U{1680}'
    || '\U{2000}' <= c <= '\U{200A}'
    || c == '\U{2028}' || c == '\U{2029}' || c == '\U{202F}' || c == '\U{205F}' || c == '\U{3000}'
  }

  function TrimLeft(s: string): string {
    if s != [] && IsSpace(s[0]) then TrimLeft(s[1..]) else s
  }

  function TrimRight(s: string): string {
    if s != [] && IsSpace(s[|s| - 1]) then TrimRight(s[..|s| - 1]) else s
  }

  /** strings.TrimSpace. */
  function TrimSpace(s: string): string { TrimRight(TrimLeft(s)) }

  lemma {:induction false} TrimLeftCuts(s: string, p: char -> bool) returns (n: nat)
    requires p == IsSpace
    ensures n <= |s| && TrimLeft(s) == s[n..]
    ensures forall i | 0 <= i < n :: p(s[i])
    ensures n < |s| ==> !p(s[n])
  {
    if s != [] && p(s[0]) {
      var rest := s[1..];
      var k := TrimLeftCuts(rest, p);
      n := k + 1;
      assert rest[k..] == s[n..];
      assert forall i | 0 < i < n :: s[i] == rest[i - 1];
    } else {
      n := 0;
    }
  }

  lemma {:induction false} TrimRightCuts(s: string, p: char -> bool) returns (m: nat)
    requires p == IsSpace
    ensures m <= |s| && TrimRight(s) == s[..m]
    ensures forall i | m <= i < |s| :: p(s[i])
    ensures m > 0 ==> !p(s[m - 1])
  {
    if s != [] && p(s[|s| - 1]) {
      var rest := s[..|s| - 1];
      m := TrimRightCuts(rest, p);
      assert rest[..m] == s[..m];
      assert forall i | 0 <= i < |rest| :: s[i] == rest[i];
    } else {
      m := |s|;
    }
  }

  /** t is s from n to m: without the characters at both ends that satisfy p, all of them and nothing else. */
  predicate Stripped(p: char -> bool, s: string, t: string, n: nat, m: nat) {
    && n <= m <= |s| && t == s[n..m]
    && (forall i | 0 <= i < n :: p(s[i]))
    && (forall i | m <= i < |s| :: p(s[i]))
    && (t != "" ==> !p(t[0]) && !p(t[|t| - 1]))
  }

  predicate AllOf(p: char -> bool, s: string) { forall i | 0 <= i < |s| :: p(s[i]) }

  lemma StrippedInTwo(p: char -> bool, s: string, left: string, n: nat, k: nat)
    requires n <= |s| && left == s[n..] && k <= |left|
    requires forall i | 0 <= i < n :: p(s[i])
    requires forall i | k <= i < |left| :: p(left[i])
    requires n < |s| ==> !p(s[n])
    requires k > 0 ==> !p(left[k - 1])
    ensures Stripped(p, s, left[..k], n, n + k)
  {
    assert left[..k] == s[n..n + k];
    assert forall i | 0 <= i < |left| :: left[i] == s[n + i];
    assert forall i | n + k <= i < |s| :: s[i] == left[i - n];
  }

  lemma StrippedAway(p: char -> bool, s: string, t: string, n: nat, m: nat)
    requires Stripped(p, s, t, n, m)
    ensures t == "" <==> AllOf(p, s)
  {
    if t != "" { assert t[0] == s[n]; }
  }

  /** TrimSpace takes away the white space at both ends, all of it and nothing else. */
  lemma TrimSpaceMeans(s: string, p: char -> bool) returns (n: nat, m: nat)
    requires p == IsSpace
    ensures Stripped(p, s, TrimSpace(s), n, m)
    ensures TrimSpace(s) == "" <==> AllOf(p, s)
  {
    n := TrimLeftCuts(s, p);
    var k := TrimRightCuts(TrimLeft(s), p);
    m := n + k;
    StrippedInTwo(p, s, TrimLeft(s), n, k);
    assert TrimLeft(s)[..k] == TrimSpace(s);
    StrippedAway(p, s, TrimSpace(s), n, m);
  }

  predicate Blank(s: string) { TrimSpace(s) == "" }

  /**
   strings.ToLower, on the characters whose lower case is an ASCII letter: the Latin capitals, the
   Kelvin sign and the dotted capital I. Every other character has a lower case outside a-z, 0-9,
   CJK and white space, which is all that the readers of a lowered string look at.
   */
  function Lower(c: char): char {
    if 'A' <= c <= 'Z' then (c as int - 'A' as int + 'a' as int) as char
    else if c == '\U{212A}' then 'k'
    else if c == '\U{130}' then 'i'
    else c
  }

  function ToLower(s: string): (r: string)
    ensures |r| == |s|
    ensures forall i | 0 <= i < |s| :: r[i] == Lower(s[i])
  {
    if s == [] then [] else [Lower(s[0])] + ToLower(s[1..])
  }

  /** len(s) in Go counts the bytes of the UTF-8 encoding. */
  function Utf8Len(s: string): nat {
    if s == [] then 0 else CharBytes(s[0]) + Utf8Len(s[1..])
  }

  function CharBytes(c: char): nat {
    if c < '\U{80}' then 1 else if c < '\U{800}' then 2 else if c < '\U{10000}' then 3 else 4
  }

  /** left < right on Go strings. */
  predicate StrLess(left: string, right: string) {
    right != [] && (left == [] || left[0] < right[0] || (left[0] == right[0] && StrLess(left[1..], right[1..])))
  }

  /** Up to place k the strings agree; there x ends, or has the smaller character. */
  predicate LessAt(x: string, y: string, k: nat) {
    k <= |x| && k < |y| && x[..k] == y[..k] && (k == |x| || x[k] < y[k])
  }

  /** The order is that of a dictionary. */
  lemma {:induction false} StrLessMeans(x: string, y: string)
    ensures StrLess(x, y) <==> exists k: nat :: LessAt(x, y, k)
  {
    if x != "" && y != "" && x[0] == y[0] {
      StrLessMeans(x[1..], y[1..]);
      forall k: nat | LessAt(x[1..], y[1..], k) ensures LessAt(x, y, k + 1) {
        assert x[..k + 1] == [x[0]] + x[1..][..k] && y[..k + 1] == [y[0]] + y[1..][..k];
      }
      forall k: nat | LessAt(x, y, k) ensures k > 0 && LessAt(x[1..], y[1..], k - 1) {
        if k > 0 { assert x[1..][..k - 1] == x[..k][1..] && y[1..][..k - 1] == y[..k][1..]; }
      }
    } else {
      assert StrLess(x, y) ==> LessAt(x, y, 0);
      forall k: nat | LessAt(x, y, k) ensures k == 0 { LessAtHead(x, y, k); }
    }
  }

  lemma LessAtHead(x: string, y: string, k: nat)
    requires LessAt(x, y, k)
    ensures k > 0 ==> x != "" && y != "" && x[0] == y[0]
  {
    if k > 0 { assert x[..k][0] == x[0] && y[..k][0] == y[0]; }
  }

  lemma StrLessTransitive(x: string, y: string, z: string)
    requires StrLess(x, y) && StrLess(y, z)
    ensures StrLess(x, z)
  {
    if x != [] && x[0] == y[0] == z[0] { StrLessTransitive(x[1..], y[1..], z[1..]); }
  }

  lemma StrLessTotal(x: string, y: string)
    ensures x == y || StrLess(x, y) || StrLess(y, x)
    ensures !(StrLess(x, y) && (x == y || StrLess(y, x)))
  {
    if x != [] && y != [] && x[0] == y[0] {
      StrLessTotal(x[1..], y[1..]);
      assert x == [x[0]] + x[1..] && y == [y[0]] + y[1..];
    }
  }

  /** Go's string order is a strict total order. */
  lemma StrLessOrder()
    ensures forall x: string :: !StrLess(x, x)
    ensures forall x: string, y: string, z: string {:trigger StrLess(x, y), StrLess(y, z)} ::
              StrLess(x, y) && StrLess(y, z) ==> StrLess(x, z)
    ensures forall x: string, y: string :: x == y || StrLess(x, y) || StrLess(y, x)
    ensures forall x: string, y: string :: !(StrLess(x, y) && StrLess(y, x))
  {
    forall x: string, y: string
      ensures x == y || StrLess(x, y) || StrLess(y, x) ensures !(StrLess(x, y) && StrLess(y, x)) ensures !StrLess(x, x)
    {
      StrLessTotal(x, y);
      StrLessTotal(x, x);
    }
    forall x: string, y: string, z: string | StrLess(x, y) && StrLess(y, z)
      ensures StrLess(x, z)
    {
      StrLessTransitive(x, y, z);
    }
  }

  /** Every character has one to four bytes, and ASCII characters one. */
  lemma {:induction false} Utf8LenMeans(s: string)
    ensures |s| <= Utf8Len(s) <= 4 * |s|
    ensures Utf8Len(s) == |s| <==> forall i | 0 <= i < |s| :: s[i] < '\U{80}'
  {
    if s != "" {
      Utf8LenMeans(s[1..]);
      assert forall i | 0 < i < |s| :: s[i] == s[1..][i - 1];
    }
  }
}
