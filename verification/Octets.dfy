/** Byte strings, as Go's `string` and `[]byte` are, and the few library functions the signature
    code calls on them: cutting, splitting, trimming and joining. */
module Octets {

  type Octet = c: char | c as int < 256 witness 'a'
  type Octets = seq<Octet>

  function At(n: nat): Octet
    requires n < 256
  {
    n as char
  }

  /** Index of the first `sep`, or the length when there is none. */
  function IndexOf(s: Octets, sep: Octet): (i: nat)
    ensures i <= |s| && sep !in s[..i]
    ensures i < |s| ==> s[i] == sep
  {
    if s == [] || s[0] == sep then 0
    else
      var i := 1 + IndexOf(s[1..], sep);
      assert s[..i] == [s[0]] + s[1..][..i - 1];
      i
  }

  /** What stands before and after the first `sep`; everything and nothing when there is none. */
  function Cut(s: Octets, sep: Octet): (Octets, Octets) {
    var i := IndexOf(s, sep);
    if i < |s| then (s[..i], s[i + 1..]) else (s, [])
  }

  lemma {:induction false} CutAt(a: Octets, sep: Octet, b: Octets)
    requires sep !in a
    ensures IndexOf(a + [sep] + b, sep) == |a| && Cut(a + [sep] + b, sep) == (a, b)
  {
    var s := a + [sep] + b;
    if a == [] {
    } else {
      assert s[1..] == a[1..] + [sep] + b;
      CutAt(a[1..], sep, b);
    }
    assert s[..|a|] == a && s[|a| + 1..] == b;
  }

  lemma CutNowhere(a: Octets, sep: Octet)
    requires sep !in a
    ensures IndexOf(a, sep) == |a| && Cut(a, sep) == (a, [])
  {
  }

  /** Text before a separator that does not contain it is determined by the whole. */
  lemma CutUnique(a: Octets, b: Octets, c: Octets, d: Octets, sep: Octet)
    requires sep !in a && sep !in c && a + [sep] + b == c + [sep] + d
    ensures a == c && b == d
  {
    CutAt(a, sep, b);
    CutAt(c, sep, d);
  }

  /** Text after a separator that does not contain it is determined by the whole. */
  lemma CutUniqueLast(a: Octets, b: Octets, c: Octets, d: Octets, sep: Octet)
    requires sep !in b && sep !in d && a + [sep] + b == c + [sep] + d
    ensures a == c && b == d
  {
    var s := a + [sep] + b;
    assert s[|a|] == sep && s[|c|] == sep;
    assert s[|a| + 1..] == b && s[|c| + 1..] == d;
    assert |a| == |c|;
    assert s[..|a|] == a && s[..|c|] == c;
  }

  function Split(s: Octets, sep: Octet): (parts: seq<Octets>)
    ensures parts != []
    decreases |s|
  {
    var i := IndexOf(s, sep);
    if i < |s| then [s[..i]] + Split(s[i + 1..], sep) else [s]
  }

  function Join(parts: seq<Octets>, sep: Octet): Octets {
    if parts == [] then []
    else if |parts| == 1 then parts[0]
    else parts[0] + [sep] + Join(parts[1..], sep)
  }

  lemma {:induction false} SplitJoin(parts: seq<Octets>, sep: Octet)
    requires parts != [] && forall i :: 0 <= i < |parts| ==> sep !in parts[i]
    ensures Split(Join(parts, sep), sep) == parts
  {
    if |parts| == 1 {
      CutNowhere(parts[0], sep);
    } else {
      var rest := Join(parts[1..], sep);
      CutAt(parts[0], sep, rest);
      SplitJoin(parts[1..], sep);
    }
  }

  predicate IsSpace(c: Octet) {
    c == ' ' || '\t' <= c <= '\r'
  }

  function TrimLeft(s: Octets, cutset: Octet -> bool): Octets {
    if s != [] && cutset(s[0]) then TrimLeft(s[1..], cutset) else s
  }

  function TrimRight(s: Octets, cutset: Octet -> bool): Octets {
    if s != [] && cutset(s[|s| - 1]) then TrimRight(s[..|s| - 1], cutset) else s
  }

  function Trim(s: Octets, cutset: Octet -> bool): Octets {
    TrimRight(TrimLeft(s, cutset), cutset)
  }

  function TrimSpace(s: Octets): Octets {
    Trim(s, IsSpace)
  }

  predicate IsQuote(c: Octet) {
    c == '"'
  }

  function TrimQuotes(s: Octets): Octets {
    Trim(s, IsQuote)
  }

  lemma TrimNothing(s: Octets, cutset: Octet -> bool)
    requires s == [] || (!cutset(s[0]) && !cutset(s[|s| - 1]))
    ensures Trim(s, cutset) == s
  {
  }

  lemma Unquote(v: Octets)
    requires '"' !in v
    ensures TrimQuotes(['"'] + v + ['"']) == v
  {
    var s := ['"'] + v + ['"'];
    if v == [] {
      assert s[1..] == ['"'];
      assert s[1..][1..] == [];
    } else {
      assert s[1..] == v + ['"'];
      assert TrimLeft(s[1..], IsQuote) == v + ['"'];
      assert (v + ['"'])[..|v|] == v;
      assert TrimRight(v, IsQuote) == v;
    }
  }

  /** White space is tab, line feed, vertical tab, form feed, carriage return and space. */
  lemma WhiteSpaceIs(c: Octet)
    ensures IsSpace(c) <==> c as int == 32 || 9 <= c as int <= 13
  {
  }

  lemma {:induction false} TrimLeftTakes(s: Octets, cutset: Octet -> bool) returns (n: nat)
    ensures n <= |s| && TrimLeft(s, cutset) == s[n..] && forall i :: 0 <= i < n ==> cutset(s[i])
    ensures TrimLeft(s, cutset) != [] ==> !cutset(TrimLeft(s, cutset)[0])
  {
    if s != [] && cutset(s[0]) {
      var m := TrimLeftTakes(s[1..], cutset);
      n := m + 1;
      assert s[1..][m..] == s[n..];
      assert forall i :: 0 < i < n ==> s[i] == s[1..][i - 1];
    } else {
      n := 0;
    }
  }

  lemma {:induction false} TrimRightTakes(s: Octets, cutset: Octet -> bool) returns (n: nat)
    ensures n <= |s| && TrimRight(s, cutset) == s[..n] && forall i :: n <= i < |s| ==> cutset(s[i])
    ensures TrimRight(s, cutset) != [] ==> !cutset(s[n - 1])
  {
    n := |s|;
    if s != [] && cutset(s[|s| - 1]) {
      n := TrimRightTakes(s[..|s| - 1], cutset);
      assert s[..|s| - 1][..n] == s[..n];
    } else {
      assert s[..|s|] == s;
    }
  }

  /** Trimming takes characters of the cut set off both ends, and as many as there are. */
  lemma TrimTakes(s: Octets, cutset: Octet -> bool) returns (from: nat, to: nat)
    ensures from <= to <= |s| && Trim(s, cutset) == s[from..to]
    ensures forall i :: 0 <= i < from || to <= i < |s| ==> cutset(s[i])
    ensures from < to ==> !cutset(s[from]) && !cutset(s[to - 1])
  {
    from := TrimLeftTakes(s, cutset);
    var rest := s[from..];
    var n := TrimRightTakes(rest, cutset);
    to := from + n;
    assert rest[..n] == s[from..to];
    assert forall i :: to <= i < |s| ==> s[i] == rest[i - from];
    if n > 0 {
      assert rest[0] == s[from] && rest[n - 1] == s[to - 1];
    }
  }

  /** What is left after trimming is the one middle part that starts and ends outside the cut set. */
  lemma TrimUnique(a: Octets, middle: Octets, b: Octets, cutset: Octet -> bool)
    requires (forall i :: 0 <= i < |a| ==> cutset(a[i])) && forall i :: 0 <= i < |b| ==> cutset(b[i])
    requires middle == [] || (!cutset(middle[0]) && !cutset(middle[|middle| - 1]))
    ensures Trim(a + middle + b, cutset) == middle
  {
    var s := a + middle + b;
    var from, to := TrimTakes(s, cutset);
    assert forall i :: 0 <= i < |a| ==> s[i] == a[i];
    assert forall i :: 0 <= i < |b| ==> s[|a| + |middle| + i] == b[i];
    if middle != [] {
      assert s[|a|] == middle[0] && s[|a| + |middle| - 1] == middle[|middle| - 1];
      assert from == |a| && to == |a| + |middle|;
    } else {
      assert from == to;
    }
  }

  lemma TrimAgainLeft(s: Octets, cutset: Octet -> bool)
    ensures Trim(TrimLeft(s, cutset), cutset) == Trim(s, cutset)
  {
    var n := TrimLeftTakes(s, cutset);
    var m := TrimLeftTakes(TrimLeft(s, cutset), cutset);
    assert m == 0 || TrimLeft(s, cutset) == [];
  }

  lemma TrimAgainRight(s: Octets, cutset: Octet -> bool)
    ensures Trim(TrimRight(s, cutset), cutset) == Trim(s, cutset)
  {
    var n := TrimRightTakes(s, cutset);
    TrimOfPrefix(s, n, cutset);
  }

  lemma TrimOfPrefix(s: Octets, n: nat, cutset: Octet -> bool)
    requires n <= |s| && forall i :: n <= i < |s| ==> cutset(s[i])
    ensures Trim(s[..n], cutset) == Trim(s, cutset)
  {
    hide Trim, TrimLeft, TrimRight;
    var rest := s[..n];
    var from, to := TrimTakes(rest, cutset);
    var a, middle, b := s[..from], s[from..to], s[to..];
    assert s == a + middle + b && rest[from..to] == middle;
    forall i | 0 <= i < |a| ensures cutset(a[i]) {
      assert a[i] == rest[i];
    }
    forall i | 0 <= i < |b| ensures cutset(b[i]) {
      if to + i < n {
        assert b[i] == rest[to + i];
      } else {
        assert b[i] == s[to + i];
      }
    }
    if from < to {
      assert middle[0] == rest[from] && middle[|middle| - 1] == rest[to - 1];
    }
    TrimUnique(a, middle, b, cutset);
  }

  lemma {:induction false} TrimLeftUpTo(a: Octets, c: Octet, b: Octets, cutset: Octet -> bool)
    requires !cutset(c)
    ensures TrimLeft(a + [c] + b, cutset) == TrimLeft(a, cutset) + [c] + b
  {
    if a == [] {
      assert a + [c] + b == [c] + b;
    } else {
      assert (a + [c] + b)[1..] == a[1..] + [c] + b;
      TrimLeftUpTo(a[1..], c, b, cutset);
    }
  }

  lemma {:induction false} TrimRightUpTo(a: Octets, c: Octet, b: Octets, cutset: Octet -> bool)
    requires !cutset(c)
    ensures TrimRight(a + [c] + b, cutset) == a + [c] + TrimRight(b, cutset)
  {
    var s := a + [c] + b;
    if b == [] {
      assert s == a + [c];
    } else {
      assert s[..|s| - 1] == a + [c] + b[..|b| - 1];
      TrimRightUpTo(a, c, b[..|b| - 1], cutset);
    }
  }
}
