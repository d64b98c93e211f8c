/** The string an agent signs: method, path, canonical query, timestamp and body hash, one a line
    (BuildCanonicalRequest of api/signature.go). */
module CanonicalRequest {
  import opened Octets
  import opened Options
  import opened Decimals
  import opened Query

  /** Upper case of ASCII letters; an HTTP method has no others. */
  function ToUpper(s: Octets): (u: Octets)
    ensures |u| == |s|
  {
    if s == [] then []
    else [if 'a' <= s[0] <= 'z' then At(s[0] as int - 32) else s[0]] + ToUpper(s[1..])
  }

  ghost function Build(verb: Octets, path: Octets, rawQuery: Octets, timestamp: Int64, bodyHash: Octets): Octets {
    ToUpper(verb) + ['\n'] + (path + ['\n'] + (Canonicalize(rawQuery) + ['\n'] +
      (FormatInt(timestamp) + ['\n'] + bodyHash)))
  }

  method BuildCanonicalRequest(
    verb: Octets, path: Octets, rawQuery: Octets, timestamp: Int64, bodyHash: Octets)
    returns (canonical: Octets)
    ensures canonical == Build(verb, path, rawQuery, timestamp, bodyHash)
  {
    var canonicalQuery := CanonicalizeQuery(rawQuery);
    canonical := ToUpper(verb) + ['\n'] + (path + ['\n'] + (canonicalQuery + ['\n'] +
      (FormatInt(timestamp) + ['\n'] + bodyHash)));
  }

  lemma {:induction false} UpperAvoidsNewline(s: Octets)
    requires '\n' !in s
    ensures '\n' !in ToUpper(s)
  {
    if s != [] {
      UpperAvoidsNewline(s[1..]);
    }
  }

  lemma CanonicalQueryAvoidsNewline(q: Octets)
    requires ParseQuery(q).None? ==> '\n' !in q
    ensures '\n' !in Canonicalize(q)
  {
    if ParseQuery(q).Some? {
      RenderAvoidsNewline(ParseQuery(q).value);
    }
  }

  lemma NumberAvoidsNewline(n: Int64)
    ensures '\n' !in FormatInt(n)
  {
    FormatIntCharacters(n);
  }

  lemma FormatIntIsInjective(m: Int64, n: Int64)
    requires FormatInt(m) == FormatInt(n)
    ensures m == n
  {
    ParseFormatInt(m);
    ParseFormatInt(n);
  }

  /** One signed string stands for one request: two requests have the same canonical string exactly
      when they agree on the method up to case, the path, the meaning of the query, the timestamp and
      the body hash. The path may hold anything, even line breaks; a method, a raw query and a hash in
      hexadecimal have none. */
  lemma CanonicalRequestsDecide(
    m1: Octets, p1: Octets, q1: Octets, t1: Int64, h1: Octets,
    m2: Octets, p2: Octets, q2: Octets, t2: Int64, h2: Octets)
    requires '\n' !in m1 && '\n' !in m2 && '\n' !in h1 && '\n' !in h2
    requires (ParseQuery(q1).None? ==> '\n' !in q1) && (ParseQuery(q2).None? ==> '\n' !in q2)
    ensures Build(m1, p1, q1, t1, h1) == Build(m2, p2, q2, t2, h2) <==>
            ToUpper(m1) == ToUpper(m2) && p1 == p2 && SameQuery(q1, q2) && t1 == t2 && h1 == h2
  {
    hide Canonicalize, ParseQuery, FormatInt, ToUpper;
    CanonicalFormsDecide(q1, q2);
    if Build(m1, p1, q1, t1, h1) == Build(m2, p2, q2, t2, h2) {
      var c1, c2, n1, n2 := Canonicalize(q1), Canonicalize(q2), FormatInt(t1), FormatInt(t2);
      UpperAvoidsNewline(m1);
      UpperAvoidsNewline(m2);
      CanonicalQueryAvoidsNewline(q1);
      CanonicalQueryAvoidsNewline(q2);
      NumberAvoidsNewline(t1);
      NumberAvoidsNewline(t2);
      var r1, r2 := AfterMethod(p1, c1, n1, h1), AfterMethod(p2, c2, n2, h2);
      CutUnique(ToUpper(m1), r1, ToUpper(m2), r2, '\n');
      FromTheRight(p1, c1, n1, h1, p2, c2, n2, h2);
      FormatIntIsInjective(t1, t2);
    }
  }

  ghost function AfterMethod(path: Octets, query: Octets, timestamp: Octets, hash: Octets): Octets {
    path + ['\n'] + (query + ['\n'] + (timestamp + ['\n'] + hash))
  }

  lemma FromTheRight(p1: Octets, c1: Octets, n1: Octets, h1: Octets, p2: Octets, c2: Octets, n2: Octets, h2: Octets)
    requires '\n' !in c1 && '\n' !in c2 && '\n' !in n1 && '\n' !in n2 && '\n' !in h1 && '\n' !in h2
    requires AfterMethod(p1, c1, n1, h1) == AfterMethod(p2, c2, n2, h2)
    ensures p1 == p2 && c1 == c2 && n1 == n2 && h1 == h2
  {
    var a1, a2 := p1 + ['\n'] + c1, p2 + ['\n'] + c2;
    var b1, b2 := a1 + ['\n'] + n1, a2 + ['\n'] + n2;
    assert AfterMethod(p1, c1, n1, h1) == b1 + ['\n'] + h1;
    assert AfterMethod(p2, c2, n2, h2) == b2 + ['\n'] + h2;
    CutUniqueLast(b1, h1, b2, h2, '\n');
    CutUniqueLast(a1, n1, a2, n2, '\n');
    CutUniqueLast(p1, c1, p2, c2, '\n');
  }

  /** Small letters become capitals, 32 places before them in ASCII, and the rest stays. */
  lemma {:induction false} UpperAt(s: Octets, i: nat)
    requires i < |s|
    ensures var code := s[i] as int;
      ToUpper(s)[i] as int == if 97 <= code <= 122 then code - 32 else code
  {
    if i > 0 {
      UpperAt(s[1..], i - 1);
    }
  }

  /** The lines of the signed text, in their order, for a path without line breaks. */
  lemma LinesAre(verb: Octets, path: Octets, rawQuery: Octets, timestamp: Int64, bodyHash: Octets)
    requires '\n' !in verb && '\n' !in path && '\n' !in bodyHash && (ParseQuery(rawQuery).None? ==> '\n' !in rawQuery)
    ensures Split(Build(verb, path, rawQuery, timestamp, bodyHash), '\n') ==
      [ToUpper(verb), path, Canonicalize(rawQuery), FormatInt(timestamp), bodyHash]
  {
    hide Canonicalize, ParseQuery, FormatInt, ToUpper, Split;
    UpperAvoidsNewline(verb);
    CanonicalQueryAvoidsNewline(rawQuery);
    NumberAvoidsNewline(timestamp);
    var query, time := Canonicalize(rawQuery), FormatInt(timestamp);
    SplitFirst(ToUpper(verb), path + ['\n'] + (query + ['\n'] + (time + ['\n'] + bodyHash)));
    SplitFirst(path, query + ['\n'] + (time + ['\n'] + bodyHash));
    SplitFirst(query, time + ['\n'] + bodyHash);
    SplitFirst(time, bodyHash);
  }

  lemma SplitFirst(line: Octets, rest: Octets)
    requires '\n' !in line
    ensures Split(line + ['\n'] + rest, '\n') == [line] + Split(rest, '\n')
    ensures Split(line, '\n') == [line]
    ensures '\n' !in rest ==> Split(rest, '\n') == [rest]
  {
    CutAt(line, '\n', rest);
    CutNowhere(line, '\n');
    var s := line + ['\n'] + rest;
    assert s[..|line|] == line && s[|line| + 1..] == rest;
  }
}
