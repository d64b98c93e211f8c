/** Query canonicalization of api/signature.go: parse the query, sort the keys, print every
    pair again. The parser and the escaping are those of Go's net/url; percent-encoding is that
    of sections 2.1 and 2.3 of RFC 3986, with '+' for a space. */
module Query {
  import opened Octets
  import opened Options
  import opened Sequences

  type Pair = (Octets, Octets)
  type Params = map<Octets, seq<Octets>>

  // ---- Percent-encoding -------------------------------------------------------------------

  predicate IsUnreserved(c: Octet) {
    'A' <= c <= 'Z' || 'a' <= c <= 'z' || '0' <= c <= '9' || c == '-' || c == '_' || c == '.' || c == '~'
  }

  function HexDigit(n: nat): Octet
    requires n < 16
  {
    if n < 10 then At('0' as int + n) else At('A' as int + n - 10)
  }

  function HexValue(c: Octet): Option<nat> {
    if '0' <= c <= '9' then Some(c as int - '0' as int)
    else if 'A' <= c <= 'F' then Some(c as int - 'A' as int + 10)
    else if 'a' <= c <= 'f' then Some(c as int - 'a' as int + 10)
    else None
  }

  function EscapeOctet(c: Octet): Octets {
    if c == ' ' then ['+']
    else if IsUnreserved(c) then [c]
    else ['%', HexDigit(c as int / 16), HexDigit(c as int % 16)]
  }

  function QueryEscape(s: Octets): Octets {
    if s == [] then [] else EscapeOctet(s[0]) + QueryEscape(s[1..])
  }

  function QueryUnescape(s: Octets): Option<Octets>
    decreases |s|
  {
    if s == [] then Some([])
    else if s[0] == '%' then
      if |s| < 3 || HexValue(s[1]).None? || HexValue(s[2]).None? then None
      else
        match QueryUnescape(s[3..])
        case None => None
        case Some(rest) => Some([At((HexValue(s[1]).value * 16 + HexValue(s[2]).value) % 256)] + rest)
    else
      match QueryUnescape(s[1..])
      case None => None
      case Some(rest) => Some([if s[0] == '+' then ' ' else s[0]] + rest)
  }

  lemma UnescapeEscapeOctet(c: Octet, s: Octets)
    ensures QueryUnescape(EscapeOctet(c) + s) ==
      match QueryUnescape(s) case None => None case Some(rest) => Some([c] + rest)
  {
    var e := EscapeOctet(c) + s;
    if |EscapeOctet(c)| == 1 {
      assert e[1..] == s;
    } else {
      assert e[3..] == s;
      assert HexValue(HexDigit(c as int / 16)) == Some(c as int / 16);
      assert HexValue(HexDigit(c as int % 16)) == Some(c as int % 16);
    }
  }

  lemma {:induction false} UnescapeEscape(s: Octets)
    ensures QueryUnescape(QueryEscape(s)) == Some(s)
  {
    if s != [] {
      hide QueryUnescape, EscapeOctet;
      var rest := QueryEscape(s[1..]);
      UnescapeEscapeOctet(s[0], rest);
      UnescapeEscape(s[1..]);
      assert QueryEscape(s) == EscapeOctet(s[0]) + rest;
      assert [s[0]] + s[1..] == s;
    }
  }

  predicate IsEscaped(s: Octets) {
    forall c :: c in s ==> IsUnreserved(c) || c == '%' || c == '+'
  }

  lemma {:induction false} EscapeIsEscaped(s: Octets)
    ensures IsEscaped(QueryEscape(s))
  {
    if s != [] {
      EscapeIsEscaped(s[1..]);
    }
  }

  lemma EscapedAvoidsSeparators(s: Octets)
    ensures '&' !in QueryEscape(s) && '=' !in QueryEscape(s) && ';' !in QueryEscape(s) && '\n' !in QueryEscape(s)
  {
    EscapeIsEscaped(s);
  }

  // ---- Parsing ----------------------------------------------------------------------------

  /** The pairs of a query in order, or nothing when any segment is malformed. */
  function ParsePairs(query: Octets): Option<seq<Pair>>
    decreases |query|
  {
    if query == [] then Some([])
    else
      var i := IndexOf(query, '&');
      var segment := query[..i];
      var rest := if i < |query| then query[i + 1..] else [];
      if ';' in segment then None
      else if segment == [] then ParsePairs(rest)
      else
        var (key, value) := Cut(segment, '=');
        match (QueryUnescape(key), QueryUnescape(value), ParsePairs(rest))
        case (Some(k), Some(v), Some(more)) => Some([(k, v)] + more)
        case _ => None
  }

  function Keys(pairs: seq<Pair>): set<Octets> {
    set i | 0 <= i < |pairs| :: pairs[i].0
  }

  function ValuesOf(key: Octets, pairs: seq<Pair>): seq<Octets> {
    if pairs == [] then []
    else (if pairs[0].0 == key then [pairs[0].1] else []) + ValuesOf(key, pairs[1..])
  }

  /** Each key with its values in the order in which they appear. */
  function Collect(pairs: seq<Pair>): Params {
    map k | k in Keys(pairs) :: ValuesOf(k, pairs)
  }

  function ParseQuery(query: Octets): Option<Params> {
    match ParsePairs(query)
    case None => None
    case Some(pairs) => Some(Collect(pairs))
  }

  // ---- Sorting ----------------------------------------------------------------------------

  predicate Below(a: Octets, b: Octets) {
    b != [] && (a == [] || a[0] < b[0] || (a[0] == b[0] && Below(a[1..], b[1..])))
  }

  predicate Sorted(keys: seq<Octets>) {
    forall i, j :: 0 <= i < j < |keys| ==> Below(keys[i], keys[j])
  }

  function Elements(keys: seq<Octets>): set<Octets> {
    set k | k in keys
  }

  lemma {:induction false} BelowIsTotal(a: Octets, b: Octets)
    ensures a == b || Below(a, b) || Below(b, a)
    ensures !(Below(a, b) && Below(b, a)) && !Below(a, a)
  {
    if a != [] && b != [] {
      BelowIsTotal(a[1..], b[1..]);
      BelowIsTotal(a[1..], a[1..]);
      assert a == [a[0]] + a[1..] && b == [b[0]] + b[1..];
    } else if a != [] {
      BelowIsTotal(a[1..], a[1..]);
    }
  }

  lemma {:induction false} BelowIsTransitive(a: Octets, b: Octets, c: Octets)
    requires Below(a, b) && Below(b, c)
    ensures Below(a, c)
  {
    if a != [] && a[0] == b[0] == c[0] {
      BelowIsTransitive(a[1..], b[1..], c[1..]);
    }
  }

  function Insert(key: Octets, sorted: seq<Octets>): seq<Octets> {
    if sorted == [] || Below(key, sorted[0]) then [key] + sorted
    else [sorted[0]] + Insert(key, sorted[1..])
  }

  function Sort(keys: seq<Octets>): seq<Octets> {
    if keys == [] then [] else Insert(keys[0], Sort(keys[1..]))
  }

  lemma {:induction false} InsertSorts(key: Octets, sorted: seq<Octets>)
    requires Sorted(sorted) && key !in sorted
    ensures Sorted(Insert(key, sorted)) && Elements(Insert(key, sorted)) == Elements(sorted) + {key}
  {
    if sorted == [] {
    } else if Below(key, sorted[0]) {
      forall j | 0 <= j < |sorted| ensures Below(key, sorted[j]) {
        if j > 0 {
          BelowIsTransitive(key, sorted[0], sorted[j]);
        }
      }
    } else {
      BelowIsTotal(key, sorted[0]);
      var rest := Insert(key, sorted[1..]);
      InsertSorts(key, sorted[1..]);
      forall j | 0 <= j < |rest| ensures Below(sorted[0], rest[j]) {
        assert rest[j] in Elements(rest);
      }
      forall k ensures k in Insert(key, sorted) <==> k in sorted || k == key {
        assert k in rest <==> k in Elements(rest);
        assert k in sorted <==> k == sorted[0] || k in sorted[1..];
      }
    }
  }

  lemma {:induction false} SortSorts(keys: seq<Octets>)
    requires Distinct(keys)
    ensures Sorted(Sort(keys)) && Elements(Sort(keys)) == Elements(keys)
  {
    if keys != [] {
      SortSorts(keys[1..]);
      assert keys[0] !in keys[1..];
      assert keys[0] !in Elements(keys[1..]);
      assert keys[0] !in Elements(Sort(keys[1..]));
      InsertSorts(keys[0], Sort(keys[1..]));
      assert Elements(keys) == Elements(keys[1..]) + {keys[0]};
    }
  }

  lemma NonemptyHasElements(keys: seq<Octets>)
    ensures keys != [] ==> Elements(keys) != {}
  {
    if keys != [] {
      assert keys[0] in Elements(keys);
    }
  }

  /** There is one way to write a set of keys in increasing order. */
  lemma {:induction false} SortedUnique(xs: seq<Octets>, ys: seq<Octets>)
    requires Sorted(xs) && Sorted(ys) && Elements(xs) == Elements(ys)
    ensures xs == ys
  {
    if xs == [] {
      NonemptyHasElements(ys);
    } else {
      assert xs[0] in Elements(ys);
      assert ys != [];
      assert ys[0] in Elements(xs);
      if xs[0] != ys[0] {
        BelowIsTotal(xs[0], ys[0]);
      }
      FirstIsGone(xs);
      FirstIsGone(ys);
      SortedUnique(xs[1..], ys[1..]);
    }
  }

  lemma FirstIsGone(xs: seq<Octets>)
    requires Sorted(xs) && xs != []
    ensures Sorted(xs[1..]) && Elements(xs[1..]) == Elements(xs) - {xs[0]}
  {
    forall i | 1 <= i < |xs| ensures xs[i] != xs[0] {
      BelowIsTotal(xs[0], xs[i]);
    }
  }

  lemma {:induction false} SortedExists(keys: set<Octets>)
    ensures exists sorted :: Sorted(sorted) && Elements(sorted) == keys
  {
    if keys == {} {
      assert Sorted([]) && Elements([]) == keys;
    } else {
      var k :| k in keys;
      SortedExists(keys - {k});
      var rest :| Sorted(rest) && Elements(rest) == keys - {k};
      assert k !in Elements(rest);
      InsertSorts(k, rest);
      assert Elements(Insert(k, rest)) == keys;
    }
  }

  ghost function SortedKeys(keys: set<Octets>): (sorted: seq<Octets>)
    ensures Sorted(sorted) && Elements(sorted) == keys
  {
    SortedExists(keys);
    var sorted :| Sorted(sorted) && Elements(sorted) == keys;
    sorted
  }

  // ---- Canonical form -----------------------------------------------------------------------

  function Encode(pair: Pair): Octets {
    QueryEscape(pair.0) + ['='] + QueryEscape(pair.1)
  }

  function EncodeAll(pairs: seq<Pair>): (parts: seq<Octets>)
    ensures |parts| == |pairs|
  {
    if pairs == [] then [] else [Encode(pairs[0])] + EncodeAll(pairs[1..])
  }

  function PairsOfKey(key: Octets, values: seq<Octets>): seq<Pair> {
    if values == [] then [] else [(key, values[0])] + PairsOfKey(key, values[1..])
  }

  function PairsOf(keys: seq<Octets>, params: Params): seq<Pair>
    requires Elements(keys) <= params.Keys
  {
    if keys == [] then []
    else
      assert keys[0] in Elements(keys) && Elements(keys[1..]) <= Elements(keys);
      PairsOfKey(keys[0], params[keys[0]]) + PairsOf(keys[1..], params)
  }

  /** The normal form of a parsed query. */
  ghost function Render(params: Params): Octets {
    Join(EncodeAll(PairsOf(SortedKeys(params.Keys), params)), '&')
  }

  ghost function Canonicalize(rawQuery: Octets): Octets {
    match ParseQuery(rawQuery)
    case None => rawQuery
    case Some(params) => Render(params)
  }

  /** What a parse can produce: every key present has a value. */
  predicate EachKeyHasValue(params: Params) {
    forall k :: k in params ==> params[k] != []
  }

  lemma EncodeShape(pair: Pair)
    ensures Encode(pair) != [] && '&' !in Encode(pair) && ';' !in Encode(pair) && '\n' !in Encode(pair)
    ensures Cut(Encode(pair), '=') == (QueryEscape(pair.0), QueryEscape(pair.1))
  {
    hide QueryEscape, Cut, IndexOf;
    EscapedAvoidsSeparators(pair.0);
    EscapedAvoidsSeparators(pair.1);
    CutAt(QueryEscape(pair.0), '=', QueryEscape(pair.1));
  }

  lemma ParseOnePair(pair: Pair, rest: Octets)
    ensures ParsePairs(Encode(pair)) == Some([pair])
    ensures ParsePairs(Encode(pair) + ['&'] + rest) ==
      match ParsePairs(rest) case None => None case Some(more) => Some([pair] + more)
  {
    EncodeShape(pair);
    UnescapeEscape(pair.0);
    UnescapeEscape(pair.1);
    CutNowhere(Encode(pair), '&');
    CutAt(Encode(pair), '&', rest);
    var query := Encode(pair) + ['&'] + rest;
    assert query[..|Encode(pair)|] == Encode(pair) && query[|Encode(pair)| + 1..] == rest;
    assert Encode(pair)[..|Encode(pair)|] == Encode(pair);
    assert ParsePairs([]) == Some([]);
    assert [pair] + [] == [pair];
  }

  lemma ParseNothing()
    ensures ParsePairs([]) == Some([])
  {
  }

  lemma {:induction false} ParsePairsOfText(pairs: seq<Pair>)
    ensures ParsePairs(Join(EncodeAll(pairs), '&')) == Some(pairs)
  {
    hide ParsePairs, Encode;
    if pairs == [] {
      ParseNothing();
    } else if |pairs| == 1 {
      ParseOnePair(pairs[0], []);
      assert EncodeAll(pairs) == [Encode(pairs[0])];
      assert pairs == [pairs[0]];
    } else {
      ParsePairsOfText(pairs[1..]);
      ParseOnePair(pairs[0], Join(EncodeAll(pairs[1..]), '&'));
      assert EncodeAll(pairs)[1..] == EncodeAll(pairs[1..]);
      assert [pairs[0]] + pairs[1..] == pairs;
    }
  }

  lemma {:induction false} ValuesOfAppend(key: Octets, a: seq<Pair>, b: seq<Pair>)
    ensures ValuesOf(key, a + b) == ValuesOf(key, a) + ValuesOf(key, b)
  {
    if a == [] {
      assert a + b == b;
    } else {
      assert (a + b)[1..] == a[1..] + b;
      ValuesOfAppend(key, a[1..], b);
    }
  }

  lemma {:induction false} ValuesOfOneKey(k: Octets, key: Octets, values: seq<Octets>)
    ensures ValuesOf(k, PairsOfKey(key, values)) == if k == key then values else []
  {
    if values != [] {
      ValuesOfOneKey(k, key, values[1..]);
      assert PairsOfKey(key, values)[1..] == PairsOfKey(key, values[1..]);
    }
  }

  lemma {:induction false} ValuesOfPairs(k: Octets, keys: seq<Octets>, params: Params)
    requires Elements(keys) <= params.Keys && Distinct(keys)
    ensures ValuesOf(k, PairsOf(keys, params)) == if k in keys then params[k] else []
  {
    if keys != [] {
      var key := keys[0];
      assert key in Elements(keys) && Elements(keys[1..]) <= Elements(keys);
      ValuesOfPairs(k, keys[1..], params);
      ValuesOfAppend(k, PairsOfKey(key, params[key]), PairsOf(keys[1..], params));
      ValuesOfOneKey(k, key, params[key]);
      assert key !in keys[1..];
      assert k in keys <==> k == key || k in keys[1..];
      if k in keys[1..] {
        assert k in Elements(keys);
      }
    }
  }

  lemma {:induction false} HasValuesExactlyWhenKey(k: Octets, pairs: seq<Pair>)
    ensures ValuesOf(k, pairs) != [] <==> k in Keys(pairs)
  {
    if pairs != [] {
      HasValuesExactlyWhenKey(k, pairs[1..]);
      if k in Keys(pairs) && pairs[0].0 != k {
        var i :| 0 <= i < |pairs| && pairs[i].0 == k;
        assert pairs[1..][i - 1].0 == k;
      }
      if k in Keys(pairs[1..]) {
        var i :| 0 <= i < |pairs[1..]| && pairs[1..][i].0 == k;
        assert pairs[i + 1].0 == k;
      }
      assert pairs[0].0 in Keys(pairs);
    }
  }

  lemma SortedIsDistinct(keys: seq<Octets>)
    requires Sorted(keys)
    ensures Distinct(keys)
  {
    forall i, j | 0 <= i < j < |keys| ensures keys[i] != keys[j] {
      BelowIsTotal(keys[i], keys[j]);
    }
  }

  lemma CollectPairsOf(keys: seq<Octets>, params: Params)
    requires Sorted(keys) && Elements(keys) == params.Keys && EachKeyHasValue(params)
    ensures Collect(PairsOf(keys, params)) == params
  {
    SortedIsDistinct(keys);
    var collected := Collect(PairsOf(keys, params));
    forall k
      ensures k in collected <==> k in params
      ensures k in params ==> collected[k] == params[k]
    {
      ValuesOfPairs(k, keys, params);
      HasValuesExactlyWhenKey(k, PairsOf(keys, params));
      assert k in keys <==> k in Elements(keys);
    }
  }

  lemma ParsedKeysHaveValues(query: Octets)
    requires ParseQuery(query).Some?
    ensures EachKeyHasValue(ParseQuery(query).value)
  {
    var pairs := ParsePairs(query).value;
    forall k | k in Collect(pairs) ensures Collect(pairs)[k] != [] {
      HasValuesExactlyWhenKey(k, pairs);
    }
  }

  lemma ParseRender(params: Params)
    requires EachKeyHasValue(params)
    ensures ParseQuery(Render(params)) == Some(params)
  {
    var keys := SortedKeys(params.Keys);
    ParsePairsOfText(PairsOf(keys, params));
    CollectPairsOf(keys, params);
  }

  /** The canonical query means what the query meant. */
  lemma CanonicalFormKeepsMeaning(query: Octets)
    ensures ParseQuery(Canonicalize(query)) == ParseQuery(query)
  {
    if ParseQuery(query).Some? {
      ParsedKeysHaveValues(query);
      ParseRender(ParseQuery(query).value);
    }
  }

  lemma CanonicalizationIsIdempotent(query: Octets)
    ensures Canonicalize(Canonicalize(query)) == Canonicalize(query)
  {
    CanonicalFormKeepsMeaning(query);
  }

  /** Queries that mean the same: both parse to the same values, or neither parses and they are equal. */
  predicate SameQuery(q1: Octets, q2: Octets) {
    ParseQuery(q1) == ParseQuery(q2) && (ParseQuery(q1).None? ==> q1 == q2)
  }

  /** One canonical form for each meaning, and one meaning for each canonical form. */
  lemma CanonicalFormsDecide(q1: Octets, q2: Octets)
    ensures Canonicalize(q1) == Canonicalize(q2) <==> SameQuery(q1, q2)
  {
    CanonicalFormKeepsMeaning(q1);
    CanonicalFormKeepsMeaning(q2);
  }

  lemma {:induction false} JoinAvoids(parts: seq<Octets>, sep: Octet, c: Octet)
    requires c != sep && forall i :: 0 <= i < |parts| ==> c !in parts[i]
    ensures c !in Join(parts, sep)
  {
    if |parts| > 1 {
      JoinAvoids(parts[1..], sep, c);
    }
  }

  lemma {:induction false} EncodeAllAvoidsNewline(pairs: seq<Pair>)
    ensures forall i :: 0 <= i < |pairs| ==> '\n' !in EncodeAll(pairs)[i]
  {
    if pairs != [] {
      EncodeShape(pairs[0]);
      EncodeAllAvoidsNewline(pairs[1..]);
    }
  }

  lemma RenderAvoidsNewline(params: Params)
    ensures '\n' !in Render(params)
  {
    var pairs := PairsOf(SortedKeys(params.Keys), params);
    EncodeAllAvoidsNewline(pairs);
    JoinAvoids(EncodeAll(pairs), '&', '\n');
  }

  // ---- The loops of the source ---------------------------------------------------------------

  lemma {:induction false} EncodeAllAppend(a: seq<Pair>, b: seq<Pair>)
    ensures EncodeAll(a + b) == EncodeAll(a) + EncodeAll(b)
  {
    if a == [] {
      assert a + b == b;
    } else {
      assert (a + b)[1..] == a[1..] + b;
      EncodeAllAppend(a[1..], b);
    }
  }

  lemma {:induction false} PairsOfKeySplit(key: Octets, values: seq<Octets>, n: nat)
    requires n < |values|
    ensures PairsOfKey(key, values[..n + 1]) == PairsOfKey(key, values[..n]) + [(key, values[n])]
  {
    if n == 0 {
      assert values[..1][1..] == [];
    } else {
      PairsOfKeySplit(key, values[1..], n - 1);
      assert values[..n + 1][1..] == values[1..][..n] && values[..n][1..] == values[1..][..n - 1];
    }
  }

  lemma {:induction false} PairsOfSplit(keys: seq<Octets>, params: Params, n: nat)
    requires n < |keys| && Elements(keys) <= params.Keys
    ensures Elements(keys[..n + 1]) <= params.Keys && Elements(keys[..n]) <= params.Keys && keys[n] in params
    ensures PairsOf(keys[..n + 1], params) == PairsOf(keys[..n], params) + PairsOfKey(keys[n], params[keys[n]])
  {
    assert forall k :: k in keys[..n + 1] ==> k in Elements(keys);
    assert forall k :: k in keys[..n] ==> k in Elements(keys);
    assert keys[n] in Elements(keys);
    if n == 0 {
      assert keys[..1][1..] == [] && keys[..0] == [];
    } else {
      assert Elements(keys[1..]) <= params.Keys by {
        assert forall k :: k in keys[1..] ==> k in Elements(keys);
      }
      PairsOfSplit(keys[1..], params, n - 1);
      assert keys[..n + 1][1..] == keys[1..][..n] && keys[..n][1..] == keys[1..][..n - 1];
    }
  }

  /** The keys are collected in whatever order the map yields them; sorting makes the order
      irrelevant. */
  method CollectSorted(params: Params) returns (keys: seq<Octets>)
    ensures keys == SortedKeys(params.Keys)
  {
    keys := [];
    var unseen := params.Keys;
    while unseen != {}
      invariant Distinct(keys) && Elements(keys) == params.Keys - unseen && unseen <= params.Keys
      decreases unseen
    {
      var k :| k in unseen;
      assert k !in Elements(keys);
      assert Elements(keys + [k]) == Elements(keys) + {k};
      keys := keys + [k];
      unseen := unseen - {k};
    }
    SortSorts(keys);
    keys := Sort(keys);
    SortedUnique(keys, SortedKeys(params.Keys));
  }

  method PrintPairs(key: Octets, values: seq<Octets>) returns (parts: seq<Octets>)
    ensures parts == EncodeAll(PairsOfKey(key, values))
  {
    parts := [];
    for j := 0 to |values|
      invariant parts == EncodeAll(PairsOfKey(key, values[..j]))
    {
      PairsOfKeySplit(key, values, j);
      EncodeAllAppend(PairsOfKey(key, values[..j]), [(key, values[j])]);
      assert EncodeAll([(key, values[j])]) == [Encode((key, values[j]))];
      parts := parts + [QueryEscape(key) + ['='] + QueryEscape(values[j])];
    }
    assert values[..|values|] == values;
  }

  method CanonicalizeQuery(rawQuery: Octets) returns (canonical: Octets)
    ensures canonical == Canonicalize(rawQuery)
  {
    if rawQuery == [] {
      RenderNothing();
      return [];
    }
    var parsed := ParseQuery(rawQuery);
    if parsed.None? {
      return rawQuery;
    }
    var params := parsed.value;
    var keys := CollectSorted(params);
    var parts: seq<Octets> := [];
    for i := 0 to |keys|
      invariant Elements(keys[..i]) <= params.Keys
      invariant parts == EncodeAll(PairsOf(keys[..i], params))
    {
      PairsOfSplit(keys, params, i);
      var printed := PrintPairs(keys[i], params[keys[i]]);
      EncodeAllAppend(PairsOf(keys[..i], params), PairsOfKey(keys[i], params[keys[i]]));
      parts := parts + printed;
    }
    assert keys[..|keys|] == keys;
    return Join(parts, '&');
  }

  lemma RenderNothing()
    ensures Canonicalize([]) == []
  {
    assert Collect([]) == map[];
    NonemptyHasElements(SortedKeys({}));
  }

  // ---- The text, octet by octet ---------------------------------------------------------------

  /** Upper-case hexadecimal digits, in ASCII. */
  lemma HexDigitCodes(n: nat)
    requires n < 16
    ensures HexDigit(n) as int == if n <= 9 then 48 + n else 55 + n
  {
  }

  /** A hexadecimal digit is read in either case. */
  lemma HexValueCodes(c: Octet)
    ensures var code := c as int;
      HexValue(c) ==
        if 48 <= code <= 57 then Some(code - 48)
        else if 65 <= code <= 70 then Some(code - 55)
        else if 97 <= code <= 102 then Some(code - 87)
        else None
  {
  }

  /** A letter, a numeral, '-', '.', '_' and '~' stand for themselves, '+' for a space, and every other octet
      is a percent sign and its value in two hexadecimal digits (sections 2.1 and 2.3 of RFC 3986). */
  lemma EscapedOctetIs(c: Octet, s: Octets)
    ensures var code := c as int;
      QueryEscape([c] + s) ==
        (if code == 32 then "+"
         else if 65 <= code <= 90 || 97 <= code <= 122 || 48 <= code <= 57 || code in {45, 46, 95, 126} then [c]
         else ['%', HexDigit(code / 16), HexDigit(code % 16)]) + QueryEscape(s)
    ensures QueryEscape([]) == []
  {
    assert ([c] + s)[1..] == s;
  }

  /** Reading goes octet by octet: '+' is a space, '%' takes two hexadecimal digits or fails. */
  lemma UnescapedOctetIs(c: Octet, s: Octets)
    requires c != '%'
    ensures QueryUnescape([c] + s) ==
      match QueryUnescape(s) case None => None case Some(rest) => Some([if c == '+' then ' ' else c] + rest)
    ensures QueryUnescape([]) == Some([])
  {
    assert ([c] + s)[1..] == s;
  }

  lemma UnescapedPercentIs(h: Octet, l: Octet, s: Octets)
    ensures QueryUnescape(['%', h, l] + s) ==
      if HexValue(h).None? || HexValue(l).None? then None
      else
        match QueryUnescape(s)
        case None => None
        case Some(rest) => Some([(HexValue(h).value * 16 + HexValue(l).value) as char] + rest)
    ensures QueryUnescape(['%']) == None && QueryUnescape(['%', h]) == None
  {
    assert (['%', h, l] + s)[3..] == s;
  }

  /** A query is read segment by segment: one with a semicolon fails, an empty one is skipped, and the
      others are split at the first equals sign. */
  lemma SegmentIs(segment: Octets, rest: Octets)
    requires '&' !in segment
    ensures ';' in segment ==> ParsePairs(segment + ['&'] + rest) == None && ParsePairs(segment) == None
    ensures segment == [] ==> ParsePairs(segment + ['&'] + rest) == ParsePairs(rest) && ParsePairs(segment) == Some([])
  {
    hide QueryUnescape;
    CutAt(segment, '&', rest);
    CutNowhere(segment, '&');
    var query := segment + ['&'] + rest;
    assert query[..|segment|] == segment && query[|segment| + 1..] == rest;
    assert segment[..|segment|] == segment;
  }

  lemma PairIs(key: Octets, value: Octets, hasValue: bool, rest: Octets)
    requires '&' !in key && ';' !in key && '=' !in key && '&' !in value && ';' !in value
    requires if hasValue then true else key != [] && value == []
    ensures var segment := if hasValue then key + ['='] + value else key;
      && ParsePairs(segment + ['&'] + rest) == OnePair(key, value, ParsePairs(rest))
      && ParsePairs(segment) == OnePair(key, value, Some([]))
  {
    hide QueryUnescape;
    var segment := if hasValue then key + ['='] + value else key;
    CutAt(key, '=', value);
    CutNowhere(key, '=');
    CutAt(segment, '&', rest);
    CutNowhere(segment, '&');
    var query := segment + ['&'] + rest;
    assert query[..|segment|] == segment && query[|segment| + 1..] == rest;
    assert segment[..|segment|] == segment;
    ParseNothing();
  }

  /** A pair before others, both parts unescaped. */
  function OnePair(key: Octets, value: Octets, more: Option<seq<Pair>>): Option<seq<Pair>> {
    match (QueryUnescape(key), QueryUnescape(value), more)
    case (Some(k), Some(v), Some(pairs)) => Some([(k, v)] + pairs)
    case _ => None
  }

  /** The values of a key are those of its pairs, in their order. */
  lemma ValuesInOrder(key: Octets, a: seq<Pair>, pair: Pair, b: seq<Pair>)
    ensures ValuesOf(key, a + [pair] + b) ==
      ValuesOf(key, a) + (if pair.0 == key then [pair.1] else []) + ValuesOf(key, b)
    ensures ValuesOf(key, []) == []
  {
    ValuesOfAppend(key, a + [pair], b);
    ValuesOfAppend(key, a, [pair]);
    assert [pair][1..] == [];
    assert ValuesOf(key, [pair]) == if pair.0 == key then [pair.1] else [];
  }

  /** The order of strings: a proper prefix comes first, and otherwise the smaller octet at the first
      difference. */
  ghost predicate Precedes(a: Octets, b: Octets) {
    (|a| < |b| && a == b[..|a|]) || exists i :: FirstDifference(a, b, i)
  }

  predicate FirstDifference(a: Octets, b: Octets, i: nat) {
    i < |a| && i < |b| && a[..i] == b[..i] && a[i] as int < b[i] as int
  }

  lemma {:induction false} BelowExactly(a: Octets, b: Octets)
    ensures Below(a, b) <==> Precedes(a, b)
  {
    if a == [] {
    } else if b != [] && a[0] == b[0] {
      BelowExactly(a[1..], b[1..]);
      assert a == [a[0]] + a[1..] && b == [b[0]] + b[1..];
      if i: nat :| FirstDifference(a[1..], b[1..], i) {
        assert a[..i + 1] == [a[0]] + a[1..][..i] && b[..i + 1] == [b[0]] + b[1..][..i];
        assert FirstDifference(a, b, i + 1);
      }
      if i: nat :| FirstDifference(a, b, i) {
        assert i > 0;
        assert a[1..][..i - 1] == a[..i][1..] && b[1..][..i - 1] == b[..i][1..];
        assert FirstDifference(a[1..], b[1..], i - 1);
      }
      if |a| < |b| && a[1..] == b[1..][..|a| - 1] {
        assert b[..|a|] == [b[0]] + b[1..][..|a| - 1];
      }
      if |a| < |b| && a == b[..|a|] {
        assert a[1..] == b[..|a|][1..] == b[1..][..|a| - 1];
      }
    } else if b != [] && a[0] < b[0] {
      assert FirstDifference(a, b, 0);
    } else if b != [] {
      if Precedes(a, b) {
        FirstNotGreater(a, b);
      }
    }
  }

  lemma FirstNotGreater(a: Octets, b: Octets)
    requires a != [] && b != [] && Precedes(a, b)
    ensures a[0] <= b[0]
  {
    if i: nat :| FirstDifference(a, b, i) {
      assert i > 0 ==> a[..i][0] == b[..i][0];
    } else {
      assert a[0] == b[..|a|][0];
    }
  }

  /** Consecutive pairs have the same key, or keys in order. */
  ghost predicate KeysAscend(pairs: seq<Pair>) {
    forall i :: 0 <= i < |pairs| - 1 ==> pairs[i].0 == pairs[i + 1].0 || Precedes(pairs[i].0, pairs[i + 1].0)
  }

  lemma {:induction false} PairsOfKeyHaveIt(key: Octets, values: seq<Octets>)
    ensures |PairsOfKey(key, values)| == |values|
    ensures forall i :: 0 <= i < |values| ==> PairsOfKey(key, values)[i] == (key, values[i])
  {
    if values != [] {
      PairsOfKeyHaveIt(key, values[1..]);
    }
  }

  lemma {:induction false} PairsAscend(keys: seq<Octets>, params: Params)
    requires Sorted(keys) && Elements(keys) <= params.Keys
    ensures KeysAscend(PairsOf(keys, params))
    ensures forall i :: 0 <= i < |PairsOf(keys, params)| ==> PairsOf(keys, params)[i].0 in keys
  {
    hide Below, Precedes;
    if keys != [] {
      var key, rest := keys[0], keys[1..];
      assert key in Elements(keys) && Elements(rest) <= Elements(keys);
      PairsAscend(rest, params);
      var first, more := PairsOfKey(key, params[key]), PairsOf(rest, params);
      PairsOfKeyHaveIt(key, params[key]);
      var pairs := first + more;
      forall i | 0 <= i < |pairs| - 1 ensures pairs[i].0 == pairs[i + 1].0 || Precedes(pairs[i].0, pairs[i + 1].0) {
        if i == |first| - 1 {
          assert more[0].0 in rest;
          var j :| 0 <= j < |rest| && rest[j] == more[0].0;
          assert Below(keys[0], keys[j + 1]);
          BelowExactly(key, more[0].0);
        } else if i >= |first| {
          assert pairs[i] == more[i - |first|] && pairs[i + 1] == more[i + 1 - |first|];
        }
      }
    }
  }

  lemma {:induction false} EncodeAllIs(pairs: seq<Pair>)
    ensures forall i :: 0 <= i < |pairs| ==> EncodeAll(pairs)[i] == QueryEscape(pairs[i].0) + ['='] + QueryEscape(pairs[i].1)
  {
    if pairs != [] {
      EncodeAllIs(pairs[1..]);
    }
  }

  /** The canonical text: the pairs it reads back to, each escaped, joined by '&', with the keys in
      ascending order. An unparsable query stays as it is. */
  lemma CanonicalTextIs(query: Octets)
    ensures ParseQuery(query).None? ==> Canonicalize(query) == query
    ensures ParseQuery(query).Some? ==>
      && ParsePairs(Canonicalize(query)).Some?
      && var pairs := ParsePairs(Canonicalize(query)).value;
         && KeysAscend(pairs)
         && (forall k :: k in ParseQuery(query).value ==> ValuesOf(k, pairs) == ParseQuery(query).value[k])
         && exists parts: seq<Octets> ::
              && |parts| == |pairs| && Canonicalize(query) == Join(parts, '&')
              && forall i :: 0 <= i < |pairs| ==> parts[i] == QueryEscape(pairs[i].0) + ['='] + QueryEscape(pairs[i].1)
  {
    hide ParsePairs, Join, KeysAscend, QueryEscape;
    if ParseQuery(query).Some? {
      var params := ParseQuery(query).value;
      var keys := SortedKeys(params.Keys);
      var pairs := PairsOf(keys, params);
      ParsePairsOfText(pairs);
      PairsAscend(keys, params);
      EncodeAllIs(pairs);
      SortedIsDistinct(keys);
      forall k | k in params ensures ValuesOf(k, pairs) == params[k] {
        ValuesOfPairs(k, keys, params);
        assert k in Elements(keys);
      }
      assert Canonicalize(query) == Join(EncodeAll(pairs), '&');
    }
  }
}
