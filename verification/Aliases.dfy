/** Alias rewriting of action parameters (connectors/normalize.go): every alias key becomes its
    canonical key, in whatever order the alias map happens to be iterated. Parameter values are kept as
    the text they were sent as. */
module Aliases {
  import opened Options
  import opened Sequences

  type Params = map<string, string>

  /** The original bytes, or a rewritten object. */
  datatype Output = Unchanged | Rewritten(params: Params)

  function RewriteOne(aliases: map<string, string>, m: Params, alias: string): Params
    requires alias in aliases
  {
    var canonical := aliases[alias];
    if alias !in m then m
    else if canonical in m then m - {alias}
    else m[canonical := m[alias]] - {alias}
  }

  /** The rewrite in a given iteration order. */
  function Rewrite(aliases: map<string, string>, m: Params, order: seq<string>): Params
    requires forall i :: 0 <= i < |order| ==> order[i] in aliases
  {
    if order == [] then m
    else RewriteOne(aliases, Rewrite(aliases, m, order[..|order| - 1]), order[|order| - 1])
  }

  ghost predicate IsOrder(aliases: map<string, string>, order: seq<string>) {
    Distinct(order) && forall a :: a in order <==> a in aliases
  }

  /** Rewrites the object in place, one alias after another, in an order of the runtime's choosing. An
      object that cannot be parsed, or that holds no alias, is passed through. */
  method NormalizeParameters(aliases: map<string, string>, params: Option<Params>) returns (out: Output, ghost order: seq<string>)
    ensures IsOrder(aliases, order)
    ensures params.None? || aliases == map[] ==> out == Unchanged
    ensures params.Some? && out.Rewritten? ==> out.params == Rewrite(aliases, params.value, order)
    ensures params.Some? && out == Unchanged ==> Rewrite(aliases, params.value, order) == params.value
    ensures params.Some? ==> (out.Rewritten? <==> exists a :: a in aliases && a in params.value)
  {
    order := [];
    if params.None? {
      SomeOrder(aliases);
      order :| IsOrder(aliases, order);
      return Unchanged, order;
    }
    var m := params.value;
    var changed := false;
    var todo := aliases.Keys;
    while todo != {}
      invariant todo <= aliases.Keys && Distinct(order)
      invariant forall a :: a in order <==> a in aliases && a !in todo
      invariant m == Rewrite(aliases, params.value, order)
      invariant !changed ==> m == params.value && forall a :: a in order ==> a !in m
      invariant changed ==> exists a :: a in aliases && a in params.value
      decreases |todo|
    {
      var alias :| alias in todo;
      todo := todo - {alias};
      ghost var next := order + [alias];
      assert next[..|order|] == order;
      order := next;
      var canonical := aliases[alias];
      if canonical in m {
        if alias in m {
          m := m - {alias};
          changed := true;
        }
      } else if alias in m {
        m := m[canonical := m[alias]] - {alias};
        changed := true;
      }
    }
    out := if changed then Rewritten(m) else Unchanged;
  }

  lemma {:induction false} SomeOrder(aliases: map<string, string>)
    ensures exists order :: IsOrder(aliases, order)
    decreases |aliases|
  {
    if aliases == map[] {
      assert IsOrder(aliases, []);
    } else {
      var a :| a in aliases;
      OrderStartingWith(aliases, a);
    }
  }

  lemma {:induction false} OrderStartingWith(aliases: map<string, string>, first: string)
    requires first in aliases
    ensures exists order :: IsOrder(aliases, order) && order[..1] == [first]
    decreases |aliases|, 0
  {
    var rest := aliases - {first};
    assert rest.Keys == aliases.Keys - {first};
    SomeOrder(rest);
    var tail :| IsOrder(rest, tail);
    assert IsOrder(aliases, [first] + tail);
    assert ([first] + tail)[..1] == [first];
  }

  // ---- The order does not matter ---------------------------------------------------------------------

  /** Every alias maps straight to a final key: chains are not supported. */
  predicate ChainFree(aliases: map<string, string>) {
    forall a :: a in aliases ==> aliases[a] !in aliases
  }

  /** The first alias of `key` in the order that the object holds. */
  function FirstAlias(aliases: map<string, string>, m: Params, order: seq<string>, key: string): Option<string>
    requires forall i :: 0 <= i < |order| ==> order[i] in aliases
  {
    if order == [] then None
    else
      var before := FirstAlias(aliases, m, order[..|order| - 1], key);
      var a := order[|order| - 1];
      if before.Some? then before
      else if a in m && aliases[a] == key then Some(a)
      else None
  }

  lemma {:induction false} FirstAliasExists(aliases: map<string, string>, m: Params, order: seq<string>, key: string)
    requires forall i :: 0 <= i < |order| ==> order[i] in aliases
    ensures var f := FirstAlias(aliases, m, order, key);
      && (f.Some? <==> exists a :: a in order && a in m && aliases[a] == key)
      && (f.Some? ==> f.value in order && f.value in m && aliases[f.value] == key)
  {
    if order != [] {
      FirstAliasExists(aliases, m, order[..|order| - 1], key);
      assert order == order[..|order| - 1] + [order[|order| - 1]];
    }
  }

  predicate Leads(aliases: map<string, string>, m: Params, alias: string, key: string) {
    alias in aliases && alias in m && aliases[alias] == key
  }

  predicate LeadsFirst(aliases: map<string, string>, m: Params, order: seq<string>, key: string, i: nat) {
    i < |order| && Leads(aliases, m, order[i], key) && forall j :: 0 <= j < i ==> !Leads(aliases, m, order[j], key)
  }

  /** Of the aliases of `key` that are present the earliest in the order is the first. */
  lemma {:induction false} FirstAliasExactly(aliases: map<string, string>, m: Params, order: seq<string>, key: string, i: nat)
    requires (forall k :: 0 <= k < |order| ==> order[k] in aliases) && LeadsFirst(aliases, m, order, key, i)
    ensures FirstAlias(aliases, m, order, key) == Some(order[i])
  {
    var before := order[..|order| - 1];
    if i < |before| {
      assert before[i] == order[i] && forall j :: 0 <= j < i ==> before[j] == order[j];
      FirstAliasExactly(aliases, m, before, key, i);
    } else {
      NoAlias(aliases, m, before, key);
    }
  }

  lemma {:induction false} NoAlias(aliases: map<string, string>, m: Params, order: seq<string>, key: string)
    requires forall k :: 0 <= k < |order| ==> order[k] in aliases && !Leads(aliases, m, order[k], key)
    ensures FirstAlias(aliases, m, order, key) == None
  {
    if order != [] {
      NoAlias(aliases, m, order[..|order| - 1], key);
    }
  }

  /** What the rewrite leaves at each key: nothing at an alias it has passed; a value the object had at
      its canonical key; else the value of the first alias. */
  lemma {:induction false} RewriteAt(aliases: map<string, string>, m: Params, order: seq<string>, key: string)
    requires ChainFree(aliases) && Distinct(order) && forall i :: 0 <= i < |order| ==> order[i] in aliases
    ensures var r := Rewrite(aliases, m, order);
      var f := FirstAlias(aliases, m, order, key);
      && (key in r <==> if key in aliases then key in m && key !in order else key in m || f.Some?)
      && (key in r && key in m ==> r[key] == m[key])
      && (key in r && key !in m ==> f.Some? && f.value in m && r[key] == m[f.value])
  {
    if order != [] {
      var before, a := order[..|order| - 1], order[|order| - 1];
      assert order == before + [a];
      RewriteAt(aliases, m, before, key);
      RewriteAt(aliases, m, before, a);
      RewriteAt(aliases, m, before, aliases[a]);
    }
  }

  /** The aliases of a missing key that the object holds carry one value. */
  predicate Agree(aliases: map<string, string>, m: Params) {
    forall a, b :: a in aliases && b in aliases && a in m && b in m && aliases[a] == aliases[b] && aliases[a] !in m ==> m[a] == m[b]
  }

  ghost predicate OrderIsInvisible(aliases: map<string, string>, m: Params) {
    forall o1, o2 :: IsOrder(aliases, o1) && IsOrder(aliases, o2) ==> Rewrite(aliases, m, o1) == Rewrite(aliases, m, o2)
  }

  /** Confluence: every iteration order gives the same object exactly when the aliases present for a
      missing key agree, in particular when there is at most one. */
  lemma RewritingIsConfluentExactly(aliases: map<string, string>, m: Params)
    requires ChainFree(aliases)
    ensures OrderIsInvisible(aliases, m) <==> Agree(aliases, m)
  {
    if Agree(aliases, m) {
      forall o1, o2 | IsOrder(aliases, o1) && IsOrder(aliases, o2)
        ensures Rewrite(aliases, m, o1) == Rewrite(aliases, m, o2)
      {
        SameInAnyOrder(aliases, m, o1, o2);
      }
    } else {
      var a, b :| a in aliases && b in aliases && a in m && b in m && aliases[a] == aliases[b] && aliases[a] !in m && m[a] != m[b];
      OrderStartingWith(aliases, a);
      OrderStartingWith(aliases, b);
      var o1 :| IsOrder(aliases, o1) && o1[..1] == [a];
      var o2 :| IsOrder(aliases, o2) && o2[..1] == [b];
      FirstWins(aliases, m, o1, a);
      FirstWins(aliases, m, o2, b);
    }
  }

  lemma SameInAnyOrder(aliases: map<string, string>, m: Params, o1: seq<string>, o2: seq<string>)
    requires ChainFree(aliases) && Agree(aliases, m) && IsOrder(aliases, o1) && IsOrder(aliases, o2)
    ensures Rewrite(aliases, m, o1) == Rewrite(aliases, m, o2)
  {
    var r1, r2 := Rewrite(aliases, m, o1), Rewrite(aliases, m, o2);
    forall key ensures (key in r1 <==> key in r2) && (key in r1 && key in r2 ==> r1[key] == r2[key]) {
      RewriteAt(aliases, m, o1, key);
      RewriteAt(aliases, m, o2, key);
      FirstAliasExists(aliases, m, o1, key);
      FirstAliasExists(aliases, m, o2, key);
    }
  }

  lemma {:induction false} FirstWins(aliases: map<string, string>, m: Params, order: seq<string>, a: string)
    requires ChainFree(aliases) && IsOrder(aliases, order) && order != [] && order[..1] == [a]
    requires a in aliases && a in m && aliases[a] !in m
    ensures aliases[a] in Rewrite(aliases, m, order) && Rewrite(aliases, m, order)[aliases[a]] == m[a]
  {
    RewriteAt(aliases, m, order, aliases[a]);
    FirstAliasIs(aliases, m, order, a);
  }

  lemma {:induction false} FirstAliasIs(aliases: map<string, string>, m: Params, order: seq<string>, a: string)
    requires (forall i :: 0 <= i < |order| ==> order[i] in aliases) && order != [] && order[..1] == [a] && a in aliases && a in m
    ensures FirstAlias(aliases, m, order, aliases[a]) == Some(a)
  {
    assert a == order[..1][0];
    if |order| > 1 {
      var before := order[..|order| - 1];
      assert before[..1] == order[..1];
      FirstAliasIs(aliases, m, before, a);
    }
  }

  /** The outcome, whatever the order: no alias is left, keys that are neither alias nor canonical are
      untouched, a canonical value wins over its aliases, and rewriting again changes nothing. */
  lemma RewriteIsNormal(aliases: map<string, string>, m: Params, order: seq<string>, again: seq<string>)
    requires ChainFree(aliases) && IsOrder(aliases, order) && IsOrder(aliases, again)
    ensures var r := Rewrite(aliases, m, order);
      && (forall key :: key in r ==> key !in aliases)
      && (forall key :: key in m && key !in aliases ==> key in r && r[key] == m[key])
      && (forall a :: a in aliases && a in m ==> aliases[a] in r)
      && (forall key :: key in r && key !in m ==> exists a :: a in aliases && a in m && aliases[a] == key && r[key] == m[a])
      && Rewrite(aliases, r, again) == r
  {
    var r := Rewrite(aliases, m, order);
    forall key ensures key in r ==> key !in aliases {
      RewriteAt(aliases, m, order, key);
    }
    forall key | key in m && key !in aliases ensures key in r && r[key] == m[key] {
      RewriteAt(aliases, m, order, key);
    }
    forall a | a in aliases && a in m ensures aliases[a] in r {
      RewriteAt(aliases, m, order, aliases[a]);
      FirstAliasExists(aliases, m, order, aliases[a]);
    }
    forall key | key in r && key !in m ensures exists a :: a in aliases && a in m && aliases[a] == key && r[key] == m[a] {
      RewriteAt(aliases, m, order, key);
      FirstAliasExists(aliases, m, order, key);
    }
    NothingToRewrite(aliases, r, again);
  }

  lemma {:induction false} NothingToRewrite(aliases: map<string, string>, m: Params, order: seq<string>)
    requires (forall i :: 0 <= i < |order| ==> order[i] in aliases) && forall key :: key in m ==> key !in aliases
    ensures Rewrite(aliases, m, order) == m
  {
    if order != [] {
      NothingToRewrite(aliases, m, order[..|order| - 1]);
    }
  }
}
