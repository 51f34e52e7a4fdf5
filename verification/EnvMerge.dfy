/** Merging environment variables of two priorities: the higher one is extended by
    the lower one's entries for keys it does not define. */
module EnvMerge {
  import opened Common
  import opened GoStrings

  /** KEY=VALUE with exactly one '='; other entries define nothing. */
  predicate WellFormed(entry: string) { |Split(entry, '=')| == 2 }

  function Key(entry: string): string
    requires WellFormed(entry)
  {
    Split(entry, '=')[0]
  }

  /** An entry is well formed exactly when it has one '=', and its key is what stands
      before it. */
  lemma EntryMeaning(k: string, v: string)
    requires '=' !in k && '=' !in v
    ensures WellFormed(k + "=" + v) && Key(k + "=" + v) == k
  {
    SplitJoin([k, v], '=');
    assert Join([v], '=') == v;
    assert Join([k, v], '=') == k + "=" + v by { assert [k, v][1..] == [v]; }
  }

  lemma WellFormedMeaning(e: string)
    ensures WellFormed(e) <==> exists k, v :: '=' !in k && '=' !in v && e == k + "=" + v
  {
    if WellFormed(e) {
      var parts := Split(e, '=');
      JoinSplit(e, '=');
      assert parts[1..] == [parts[1]] && Join(parts[1..], '=') == parts[1];
      assert e == parts[0] + "=" + parts[1];
    }
    if k, v :| '=' !in k && '=' !in v && e == k + "=" + v {
      EntryMeaning(k, v);
    }
  }

  function Keys(env: seq<string>): set<string> {
    set e | e in env && WellFormed(e) :: Key(e)
  }

  lemma KeysLast(env: seq<string>, e: string)
    ensures Keys(env + [e]) == Keys(env) + (if WellFormed(e) then {Key(e)} else {})
  {
  }

  predicate Adds(entry: string, taken: set<string>) { WellFormed(entry) && Key(entry) !in taken }

  function Additions(patch: seq<string>, taken: set<string>): seq<string> {
    Filter(patch, (e: string) => Adds(e, taken))
  }

  function Merge(base: seq<string>, patch: seq<string>): seq<string> { base + Additions(patch, Keys(base)) }

  class EnvList {
    var items: seq<string>

    constructor (items: seq<string>)
      ensures this.items == items
    {
      this.items := items;
    }
  }

  /** MergeEnvironmentVariables appends to the base list in place and returns it; the
      two pointers may be the same. */
  method MergeEnvironmentVariables(base: EnvList, patch: EnvList) returns (merged: seq<string>)
    modifies base`items
    ensures merged == base.items == Merge(old(base.items), old(patch.items))
  {
    var cliEnvVarMap: map<string, bool> := map[];
    for k := 0 to |base.items|
      invariant base.items == old(base.items) && patch.items == old(patch.items)
      invariant cliEnvVarMap.Keys == Keys(base.items[..k])
      invariant forall key :: key in cliEnvVarMap ==> cliEnvVarMap[key]
    {
      assert base.items[..k + 1] == base.items[..k] + [base.items[k]];
      KeysLast(base.items[..k], base.items[k]);
      var maybeKeyVal := Split(base.items[k], '=');
      if |maybeKeyVal| != 2 {
        continue;
      }
      cliEnvVarMap := cliEnvVarMap[maybeKeyVal[0] := true];
    }
    assert base.items[..|base.items|] == base.items;
    ghost var taken := Keys(base.items);
    var templateVars := patch.items;
    for k := 0 to |templateVars|
      invariant base.items == old(base.items) + Additions(templateVars[..k], taken)
    {
      var templateVar := templateVars[k];
      assert templateVars[..k + 1] == templateVars[..k] + [templateVar];
      FilterLast(templateVars[..k], templateVar, (e: string) => Adds(e, taken));
      var maybeKeyVal := Split(templateVar, '=');
      if |maybeKeyVal| != 2 {
        continue;
      }
      var key := maybeKeyVal[0];
      if !(key in cliEnvVarMap && cliEnvVarMap[key]) {
        base.items := base.items + [templateVar];
      }
    }
    assert templateVars[..|templateVars|] == templateVars;
    return base.items;
  }

  // ----- the algebra

  lemma {:induction false} FilterAppend<T>(a: seq<T>, b: seq<T>, p: T -> bool)
    ensures Filter(a + b, p) == Filter(a, p) + Filter(b, p)
  {
    if b == [] {
      assert a + b == a;
    } else {
      var front, last := b[..|b| - 1], b[|b| - 1];
      assert a + b == (a + front) + [last];
      FilterLast(a + front, last, p);
      FilterAppend(a, front, p);
    }
  }

  lemma {:induction false} FilterTwice<T>(s: seq<T>, p: T -> bool, q: T -> bool, both: T -> bool)
    requires forall x :: x in s ==> (both(x) <==> p(x) && q(x))
    ensures Filter(Filter(s, p), q) == Filter(s, both)
  {
    if s != [] {
      var front, last := s[..|s| - 1], s[|s| - 1];
      FilterTwice(front, p, q, both);
      FilterLast(Filter(front, p), last, q);
    }
  }

  lemma {:induction false} InFilter<T>(s: seq<T>, p: T -> bool, x: T)
    ensures x in Filter(s, p) <==> x in s && p(x)
  {
    if s != [] {
      InFilter(s[..|s| - 1], p, x);
      assert s == s[..|s| - 1] + [s[|s| - 1]];
    }
  }

  /** What is added brings exactly the keys that were missing. */
  lemma MergedKeys(base: seq<string>, patch: seq<string>)
    ensures Keys(Merge(base, patch)) == Keys(base) + Keys(patch)
  {
    var taken := Keys(base);
    var added := Additions(patch, taken);
    forall e ensures e in added <==> e in patch && Adds(e, taken) {
      InFilter(patch, (e: string) => Adds(e, taken), e);
    }
    forall key | key in Keys(patch) ensures key in Keys(Merge(base, patch)) {
      var e :| e in patch && WellFormed(e) && Key(e) == key;
      if key !in taken {
        assert e in added;
      } else {
        var b :| b in base && WellFormed(b) && Key(b) == key;
        assert b in Merge(base, patch);
      }
    }
    forall key | key in Keys(base) ensures key in Keys(Merge(base, patch)) {
      var b :| b in base && WellFormed(b) && Key(b) == key;
      assert b in Merge(base, patch);
    }
  }

  /** Command line over administrator over user template gives one result, however
      the layers are bracketed. */
  lemma MergeAssociative(a: seq<string>, b: seq<string>, c: seq<string>)
    ensures Merge(Merge(a, b), c) == Merge(a, Merge(b, c))
  {
    var ka, kb := Keys(a), Keys(b);
    MergedKeys(a, b);
    var late := Additions(c, kb);
    FilterAppend(b, late, (e: string) => Adds(e, ka));
    FilterTwice(c, (e: string) => Adds(e, kb), (e: string) => Adds(e, ka), (e: string) => Adds(e, ka + kb));
    assert Additions(b + late, ka) == Additions(b, ka) + Additions(c, ka + kb);
    assert a + (Additions(b, ka) + Additions(c, ka + kb)) == a + Additions(b, ka) + Additions(c, ka + kb);
  }

  lemma MergeIdempotent(a: seq<string>)
    ensures Merge(a, a) == a
  {
    FilterNone(a, (e: string) => Adds(e, Keys(a)));
  }

  /** The higher-priority list stays in front unchanged; an entry of the lower one is
      appended, as often as it occurs there, exactly when it is well formed and its
      key is not defined by the higher one. */
  lemma MergePriority(base: seq<string>, patch: seq<string>, e: string)
    ensures base <= Merge(base, patch)
    ensures multiset(Merge(base, patch)[|base|..])[e]
            == if WellFormed(e) && Key(e) !in Keys(base) then multiset(patch)[e] else 0
  {
    assert Merge(base, patch)[|base|..] == Additions(patch, Keys(base));
    var taken := Keys(base);
    FilterCounts(patch, (e: string) => Adds(e, taken), e);
  }

  /** mergeSubmitTemplates gives the patch template priority over the base one, and
      the command line comes over both. */
  lemma LayersAgree(cli: seq<string>, admin: seq<string>, user: seq<string>)
    ensures Merge(cli, Merge(admin, user)) == Merge(Merge(cli, admin), user)
    ensures Keys(Merge(cli, Merge(admin, user))) == Keys(cli) + Keys(admin) + Keys(user)
  {
    MergeAssociative(cli, admin, user);
    MergedKeys(admin, user);
    MergedKeys(cli, Merge(admin, user));
  }

  /** Of two entries for the same key the one of the higher layer wins, whatever the
      values: none of the lower layer's entries for it is added; and a key that the
      higher layer does not set keeps every entry of the lower one. */
  lemma FirstLayerWins(base: seq<string>, patch: seq<string>, k: string, w: string)
    requires '=' !in k && '=' !in w
    ensures var e, added := k + "=" + w, Merge(base, patch)[|base|..];
            if exists v :: '=' !in v && k + "=" + v in base then e !in added
            else multiset(added)[e] == multiset(patch)[e]
  {
    EntryMeaning(k, w);
    var e := k + "=" + w;
    MergePriority(base, patch, e);
    if v :| '=' !in v && k + "=" + v in base {
      EntryMeaning(k, v);
      assert k in Keys(base);
    } else if k in Keys(base) {
      var b :| b in base && WellFormed(b) && Key(b) == k;
      WellFormedMeaning(b);
      var k1, v1 :| '=' !in k1 && '=' !in v1 && b == k1 + "=" + v1;
      EntryMeaning(k1, v1);
      assert false;
    }
  }
}
