/**
 * `groupModelsByFamily` (lib/utils.ts:262-283): models are grouped by the
 * string `${display_name}-${provider}`. A group is created, in a `Map`, the
 * first time its key is seen, with the display name, provider and family of
 * that model, and every model is pushed onto its group's items. The result
 * is the map's values in insertion order.
 *
 * `Grouped` describes the result without the map: one group per key, in
 * order of each key's first occurrence (`Leaders`), holding the models with
 * that key (`Members`). The method is proved to compute it.
 */
module Grouping {
  import opened Wrappers
  import opened Sequences
  import opened Models

  datatype Group = Group(displayName: string, provider: Option<string>, family: ModelFamily, items: seq<ModelRecord>)

  /** How a template literal prints an optional string: a missing provider reads `undefined`. */
  function ProviderText(provider: Option<string>): string
  {
    match provider
    case None => "undefined"
    case Some(p) => p
  }

  function GroupKey(m: ModelRecord): string
  {
    m.displayName + "-" + ProviderText(m.provider)
  }

  /**
   * The key tells display names and providers apart as long as no display
   * name contains a dash: then two models share a key exactly when they
   * share the display name and the printed provider.
   */
  lemma GroupKeySeparates(a: ModelRecord, b: ModelRecord)
    requires '-' !in a.displayName && '-' !in b.displayName
    ensures GroupKey(a) == GroupKey(b) <==>
      a.displayName == b.displayName && ProviderText(a.provider) == ProviderText(b.provider)
  {
    var ka, kb := GroupKey(a), GroupKey(b);
    var da, db := a.displayName, b.displayName;
    assert ka[|da|] == '-' && forall i :: 0 <= i < |da| ==> ka[i] == da[i];
    assert kb[|db|] == '-' && forall i :: 0 <= i < |db| ==> kb[i] == db[i];
    if ka == kb {
      assert |da| == |db|;
      assert da == ka[..|da|] && db == kb[..|db|];
      assert ProviderText(a.provider) == ka[|da| + 1..] && ProviderText(b.provider) == kb[|db| + 1..];
    }
  }

  /** The models with key `k`, in input order. */
  function Members(models: seq<ModelRecord>, k: string): seq<ModelRecord>
  {
    Filter(models, (m: ModelRecord) => GroupKey(m) == k)
  }

  function KeysOf(leaders: seq<ModelRecord>): seq<string>
  {
    seq(|leaders|, i requires 0 <= i < |leaders| => GroupKey(leaders[i]))
  }

  /** The first model of each key, in order of first occurrence. */
  function Leaders(models: seq<ModelRecord>): seq<ModelRecord>
  {
    if models == [] then []
    else
      var leaders := Leaders(models[..|models| - 1]);
      var m := models[|models| - 1];
      if GroupKey(m) in KeysOf(leaders) then leaders else leaders + [m]
  }

  /** The group a leader opens: its header fields and every model with its key. */
  function GroupOf(leader: ModelRecord, models: seq<ModelRecord>): Group
  {
    Group(leader.displayName, leader.provider, leader.family, Members(models, GroupKey(leader)))
  }

  function Grouped(models: seq<ModelRecord>): seq<Group>
  {
    var leaders := Leaders(models);
    seq(|leaders|, i requires 0 <= i < |leaders| => GroupOf(leaders[i], models))
  }

  /** The index of the first model with key `k`, or `|models|` when there is none. */
  function FirstWith(models: seq<ModelRecord>, k: string): (r: nat)
    ensures r <= |models|
  {
    if models == [] then 0
    else
      var n := |models| - 1;
      var f := FirstWith(models[..n], k);
      if f < n then f else if GroupKey(models[n]) == k then n else n + 1
  }

  /**
   * The map and its insertion order describe the groups of `models`: the
   * keys in order of first occurrence, each mapped to its group so far.
   */
  ghost predicate Represents(grouped: map<string, Group>, order: seq<string>, models: seq<ModelRecord>)
  {
    && order == KeysOf(Leaders(models))
    && (forall k :: k in grouped <==> k in order)
    && forall j :: 0 <= j < |order| ==> grouped[order[j]] == GroupOf(Leaders(models)[j], models)
  }

  /** `groupModelsByFamily(models)`: a map from key to group, and the keys in insertion order. */
  method GroupModelsByFamily(models: seq<ModelRecord>) returns (groups: seq<Group>)
    ensures groups == Grouped(models)
  {
    var grouped: map<string, Group> := map[];
    var order: seq<string> := [];
    for i := 0 to |models|
      invariant Represents(grouped, order, models[..i])
    {
      var model := models[i];
      var key := GroupKey(model);
      ghost var before, orderBefore := grouped, order;
      if key !in grouped {
        grouped := grouped[key := Group(model.displayName, model.provider, model.family, [])];
        order := order + [key];
      }
      ghost var withGroup := grouped;
      grouped := grouped[key := grouped[key].(items := grouped[key].items + [model])];
      AddModel(before, orderBefore, models[..i], model, withGroup, grouped, order);
      assert models[..i + 1] == models[..i] + [model];
    }
    assert models[..|models|] == models;
    groups := Values(grouped, order);
    ReadOut(grouped, order, models, groups);
  }

  /** `Array.from(grouped.values())`: the map's values, in the insertion order `order` records. */
  method Values(grouped: map<string, Group>, order: seq<string>) returns (groups: seq<Group>)
    requires forall t :: 0 <= t < |order| ==> order[t] in grouped
    ensures |groups| == |order|
    ensures forall t :: 0 <= t < |order| ==> groups[t] == grouped[order[t]]
  {
    groups := [];
    for j := 0 to |order|
      invariant |groups| == j
      invariant forall t :: 0 <= t < j ==> groups[t] == grouped[order[t]]
    {
      groups := groups + [grouped[order[j]]];
    }
  }

  /** Reading the map's values in insertion order gives the groups it represents. */
  lemma ReadOut(grouped: map<string, Group>, order: seq<string>, models: seq<ModelRecord>, groups: seq<Group>)
    requires Represents(grouped, order, models)
    requires |groups| == |order|
    requires forall t :: 0 <= t < |order| ==> groups[t] == grouped[order[t]]
    ensures groups == Grouped(models)
  {
  }

  /**
   * Pushing a model onto its group, created first if its key is new, keeps
   * the map describing the groups of the models seen so far.
   */
  lemma AddModel(grouped: map<string, Group>, order: seq<string>, ms: seq<ModelRecord>, m: ModelRecord,
                 withGroup: map<string, Group>, grouped': map<string, Group>, order': seq<string>)
    requires Represents(grouped, order, ms)
    requires var key := GroupKey(m);
      if key in grouped then withGroup == grouped && order' == order
      else withGroup == grouped[key := Group(m.displayName, m.provider, m.family, [])] && order' == order + [key]
    requires grouped' == withGroup[GroupKey(m) := withGroup[GroupKey(m)].(items := withGroup[GroupKey(m)].items + [m])]
    ensures Represents(grouped', order', ms + [m])
  {
    var key := GroupKey(m);
    var leaders := Leaders(ms);
    LeadersStep(ms, m);
    var leaders' := Leaders(ms + [m]);
    forall j | 0 <= j < |order'| ensures grouped'[order'[j]] == GroupOf(leaders'[j], ms + [m]) {
      if j == |leaders| {
        assert order'[j] == key && leaders'[j] == m;
      } else {
        assert leaders'[j] == leaders[j] && order'[j] == GroupKey(leaders[j]);
      }
    }
  }

  /** One more model: its group, old or new, gains it at the end and no other group changes. */
  lemma LeadersStep(ms: seq<ModelRecord>, m: ModelRecord)
    ensures var ls := Leaders(ms);
      && Leaders(ms + [m]) == (if GroupKey(m) in KeysOf(ls) then ls else ls + [m])
      && KeysOf(Leaders(ms + [m])) == (if GroupKey(m) in KeysOf(ls) then KeysOf(ls) else KeysOf(ls) + [GroupKey(m)])
    ensures forall k :: Members(ms + [m], k) == Members(ms, k) + (if GroupKey(m) == k then [m] else [])
    ensures GroupKey(m) !in KeysOf(Leaders(ms)) ==> Members(ms, GroupKey(m)) == []
    ensures forall i, j :: 0 <= i < j < |KeysOf(Leaders(ms))| ==> KeysOf(Leaders(ms))[i] != KeysOf(Leaders(ms))[j]
  {
    assert (ms + [m])[..|ms|] == ms;
    forall k ensures Members(ms + [m], k) == Members(ms, k) + (if GroupKey(m) == k then [m] else []) {
      FilterAppend(ms, [m], (x: ModelRecord) => GroupKey(x) == k);
    }
    var keys := KeysOf(Leaders(ms));
    assert forall i, j :: 0 <= i < j < |keys| ==> keys[i] != keys[j] by {
      LeadersOrdered(ms);
    }
    if GroupKey(m) !in keys {
      assert Members(ms, GroupKey(m)) == [] by {
        LeadersCover(ms);
        FilterNoneKept(ms, (x: ModelRecord) => GroupKey(x) == GroupKey(m));
      }
    }
  }

  /** `FirstWith` is the first index holding key `k`. */
  lemma {:induction false} FirstWithSpec(ms: seq<ModelRecord>, k: string)
    ensures FirstWith(ms, k) < |ms| ==> GroupKey(ms[FirstWith(ms, k)]) == k
    ensures forall q :: 0 <= q < FirstWith(ms, k) ==> GroupKey(ms[q]) != k
  {
    if ms != [] {
      var n := |ms| - 1;
      FirstWithSpec(ms[..n], k);
      forall q | 0 <= q < FirstWith(ms, k) && q < n ensures GroupKey(ms[q]) != k {
        assert ms[q] == ms[..n][q];
      }
    }
  }

  /**
   * Each leader is the first model with its key, leaders come in order of
   * first occurrence (so their keys are distinct), and every model's key is
   * a leader's key.
   */
  lemma LeadersSpec(ms: seq<ModelRecord>)
    ensures forall i :: 0 <= i < |Leaders(ms)| ==>
      FirstWith(ms, GroupKey(Leaders(ms)[i])) < |ms| && ms[FirstWith(ms, GroupKey(Leaders(ms)[i]))] == Leaders(ms)[i]
    ensures forall i, j :: 0 <= i < j < |Leaders(ms)| ==>
      FirstWith(ms, GroupKey(Leaders(ms)[i])) < FirstWith(ms, GroupKey(Leaders(ms)[j]))
    ensures forall p :: 0 <= p < |ms| ==> GroupKey(ms[p]) in KeysOf(Leaders(ms))
  {
    LeadersFirst(ms);
    LeadersOrdered(ms);
    LeadersCover(ms);
  }

  /** Every model's key is a leader's key. */
  lemma {:induction false} LeadersCover(ms: seq<ModelRecord>)
    ensures forall p :: 0 <= p < |ms| ==> GroupKey(ms[p]) in KeysOf(Leaders(ms))
  {
    if ms != [] {
      var n := |ms| - 1;
      var init := ms[..n];
      LeadersCover(init);
      var ls0 := Leaders(init);
      var ls := Leaders(ms);
      assert KeysOf(ls0) <= KeysOf(ls);
      forall p | 0 <= p < |ms| ensures GroupKey(ms[p]) in KeysOf(ls) {
        if p < n {
          assert ms[p] == init[p];
        } else if GroupKey(ms[n]) !in KeysOf(ls0) {
          assert KeysOf(ls)[|ls0|] == GroupKey(ms[n]);
        }
      }
    }
  }

  /** Each leader is the first model with its key. */
  lemma {:induction false} LeadersFirst(ms: seq<ModelRecord>)
    ensures forall i :: 0 <= i < |Leaders(ms)| ==>
      FirstWith(ms, GroupKey(Leaders(ms)[i])) < |ms| && ms[FirstWith(ms, GroupKey(Leaders(ms)[i]))] == Leaders(ms)[i]
  {
    if ms != [] {
      var n := |ms| - 1;
      var init := ms[..n];
      var m := ms[n];
      LeadersFirst(init);
      var ls0 := Leaders(init);
      var ls := Leaders(ms);
      forall i | 0 <= i < |ls| ensures FirstWith(ms, GroupKey(ls[i])) < |ms| && ms[FirstWith(ms, GroupKey(ls[i]))] == ls[i] {
        if i < |ls0| {
          assert ls[i] == ls0[i];
          var f := FirstWith(init, GroupKey(ls0[i]));
          assert FirstWith(ms, GroupKey(ls0[i])) == f;
          assert ms[f] == init[f];
        } else {
          LeadersCover(init);
          FirstWithAbsent(init, GroupKey(m));
        }
      }
    }
  }

  /** Leaders come in order of first occurrence, so their keys are distinct. */
  lemma {:induction false} LeadersOrdered(ms: seq<ModelRecord>)
    ensures forall i, j :: 0 <= i < j < |Leaders(ms)| ==>
      FirstWith(ms, GroupKey(Leaders(ms)[i])) < FirstWith(ms, GroupKey(Leaders(ms)[j]))
  {
    if ms != [] {
      var n := |ms| - 1;
      var init := ms[..n];
      var m := ms[n];
      LeadersOrdered(init);
      LeadersFirst(init);
      var ls0 := Leaders(init);
      forall i | 0 <= i < |ls0| ensures FirstWith(ms, GroupKey(ls0[i])) == FirstWith(init, GroupKey(ls0[i])) < n {
      }
      if GroupKey(m) !in KeysOf(ls0) {
        LeadersCover(init);
        FirstWithAbsent(init, GroupKey(m));
      }
    }
  }

  /** A key no leader has occurs nowhere, so its first index is past the end. */
  lemma FirstWithAbsent(ms: seq<ModelRecord>, k: string)
    requires k !in KeysOf(Leaders(ms))
    requires forall p :: 0 <= p < |ms| ==> GroupKey(ms[p]) in KeysOf(Leaders(ms))
    ensures FirstWith(ms, k) == |ms|
  {
    FirstWithSpec(ms, k);
  }

  /** A key's members start with its first model. */
  lemma {:induction false} MembersHead(ms: seq<ModelRecord>, k: string)
    requires FirstWith(ms, k) < |ms|
    ensures |Members(ms, k)| > 0 && Members(ms, k)[0] == ms[FirstWith(ms, k)]
  {
    var n := |ms| - 1;
    var init := ms[..n];
    var m := ms[n];
    assert ms == init + [m];
    FilterAppend(init, [m], (x: ModelRecord) => GroupKey(x) == k);
    if FirstWith(init, k) < n {
      MembersHead(init, k);
    } else {
      FirstWithSpec(init, k);
      FilterNoneKept(init, (x: ModelRecord) => GroupKey(x) == k);
    }
  }

  /** Group `i` starts with leader `i`, keeps input order, and holds exactly the models with its key. */
  lemma GroupAt(ms: seq<ModelRecord>, i: int)
    requires 0 <= i < |Leaders(ms)|
    ensures var g := Grouped(ms)[i];
      && |g.items| > 0 && g.items[0] == Leaders(ms)[i]
      && IsSubsequence(g.items, ms)
      && (forall x :: x in g.items <==> x in ms && GroupKey(x) == GroupKey(Leaders(ms)[i]))
      && forall x :: multiset(g.items)[x] == if GroupKey(x) == GroupKey(Leaders(ms)[i]) then multiset(ms)[x] else 0
  {
    var leader := Leaders(ms)[i];
    var keep := (x: ModelRecord) => GroupKey(x) == GroupKey(leader);
    LeadersSpec(ms);
    MembersHead(ms, GroupKey(leader));
    FilterIsSubsequence(ms, keep);
    forall x ensures x in Members(ms, GroupKey(leader)) <==> x in ms && GroupKey(x) == GroupKey(leader) {
      FilterMembership(ms, keep, x);
    }
    forall x ensures multiset(Members(ms, GroupKey(leader)))[x] ==
                     if GroupKey(x) == GroupKey(leader) then multiset(ms)[x] else 0 {
      FilterCount(ms, keep, x);
    }
  }

  /**
   * Each group `groupModelsByFamily` returns is headed by the display name,
   * provider and family of its first item, which is the first model with its
   * key; its items are exactly the models with that key, in input order; and
   * groups come in order of their keys' first occurrence.
   */
  lemma GroupedHeads(ms: seq<ModelRecord>)
    ensures forall i :: 0 <= i < |Grouped(ms)| ==>
      var g := Grouped(ms)[i];
      && |g.items| > 0
      && g.displayName == g.items[0].displayName && g.provider == g.items[0].provider && g.family == g.items[0].family
      && FirstWith(ms, GroupKey(g.items[0])) < |ms| && ms[FirstWith(ms, GroupKey(g.items[0]))] == g.items[0]
      && IsSubsequence(g.items, ms)
      && (forall x :: x in g.items <==> x in ms && GroupKey(x) == GroupKey(g.items[0]))
      && forall x :: multiset(g.items)[x] == if GroupKey(x) == GroupKey(g.items[0]) then multiset(ms)[x] else 0
    ensures forall i, j :: 0 <= i < j < |Grouped(ms)| ==>
      FirstWith(ms, GroupKey(Grouped(ms)[i].items[0])) < FirstWith(ms, GroupKey(Grouped(ms)[j].items[0]))
  {
    LeadersSpec(ms);
    forall i | 0 <= i < |Grouped(ms)|
      ensures var g := Grouped(ms)[i];
        && |g.items| > 0
        && g.displayName == g.items[0].displayName && g.provider == g.items[0].provider && g.family == g.items[0].family
        && FirstWith(ms, GroupKey(g.items[0])) < |ms| && ms[FirstWith(ms, GroupKey(g.items[0]))] == g.items[0]
        && IsSubsequence(g.items, ms)
        && (forall x :: x in g.items <==> x in ms && GroupKey(x) == GroupKey(g.items[0]))
        && forall x :: multiset(g.items)[x] == if GroupKey(x) == GroupKey(g.items[0]) then multiset(ms)[x] else 0
    {
      GroupAt(ms, i);
    }
    forall i, j | 0 <= i < j < |Grouped(ms)|
      ensures FirstWith(ms, GroupKey(Grouped(ms)[i].items[0])) < FirstWith(ms, GroupKey(Grouped(ms)[j].items[0]))
    {
      GroupAt(ms, i);
      GroupAt(ms, j);
    }
  }

  /** Every model lands in one group, and in no other. */
  lemma GroupedCover(ms: seq<ModelRecord>)
    ensures forall p :: 0 <= p < |ms| ==> exists i :: 0 <= i < |Grouped(ms)| && ms[p] in Grouped(ms)[i].items
    ensures forall i, j, x :: 0 <= i < j < |Grouped(ms)| && x in Grouped(ms)[i].items ==> x !in Grouped(ms)[j].items
  {
    var gs := Grouped(ms);
    var ls := Leaders(ms);
    LeadersSpec(ms);
    forall p | 0 <= p < |ms| ensures exists i :: 0 <= i < |gs| && ms[p] in gs[i].items {
      var i :| 0 <= i < |ls| && KeysOf(ls)[i] == GroupKey(ms[p]);
      GroupAt(ms, i);
    }
    forall i, j, x | 0 <= i < j < |gs| && x in gs[i].items ensures x !in gs[j].items {
      GroupAt(ms, i);
      GroupAt(ms, j);
      assert GroupKey(ls[i]) != GroupKey(ls[j]);
    }
  }

  /** When every model shares the first one's key, the first model is the only leader. */
  lemma {:induction false} SameKeyLeaders(ms: seq<ModelRecord>)
    requires |ms| > 0
    requires forall p :: 0 <= p < |ms| ==> GroupKey(ms[p]) == GroupKey(ms[0])
    ensures Leaders(ms) == [ms[0]]
  {
    var n := |ms| - 1;
    if n > 0 {
      var init := ms[..n];
      assert init[0] == ms[0];
      SameKeyLeaders(init);
      assert KeysOf([ms[0]]) == [GroupKey(ms[0])];
    }
  }

  /** Models that all share one key form a single group holding all of them. */
  lemma SameKeyOneGroup(ms: seq<ModelRecord>)
    requires |ms| > 0
    requires forall p :: 0 <= p < |ms| ==> GroupKey(ms[p]) == GroupKey(ms[0])
    ensures Grouped(ms) == [Group(ms[0].displayName, ms[0].provider, ms[0].family, ms)]
  {
    SameKeyLeaders(ms);
    FilterKeepsAll(ms, (x: ModelRecord) => GroupKey(x) == GroupKey(ms[0]));
  }

  /**
   * What the model selector shows (components/model-selector-v2.tsx:37):
   * grouping the four catalog base records gives one group, headed
   * `DeepSeek`/`DeepSeek`, family DeepSeek, holding all four in catalog order.
   */
  lemma CatalogOneGroup()
    ensures Grouped(DefaultModelBases) == [Group("DeepSeek", Some("DeepSeek"), DeepSeek, DefaultModelBases)]
  {
    CatalogFacts();
    SameKeyOneGroup(DefaultModelBases);
  }

  /**
   * The catalog is one group: display name and provider `DeepSeek`, family
   * DeepSeek, holding every entry of `DEFAULT_MODELS` in order whenever
   * WebLLM supports at least one of them.
   */
  lemma DefaultModelsOneGroup(supported: seq<string>)
    requires |DefaultModels(supported)| > 0
    ensures Grouped(DefaultModels(supported)) == [Group("DeepSeek", Some("DeepSeek"), DeepSeek, DefaultModels(supported))]
  {
    var r := DefaultModels(supported);
    assert forall p :: 0 <= p < |r| ==>
      r[p].displayName == "DeepSeek" && r[p].provider == Some("DeepSeek") && r[p].family == DeepSeek
    by {
      DefaultModelsSpec(supported);
      CatalogFacts();
      forall p | 0 <= p < |r| ensures r[p].displayName == "DeepSeek" && r[p].provider == Some("DeepSeek") && r[p].family == DeepSeek {
        assert SupportedBases(supported)[p] in DefaultModelBases;
      }
    }
    SameKeyOneGroup(r);
  }
}
