/** Template resolution of configuration entities (XBeans): ordering a list of
    entities so that each comes after the entity it names as its template, and
    copying inherited property values from a template into its dependant.

    A bean's reflective property set becomes an explicit map from property name
    to a nullable value; `name`, `template` and `abstract` are kept apart from
    it because the merge treats them specially. */
module TemplatableXBeanUtils {
  import opened Common

  /** A templatable configuration entity. `props` holds every other bean
      property, `None` standing for null. */
  datatype XBean = XBean(
    name: string,
    template: Option<string>,
    abstractFlag: Option<bool>,
    props: map<string, Option<string>>)

  /** The ConfigurationException raised while ordering entities. */
  datatype ConfigError =
    | TemplateNotFound(template: string)
    | TemplateCycle(name: string)

  /** Failure of `applyTemplate`: the template is absent from the map, so the
      bean utilities are handed null and throw IllegalArgumentException. */
  datatype ApplyError = NoBeanSpecified

  /** An insertion-ordered map (a LinkedHashMap): `keys` in insertion order. */
  datatype LinkedMap = LinkedMap(keys: seq<string>, entries: map<string, XBean>)
  {
    ghost predicate Valid()
    {
      && (forall i, j :: 0 <= i < j < |keys| ==> keys[i] != keys[j])
      && (forall k :: k in entries <==> k in keys)
    }

    /** `put`: a new key goes last, an existing key keeps its position. */
    function Put(k: string, v: XBean): (r: LinkedMap)
      requires Valid()
      ensures r.Valid()
      ensures r.entries == entries[k := v]
      ensures k in entries ==> r.keys == keys
      ensures k !in entries ==> r.keys == keys + [k]
    {
      if k in entries then LinkedMap(keys, entries[k := v])
      else LinkedMap(keys + [k], entries[k := v])
    }
  }

  const Empty := LinkedMap([], map[])

  /** The names of the entities in `list`. */
  ghost function Names(list: seq<XBean>): set<string>
  {
    set i | 0 <= i < |list| :: list[i].name
  }

  /** Every entry is stored under its own name, and every entry that has a
      template comes after the entry of that template. */
  ghost predicate DependencyOrdered(r: LinkedMap)
  {
    && (forall k :: k in r.entries ==> r.entries[k].name == k)
    && (forall i {:trigger r.entries[r.keys[i]]} :: 0 <= i < |r.keys| && r.keys[i] in r.entries && r.entries[r.keys[i]].template.Some? ==>
          r.entries[r.keys[i]].template.value in r.keys[..i])
  }

  /** A map from name to entity, as built by `createMapByName`. */
  ghost predicate IndexedByName(byName: map<string, XBean>)
  {
    forall n :: n in byName ==> byName[n].name == n
  }

  /** `rank` strictly decreases along every template reference of `list`
      that resolves: the template graph has no cycle. */
  ghost predicate RankedBy(list: seq<XBean>, rank: string -> nat)
  {
    forall i :: 0 <= i < |list| && list[i].template.Some? && list[i].template.value in Names(list) ==>
      rank(list[i].template.value) < rank(list[i].name)
  }

  ghost predicate Acyclic(list: seq<XBean>)
  {
    exists rank: string -> nat :: RankedBy(list, rank)
  }

  /** Every template that an entity of `list` references is among the entities. */
  ghost predicate AllTemplatesPresent(list: seq<XBean>)
  {
    forall i :: 0 <= i < |list| && list[i].template.Some? ==> list[i].template.value in Names(list)
  }

  /** The map `createMapByName` builds: each entity put under its name, in
      list order, so a later entity replaces an earlier one of the same name. */
  function ByName(list: seq<XBean>): (m: map<string, XBean>)
    ensures forall n :: n in m ==> m[n].name == n && m[n] in list
  {
    if list == [] then map[]
    else
      var init := list[..|list| - 1];
      var m := ByName(init)[list[|list| - 1].name := list[|list| - 1]];
      assert forall n :: n in ByName(init) ==> ByName(init)[n] in list by {
        forall n | n in ByName(init) ensures ByName(init)[n] in list {
          var i :| 0 <= i < |init| && init[i] == ByName(init)[n];
          assert list[i] == init[i];
        }
      }
      m
  }

  /** `createMapByName`. */
  method CreateMapByName(list: seq<XBean>) returns (byName: map<string, XBean>)
    ensures byName == ByName(list)
  {
    byName := map[];
    var k := 0;
    while k < |list|
      invariant 0 <= k <= |list|
      invariant byName == ByName(list[..k])
    {
      assert list[..k + 1][..k] == list[..k];
      byName := byName[list[k].name := list[k]];
      k := k + 1;
    }
    assert list[..k] == list;
  }

  /** The map holds exactly the names of the list. */
  lemma {:induction false} ByNameKeys(list: seq<XBean>)
    ensures ByName(list).Keys == Names(list)
  {
    if list != [] {
      var init := list[..|list| - 1];
      ByNameKeys(init);
      assert Names(list) == Names(init) + {list[|list| - 1].name} by {
        assert forall i :: 0 <= i < |init| ==> list[i] == init[i];
      }
    }
  }

  /** An entity that no later entity shares its name with is the one the map
      holds under that name: with duplicate names the later entity wins. */
  lemma {:induction false} ByNameLaterWins(list: seq<XBean>, i: nat)
    requires i < |list|
    requires forall j :: i < j < |list| ==> list[j].name != list[i].name
    ensures list[i].name in ByName(list) && ByName(list)[list[i].name] == list[i]
  {
    if i < |list| - 1 {
      var init := list[..|list| - 1];
      ByNameLaterWins(init, i);
    }
  }

  /** `b` holds `a` as a prefix: earlier insertions keep position and value. */
  ghost predicate Extends(a: LinkedMap, b: LinkedMap)
  {
    && |a.keys| <= |b.keys| && b.keys[..|a.keys|] == a.keys
    && (forall k :: k in a.entries ==> k in b.entries && b.entries[k] == a.entries[k])
  }

  /** Every template that `item` or an entity of `byName` references is in `byName`. */
  ghost predicate TemplatesResolve(item: XBean, byName: map<string, XBean>)
  {
    && (item.template.Some? ==> item.template.value in byName)
    && (forall n :: n in byName && byName[n].template.Some? ==> byName[n].template.value in byName)
  }

  /** `t` is the template of `item` or of an entity of `byName`. */
  ghost predicate Referenced(item: XBean, byName: map<string, XBean>, t: string)
  {
    item.template == Some(t) || exists n :: n in byName && byName[n].template == Some(t)
  }

  /** `rank` decreases along every template reference between entities of `byName`. */
  ghost predicate MapRanked(byName: map<string, XBean>, rank: string -> nat)
  {
    forall n :: n in byName && byName[n].template.Some? && byName[n].template.value in byName ==>
      rank(byName[n].template.value) < rank(n)
  }

  /** Putting a new key extends the map. */
  lemma PutExtends(res: LinkedMap, item: XBean)
    requires res.Valid() && item.name !in res.entries
    ensures Extends(res, res.Put(item.name, item))
  {
    var r := res.Put(item.name, item);
    assert r.keys[..|res.keys|] == res.keys;
  }

  /** After appending `item`, the entry at position `i` still comes after its template. */
  lemma PutOrderAt(res: LinkedMap, item: XBean, i: nat)
    requires res.Valid() && DependencyOrdered(res) && item.name !in res.entries
    requires item.template.Some? ==> item.template.value in res.entries
    requires i <= |res.keys|
    ensures var r := res.Put(item.name, item);
            r.entries[r.keys[i]].template.Some? ==> r.entries[r.keys[i]].template.value in r.keys[..i]
  {
    var keys := res.keys + [item.name];
    if i < |res.keys| {
      assert keys[i] == res.keys[i] && keys[..i] == res.keys[..i];
    } else {
      assert keys[i] == item.name && keys[..i] == res.keys;
    }
  }

  /** Appending an entity whose template is already present keeps the order. */
  lemma PutKeepsOrder(res: LinkedMap, item: XBean)
    requires res.Valid() && DependencyOrdered(res) && item.name !in res.entries
    requires item.template.Some? ==> item.template.value in res.entries
    ensures DependencyOrdered(res.Put(item.name, item)) && Extends(res, res.Put(item.name, item))
  {
    var r := res.Put(item.name, item);
    forall i {:trigger r.entries[r.keys[i]]} | 0 <= i < |r.keys| && r.keys[i] in r.entries && r.entries[r.keys[i]].template.Some?
      ensures r.entries[r.keys[i]].template.value in r.keys[..i]
    {
      PutOrderAt(res, item, i);
    }
    PutExtends(res, item);
  }

  lemma ExtendsTransitive(a: LinkedMap, b: LinkedMap, c: LinkedMap)
    requires Extends(a, b) && Extends(b, c)
    ensures Extends(a, c)
  {
    assert c.keys[..|a.keys|] == c.keys[..|b.keys|][..|a.keys|];
  }

  /** The last step of `addDependency`: once the template chain is in `res`,
      putting `item` keeps the order and adds only `item` and that chain. */
  lemma AddAfterTemplate(result: LinkedMap, res: LinkedMap, item: XBean, byName: map<string, XBean>, rank: string -> nat)
    requires result.Valid() && DependencyOrdered(result) && item.name !in result.entries
    requires res.Valid() && DependencyOrdered(res) && Extends(result, res)
    requires item.template.Some? ==> item.template.value in res.entries
    requires forall k :: k in res.entries && k !in result.entries ==>
               rank(k) < rank(item.name) && k in byName && res.entries[k] == byName[k]
    ensures var r := res.Put(item.name, item);
            && r.Valid() && DependencyOrdered(r) && Extends(result, r) && item.name in r.entries
            && forall k :: k in r.entries && k !in result.entries ==>
                 (k == item.name && r.entries[k] == item) ||
                 (rank(k) < rank(item.name) && k in byName && r.entries[k] == byName[k])
  {
    assert item.name !in res.entries;
    PutKeepsOrder(res, item);
    ExtendsTransitive(result, res, res.Put(item.name, item));
  }

  /** `addDependency`, as written: unless `item`'s name is already present,
      first insert its template (recursively), then `item` itself. The source
      has no guard against a template cycle, so this terminates only because
      `rank` decreases along template references. */
  method AddDependency(item: XBean, result: LinkedMap, byName: map<string, XBean>, ghost rank: string -> nat)
      returns (r: Result<LinkedMap, ConfigError>)
    requires IndexedByName(byName) && MapRanked(byName, rank)
    requires item.template.Some? && item.template.value in byName ==> rank(item.template.value) < rank(item.name)
    requires result.Valid() && DependencyOrdered(result)
    decreases rank(item.name)
    ensures r.Ok? ==> r.value.Valid() && DependencyOrdered(r.value) && Extends(result, r.value)
    ensures r.Ok? ==> item.name in r.value.entries
    ensures r.Ok? ==> forall k :: k in r.value.entries && k !in result.entries ==>
              (k == item.name && r.value.entries[k] == item) ||
              (rank(k) < rank(item.name) && k in byName && r.value.entries[k] == byName[k])
    ensures r.Err? ==> r.error.TemplateNotFound? && r.error.template !in byName
    ensures r.Err? ==> Referenced(item, byName, r.error.template)
    ensures TemplatesResolve(item, byName) ==> r.Ok?
    ensures forall depth: nat :: depth > rank(item.name) ==> AddDependencyWithin(item, result, byName, depth) == Some(r)
  {
    if item.name in result.entries {
      assert result.keys[..|result.keys|] == result.keys;
      return Ok(result);
    }
    var res := result;
    if item.template.Some? {
      var t := item.template.value;
      if t !in byName {
        return Err(TemplateNotFound(t));
      }
      var sub := AddDependency(byName[t], result, byName, rank);
      forall depth: nat | depth > rank(item.name)
        ensures AddDependencyWithin(item, result, byName, depth) ==
                  if sub.Err? then Some(sub) else Some(Ok(sub.value.Put(item.name, item)))
      {
        assert AddDependencyWithin(byName[t], result, byName, depth - 1) == Some(sub);
      }
      if sub.Err? {
        return sub;
      }
      res := sub.value;
    } else {
      assert result.keys[..|result.keys|] == result.keys;
    }
    AddAfterTemplate(result, res, item, byName, rank);
    return Ok(res.Put(item.name, item));
  }

  /** One turn of the loop in `sortByDependency`: after adding `list[i]`,
      the first `i + 1` entities are present and all entries come from `list`. */
  lemma SortStep(list: seq<XBean>, i: nat, result: LinkedMap, next: LinkedMap)
    requires i < |list| && Extends(result, next) && list[i].name in next.entries
    requires forall j :: 0 <= j < i ==> list[j].name in result.entries
    requires forall k :: k in result.entries ==> k in Names(list) && result.entries[k] in list
    requires forall k :: k in next.entries && k !in result.entries ==> k in Names(list) && next.entries[k] in list
    ensures forall j :: 0 <= j < i + 1 ==> list[j].name in next.entries
    ensures forall k :: k in next.entries ==> k in Names(list) && next.entries[k] in list
  {
  }

  /** `sortByDependency`: every entity of an acyclic list, ordered so that
      each comes after its template. */
  method SortByDependency(list: seq<XBean>) returns (r: Result<LinkedMap, ConfigError>)
    requires Acyclic(list)
    ensures r.Ok? ==> r.value.Valid() && DependencyOrdered(r.value)
    ensures r.Ok? ==> r.value.entries.Keys == Names(list)
    ensures r.Ok? ==> forall k :: k in r.value.entries ==> r.value.entries[k] in list
    ensures r.Err? ==> r.error.TemplateNotFound? && r.error.template !in Names(list)
    ensures r.Err? ==> exists i :: 0 <= i < |list| && list[i].template == Some(r.error.template)
    ensures AllTemplatesPresent(list) ==> r.Ok?
  {
    ghost var rank :| RankedBy(list, rank);
    var byName := CreateMapByName(list);
    ByNameKeys(list);
    assert MapRanked(byName, rank);
    assert AllTemplatesPresent(list) ==> forall i :: 0 <= i < |list| ==> TemplatesResolve(list[i], byName);
    var result := Empty;
    var i := 0;
    while i < |list|
      invariant 0 <= i <= |list|
      invariant result.Valid() && DependencyOrdered(result)
      invariant forall j :: 0 <= j < i ==> list[j].name in result.entries
      invariant forall k :: k in result.entries ==> k in Names(list) && result.entries[k] in list
    {
      var step := AddDependency(list[i], result, byName, rank);
      if step.Err? {
        var t := step.error.template;
        if list[i].template != Some(t) {
          var n :| n in byName && byName[n].template == Some(t);
          var j :| 0 <= j < |list| && list[j] == byName[n];
        }
        return Err(step.error);
      }
      forall k | k in step.value.entries && k !in result.entries
        ensures k in Names(list) && step.value.entries[k] in list
      {
        if k != list[i].name {
          assert k in byName;
        }
      }
      SortStep(list, i, result, step.value);
      result := step.value;
      i := i + 1;
    }
    return Ok(result);
  }

  /** The recursion of `addDependency` exactly as written, run with a stack
      of `depth` frames: None when the stack runs out (a StackOverflowError). */
  function AddDependencyWithin(item: XBean, result: LinkedMap, byName: map<string, XBean>, depth: nat)
      : (r: Option<Result<LinkedMap, ConfigError>>)
    requires result.Valid()
    ensures r.Some? && r.value.Ok? ==> r.value.value.Valid() && item.name in r.value.value.entries
    decreases depth
  {
    if depth == 0 then None
    else if item.name in result.entries then Some(Ok(result))
    else if item.template.None? then Some(Ok(result.Put(item.name, item)))
    else if item.template.value !in byName then Some(Err(TemplateNotFound(item.template.value)))
    else match AddDependencyWithin(byName[item.template.value], result, byName, depth - 1)
      case None => None
      case Some(Err(e)) => Some(Err(e))
      case Some(Ok(res)) => Some(Ok(res.Put(item.name, item)))
  }

  /** Entities none of which is in `result` and each of which names as its
      template an entity of `byName` that is again among them: a template
      cycle together with any entities that lead into it. */
  ghost predicate ClosedUnderTemplate(beans: set<XBean>, result: LinkedMap, byName: map<string, XBean>)
  {
    forall b :: b in beans ==>
      && b.name !in result.entries
      && b.template.Some? && b.template.value in byName
      && byName[b.template.value] in beans
  }

  /** As written, `addDependency` started on such an entity follows template
      references forever: no stack depth is enough. */
  lemma {:induction false} TemplateLoopOverflows(item: XBean, result: LinkedMap, byName: map<string, XBean>,
                                                 beans: set<XBean>, depth: nat)
    requires result.Valid() && ClosedUnderTemplate(beans, result, byName) && item in beans
    ensures AddDependencyWithin(item, result, byName, depth) == None
    decreases depth
  {
    if depth > 0 {
      TemplateLoopOverflows(byName[item.template.value], result, byName, beans, depth - 1);
    }
  }

  /** `p` is a template cycle of `byName`: it starts and ends at the same
      name, and each name's entity has the next name as its template. */
  ghost predicate CycleIn(byName: map<string, XBean>, p: seq<string>)
  {
    && |p| >= 2 && p[0] == p[|p| - 1]
    && (forall k :: 0 <= k < |p| ==> p[k] in byName)
    && (forall k :: 0 <= k < |p| - 1 ==> byName[p[k]].template == Some(p[k + 1]))
  }

  /** A template cycle whose names are not yet in the result overflows
      every stack, from whichever of its entities the recursion starts. */
  lemma CycleOverflows(byName: map<string, XBean>, p: seq<string>, i: nat, result: LinkedMap, depth: nat)
    requires IndexedByName(byName) && CycleIn(byName, p) && i < |p|
    requires result.Valid() && forall k :: 0 <= k < |p| ==> p[k] !in result.entries
    ensures AddDependencyWithin(byName[p[i]], result, byName, depth) == None
  {
    var beans := set k | 0 <= k < |p| :: byName[p[k]];
    forall b | b in beans
      ensures b.name !in result.entries && b.template.Some? && b.template.value in byName && byName[b.template.value] in beans
    {
      var k :| 0 <= k < |p| && b == byName[p[k]];
      if k == |p| - 1 {
        k := 0;
      }
      assert byName[p[k + 1]] in beans;
    }
    TemplateLoopOverflows(byName[p[i]], result, byName, beans, depth);
  }

  /** An entity that names itself as its template. */
  const SelfTemplated := XBean("a", Some("a"), None, map[])

  /** The smallest cycle: a self-templated entity overflows every stack. */
  lemma SelfTemplateOverflows(depth: nat)
    ensures AddDependencyWithin(SelfTemplated, Empty, map["a" := SelfTemplated], depth) == None
  {
    CycleOverflows(map["a" := SelfTemplated], ["a", "a"], 0, Empty, depth);
  }

  /** Such a list is outside the precondition of `SortByDependency`. */
  lemma SelfTemplateNotAcyclic()
    ensures !Acyclic([SelfTemplated])
  {
    forall rank: string -> nat ensures !RankedBy([SelfTemplated], rank) {
      assert [SelfTemplated][0].name == "a";
      assert "a" in Names([SelfTemplated]);
    }
  }

  /** Some entity of `list` names `t` as its template, and no entity is named `t`. */
  ghost predicate MissingTemplate(list: seq<XBean>, t: string)
  {
    t !in Names(list) && exists i :: 0 <= i < |list| && list[i].template == Some(t)
  }

  /** Some entity of `list` named `a` has the entity named `b` as template. */
  ghost predicate Edge(list: seq<XBean>, a: string, b: string)
  {
    b in Names(list) && exists i :: 0 <= i < |list| && list[i].name == a && list[i].template == Some(b)
  }

  /** `p` follows template references of `list`. */
  ghost predicate Path(list: seq<XBean>, p: seq<string>)
  {
    forall k :: 0 <= k < |p| - 1 ==> Edge(list, p[k], p[k + 1])
  }

  /** Following template references from some entity leads back to it. */
  ghost predicate HasCycle(list: seq<XBean>)
  {
    exists p :: |p| >= 2 && p[0] == p[|p| - 1] && Path(list, p)
  }

  lemma {:induction false} PathDescends(list: seq<XBean>, p: seq<string>, rank: string -> nat)
    requires RankedBy(list, rank) && |p| >= 2 && Path(list, p)
    ensures rank(p[|p| - 1]) < rank(p[0])
  {
    assert Edge(list, p[0], p[1]);
    if |p| > 2 {
      PathDescends(list, p[1..], rank);
    }
  }

  /** An acyclic list (one with a rank) has no template cycle. */
  lemma AcyclicHasNoCycle(list: seq<XBean>)
    requires Acyclic(list)
    ensures !HasCycle(list)
  {
    var rank :| RankedBy(list, rank);
    if HasCycle(list) {
      var p :| |p| >= 2 && p[0] == p[|p| - 1] && Path(list, p);
      PathDescends(list, p, rank);
    }
  }

  /** `addDependency` with the guard the source lacks: `visiting` holds the
      names on the current recursion chain (`chain`, in order), and meeting
      one of them again fails with a cycle error. */
  method AddDependencyChecked(item: XBean, result: LinkedMap, byName: map<string, XBean>, visiting: set<string>,
                              ghost list: seq<XBean>, ghost chain: seq<string>)
      returns (r: Result<LinkedMap, ConfigError>)
    requires byName.Keys == Names(list) && forall n :: n in byName ==> byName[n].name == n && byName[n] in list
    requires item in list && visiting <= byName.Keys
    requires (forall x :: x in visiting <==> x in chain) && Path(list, chain + [item.name])
    requires result.Valid() && DependencyOrdered(result)
    decreases byName.Keys - visiting
    ensures r.Ok? ==> r.value.Valid() && DependencyOrdered(r.value) && Extends(result, r.value)
    ensures r.Ok? ==> item.name in r.value.entries
    ensures r.Ok? ==> forall k :: k in r.value.entries && k !in result.entries ==>
              k !in visiting && k in Names(list) && r.value.entries[k] in list
    ensures r.Err? && r.error.TemplateNotFound? ==> MissingTemplate(list, r.error.template)
    ensures r.Err? && r.error.TemplateCycle? ==> HasCycle(list)
  {
    assert item.name in Names(list);
    if item.name in result.entries {
      assert result.keys[..|result.keys|] == result.keys;
      return Ok(result);
    }
    if item.name in visiting {
      ghost var k :| 0 <= k < |chain| && chain[k] == item.name;
      ghost var walk := chain + [item.name];
      ghost var p := walk[k..];
      forall j | 0 <= j < |p| - 1 ensures Edge(list, p[j], p[j + 1]) {
        assert p[j] == walk[k + j] && p[j + 1] == walk[k + j + 1];
      }
      assert |p| >= 2 && p[0] == p[|p| - 1] && Path(list, p);
      return Err(TemplateCycle(item.name));
    }
    var res := result;
    if item.template.Some? {
      var t := item.template.value;
      if t !in byName {
        return Err(TemplateNotFound(t));
      }
      ghost var walk := chain + [item.name] + [t];
      assert Edge(list, item.name, t);
      assert Path(list, walk) by {
        forall j | 0 <= j < |walk| - 1 ensures Edge(list, walk[j], walk[j + 1]) {
          if j < |walk| - 2 {
            assert walk[j] == (chain + [item.name])[j] && walk[j + 1] == (chain + [item.name])[j + 1];
          }
        }
      }
      var sub := AddDependencyChecked(byName[t], result, byName, visiting + {item.name}, list, chain + [item.name]);
      if sub.Err? {
        return sub;
      }
      res := sub.value;
    } else {
      assert result.keys[..|result.keys|] == result.keys;
    }
    PutKeepsOrder(res, item);
    ExtendsTransitive(result, res, res.Put(item.name, item));
    return Ok(res.Put(item.name, item));
  }

  /** `sortByDependency` with cycle detection. */
  method SortByDependencyChecked(list: seq<XBean>) returns (r: Result<LinkedMap, ConfigError>)
    ensures r.Ok? ==> r.value.Valid() && DependencyOrdered(r.value)
    ensures r.Ok? ==> r.value.entries.Keys == Names(list)
    ensures r.Ok? ==> forall k :: k in r.value.entries ==> r.value.entries[k] in list
    ensures r.Err? && r.error.TemplateNotFound? ==> MissingTemplate(list, r.error.template)
    ensures r.Err? && r.error.TemplateCycle? ==> HasCycle(list)
    ensures Acyclic(list) ==> !(r.Err? && r.error.TemplateCycle?)
  {
    var byName := CreateMapByName(list);
    ByNameKeys(list);
    var result := Empty;
    var i := 0;
    while i < |list|
      invariant 0 <= i <= |list|
      invariant result.Valid() && DependencyOrdered(result)
      invariant forall j :: 0 <= j < i ==> list[j].name in result.entries
      invariant forall k :: k in result.entries ==> k in Names(list) && result.entries[k] in list
    {
      assert Path(list, [] + [list[i].name]);
      var step := AddDependencyChecked(list[i], result, byName, {}, list, []);
      if step.Err? {
        if Acyclic(list) {
          AcyclicHasNoCycle(list);
        }
        return Err(step.error);
      }
      SortStep(list, i, result, step.value);
      result := step.value;
      i := i + 1;
    }
    return Ok(result);
  }

  /** The bean `target` becomes once `template`'s non-null properties fill its
      null ones; only properties listed in `writable` can be set. */
  function Inherit(target: XBean, template: XBean, writable: set<string>): XBean
  {
    target.(props := map k | k in target.props ::
      if target.props[k].None? && k in writable && k in template.props then template.props[k]
      else target.props[k])
  }

  /** `applyTemplate`: a bean without a template is left as it is; otherwise
      each null, writable property of `target` takes the value its template
      has, when that is not null. Name, template and abstract flag are never
      copied. */
  method ApplyTemplate(target: XBean, xbeans: LinkedMap, writable: set<string>) returns (r: Result<XBean, ApplyError>)
    ensures target.template.None? ==> r == Ok(target)
    ensures target.template.Some? && target.template.value !in xbeans.entries ==> r == Err(NoBeanSpecified)
    ensures target.template.Some? && target.template.value in xbeans.entries ==>
              r == Ok(Inherit(target, xbeans.entries[target.template.value], writable))
    ensures r.Ok? ==> r.value.name == target.name && r.value.template == target.template &&
                      r.value.abstractFlag == target.abstractFlag && r.value.props.Keys == target.props.Keys
  {
    if target.template.None? {
      return Ok(target);
    }
    if target.template.value !in xbeans.entries {
      return Err(NoBeanSpecified);
    }
    var template := xbeans.entries[target.template.value];
    var templateProps := template.props;
    var props := target.props;
    var pending := target.props.Keys;
    while pending != {}
      invariant pending <= target.props.Keys && props.Keys == target.props.Keys
      invariant forall k :: k in props && k !in pending ==> props[k] == Inherit(target, template, writable).props[k]
      invariant forall k :: k in pending ==> props[k] == target.props[k]
      decreases pending
    {
      var k :| k in pending;
      if props[k].None? {
        var templateValue := if k in templateProps then templateProps[k] else None;
        if templateValue.Some? && k in writable {
          props := props[k := templateValue];
        }
      }
      pending := pending - {k};
    }
    assert props == Inherit(target, template, writable).props;
    return Ok(target.(props := props));
  }

  /** A property already set on the target keeps its value. */
  lemma InheritKeepsSetProperties(target: XBean, template: XBean, writable: set<string>, k: string)
    requires k in target.props && target.props[k].Some?
    ensures Inherit(target, template, writable).props[k] == target.props[k]
  {
  }

  /** A null property of the target takes the template's value when it is
      writable and the template's value is not null, and otherwise stays null. */
  lemma InheritFillsNullFromTemplate(target: XBean, template: XBean, writable: set<string>, k: string)
    requires k in target.props && target.props[k].None?
    ensures Inherit(target, template, writable).props[k] ==
              if k in writable && k in template.props then template.props[k] else None
  {
  }

  /** Applying the same template twice gives what applying it once gives. */
  lemma InheritIdempotent(target: XBean, template: XBean, writable: set<string>)
    ensures Inherit(Inherit(target, template, writable), template, writable) == Inherit(target, template, writable)
  {
    var once := Inherit(target, template, writable);
    var twice := Inherit(once, template, writable);
    assert twice.props == once.props;
  }

  /** Resolving in dependency order makes inheritance transitive: once the
      parent has inherited from the grandparent, each null writable property of
      the child takes the parent's own value if set, else the grandparent's. */
  lemma InheritChain(child: XBean, parent: XBean, grandparent: XBean, writable: set<string>, k: string)
    requires k in child.props && child.props[k].None? && k in writable
    requires k in parent.props && k in grandparent.props
    ensures Inherit(child, Inherit(parent, grandparent, writable), writable).props[k] ==
              if parent.props[k].Some? then parent.props[k] else grandparent.props[k]
  {
  }
}
