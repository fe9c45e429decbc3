/**
 * The KnowledgeBase class of knowledgebase/KnowledgeBase.py: two indices the
 * recipe and loot handlers update in place.
 *
 * Each handler is proved against the specification modules: on success the
 * indices are exactly the old ones with the recipe's edges registered and
 * its variants appended; on failure (the exceptions the source raises) the
 * edges registered before the failure stay, as they do in the source.
 */
module Knowledge {
  import opened Wrappers
  import opened Records
  import opened TagResolver
  import opened Indices
  import opened ShapelessSpec
  import opened ShapelessLoad
  import opened ShapedSpec
  import opened ShapedLoad
  import opened Smelting
  import opened LootTables
  import opened Loading

  /** The class's indices and variant list `vs` are those the handler
      state `run` describes: the edges of `run.regs` registered after `m0`,
      the outcome `r`, and, while nothing has failed, the variants. */
  ghost predicate Mirrors(run: Run, r: Outcome<KbError>, vs: seq<Variant>, m: MaterialIndex,
                          m0: MaterialIndex, crafted: ItemId, st: Station) {
    && r == run.outcome
    && m == RegisterAll(m0, run.regs, crafted, st)
    && (r.Pass? ==> vs == run.vs)
  }

  /** What entry `j` of a resolved key does in the tag pass: a tag resolves
      to a group that fits and is run; anything else changes nothing. */
  lemma TagStepPlan(tags: TagStore, key: Key, fuel: nat, es: seq<Entry>, j: nat, r0: Run,
                    counts: map<char, int>, n: nat, mode: Mode)
    requires StoreNamespaced(tags) && KeyNamespaced(key) && j < |key|
    requires ResolveKey(tags, key, fuel) == Success(es) && GroupsFit(es, n)
    requires j < |es| ==> PassFirst(r0, es, counts, n, Tags, mode, j).outcome.Pass?
    ensures j < |es|
    ensures key[j].1.Tag? ==>
      var t := ResolveTag(tags, Strip(key[j].1.tag), fuel);
      && t.Success? && 0 < |StripAll(t.value)| <= n
      && PassFirst(r0, es, counts, n, Tags, mode, j + 1) ==
         GroupRun(PassFirst(r0, es, counts, n, Tags, mode, j), StripAll(t.value), key[j].0, counts, mode, n)
    ensures !key[j].1.Tag? ==> PassFirst(r0, es, counts, n, Tags, mode, j + 1) == PassFirst(r0, es, counts, n, Tags, mode, j)
  {
    ResolvedEntry(tags, key, fuel, es, j);
    assert PassFirst(r0, es, counts, n, Tags, mode, j + 1) ==
      PassStep(PassFirst(r0, es, counts, n, Tags, mode, j), es[j], counts, n, Tags, mode);
  }

  class KnowledgeBase {
    /** material_to_crafted */
    var materialToCrafted: MaterialIndex
    /** crafted_to_material */
    var craftedToMaterial: CraftedIndex

    /** No material lists a crafted item twice, and every ingredient of
        every variant points back to what it crafts. */
    ghost predicate Valid()
      reads this
    {
      NoDuplicateEdges(materialToCrafted) && Consistent(materialToCrafted, craftedToMaterial)
    }

    /** Both indices start empty. */
    constructor ()
      ensures Valid()
      ensures materialToCrafted == map[] && craftedToMaterial == map[]
    {
      materialToCrafted := map[];
      craftedToMaterial := map[];
    }

    /** The for/else scan every handler uses to add `x -> (c, st)`. */
    method RegisterMaterialEdge(x: ItemId, c: ItemId, st: Station)
      modifies this
      ensures materialToCrafted == old(materialToCrafted)[x := AddEdge(old(materialToCrafted), x, c, st)]
      ensures craftedToMaterial == old(craftedToMaterial)
    {
      if x !in materialToCrafted {
        materialToCrafted := materialToCrafted[x := [Edge(c, st)]];
      } else {
        var es := materialToCrafted[x];
        var k := 0;
        while k < |es| && es[k].item != c
          invariant 0 <= k <= |es|
          invariant forall j :: 0 <= j < k ==> es[j].item != c
        {
          k := k + 1;
        }
        if k == |es| {
          materialToCrafted := materialToCrafted[x := es + [Edge(c, st)]];
        } else {
          assert HasEdgeTo(es, c);
          assert materialToCrafted[x := es] == materialToCrafted;
        }
      }
    }

    /** The first pass of the shapeless handler: every concrete item is
        registered and counted into the single variant. */
    method TallyItems(ings: seq<Ingredient>, crafted: ItemId, st: Station)
      returns (recipe: map<ItemId, int>)
      requires IngredientsNamespaced(ings)
      modifies this
      ensures recipe == Tally(ConcreteItems(ings))
      ensures materialToCrafted == RegisterAll(old(materialToCrafted), ConcreteItems(ings), crafted, st)
      ensures craftedToMaterial == old(craftedToMaterial)
    {
      recipe := map[];
      ghost var m0 := materialToCrafted;
      ghost var items: seq<ItemId> := [];
      var j := 0;
      while j < |ings|
        invariant 0 <= j <= |ings|
        invariant craftedToMaterial == old(craftedToMaterial)
        invariant items == ConcreteItemsFirst(ings, j)
        invariant recipe == Tally(items)
        invariant materialToCrafted == RegisterAll(m0, items, crafted, st)
      {
        if ings[j].Item? {
          var x := Strip(ings[j].item);
          RegisterAllSnoc(m0, items, x, crafted, st);
          RegisterMaterialEdge(x, crafted, st);
          TallySnoc(items, x);
          items := items + [x];
          recipe := Inc(recipe, x);
        }
        j := j + 1;
      }
    }

    /** The copies the shapeless handler makes when a group of `n` items
        meets a single variant: the variant is deep-copied `n - 1` times. */
    static method Widen(vs: seq<Variant>, n: int) returns (ws: seq<Variant>)
      requires |vs| >= 1
      ensures ws == Widened(vs, n)
    {
      ws := vs;
      if |vs| == 1 && n >= 2 {
        ws := Replicate(vs[0], n);
      }
    }

    /** The loop over one group `g` of the shapeless handler, after the
        variant list has been widened to `vs`: alternative `ind` is registered
        and counted into variant `ind`; an alternative with no variant raises
        IndexError right after it is registered. */
    method CountGroup(vs: seq<Variant>, g: seq<ItemId>, crafted: ItemId, st: Station)
      returns (vs': seq<Variant>, ok: bool)
      modifies this
      ensures craftedToMaterial == old(craftedToMaterial)
      ensures ok <==> |g| <= |vs|
      ensures materialToCrafted == RegisterFirst(old(materialToCrafted), g, if ok then |g| else |vs| + 1, crafted, st)
      ensures ok ==> vs' == CountedFirst(vs, g, |g|)
    {
      vs' := vs;
      var ind := 0;
      while ind < |g|
        invariant 0 <= ind <= |g| && ind <= |vs|
        invariant craftedToMaterial == old(craftedToMaterial)
        invariant materialToCrafted == RegisterFirst(old(materialToCrafted), g, ind, crafted, st)
        invariant vs' == CountedFirst(vs, g, ind)
      {
        var x := g[ind];
        RegisterMaterialEdge(x, crafted, st);
        if ind >= |vs'| {
          return vs', false;
        }
        vs' := vs'[ind := vs'[ind].(recipe := Inc(vs'[ind].recipe, x))];
        ind := ind + 1;
      }
      ok := true;
    }

    /** One list or tag group `g` of the shapeless handler, from the state
        `run`: the first group with two or more alternatives copies the
        single variant, then the group is counted in. */
    method AddGroup(vs: seq<Variant>, g: seq<ItemId>, crafted: ItemId, st: Station,
                    ghost run: Run, ghost m0: MaterialIndex)
      returns (vs': seq<Variant>, ok: bool)
      requires |run.vs| >= 1 && Mirrors(run, Pass, vs, materialToCrafted, m0, crafted, st)
      modifies this
      ensures craftedToMaterial == old(craftedToMaterial)
      ensures Mirrors(AddGroupRun(run, g), if ok then Pass else Fail(VariantIndex), vs', materialToCrafted, m0, crafted, st)
    {
      var w := Widen(vs, |g|);
      ghost var m1 := materialToCrafted;
      vs', ok := CountGroup(w, g, crafted, st);
      if ok {
        RegisterPartial(m0, m1, run.regs, g, |g|, crafted, st);
        assert g[..|g|] == g;
      } else {
        RegisterPartial(m0, m1, run.regs, g, |w| + 1, crafted, st);
      }
    }

    /** Ingredient `j` of the list pass: a list is added as a group,
        anything else is skipped. */
    method ChoiceIngredient(ings: seq<Ingredient>, j: nat, crafted: ItemId, st: Station, vs: seq<Variant>,
                            ghost r0: Run, ghost m0: MaterialIndex)
      returns (vs': seq<Variant>, r: Outcome<KbError>)
      requires IngredientsNamespaced(ings) && j < |ings| && |r0.vs| >= 1
      requires Mirrors(ChoiceRunFirst(r0, ings, j), Pass, vs, materialToCrafted, m0, crafted, st)
      modifies this
      ensures craftedToMaterial == old(craftedToMaterial)
      ensures r.Pass? ==> Mirrors(ChoiceRunFirst(r0, ings, j + 1), r, vs', materialToCrafted, m0, crafted, st)
      ensures r.Fail? ==> Mirrors(ChoiceRunFirst(r0, ings, |ings|), r, vs', materialToCrafted, m0, crafted, st)
    {
      vs', r := vs, Pass;
      if ings[j].Choice? {
        var ok;
        vs', ok := AddGroup(vs, StripAll(ings[j].alternatives), crafted, st, ChoiceRunFirst(r0, ings, j), m0);
        if !ok {
          ChoiceRunStopped(r0, ings, j + 1);
          r := Fail(VariantIndex);
        }
      }
    }

    /** The list pass of the shapeless handler, from the state `r0`. */
    method AddChoiceGroups(ings: seq<Ingredient>, crafted: ItemId, st: Station, vs: seq<Variant>,
                           ghost r0: Run, ghost m0: MaterialIndex)
      returns (vs': seq<Variant>, r: Outcome<KbError>)
      requires IngredientsNamespaced(ings) && |r0.vs| >= 1
      requires Mirrors(r0, Pass, vs, materialToCrafted, m0, crafted, st)
      modifies this
      ensures craftedToMaterial == old(craftedToMaterial)
      ensures Mirrors(ChoiceRunFirst(r0, ings, |ings|), r, vs', materialToCrafted, m0, crafted, st)
    {
      vs', r := vs, Pass;
      var j := 0;
      while j < |ings|
        invariant 0 <= j <= |ings|
        invariant craftedToMaterial == old(craftedToMaterial)
        invariant r == Pass && Mirrors(ChoiceRunFirst(r0, ings, j), r, vs', materialToCrafted, m0, crafted, st)
      {
        vs', r := ChoiceIngredient(ings, j, crafted, st, vs', r0, m0);
        if r.Fail? {
          return;
        }
        j := j + 1;
      }
    }

    /** Ingredient `j` of the tag pass: a tag is resolved and its items added
        as a group, anything else is skipped. */
    method TagIngredient(ings: seq<Ingredient>, j: nat, tags: TagStore, fuel: nat, crafted: ItemId, st: Station,
                         vs: seq<Variant>, ghost r0: Run, ghost m0: MaterialIndex)
      returns (vs': seq<Variant>, r: Outcome<KbError>)
      requires StoreNamespaced(tags) && IngredientsNamespaced(ings) && j < |ings| && |r0.vs| >= 1
      requires Mirrors(TagRunFirst(r0, tags, ings, j, fuel), Pass, vs, materialToCrafted, m0, crafted, st)
      modifies this
      ensures craftedToMaterial == old(craftedToMaterial)
      ensures r.Pass? ==> Mirrors(TagRunFirst(r0, tags, ings, j + 1, fuel), r, vs', materialToCrafted, m0, crafted, st)
      ensures r.Fail? ==> Mirrors(TagRunFirst(r0, tags, ings, |ings|, fuel), r, vs', materialToCrafted, m0, crafted, st)
    {
      vs', r := vs, Pass;
      if ings[j].Tag? {
        var res := ResolveTagScan(tags, Strip(ings[j].tag), fuel);
        if res.Failure? {
          r := Fail(res.error);
        } else {
          var ok;
          vs', ok := AddGroup(vs, StripAll(res.value), crafted, st, TagRunFirst(r0, tags, ings, j, fuel), m0);
          if !ok {
            r := Fail(VariantIndex);
          }
        }
        if r.Fail? {
          TagRunStopped(r0, tags, ings, j + 1, fuel);
        }
      }
    }

    /** The tag pass of the shapeless handler, from the state `r0`. */
    method AddTagGroups(ings: seq<Ingredient>, tags: TagStore, fuel: nat, crafted: ItemId, st: Station,
                        vs: seq<Variant>, ghost r0: Run, ghost m0: MaterialIndex)
      returns (vs': seq<Variant>, r: Outcome<KbError>)
      requires StoreNamespaced(tags) && IngredientsNamespaced(ings) && |r0.vs| >= 1
      requires Mirrors(r0, Pass, vs, materialToCrafted, m0, crafted, st)
      modifies this
      ensures craftedToMaterial == old(craftedToMaterial)
      ensures Mirrors(TagRunFirst(r0, tags, ings, |ings|, fuel), r, vs', materialToCrafted, m0, crafted, st)
    {
      vs', r := vs, Pass;
      var j := 0;
      while j < |ings|
        invariant 0 <= j <= |ings|
        invariant craftedToMaterial == old(craftedToMaterial)
        invariant r == Pass && Mirrors(TagRunFirst(r0, tags, ings, j, fuel), r, vs', materialToCrafted, m0, crafted, st)
      {
        vs', r := TagIngredient(ings, j, tags, fuel, crafted, st, vs', r0, m0);
        if r.Fail? {
          return;
        }
        j := j + 1;
      }
    }

    /** The three passes of the shapeless handler over the ingredients:
        concrete items, then lists, then tags. */
    method ShapelessPasses(ings: seq<Ingredient>, tags: TagStore, fuel: nat, crafted: ItemId, st: Station)
      returns (vs: seq<Variant>, r: Outcome<KbError>)
      requires StoreNamespaced(tags) && IngredientsNamespaced(ings) && st == ShapelessStation(ings)
      modifies this
      ensures craftedToMaterial == old(craftedToMaterial)
      ensures Mirrors(ShapelessRun(tags, ings, fuel), r, vs, materialToCrafted, old(materialToCrafted), crafted, st)
    {
      ghost var m0 := materialToCrafted;
      var recipe := TallyItems(ings, crafted, st);
      vs := [Variant(recipe, st)];
      ghost var r0 := ItemRun(ings);
      vs, r := AddChoiceGroups(ings, crafted, st, vs, r0, m0);
      if r.Pass? {
        vs, r := AddTagGroups(ings, tags, fuel, crafted, st, vs, ChoiceRunFirst(r0, ings, |ings|), m0);
      }
    }

    /** A shapeless recipe (KnowledgeBase.__LoadShapeless): the indices are
        updated exactly as `ShapelessRun` says — its registrations are made,
        in order, and on success its variants are appended to the crafted
        item's list, which is created empty when missing; an exception leaves
        the registrations made before it. `ShapelessRunMeaning` says what
        that run is. */
    method LoadShapeless(ings: seq<Ingredient>, result: string, tags: TagStore, fuel: nat)
      returns (r: Outcome<KbError>)
      requires Valid()
      requires StoreNamespaced(tags) && IngredientsNamespaced(ings) && Namespaced(result)
      modifies this
      ensures Valid()
      ensures var run := ShapelessRun(tags, ings, fuel);
        var crafted := Strip(result);
        && r == run.outcome
        && materialToCrafted == RegisterAll(old(materialToCrafted), run.regs, crafted, ShapelessStation(ings))
        && craftedToMaterial == old(craftedToMaterial)[crafted :=
             VariantsOf(old(craftedToMaterial), crafted) + if r.Pass? then run.vs else []]
    {
      var st := if |ings| > 4 then CraftingTable else Player;
      var crafted := Strip(result);
      ghost var m0 := materialToCrafted;
      ghost var c0 := craftedToMaterial;
      if crafted !in craftedToMaterial {
        craftedToMaterial := craftedToMaterial[crafted := []];
      }
      var vs;
      vs, r := ShapelessPasses(ings, tags, fuel, crafted, st);
      ExtendEntry(c0, craftedToMaterial, crafted, vs);
      if r.Pass? {
        craftedToMaterial := craftedToMaterial[crafted := craftedToMaterial[crafted] + vs];
      }
      ShapelessRunKeepsValid(m0, c0, materialToCrafted, craftedToMaterial, crafted, tags, ings, fuel);
    }

    /** The concrete-item pass of the shaped handler: each item of the key
        is registered, then assigned its symbol's count in the one variant;
        a symbol the pattern does not use raises KeyError. */
    method ShapedItems(key: Key, counts: map<char, int>, crafted: ItemId, st: Station, ghost r0: Run)
      returns (vs: seq<Variant>, r: Outcome<KbError>)
      requires KeyNamespaced(key) && r0 == Run([], [Variant(map[], st)], Pass)
      modifies this
      ensures craftedToMaterial == old(craftedToMaterial)
      ensures Mirrors(ItemPassFirst(r0, key, counts, |key|), r, vs, materialToCrafted, old(materialToCrafted), crafted, st)
    {
      ghost var m0 := materialToCrafted;
      vs, r := [Variant(map[], st)], Pass;
      var j := 0;
      while j < |key|
        invariant 0 <= j <= |key|
        invariant craftedToMaterial == old(craftedToMaterial)
        invariant r == Pass && Mirrors(ItemPassFirst(r0, key, counts, j), r, vs, materialToCrafted, m0, crafted, st)
      {
        ghost var rp := ItemPassFirst(r0, key, counts, j);
        ghost var next := ItemPassFirst(r0, key, counts, j + 1);
        assert next == ItemStep(rp, key[j], counts);
        if key[j].1.Item? {
          var x := Strip(key[j].1.item);
          assert next.regs == rp.regs + [x];
          RegisterAllSnoc(m0, rp.regs, x, crafted, st);
          RegisterMaterialEdge(x, crafted, st);
          if key[j].0 !in counts {
            ItemPassStopped(r0, key, counts, j + 1);
            return vs, Fail(MissingSymbol(key[j].0));
          }
          vs := vs[0 := vs[0].(recipe := vs[0].recipe[x := counts[key[j].0]])];
          assert vs == next.vs;
        } else {
          assert next == rp;
        }
        j := j + 1;
      }
    }

    /** One list or tag `g` of the later passes, whose stride is
        `n // len(g)`: alternative `ind` is registered, then written into the
        variants it hits; a symbol the pattern does not use raises KeyError
        at the first write. */
    method WriteGroup(g: seq<ItemId>, sym: char, counts: map<char, int>, mode: Mode, n: nat, vs: seq<Variant>,
                      crafted: ItemId, st: Station, ghost run: Run, ghost m0: MaterialIndex)
      returns (vs': seq<Variant>, ok: bool)
      requires 0 < |g| <= n && |vs| == n
      requires Mirrors(run, Pass, vs, materialToCrafted, m0, crafted, st)
      modifies this
      ensures craftedToMaterial == old(craftedToMaterial)
      ensures Mirrors(GroupRun(run, g, sym, counts, mode, n), if ok then Pass else Fail(MissingSymbol(sym)),
                      vs', materialToCrafted, m0, crafted, st)
    {
      var stride: nat := n / |g|;
      vs' := vs;
      var ind := 0;
      assert run.regs + g[..0] == run.regs;
      while ind < |g|
        invariant 0 <= ind <= |g| && |vs'| == n
        invariant craftedToMaterial == old(craftedToMaterial)
        invariant materialToCrafted == RegisterAll(m0, run.regs + g[..ind], crafted, st)
        invariant ind > 0 ==> sym in counts
        invariant sym in counts ==> vs' == WrittenFirst(vs, g, counts[sym], mode, stride, n, ind)
      {
        RegisterAllSnoc(m0, run.regs + g[..ind], g[ind], crafted, st);
        RegisterMaterialEdge(g[ind], crafted, st);
        AppendPrefixSnoc(run.regs, g, ind);
        if sym !in counts {
          assert ind == 0 && g[..1] == [g[0]];
          return vs', false;
        }
        StrideFacts(|g|, n, ind);
        vs' := WriteAlternative(vs', g[ind], counts[sym], mode, stride, n, ind);
        assert vs' == WrittenFirst(vs, g, counts[sym], mode, stride, n, ind + 1);
        ind := ind + 1;
      }
      assert g[..|g|] == g;
      ok := true;
    }

    /** Key entry `j` of the list pass: a list is registered and written
        into its blocks; anything else is skipped. */
    method ListEntry(key: Key, j: nat, counts: map<char, int>, n: nat, vs: seq<Variant>, crafted: ItemId, st: Station,
                     ghost es: seq<Entry>, ghost tags: TagStore, ghost fuel: nat, ghost r0: Run, ghost m0: MaterialIndex)
      returns (vs': seq<Variant>, r: Outcome<KbError>, isList: bool)
      requires StoreNamespaced(tags) && KeyNamespaced(key) && j < |key|
      requires ResolveKey(tags, key, fuel) == Success(es) && GroupsFit(es, n) && |vs| == n
      requires Mirrors(PassFirst(r0, es, counts, n, Lists, Block, j), Pass, vs, materialToCrafted, m0, crafted, st)
      requires |PassFirst(r0, es, counts, n, Lists, Block, j).vs| == n
      modifies this
      ensures craftedToMaterial == old(craftedToMaterial)
      ensures isList <==> es[j].group.ListOf?
      ensures r.Pass? ==> Mirrors(PassFirst(r0, es, counts, n, Lists, Block, j + 1), r, vs', materialToCrafted, m0, crafted, st)
      ensures r.Fail? ==> Mirrors(PassFirst(r0, es, counts, n, Lists, Block, |es|), r, vs', materialToCrafted, m0, crafted, st)
    {
      ResolvedEntry(tags, key, fuel, es, j);
      ghost var rp := PassFirst(r0, es, counts, n, Lists, Block, j);
      vs', r, isList := vs, Pass, false;
      if key[j].1.Choice? {
        isList := true;
        var g := StripAll(key[j].1.alternatives);
        var ok;
        vs', ok := WriteGroup(g, key[j].0, counts, Block, n, vs, crafted, st, rp, m0);
        assert PassFirst(r0, es, counts, n, Lists, Block, j + 1) == GroupRun(rp, g, key[j].0, counts, Block, n);
        if !ok {
          r := Fail(MissingSymbol(key[j].0));
          PassStopped(r0, es, counts, n, Lists, Block, j + 1);
        }
      }
    }

    /** The list pass; `flag` records whether the key has a list. */
    method ListGroups(key: Key, counts: map<char, int>, n: nat, vs: seq<Variant>, crafted: ItemId, st: Station,
                      ghost es: seq<Entry>, ghost tags: TagStore, ghost fuel: nat, ghost r0: Run, ghost m0: MaterialIndex)
      returns (vs': seq<Variant>, r: Outcome<KbError>, flag: bool)
      requires StoreNamespaced(tags) && KeyNamespaced(key)
      requires ResolveKey(tags, key, fuel) == Success(es) && GroupsFit(es, n) && |vs| == n && |r0.vs| == n
      requires Mirrors(r0, Pass, vs, materialToCrafted, m0, crafted, st)
      modifies this
      ensures craftedToMaterial == old(craftedToMaterial)
      ensures Mirrors(PassFirst(r0, es, counts, n, Lists, Block, |es|), r, vs', materialToCrafted, m0, crafted, st)
      ensures r.Pass? ==> (flag <==> HasList(es))
    {
      vs', r, flag := vs, Pass, false;
      var j := 0;
      while j < |key|
        invariant 0 <= j <= |key| && |vs'| == n
        invariant craftedToMaterial == old(craftedToMaterial)
        invariant r == Pass && Mirrors(PassFirst(r0, es, counts, n, Lists, Block, j), r, vs', materialToCrafted, m0, crafted, st)
        invariant flag <==> exists i :: 0 <= i < j && es[i].group.ListOf?
      {
        var isList;
        vs', r, isList := ListEntry(key, j, counts, n, vs', crafted, st, es, tags, fuel, r0, m0);
        if r.Fail? {
          return;
        }
        flag := flag || isList;
        j := j + 1;
      }
    }

    /** Key entry `j` of the tag pass: a tag is resolved again, and its
        items registered and written into their blocks or strides; anything
        else is skipped. */
    method TagEntry(key: Key, j: nat, tags: TagStore, fuel: nat, counts: map<char, int>, n: nat, mode: Mode,
                    vs: seq<Variant>, crafted: ItemId, st: Station, ghost es: seq<Entry>, ghost r0: Run, ghost m0: MaterialIndex)
      returns (vs': seq<Variant>, r: Outcome<KbError>)
      requires StoreNamespaced(tags) && KeyNamespaced(key) && j < |key|
      requires ResolveKey(tags, key, fuel) == Success(es) && GroupsFit(es, n) && |vs| == n
      requires Mirrors(PassFirst(r0, es, counts, n, Tags, mode, j), Pass, vs, materialToCrafted, m0, crafted, st)
      requires |PassFirst(r0, es, counts, n, Tags, mode, j).vs| == n
      modifies this
      ensures craftedToMaterial == old(craftedToMaterial)
      ensures r.Pass? ==> Mirrors(PassFirst(r0, es, counts, n, Tags, mode, j + 1), r, vs', materialToCrafted, m0, crafted, st)
      ensures r.Fail? ==> Mirrors(PassFirst(r0, es, counts, n, Tags, mode, |es|), r, vs', materialToCrafted, m0, crafted, st)
    {
      TagStepPlan(tags, key, fuel, es, j, r0, counts, n, mode);
      vs', r := vs, Pass;
      if key[j].1.Tag? {
        var res := ResolveTagScan(tags, Strip(key[j].1.tag), fuel);
        var g := StripAll(res.value);
        var ok;
        vs', ok := WriteGroup(g, key[j].0, counts, mode, n, vs, crafted, st, PassFirst(r0, es, counts, n, Tags, mode, j), m0);
        if !ok {
          r := Fail(MissingSymbol(key[j].0));
          PassStopped(r0, es, counts, n, Tags, mode, j + 1);
        }
      }
    }

    /** The tag pass, with the placement the list pass chose. */
    method TagGroups(key: Key, tags: TagStore, fuel: nat, counts: map<char, int>, n: nat, mode: Mode, vs: seq<Variant>,
                     crafted: ItemId, st: Station, ghost es: seq<Entry>, ghost r0: Run, ghost m0: MaterialIndex)
      returns (vs': seq<Variant>, r: Outcome<KbError>)
      requires StoreNamespaced(tags) && KeyNamespaced(key)
      requires ResolveKey(tags, key, fuel) == Success(es) && GroupsFit(es, n) && |vs| == n && |r0.vs| == n
      requires Mirrors(r0, Pass, vs, materialToCrafted, m0, crafted, st)
      modifies this
      ensures craftedToMaterial == old(craftedToMaterial)
      ensures Mirrors(PassFirst(r0, es, counts, n, Tags, mode, |es|), r, vs', materialToCrafted, m0, crafted, st)
    {
      vs', r := vs, Pass;
      var j := 0;
      while j < |key|
        invariant 0 <= j <= |key| && |vs'| == n
        invariant craftedToMaterial == old(craftedToMaterial)
        invariant r == Pass && Mirrors(PassFirst(r0, es, counts, n, Tags, mode, j), r, vs', materialToCrafted, m0, crafted, st)
      {
        vs', r := TagEntry(key, j, tags, fuel, counts, n, mode, vs', crafted, st, es, r0, m0);
        if r.Fail? {
          return;
        }
        j := j + 1;
      }
    }

    /** The passes of the shaped handler after the station is known:
        symbol counts, concrete items, `reqNum`, then lists and tags. */
    method ShapedPasses(pattern: seq<string>, key: Key, tags: TagStore, fuel: nat, crafted: ItemId, st: Station)
      returns (vs: seq<Variant>, r: Outcome<KbError>)
      requires StoreNamespaced(tags) && KeyNamespaced(key) && st == ShapedStation(pattern)
      modifies this
      ensures craftedToMaterial == old(craftedToMaterial)
      ensures Mirrors(ShapedRun(tags, pattern, key, fuel), r, vs, materialToCrafted, old(materialToCrafted), crafted, st)
    {
      ghost var m0 := materialToCrafted;
      var counts := CountSymbols(pattern);
      ghost var r0 := Run([], [Variant(map[], st)], Pass);
      vs, r := ShapedItems(key, counts, crafted, st, r0);
      if r.Fail? {
        return;
      }
      var n, found := RequiredVariants(key, tags, fuel);
      if found.Fail? {
        return vs, found;
      }
      if n > 1 {
        ghost var es := ResolveKey(tags, key, fuel).value;
        ghost var r1 := ItemPassFirst(r0, key, counts, |key|);
        VariantCountFits(es);
        vs := Replicate(vs[0], n);
        var flag;
        vs, r, flag := ListGroups(key, counts, n, vs, crafted, st, es, tags, fuel, r1.(vs := Copies(r1.vs[0], n)), m0);
        if r.Pass? {
          var mode := if flag then Strided else Block;
          vs, r := TagGroups(key, tags, fuel, counts, n, mode, vs, crafted, st, es,
                             PassFirst(r1.(vs := Copies(r1.vs[0], n)), es, counts, n, Lists, Block, |es|), m0);
        }
      }
    }

    /** A shaped recipe (KnowledgeBase.__LoadShaped): a barrel or campfire
        changes nothing; otherwise the indices are updated exactly as
        `ShapedRun` says — its registrations are made, in order, and on
        success its variants are appended to the crafted item's list, which
        is created empty when missing. `ShapedRunMeaning` says what that run
        is. */
    method LoadShaped(pattern: seq<string>, key: Key, result: string, tags: TagStore, fuel: nat)
      returns (r: Outcome<KbError>)
      requires Valid()
      requires StoreNamespaced(tags) && KeyNamespaced(key) && Namespaced(result)
      modifies this
      ensures Valid()
      ensures Strip(result) in Excluded ==>
        r == Pass && materialToCrafted == old(materialToCrafted) && craftedToMaterial == old(craftedToMaterial)
      ensures Strip(result) !in Excluded ==>
        var run := ShapedRun(tags, pattern, key, fuel);
        var crafted := Strip(result);
        && r == run.outcome
        && materialToCrafted == RegisterAll(old(materialToCrafted), run.regs, crafted, ShapedStation(pattern))
        && craftedToMaterial == old(craftedToMaterial)[crafted :=
             VariantsOf(old(craftedToMaterial), crafted) + if r.Pass? then run.vs else []]
    {
      var st := PatternStation(pattern);
      var crafted := Strip(result);
      if crafted in Excluded {
        return Pass;
      }
      ghost var m0 := materialToCrafted;
      ghost var c0 := craftedToMaterial;
      if crafted !in craftedToMaterial {
        craftedToMaterial := craftedToMaterial[crafted := []];
      }
      var vs;
      vs, r := ShapedPasses(pattern, key, tags, fuel, crafted, st);
      ExtendEntry(c0, craftedToMaterial, crafted, vs);
      if r.Pass? {
        craftedToMaterial := craftedToMaterial[crafted := craftedToMaterial[crafted] + vs];
      }
      ShapedRunKeepsValid(m0, c0, materialToCrafted, craftedToMaterial, crafted, tags, pattern, key, fuel);
    }

    /** The list branch of the smelting handler: `len - 1` deep copies of
        the empty variant, then each alternative registered and written into
        its own variant; an alternative that already had edges raises
        IndexError before anything is registered for it. */
    method SmeltAlternatives(g: seq<ItemId>, crafted: ItemId) returns (vs: seq<Variant>, r: Outcome<KbError>)
      modifies this
      ensures craftedToMaterial == old(craftedToMaterial)
      ensures Mirrors(SmeltFirst(old(materialToCrafted), g, crafted, |g|), r, vs, materialToCrafted,
                      old(materialToCrafted), crafted, Furnace)
    {
      ghost var m0 := materialToCrafted;
      vs, r := [Variant(map[], Furnace)], Pass;
      if |g| >= 1 {
        vs := Replicate(vs[0], |g|);
      }
      var ind := 0;
      while ind < |g|
        invariant 0 <= ind <= |g|
        invariant craftedToMaterial == old(craftedToMaterial)
        invariant r == Pass && Mirrors(SmeltFirst(m0, g, crafted, ind), r, vs, materialToCrafted, m0, crafted, Furnace)
      {
        var x := g[ind];
        if x in materialToCrafted && materialToCrafted[x] != [] {
          SmeltStopped(m0, g, crafted, ind + 1);
          return vs, Fail(ReboundLoopVariable);
        }
        RegisterAllSnoc(m0, SmeltFirst(m0, g, crafted, ind).regs, x, crafted, Furnace);
        RegisterMaterialEdge(x, crafted, Furnace);
        vs := vs[ind := vs[ind].(recipe := vs[ind].recipe[x := 1])];
        ind := ind + 1;
      }
    }

    /** The ingredient of a smelting recipe: a single item, a list of
        alternatives, or a tag, which is not looked up. */
    method SmeltIngredient(ing: Ingredient, crafted: ItemId) returns (vs: seq<Variant>, r: Outcome<KbError>)
      requires IngredientNamespaced(ing)
      modifies this
      ensures craftedToMaterial == old(craftedToMaterial)
      ensures Mirrors(SmeltRun(old(materialToCrafted), ing, crafted), r, vs, materialToCrafted,
                      old(materialToCrafted), crafted, Furnace)
    {
      ghost var m0 := materialToCrafted;
      vs, r := [Variant(map[], Furnace)], Pass;
      match ing
      case Item(x) =>
        var y := Strip(x);
        RegisterAllSnoc(m0, [], y, crafted, Furnace);
        assert [] + [y] == [y];
        RegisterMaterialEdge(y, crafted, Furnace);
        vs := vs[0 := vs[0].(recipe := vs[0].recipe[y := 1])];
      case Choice(a) =>
        vs, r := SmeltAlternatives(StripAll(a), crafted);
      case Tag(_) =>
    }

    /** A smelting recipe (KnowledgeBase.__LoadFurnace): the indices are
        updated exactly as `SmeltRun` says, from the material index the call
        starts with — its registrations are made, in order, and on success
        its variants are appended to the crafted item's list, which is
        created empty when missing. `SmeltRunMeaning` says what that run
        is. */
    method LoadFurnace(ing: Ingredient, result: string) returns (r: Outcome<KbError>)
      requires Valid()
      requires IngredientNamespaced(ing) && Namespaced(result)
      modifies this
      ensures Valid()
      ensures var crafted := Strip(result);
        var run := SmeltRun(old(materialToCrafted), ing, crafted);
        && r == run.outcome
        && materialToCrafted == RegisterAll(old(materialToCrafted), run.regs, crafted, Furnace)
        && craftedToMaterial == old(craftedToMaterial)[crafted :=
             VariantsOf(old(craftedToMaterial), crafted) + if r.Pass? then run.vs else []]
    {
      var crafted := Strip(result);
      ghost var m0 := materialToCrafted;
      ghost var c0 := craftedToMaterial;
      if crafted !in craftedToMaterial {
        craftedToMaterial := craftedToMaterial[crafted := []];
      }
      var vs;
      vs, r := SmeltIngredient(ing, crafted);
      ExtendEntry(c0, craftedToMaterial, crafted, vs);
      if r.Pass? {
        craftedToMaterial := craftedToMaterial[crafted := craftedToMaterial[crafted] + vs];
      }
      SmeltRunKeepsValid(m0, c0, materialToCrafted, craftedToMaterial, crafted, ing);
    }

    /** Both indices, as one value. */
    ghost function Indices(): State
      reads this
    {
      State(materialToCrafted, craftedToMaterial)
    }

    /** The for/else scan of the dropped item's variants: the drop's
        variant is appended unless a variant with its recipe is listed; an
        item not yet crafted gets a list holding the drop's variant alone. */
    method AddDropVariant(item: ItemId, mob: ItemId)
      modifies this
      ensures craftedToMaterial == AddDrop(old(craftedToMaterial), item, mob)
      ensures materialToCrafted == old(materialToCrafted)
    {
      if item !in craftedToMaterial {
        craftedToMaterial := craftedToMaterial[item := [Variant(map[mob := 1], Combat)]];
      } else {
        var vs := craftedToMaterial[item];
        var k := 0;
        while k < |vs| && vs[k].recipe != map[mob := 1]
          invariant 0 <= k <= |vs|
          invariant forall j :: 0 <= j < k ==> vs[j].recipe != Drop(mob)
        {
          k := k + 1;
        }
        if k == |vs| {
          craftedToMaterial := craftedToMaterial[item := vs + [Variant(map[mob := 1], Combat)]];
        } else {
          assert vs[k].recipe == Drop(mob);
        }
      }
    }

    /** One pool of the table of `mob`: each named entry is a drop. */
    method LootPool(entries: seq<Option<string>>, mob: ItemId)
      requires PoolNamespaced(entries)
      modifies this
      ensures Indices() == DropAll(old(Indices()), mob, PoolDrops(entries))
    {
      ghost var s0 := Indices();
      var j := 0;
      while j < |entries|
        invariant 0 <= j <= |entries|
        invariant PoolNamespaced(entries[..j])
        invariant Indices() == DropAll(s0, mob, PoolDrops(entries[..j]))
      {
        assert entries[..j + 1][..j] == entries[..j];
        assert entries[..j + 1][j] == entries[j];
        if entries[j].Some? {
          var item := Strip(entries[j].value);
          AddDropVariant(item, mob);
          RegisterMaterialEdge(mob, item, Combat);
          DropAllAppend(s0, mob, PoolDrops(entries[..j]), [item]);
        } else {
          assert PoolDrops(entries[..j]) + [] == PoolDrops(entries[..j]);
        }
        j := j + 1;
      }
      assert entries[..|entries|] == entries;
    }

    /** The table of `mob` (KnowledgeBase.__LoadLootTable): a table without
        pools changes nothing; otherwise every named entry of every pool is
        recorded as a drop of `mob`. `LoadTableIdempotent` and
        `DropAllRecords` say what that does. */
    method LoadLootTable(pools: Option<seq<seq<Option<string>>>>, mob: ItemId)
      requires Valid() && (pools.Some? ==> PoolsNamespaced(pools.value))
      modifies this
      ensures Valid()
      ensures Indices() == LoadTable(old(Indices()), pools, mob)
    {
      if pools.None? {
        return;
      }
      ghost var s0 := Indices();
      var ps := pools.value;
      var i := 0;
      while i < |ps|
        invariant 0 <= i <= |ps|
        invariant PoolsNamespaced(ps[..i])
        invariant Indices() == DropAll(s0, mob, TableDrops(ps[..i]))
      {
        assert ps[..i + 1] == ps[..i] + [ps[i]];
        TableDropsSnoc(ps[..i], ps[i]);
        LootPool(ps[i], mob);
        DropAllAppend(s0, mob, TableDrops(ps[..i]), PoolDrops(ps[i]));
        i := i + 1;
      }
      assert ps[..|ps|] == ps;
      DropAllKeepsValid(s0, mob, TableDrops(ps));
    }

    /** The loot directory (KnowledgeBase.__LoadLoot): every `.json` file is
        loaded as the table of the mob its base name names; other files are
        skipped. */
    method LoadLoot(files: seq<LootFile>)
      requires Valid() && FilesNamespaced(files)
      modifies this
      ensures Valid()
      ensures Indices() == LoadTables(old(Indices()), files)
    {
      ghost var s0 := Indices();
      var i := 0;
      while i < |files|
        invariant 0 <= i <= |files|
        invariant Valid()
        invariant FilesNamespaced(files[..i])
        invariant Indices() == LoadTables(s0, files[..i])
      {
        assert files[..i + 1][..i] == files[..i];
        assert files[..i + 1][i] == files[i];
        var f := files[i];
        if IsJson(f.fileName) {
          LoadLootTable(f.pools, BaseName(f.fileName));
        }
        i := i + 1;
      }
      assert files[..|files|] == files;
    }

    /** One recipe file, dispatched on its `type` (the body of the loop in
        KnowledgeBase.__LoadRecipe); any other type is skipped. */
    method LoadRecipeFile(f: RecipeFile, tags: TagStore, fuel: nat) returns (r: Outcome<KbError>)
      requires Valid() && StoreNamespaced(tags) && RecipeNamespaced(f)
      modifies this
      ensures Valid()
      ensures Step(Indices(), r) == RecipeStep(old(Indices()), f, tags, fuel)
    {
      r := Pass;
      if f.craftType == ShapelessType {
        match f.body
        case ShapelessBody(ings, result) =>
          r := LoadShapeless(ings, result, tags, fuel);
        case _ =>
          r := Fail(MalformedRecord);
      } else if f.craftType == ShapedType {
        match f.body
        case ShapedBody(pattern, key, result) =>
          r := LoadShaped(pattern, key, result, tags, fuel);
        case _ =>
          r := Fail(MalformedRecord);
      } else if f.craftType == SmeltingType {
        match f.body
        case SmeltingBody(ing, result) =>
          r := LoadFurnace(ing, result);
        case _ =>
          r := Fail(MalformedRecord);
      }
    }

    /** The recipe directory (KnowledgeBase.__LoadRecipe): the files in the
        order the directory lists them; the first exception escapes. */
    method LoadRecipe(files: seq<RecipeFile>, tags: TagStore, fuel: nat) returns (r: Outcome<KbError>)
      requires Valid() && StoreNamespaced(tags) && RecipesNamespaced(files)
      modifies this
      ensures Valid()
      ensures Step(Indices(), r) == LoadRecipes(old(Indices()), files, tags, fuel)
    {
      ghost var s0 := Indices();
      r := Pass;
      var i := 0;
      while i < |files|
        invariant 0 <= i <= |files|
        invariant Valid()
        invariant r == Pass && Step(Indices(), r) == LoadRecipes(s0, files[..i], tags, fuel)
      {
        assert files[..i + 1][..i] == files[..i];
        assert files[..i + 1][i] == files[i];
        r := LoadRecipeFile(files[i], tags, fuel);
        if r.Fail? {
          LoadRecipesStopped(s0, files, tags, fuel, i + 1);
          return;
        }
        i := i + 1;
      }
      assert files[..|files|] == files;
    }

    /** KnowledgeBase.Load: both indices are reset, the recipes are loaded
        if `recipe`, and the loot tables if `loot` and no recipe raised. The
        result is `LoadAll`, whose indices `LoadAllValid` shows valid. */
    method Load(recipe: bool, loot: bool, recipes: seq<RecipeFile>, tables: seq<LootFile>, tags: TagStore, fuel: nat)
      returns (r: Outcome<KbError>)
      requires StoreNamespaced(tags) && RecipesNamespaced(recipes) && FilesNamespaced(tables)
      modifies this
      ensures Valid()
      ensures Step(Indices(), r) == LoadAll(recipe, loot, recipes, tables, tags, fuel)
    {
      materialToCrafted := map[];
      craftedToMaterial := map[];
      r := Pass;
      if recipe {
        r := LoadRecipe(recipes, tags, fuel);
        if r.Fail? {
          return;
        }
      }
      if loot {
        LoadLoot(tables);
      }
    }
  }
}
