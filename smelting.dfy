/**
 * The smelting handler of knowledgebase/KnowledgeBase.py:285-335.
 *
 * A single item is registered and needs one of itself. A list of
 * alternatives gives one variant per alternative (at least one variant);
 * each alternative is registered and then written into its own variant.
 * Both the append and the write read the loop variable `item`, which the
 * for/else scan of the alternative's existing edges rebinds to one of those
 * edges, whose `item` is a bare name without a colon: whenever the
 * alternative already had a non-empty list, either the `else` branch's
 * subscript or the write raises IndexError, and no edge is added for that
 * alternative. A tag is not looked up: the recipe gets one empty variant.
 */
module Smelting {
  import opened Wrappers
  import opened Records
  import opened Indices

  /** The variant list the list branch starts from: `len(ingredient)`
      copies of an empty variant, and never fewer than one. */
  function SmeltStart(g: seq<ItemId>): (vs: seq<Variant>)
    ensures |vs| == if g == [] then 1 else |g|
  {
    Copies(Variant(map[], Furnace), if g == [] then 1 else |g|)
  }

  /** Alternative `k` of a list: registered, then written into variant `k`,
      unless it was already a material with edges, in which case it raises
      before registering anything. */
  function SmeltStep(m0: MaterialIndex, r: Run, g: seq<ItemId>, k: nat, crafted: ItemId): (r': Run)
    requires k < |g| && k < |r.vs|
    ensures |r'.vs| == |r.vs|
  {
    if r.outcome.Fail? then r
    else
      var x := g[k];
      var m := RegisterAll(m0, r.regs, crafted, Furnace);
      if x !in m || m[x] == [] then Run(r.regs + [x], r.vs[k := r.vs[k].(recipe := r.vs[k].recipe[x := 1])], Pass)
      else Run(r.regs, r.vs, Fail(ReboundLoopVariable))
  }

  function SmeltFirst(m0: MaterialIndex, g: seq<ItemId>, crafted: ItemId, k: nat): (r: Run)
    requires k <= |g|
    ensures |r.vs| == |SmeltStart(g)|
  {
    if k == 0 then Run([], SmeltStart(g), Pass)
    else SmeltStep(m0, SmeltFirst(m0, g, crafted, k - 1), g, k - 1, crafted)
  }

  /** The whole handler, from the material index `m0` it starts with. */
  function SmeltRun(m0: MaterialIndex, ing: Ingredient, crafted: ItemId): Run
    requires IngredientNamespaced(ing)
  {
    match ing
    case Item(x) => Run([Strip(x)], [Variant(map[Strip(x) := 1], Furnace)], Pass)
    case Choice(a) => SmeltFirst(m0, StripAll(a), crafted, |a|)
    case Tag(_) => Run([], [Variant(map[], Furnace)], Pass)
  }

  /** Once an alternative has failed, the rest of the list changes nothing. */
  lemma {:induction false} SmeltStopped(m0: MaterialIndex, g: seq<ItemId>, crafted: ItemId, j: nat)
    requires j <= |g| && SmeltFirst(m0, g, crafted, j).outcome.Fail?
    ensures SmeltFirst(m0, g, crafted, |g|) == SmeltFirst(m0, g, crafted, j)
    decreases |g| - j
  {
    if j < |g| {
      SmeltStopped(m0, g, crafted, j + 1);
    }
  }

  // ---------------------------------------------------------------------
  // What the handler computes.

  /** Alternative `i` is new: it differs from the alternatives before it and
      had no edges in `m0`. */
  predicate FreshAlternative(m0: MaterialIndex, g: seq<ItemId>, i: nat)
    requires i < |g|
  {
    && (forall j :: 0 <= j < i ==> g[j] != g[i])
    && (g[i] !in m0 || m0[g[i]] == [])
  }

  /** The list branch completes exactly when every alternative is new. */
  predicate SmeltSucceeds(m0: MaterialIndex, g: seq<ItemId>, k: nat)
    requires k <= |g|
  {
    forall i :: 0 <= i < k ==> FreshAlternative(m0, g, i)
  }

  /** One variant per alternative, each needing one of that alternative. */
  function SmeltVariants(g: seq<ItemId>): (vs: seq<Variant>)
    ensures |vs| == |g|
  {
    seq(|g|, i requires 0 <= i < |g| => Variant(map[g[i] := 1], Furnace))
  }

  /** After `k` alternatives without failure, the index holds `m0` with
      those alternatives registered, and alternative `k` fails exactly when
      it is not new. */
  lemma SmeltStepFails(m0: MaterialIndex, g: seq<ItemId>, k: nat, crafted: ItemId)
    requires k < |g|
    ensures var m := RegisterAll(m0, g[..k], crafted, Furnace);
      (g[k] !in m || m[g[k]] == []) <==> FreshAlternative(m0, g, k)
  {
    var m := RegisterAll(m0, g[..k], crafted, Furnace);
    if g[k] in g[..k] {
      RegisterAllEdges(m0, g[..k], crafted, Furnace);
      var j :| 0 <= j < k && g[..k][j] == g[k];
      assert g[j] == g[k];
    } else {
      RegisterAllOutside(m0, g[..k], g[k], crafted, Furnace);
      assert forall j :: 0 <= j < k ==> g[j] == g[..k][j];
    }
  }

  /** The variants after the first `k` alternatives were written. */
  ghost predicate WrittenUpTo(vs: seq<Variant>, g: seq<ItemId>, k: nat) {
    forall i :: 0 <= i < |vs| ==>
      vs[i] == if i < k && i < |g| then Variant(map[g[i] := 1], Furnace) else Variant(map[], Furnace)
  }

  /** One alternative written after a run without failure. */
  lemma SmeltStepMeaning(m0: MaterialIndex, r: Run, g: seq<ItemId>, k: nat, crafted: ItemId)
    requires k < |g| && |r.vs| == |g| && r.outcome.Pass? && r.regs == g[..k] && WrittenUpTo(r.vs, g, k)
    ensures var r' := SmeltStep(m0, r, g, k, crafted);
      && (r'.outcome.Pass? <==> FreshAlternative(m0, g, k))
      && (r'.outcome.Pass? ==> r'.regs == g[..k + 1] && WrittenUpTo(r'.vs, g, k + 1))
      && (r'.outcome.Fail? ==> r'.regs == g[..k])
  {
    SmeltStepFails(m0, g, k, crafted);
    assert g[..k + 1] == g[..k] + [g[k]];
  }

  /** The list branch succeeds on the first `k` alternatives exactly when
      they are all new; it has then registered them in order and written
      alternative `i` into variant `i` alone. A failure is the rebound
      loop variable, raised at the first alternative `i` that is not new,
      after exactly the alternatives before it were registered. */
  lemma {:induction false} SmeltFirstMeaning(m0: MaterialIndex, g: seq<ItemId>, crafted: ItemId, k: nat)
    requires k <= |g|
    ensures SmeltFirstMeans(m0, g, crafted, k)
  {
    if k == 0 {
      var r := SmeltFirst(m0, g, crafted, 0);
      forall i | 0 <= i < |r.vs|
        ensures r.vs[i] == Variant(map[], Furnace)
      {
        CopiesAt(Variant(map[], Furnace), |r.vs|, i);
      }
    } else {
      SmeltFirstMeaning(m0, g, crafted, k - 1);
      SmeltFirstStep(m0, g, crafted, k);
    }
  }

  /** What `SmeltFirstMeaning` states about the first `k` alternatives. */
  ghost predicate SmeltFirstMeans(m0: MaterialIndex, g: seq<ItemId>, crafted: ItemId, k: nat)
    requires k <= |g|
  {
    var r := SmeltFirst(m0, g, crafted, k);
    && (r.outcome.Pass? <==> SmeltSucceeds(m0, g, k))
    && (r.outcome.Fail? ==> r.outcome == Fail(ReboundLoopVariable) && StoppedAt(m0, g, r.regs, k))
    && (r.outcome.Pass? ==> r.regs == g[..k] && WrittenUpTo(r.vs, g, k))
  }

  /** The registrations `regs` a failed list branch over the first `k`
      alternatives leaves: those before the first alternative that is not
      new, and nothing else. */
  predicate StoppedAt(m0: MaterialIndex, g: seq<ItemId>, regs: seq<ItemId>, k: nat)
    requires k <= |g|
  {
    && |regs| < k
    && regs == g[..|regs|]
    && SmeltSucceeds(m0, g, |regs|)
    && !FreshAlternative(m0, g, |regs|)
  }

  lemma SmeltFirstStep(m0: MaterialIndex, g: seq<ItemId>, crafted: ItemId, k: nat)
    requires 0 < k <= |g| && SmeltFirstMeans(m0, g, crafted, k - 1)
    ensures SmeltFirstMeans(m0, g, crafted, k)
  {
    var rp := SmeltFirst(m0, g, crafted, k - 1);
    if rp.outcome.Pass? {
      SmeltStepMeaning(m0, rp, g, k - 1, crafted);
    }
  }

  /** Whole-handler summary: a single item or a tag always completes; a
      list completes exactly when its alternatives are all new, and then
      registers them in order and yields `SmeltVariants`; otherwise it
      raises at the first alternative that is not new, having registered
      only the alternatives before it. */
  lemma SmeltRunMeaning(m0: MaterialIndex, ing: Ingredient, crafted: ItemId)
    requires IngredientNamespaced(ing)
    ensures var r := SmeltRun(m0, ing, crafted);
      && (ing.Item? ==> r == Run([Strip(ing.item)], [Variant(map[Strip(ing.item) := 1], Furnace)], Pass))
      && (ing.Tag? ==> r == Run([], [Variant(map[], Furnace)], Pass))
      && (ing.Choice? ==>
            var g := StripAll(ing.alternatives);
            && (r.outcome.Pass? <==> SmeltSucceeds(m0, g, |g|))
            && (r.outcome.Fail? ==> r.outcome == Fail(ReboundLoopVariable) && StoppedAt(m0, g, r.regs, |g|))
            && (r.outcome.Pass? ==>
                  r.regs == g && r.vs == if g == [] then [Variant(map[], Furnace)] else SmeltVariants(g)))
  {
    if ing.Choice? {
      SmeltListMeaning(m0, StripAll(ing.alternatives), crafted);
    }
  }

  /** The list branch over a whole list of alternatives. */
  lemma SmeltListMeaning(m0: MaterialIndex, g: seq<ItemId>, crafted: ItemId)
    ensures var r := SmeltFirst(m0, g, crafted, |g|);
      && (r.outcome.Pass? <==> SmeltSucceeds(m0, g, |g|))
      && (r.outcome.Fail? ==> r.outcome == Fail(ReboundLoopVariable) && StoppedAt(m0, g, r.regs, |g|))
      && (r.outcome.Pass? ==>
            r.regs == g && r.vs == if g == [] then [Variant(map[], Furnace)] else SmeltVariants(g))
  {
    SmeltFirstMeaning(m0, g, crafted, |g|);
    assert g[..|g|] == g;
    var r := SmeltFirst(m0, g, crafted, |g|);
    if r.outcome.Pass? && g != [] {
      assert forall i :: 0 <= i < |g| ==> r.vs[i] == SmeltVariants(g)[i];
    }
  }

  /** With `coal` already a material of `torch`, the one-alternative list
      `[minecraft:coal]` for `iron_ingot` raises, and the material index
      keeps only the `torch` edge. */
  lemma RawMaterialRaises()
    ensures var m0 := map["coal" := [Edge("torch", CraftingTable)]];
      var r := SmeltRun(m0, Choice(["minecraft:coal"]), "iron_ingot");
      && r.outcome == Fail(ReboundLoopVariable)
      && RegisterAll(m0, r.regs, "iron_ingot", Furnace) == m0
  {
    var m0 := map["coal" := [Edge("torch", CraftingTable)]];
    var g := ["coal"];
    CoalStripped();
    assert SmeltRun(m0, Choice(["minecraft:coal"]), "iron_ingot") == SmeltFirst(m0, g, "iron_ingot", 1);
    var r0 := SmeltFirst(m0, g, "iron_ingot", 0);
    assert r0.regs == [] && r0.outcome.Pass?;
    assert RegisterAll(m0, [], "iron_ingot", Furnace) == m0;
    assert m0[g[0]] != [];
    assert SmeltFirst(m0, g, "iron_ingot", 1) == Run([], r0.vs, Fail(ReboundLoopVariable));
  }

  /** `minecraft:coal` strips to `coal`. */
  lemma CoalStripped()
    ensures IngredientNamespaced(Choice(["minecraft:coal"]))
    ensures StripAll(["minecraft:coal"]) == ["coal"]
  {
    StripSegment("minecraft", "coal", "");
    assert "minecraft" + [':'] + "coal" + "" == "minecraft:coal";
  }

  /** Every ingredient of every variant of the run has been registered. */
  lemma SmeltRunKeys(m0: MaterialIndex, ing: Ingredient, crafted: ItemId)
    requires IngredientNamespaced(ing)
    ensures var r := SmeltRun(m0, ing, crafted);
      r.outcome.Pass? ==> forall i, y :: 0 <= i < |r.vs| && y in r.vs[i].recipe ==> y in r.regs
  {
    SmeltRunMeaning(m0, ing, crafted);
  }

  /** The handler keeps both index invariants. */
  lemma SmeltRunKeepsValid(m0: MaterialIndex, c0: CraftedIndex, m: MaterialIndex, c: CraftedIndex,
                           crafted: ItemId, ing: Ingredient)
    requires IngredientNamespaced(ing)
    requires NoDuplicateEdges(m0) && Consistent(m0, c0)
    requires var run := SmeltRun(m0, ing, crafted);
      && m == RegisterAll(m0, run.regs, crafted, Furnace)
      && c == c0[crafted := VariantsOf(c0, crafted) + if run.outcome.Pass? then run.vs else []]
    ensures NoDuplicateEdges(m) && Consistent(m, c)
  {
    var run := SmeltRun(m0, ing, crafted);
    var vs := if run.outcome.Pass? then run.vs else [];
    RegisterAllKeepsInvariants(m0, c0, run.regs, crafted, Furnace);
    SmeltRunKeys(m0, ing, crafted);
    RegisterAllEdges(m0, run.regs, crafted, Furnace);
    ConsistentAppend(m, c0, crafted, vs);
  }
}
