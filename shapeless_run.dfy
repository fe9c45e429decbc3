/**
 * The shapeless handler of knowledgebase/KnowledgeBase.py:35-132 as the
 * handler runs it: three passes over the ingredients (concrete items, then
 * lists, then tags) that register materials one by one and grow the variant
 * list `this_recipe`, stopping at the first exception.
 *
 * `ShapelessRun` follows the code step by step and is what the class's
 * loops are proved against; `ShapelessRunMeaning` ties it to the description
 * in ShapelessSpec: the handler succeeds exactly when every tag resolves and
 * every group fits the variant list, and then it produces the variants
 * `ShapelessVariants` describes.
 */
module ShapelessLoad {
  import opened Wrappers
  import opened Records
  import opened TagResolver
  import opened Indices
  import opened ShapelessSpec

  /** `this_recipe` before a group of `n` alternatives: a single variant is
      copied until there is one per alternative. */
  function Widened(vs: seq<Variant>, n: int): (ws: seq<Variant>)
    requires |vs| >= 1
    ensures |ws| >= 1
  {
    if |vs| == 1 && n >= 2 then Copies(vs[0], n) else vs
  }

  /** Alternatives `0..n-1` of `g` counted into variants `0..n-1`. */
  function CountedFirst(vs: seq<Variant>, g: seq<ItemId>, n: nat): (ws: seq<Variant>)
    requires n <= |g| && n <= |vs|
    ensures |ws| == |vs|
  {
    if n == 0 then vs
    else
      var p := CountedFirst(vs, g, n - 1);
      p[n - 1 := p[n - 1].(recipe := Inc(p[n - 1].recipe, g[n - 1]))]
  }

  /** One list or tag group: widen, then register alternative `ind` and
      count it into variant `ind`; an alternative with no variant raises
      IndexError right after it is registered. */
  function AddGroupRun(r: Run, g: seq<ItemId>): (r': Run)
    requires |r.vs| >= 1
    ensures |r'.vs| >= 1
  {
    var w := Widened(r.vs, |g|);
    if |g| <= |w| then Run(r.regs + g, CountedFirst(w, g, |g|), r.outcome)
    else Run(r.regs + g[..|w| + 1], w, Fail(VariantIndex))
  }

  /** One ingredient of the list pass: a list is a group. */
  function ChoiceStep(r: Run, ing: Ingredient): (r': Run)
    requires |r.vs| >= 1 && IngredientNamespaced(ing)
    ensures |r'.vs| >= 1
  {
    if r.outcome.Fail? || !ing.Choice? then r else AddGroupRun(r, StripAll(ing.alternatives))
  }

  /** The list pass over the first `n` ingredients. */
  function ChoiceRunFirst(r0: Run, ings: seq<Ingredient>, n: nat): (r: Run)
    requires |r0.vs| >= 1 && n <= |ings| && IngredientsNamespaced(ings)
    ensures |r.vs| >= 1
  {
    if n == 0 then r0 else ChoiceStep(ChoiceRunFirst(r0, ings, n - 1), ings[n - 1])
  }

  /** One ingredient of the tag pass: a tag that does not resolve stops the
      handler with the resolver's error; one that does is a group. */
  function TagStep(r: Run, tags: TagStore, ing: Ingredient, fuel: nat): (r': Run)
    requires |r.vs| >= 1 && StoreNamespaced(tags) && IngredientNamespaced(ing)
    ensures |r'.vs| >= 1
  {
    if r.outcome.Fail? || !ing.Tag? then r
    else
      var res := ResolveTag(tags, Strip(ing.tag), fuel);
      if res.Failure? then r.(outcome := Fail(res.error)) else AddGroupRun(r, StripAll(res.value))
  }

  /** The tag pass over the first `n` ingredients. */
  function TagRunFirst(r0: Run, tags: TagStore, ings: seq<Ingredient>, n: nat, fuel: nat): (r: Run)
    requires |r0.vs| >= 1 && n <= |ings| && StoreNamespaced(tags) && IngredientsNamespaced(ings)
    ensures |r.vs| >= 1
  {
    if n == 0 then r0 else TagStep(TagRunFirst(r0, tags, ings, n - 1, fuel), tags, ings[n - 1], fuel)
  }

  /** The state the concrete-item pass leaves: every item registered, and
      one variant counting them. */
  function ItemRun(ings: seq<Ingredient>): Run
    requires IngredientsNamespaced(ings)
  {
    var items := ConcreteItems(ings);
    Run(items, [Variant(Tally(items), ShapelessStation(ings))], Pass)
  }

  /** The whole handler. */
  function ShapelessRun(tags: TagStore, ings: seq<Ingredient>, fuel: nat): Run
    requires StoreNamespaced(tags) && IngredientsNamespaced(ings)
  {
    var r1 := ChoiceRunFirst(ItemRun(ings), ings, |ings|);
    if r1.outcome.Fail? then r1 else TagRunFirst(r1, tags, ings, |ings|, fuel)
  }

  // ---------------------------------------------------------------------
  // Once stopped, a pass stays stopped.

  lemma {:induction false} ChoiceRunStopped(r0: Run, ings: seq<Ingredient>, j: nat)
    requires |r0.vs| >= 1 && j <= |ings| && IngredientsNamespaced(ings)
    requires ChoiceRunFirst(r0, ings, j).outcome.Fail?
    ensures ChoiceRunFirst(r0, ings, |ings|) == ChoiceRunFirst(r0, ings, j)
    decreases |ings| - j
  {
    if j < |ings| {
      ChoiceRunStopped(r0, ings, j + 1);
    }
  }

  lemma {:induction false} TagRunStopped(r0: Run, tags: TagStore, ings: seq<Ingredient>, j: nat, fuel: nat)
    requires |r0.vs| >= 1 && j <= |ings| && StoreNamespaced(tags) && IngredientsNamespaced(ings)
    requires TagRunFirst(r0, tags, ings, j, fuel).outcome.Fail?
    ensures TagRunFirst(r0, tags, ings, |ings|, fuel) == TagRunFirst(r0, tags, ings, j, fuel)
    decreases |ings| - j
  {
    if j < |ings| {
      TagRunStopped(r0, tags, ings, j + 1, fuel);
    }
  }

  // ---------------------------------------------------------------------
  // The run against the description.

  lemma {:induction false} CountedAt(vs: seq<Variant>, g: seq<ItemId>, n: nat, i: nat)
    requires n <= |g| && n <= |vs| && i < |vs|
    ensures CountedFirst(vs, g, n)[i] ==
      if i < n then vs[i].(recipe := Inc(vs[i].recipe, g[i])) else vs[i]
  {
    if n > 0 {
      CountedAt(vs, g, n - 1, i);
    }
  }

  /** A group that fits is one GroupStep. */
  lemma AddGroupRunFits(r: Run, g: seq<ItemId>)
    requires |r.vs| >= 1 && (|r.vs| == 1 || |g| <= |r.vs|)
    ensures AddGroupRun(r, g).outcome == r.outcome && AddGroupRun(r, g).regs == r.regs + g
    ensures GroupStep(r.vs, g, AddGroupRun(r, g).vs)
  {
    var w := Widened(r.vs, |g|);
    forall i | 0 <= i < |w| ensures w[i] == if |r.vs| == 1 then r.vs[0] else r.vs[i] {
      if |r.vs| == 1 && |g| >= 2 {
        CopiesAt(r.vs[0], |g|, i);
      }
    }
    var ws := CountedFirst(w, g, |g|);
    forall i | 0 <= i < |ws|
      ensures ws[i] == if i < |g| then w[i].(recipe := Inc(w[i].recipe, g[i])) else w[i]
    {
      CountedAt(w, g, |g|, i);
    }
    GroupStepIntro(r.vs, g, w, ws);
  }

  /** One group on the variants of the groups `gs`: it raises IndexError
      exactly when `gs + [g]` does not fit, and otherwise registers `g` and
      yields the variants of `gs + [g]`. */
  lemma GroupMeaning(r: Run, items: seq<ItemId>, st: Station, gs: seq<seq<ItemId>>, g: seq<ItemId>)
    requires FitsWidth(gs) && r.vs == ShapelessVariants(items, gs, st)
    ensures var r' := AddGroupRun(r, g);
      && (r'.outcome == r.outcome <==> FitsWidth(gs + [g]) || r.outcome == Fail(VariantIndex))
      && (!FitsWidth(gs + [g]) ==> r'.outcome == Fail(VariantIndex))
      && (FitsWidth(gs + [g]) ==> r'.regs == r.regs + g && r'.vs == ShapelessVariants(items, gs + [g], st))
  {
    ShapelessStepFits(gs, g);
    if Width(gs) == 1 || |g| <= Width(gs) {
      AddGroupRunFits(r, g);
      ShapelessStepSpec(items, gs, g, st, AddGroupRun(r, g).vs);
    }
  }

  /** What the list pass has done after the groups `gs`, having started
      from the registrations `pre`: it has stopped exactly when `gs` does not
      fit, and otherwise registered every alternative and built the
      variants of `gs`. */
  ghost predicate ChoiceState(pre: seq<ItemId>, items: seq<ItemId>, st: Station, r: Run, gs: seq<seq<ItemId>>) {
    && (r.outcome.Pass? <==> FitsWidth(gs))
    && (r.outcome.Fail? ==> r.outcome.error == VariantIndex)
    && (r.outcome.Pass? ==> r.regs == pre + Flatten(gs) && r.vs == ShapelessVariants(items, gs, st))
  }

  lemma ChoiceStepMeaning(pre: seq<ItemId>, items: seq<ItemId>, st: Station, r: Run, gs: seq<seq<ItemId>>,
                          ing: Ingredient)
    requires |r.vs| >= 1 && IngredientNamespaced(ing)
    requires ChoiceState(pre, items, st, r, gs)
    ensures ChoiceState(pre, items, st, ChoiceStep(r, ing), gs + ChoiceOf(ing))
  {
    if !ing.Choice? {
      assert gs + ChoiceOf(ing) == gs;
    } else if r.outcome.Fail? {
      PrefixNotFits(gs, gs + ChoiceOf(ing));
    } else {
      var g := StripAll(ing.alternatives);
      GroupMeaning(r, items, st, gs, g);
      if FitsWidth(gs + [g]) {
        FlattenSnoc(gs, g);
        AppendAssoc(pre, Flatten(gs), g);
      }
    }
  }

  /** The list pass: it stops exactly when the lists do not fit, and
      otherwise registers every alternative and yields their variants. */
  lemma {:induction false} ChoiceRunMeaning(r0: Run, items: seq<ItemId>, st: Station, ings: seq<Ingredient>, n: nat)
    requires n <= |ings| && IngredientsNamespaced(ings)
    requires r0.outcome.Pass? && r0.vs == ShapelessVariants(items, [], st)
    ensures ChoiceState(r0.regs, items, st, ChoiceRunFirst(r0, ings, n), ChoiceGroupsFirst(ings, n))
  {
    if n == 0 {
      assert r0.regs + Flatten([]) == r0.regs;
    } else {
      ChoiceRunMeaning(r0, items, st, ings, n - 1);
      ChoiceStepMeaning(r0.regs, items, st, ChoiceRunFirst(r0, ings, n - 1), ChoiceGroupsFirst(ings, n - 1), ings[n - 1]);
    }
  }

  /** What the tag pass has done after the tag groups `t`, following the
      lists `choices`. */
  ghost predicate TagState(pre: seq<ItemId>, items: seq<ItemId>, st: Station, choices: seq<seq<ItemId>>,
                           r: Run, t: Result<seq<seq<ItemId>>, KbError>) {
    && (r.outcome.Pass? <==> t.Success? && FitsWidth(choices + t.value))
    && (r.outcome.Pass? ==>
          r.regs == pre + Flatten(t.value) && r.vs == ShapelessVariants(items, choices + t.value, st))
    && (r.outcome.Fail? && r.outcome.error != VariantIndex ==> t == Failure(r.outcome.error))
    && (r.outcome.Fail? ==>
          r.outcome.error == VariantIndex || r.outcome.error.MissingTag? || r.outcome.error == OutOfFuel)
  }

  lemma TagStepMeaning(pre: seq<ItemId>, items: seq<ItemId>, st: Station, choices: seq<seq<ItemId>>,
                       r: Run, t: Result<seq<seq<ItemId>>, KbError>, tags: TagStore, ing: Ingredient, fuel: nat)
    requires |r.vs| >= 1 && StoreNamespaced(tags) && IngredientNamespaced(ing)
    requires TagState(pre, items, st, choices, r, t)
    ensures TagState(pre, items, st, choices, TagStep(r, tags, ing, fuel), TagGroupStep(t, tags, ing, fuel))
  {
    if t.Success? && ing.Tag? {
      var res := ResolveTag(tags, Strip(ing.tag), fuel);
      if res.Success? {
        var g := StripAll(res.value);
        var t' := TagGroupStep(t, tags, ing, fuel);
        assert t'.value == t.value + [g];
        assert choices + t'.value == (choices + t.value) + [g];
        if r.outcome.Fail? {
          PrefixNotFits(choices + t.value, choices + t'.value);
        } else {
          GroupMeaning(r, items, st, choices + t.value, g);
          if FitsWidth(choices + t'.value) {
            FlattenSnoc(t.value, g);
            AppendAssoc(pre, Flatten(t.value), g);
          }
        }
      }
    }
  }

  /** The tag pass after the lists `choices`: it stops with the resolver's
      error at the first tag that does not resolve, with IndexError when the
      groups do not fit, and otherwise yields the variants of all groups. */
  lemma {:induction false} TagRunMeaning(r0: Run, items: seq<ItemId>, st: Station, choices: seq<seq<ItemId>>,
                                         tags: TagStore, ings: seq<Ingredient>, n: nat, fuel: nat)
    requires n <= |ings| && StoreNamespaced(tags) && IngredientsNamespaced(ings)
    requires r0.outcome.Pass? && FitsWidth(choices) && r0.vs == ShapelessVariants(items, choices, st)
    ensures TagState(r0.regs, items, st, choices, TagRunFirst(r0, tags, ings, n, fuel), TagGroupsFirst(tags, ings, n, fuel))
  {
    if n == 0 {
      assert choices + [] == choices;
      assert r0.regs + Flatten([]) == r0.regs;
    } else {
      TagRunMeaning(r0, items, st, choices, tags, ings, n - 1, fuel);
      TagStepMeaning(r0.regs, items, st, choices, TagRunFirst(r0, tags, ings, n - 1, fuel),
                     TagGroupsFirst(tags, ings, n - 1, fuel), tags, ings[n - 1], fuel);
    }
  }

  /** The handler succeeds exactly when every tag resolves and every group
      fits; it then registers the concrete items and every alternative, in
      order, and yields `ShapelessVariants`; a failure other than IndexError
      is the first tag that does not resolve. */
  lemma ShapelessRunMeaning(tags: TagStore, ings: seq<Ingredient>, fuel: nat)
    requires StoreNamespaced(tags) && IngredientsNamespaced(ings)
    ensures var run := ShapelessRun(tags, ings, fuel);
      && (run.outcome.Pass? <==> ShapelessSucceeds(tags, ings, fuel))
      && (run.outcome.Pass? ==>
            var gs := ShapelessGroups(tags, ings, fuel).value;
            && run.regs == ConcreteItems(ings) + Flatten(gs)
            && run.vs == ShapelessVariants(ConcreteItems(ings), gs, ShapelessStation(ings)))
      && (run.outcome.Fail? && run.outcome.error != VariantIndex ==>
            ShapelessGroups(tags, ings, fuel) == Failure(run.outcome.error))
      && (run.outcome.Fail? ==>
            run.outcome.error == VariantIndex || run.outcome.error.MissingTag? || run.outcome.error == OutOfFuel)
  {
    var items := ConcreteItems(ings);
    var st := ShapelessStation(ings);
    var r0 := ItemRun(ings);
    ShapelessBase(items, st);
    ChoiceRunMeaning(r0, items, st, ings, |ings|);
    var r1 := ChoiceRunFirst(r0, ings, |ings|);
    var choices := ChoiceGroups(ings);
    var t := TagGroups(tags, ings, fuel);
    if r1.outcome.Fail? {
      if t.Success? {
        PrefixOfAppend(choices, t.value);
      }
      WidthFailure(tags, ings, fuel, choices);
    } else {
      TagRunMeaning(r1, items, st, choices, tags, ings, |ings|, fuel);
      if t.Success? {
        FlattenAppend(choices, t.value);
        AppendAssoc(items, Flatten(choices), Flatten(t.value));
      }
    }
  }

  /** The handler keeps both index invariants: registering the run's
      materials adds no duplicate edge, and every ingredient of the variants
      it appends on success has an edge back to the crafted item. */
  lemma ShapelessRunKeepsValid(m0: MaterialIndex, c0: CraftedIndex, m: MaterialIndex, c: CraftedIndex,
                               crafted: ItemId, tags: TagStore, ings: seq<Ingredient>, fuel: nat)
    requires StoreNamespaced(tags) && IngredientsNamespaced(ings)
    requires NoDuplicateEdges(m0) && Consistent(m0, c0)
    requires var run := ShapelessRun(tags, ings, fuel);
      && m == RegisterAll(m0, run.regs, crafted, ShapelessStation(ings))
      && c == c0[crafted := VariantsOf(c0, crafted) + if run.outcome.Pass? then run.vs else []]
    ensures NoDuplicateEdges(m) && Consistent(m, c)
  {
    var run := ShapelessRun(tags, ings, fuel);
    var st := ShapelessStation(ings);
    var vs := if run.outcome.Pass? then run.vs else [];
    RegisterAllKeepsInvariants(m0, c0, run.regs, crafted, st);
    if run.outcome.Pass? {
      ShapelessRunMeaning(tags, ings, fuel);
      ShapelessVariantsKeys(ConcreteItems(ings), ShapelessGroups(tags, ings, fuel).value, st);
      RegisterAllEdges(m0, run.regs, crafted, st);
    }
    ConsistentAppend(m, c0, crafted, vs);
  }
}
