/**
 * What a shapeless recipe contributes, stated independently of the order in
 * which knowledgebase/KnowledgeBase.py:35-132 builds it.
 *
 * The ingredients give the concrete items and the groups: every list
 * ingredient (in order), then every tag ingredient resolved (in order). The
 * first group with two or more alternatives fixes the number of variants.
 * Variant i counts the concrete items, the single alternative of every group
 * before the widening one, and alternative i of the widening group and of
 * every group after it.
 */
module ShapelessSpec {
  import opened Wrappers
  import opened Records
  import opened TagResolver
  import opened Indices

  /** More than four ingredients need a crafting table. */
  function ShapelessStation(ings: seq<Ingredient>): Station {
    if |ings| > 4 then CraftingTable else Player
  }

  /** The concrete items among the first `n` ingredients, in order,
      namespace stripped. */
  function ConcreteItemsFirst(ings: seq<Ingredient>, n: nat): seq<ItemId>
    requires n <= |ings| && IngredientsNamespaced(ings)
  {
    if n == 0 then []
    else ConcreteItemsFirst(ings, n - 1) + (if ings[n - 1].Item? then [Strip(ings[n - 1].item)] else [])
  }

  function ConcreteItems(ings: seq<Ingredient>): seq<ItemId>
    requires IngredientsNamespaced(ings)
  {
    ConcreteItemsFirst(ings, |ings|)
  }

  /** The group a list ingredient contributes, namespace stripped. */
  function ChoiceOf(ing: Ingredient): seq<seq<ItemId>>
    requires IngredientNamespaced(ing)
  {
    if ing.Choice? then [StripAll(ing.alternatives)] else []
  }

  /** The list ingredients among the first `n`, in order. */
  function ChoiceGroupsFirst(ings: seq<Ingredient>, n: nat): seq<seq<ItemId>>
    requires n <= |ings| && IngredientsNamespaced(ings)
  {
    if n == 0 then [] else ChoiceGroupsFirst(ings, n - 1) + ChoiceOf(ings[n - 1])
  }

  function ChoiceGroups(ings: seq<Ingredient>): seq<seq<ItemId>>
    requires IngredientsNamespaced(ings)
  {
    ChoiceGroupsFirst(ings, |ings|)
  }

  /** The tag groups resolved so far, `init`, extended by one ingredient:
      a tag that does not resolve gives the failure, and a failure stays. */
  function TagGroupStep(init: Result<seq<seq<ItemId>>, KbError>, tags: TagStore, ing: Ingredient, fuel: nat)
    : Result<seq<seq<ItemId>>, KbError>
    requires StoreNamespaced(tags) && IngredientNamespaced(ing)
  {
    if init.Failure? || !ing.Tag? then init
    else
      var r := ResolveTag(tags, Strip(ing.tag), fuel);
      if r.Failure? then Failure(r.error) else Success(init.value + [StripAll(r.value)])
  }

  /** The tag ingredients among the first `n` resolved, in order; the first
      tag that does not resolve gives the failure. */
  function TagGroupsFirst(tags: TagStore, ings: seq<Ingredient>, n: nat, fuel: nat): Result<seq<seq<ItemId>>, KbError>
    requires n <= |ings| && StoreNamespaced(tags) && IngredientsNamespaced(ings)
  {
    if n == 0 then Success([]) else TagGroupStep(TagGroupsFirst(tags, ings, n - 1, fuel), tags, ings[n - 1], fuel)
  }

  function TagGroups(tags: TagStore, ings: seq<Ingredient>, fuel: nat): Result<seq<seq<ItemId>>, KbError>
    requires StoreNamespaced(tags) && IngredientsNamespaced(ings)
  {
    TagGroupsFirst(tags, ings, |ings|, fuel)
  }

  function ShapelessGroups(tags: TagStore, ings: seq<Ingredient>, fuel: nat): Result<seq<seq<ItemId>>, KbError>
    requires StoreNamespaced(tags) && IngredientsNamespaced(ings)
  {
    var t := TagGroups(tags, ings, fuel);
    if t.Failure? then t else Success(ChoiceGroups(ings) + t.value)
  }

  /** The index of the first group with two or more alternatives. */
  function FirstWide(gs: seq<seq<ItemId>>): (k: nat)
    ensures k <= |gs|
    ensures forall j :: 0 <= j < k ==> |gs[j]| <= 1
    ensures k < |gs| ==> |gs[k]| >= 2
  {
    if gs == [] then 0
    else if |gs[0]| >= 2 then 0
    else 1 + FirstWide(gs[1..])
  }

  /** The number of variants: the widening group's size, else 1. */
  function Width(gs: seq<seq<ItemId>>): (n: nat)
    ensures n >= 1
  {
    var k := FirstWide(gs);
    if k < |gs| then |gs[k]| else 1
  }

  /** No group after the widening one has more alternatives than there are
      variants (a longer one makes the source raise IndexError). */
  predicate FitsWidth(gs: seq<seq<ItemId>>) {
    forall j :: FirstWide(gs) < j < |gs| ==> |gs[j]| <= Width(gs)
  }

  /** What group `g`, at position `j`, gives variant `i` when the widening
      group is at `k`. */
  function Pick(g: seq<ItemId>, j: nat, i: nat, k: nat): seq<ItemId> {
    if j < k then (if |g| == 1 then [g[0]] else [])
    else if i < |g| then [g[i]] else []
  }

  function Picks(gs: seq<seq<ItemId>>, i: nat, k: nat): seq<ItemId> {
    if gs == [] then []
    else Picks(gs[..|gs| - 1], i, k) + Pick(gs[|gs| - 1], |gs| - 1, i, k)
  }

  /** The variants a shapeless recipe with concrete items `items` and
      groups `gs` appends to crafted_to_material. */
  function ShapelessVariants(items: seq<ItemId>, gs: seq<seq<ItemId>>, st: Station): (vs: seq<Variant>)
    ensures |vs| == Width(gs)
  {
    seq(Width(gs), i requires 0 <= i => Variant(Tally(items + Picks(gs, i, FirstWide(gs))), st))
  }

  /** Every alternative of every group, in order: the order in which the
      handler registers them. */
  function Flatten(gs: seq<seq<ItemId>>): seq<ItemId> {
    if gs == [] then [] else Flatten(gs[..|gs| - 1]) + gs[|gs| - 1]
  }

  /** The loader succeeds exactly when every tag resolves and every group
      fits the variant list. */
  predicate ShapelessSucceeds(tags: TagStore, ings: seq<Ingredient>, fuel: nat)
    requires StoreNamespaced(tags) && IngredientsNamespaced(ings)
  {
    var gs := ShapelessGroups(tags, ings, fuel);
    gs.Success? && FitsWidth(gs.value)
  }

  /** One group's processing, as the handler does it on the variant list
      `vs`: the first wide group copies variant 0, then alternative i goes
      into variant i. */
  ghost predicate GroupStep(vs: seq<Variant>, g: seq<ItemId>, vs': seq<Variant>)
    requires |vs| >= 1
  {
    && |vs'| == (if |vs| == 1 && |g| >= 2 then |g| else |vs|)
    && forall i :: 0 <= i < |vs'| ==>
         var b := if |vs| == 1 then vs[0] else vs[i];
         vs'[i] == if i < |g| then b.(recipe := Inc(b.recipe, g[i])) else b
  }

  /** GroupStep from the list the handler widens to and the writes it
      makes into it. */
  lemma GroupStepIntro(vs: seq<Variant>, g: seq<ItemId>, base: seq<Variant>, vs': seq<Variant>)
    requires |vs| >= 1
    requires |base| == (if |vs| == 1 && |g| >= 2 then |g| else |vs|)
    requires forall i :: 0 <= i < |base| ==> base[i] == if |vs| == 1 then vs[0] else vs[i]
    requires |g| <= |base| && |vs'| == |base|
    requires forall i :: 0 <= i < |vs'| ==>
      vs'[i] == if i < |g| then base[i].(recipe := Inc(base[i].recipe, g[i])) else base[i]
    ensures GroupStep(vs, g, vs')
  {
  }

  lemma FirstWideSnoc(gs: seq<seq<ItemId>>, g: seq<ItemId>)
    ensures FirstWide(gs + [g]) ==
      if FirstWide(gs) < |gs| then FirstWide(gs)
      else if |g| >= 2 then |gs| else |gs| + 1
  {
    var k := FirstWide(gs);
    var k' := FirstWide(gs + [g]);
    assert forall j :: 0 <= j < |gs| ==> (gs + [g])[j] == gs[j];
    if k < |gs| {
      assert k' <= k;
    }
  }

  lemma PicksSnoc(gs: seq<seq<ItemId>>, g: seq<ItemId>, i: nat, k: nat)
    ensures Picks(gs + [g], i, k) == Picks(gs, i, k) + Pick(g, |gs|, i, k)
  {
    assert (gs + [g])[..|gs|] == gs;
  }

  /** Before the widening group every variant receives the same items. */
  lemma {:induction false} PicksBeforeWide(gs: seq<seq<ItemId>>, i1: nat, i2: nat, k1: nat, k2: nat)
    requires k1 >= |gs| && k2 >= |gs|
    ensures Picks(gs, i1, k1) == Picks(gs, i2, k2)
  {
    if gs != [] {
      PicksBeforeWide(gs[..|gs| - 1], i1, i2, k1, k2);
    }
  }

  lemma {:induction false} PicksInFlatten(gs: seq<seq<ItemId>>, i: nat, k: nat)
    requires forall j :: 0 <= j < k && j < |gs| ==> |gs[j]| <= 1
    ensures forall x :: x in Picks(gs, i, k) ==> x in Flatten(gs)
  {
    if gs != [] {
      var init := gs[..|gs| - 1];
      assert forall j :: 0 <= j < |init| ==> init[j] == gs[j];
      PicksInFlatten(init, i, k);
    }
  }

  lemma FlattenSnoc(gs: seq<seq<ItemId>>, g: seq<ItemId>)
    ensures Flatten(gs + [g]) == Flatten(gs) + g
  {
    assert (gs + [g])[..|gs|] == gs;
  }

  lemma {:induction false} FlattenAppend(gs: seq<seq<ItemId>>, hs: seq<seq<ItemId>>)
    ensures Flatten(gs + hs) == Flatten(gs) + Flatten(hs)
  {
    if hs != [] {
      var init := hs[..|hs| - 1];
      var last := hs[|hs| - 1];
      FlattenAppend(gs, init);
      assert hs == init + [last];
      assert gs + hs == (gs + init) + [last];
      FlattenSnoc(gs + init, last);
      FlattenSnoc(init, last);
    } else {
      assert gs + hs == gs;
    }
  }

  lemma ShapelessBase(items: seq<ItemId>, st: Station)
    ensures ShapelessVariants(items, [], st) == [Variant(Tally(items), st)]
  {
    assert items + [] == items;
  }

  /** A variant of `gs + [g]` is the matching variant of `gs` (variant 0
      while there is no widening group yet) with `g`'s pick counted. */
  lemma PickCounted(items: seq<ItemId>, gs: seq<seq<ItemId>>, g: seq<ItemId>, i: nat, st: Station)
    requires FirstWide(gs) < |gs| || i == 0 || |g| >= 2
    ensures
      var k := FirstWide(gs);
      var k' := FirstWide(gs + [g]);
      var b := Variant(Tally(items + Picks(gs, if k < |gs| then i else 0, k)), st);
      Variant(Tally(items + Picks(gs + [g], i, k')), st) ==
        if i < |g| then b.(recipe := Inc(b.recipe, g[i])) else b
  {
    var k := FirstWide(gs);
    var k' := FirstWide(gs + [g]);
    FirstWideSnoc(gs, g);
    PicksSnoc(gs, g, i, k');
    var i0 := if k < |gs| then i else 0;
    if k >= |gs| {
      PicksBeforeWide(gs, i, 0, k', k);
    }
    assert Picks(gs, i, k') == Picks(gs, i0, k);
    if i < |g| {
      assert Pick(g, |gs|, i, k') == [g[i]];
      assert items + Picks(gs + [g], i, k') == items + Picks(gs, i0, k) + [g[i]];
      TallySnoc(items + Picks(gs, i0, k), g[i]);
    } else {
      assert Pick(g, |gs|, i, k') == [];
      assert items + Picks(gs + [g], i, k') == items + Picks(gs, i0, k);
    }
  }

  /** Processing one more group succeeds exactly when it fits. */
  lemma ShapelessStepFits(gs: seq<seq<ItemId>>, g: seq<ItemId>)
    requires FitsWidth(gs)
    ensures FitsWidth(gs + [g]) <==> (Width(gs) == 1 || |g| <= Width(gs))
  {
    var gs' := gs + [g];
    FirstWideSnoc(gs, g);
    assert forall j :: 0 <= j < |gs| ==> gs'[j] == gs[j];
    var k := FirstWide(gs);
    if k < |gs| {
      assert Width(gs') == Width(gs);
      if |g| <= Width(gs) {
        forall j | FirstWide(gs') < j < |gs'| ensures |gs'[j]| <= Width(gs') {
          if j < |gs| {
            assert |gs[j]| <= Width(gs);
          }
        }
      } else {
        assert |gs'[|gs|]| > Width(gs');
      }
    }
  }

  /** Processing one more group on the variants of `gs` gives the variants
      of `gs + [g]`. */
  lemma ShapelessStepSpec(items: seq<ItemId>, gs: seq<seq<ItemId>>, g: seq<ItemId>, st: Station, vs': seq<Variant>)
    requires GroupStep(ShapelessVariants(items, gs, st), g, vs')
    ensures vs' == ShapelessVariants(items, gs + [g], st)
  {
    var want := ShapelessVariants(items, gs + [g], st);
    FirstWideSnoc(gs, g);
    assert |vs'| == |want|;
    forall i | 0 <= i < |vs'| ensures vs'[i] == want[i] {
      VariantCounted(items, gs, g, st, vs', i);
    }
  }

  /** Variant `i` of one step, as `ShapelessStepSpec` needs it. */
  lemma VariantCounted(items: seq<ItemId>, gs: seq<seq<ItemId>>, g: seq<ItemId>, st: Station, vs': seq<Variant>, i: nat)
    requires GroupStep(ShapelessVariants(items, gs, st), g, vs') && i < |vs'|
    ensures vs'[i] == Variant(Tally(items + Picks(gs + [g], i, FirstWide(gs + [g]))), st)
  {
    var vs := ShapelessVariants(items, gs, st);
    var k := FirstWide(gs);
    FirstWideSnoc(gs, g);
    PickCounted(items, gs, g, i, st);
    var b := if |vs| == 1 then vs[0] else vs[i];
    assert b == Variant(Tally(items + Picks(gs, if k < |gs| then i else 0, k)), st);
  }

  /** Every ingredient of every variant is a concrete item or an alternative
      of some group. */
  lemma ShapelessVariantsKeys(items: seq<ItemId>, gs: seq<seq<ItemId>>, st: Station)
    ensures var vs := ShapelessVariants(items, gs, st);
      forall i, y :: 0 <= i < |vs| && y in vs[i].recipe ==> y in items + Flatten(gs)
  {
    var vs := ShapelessVariants(items, gs, st);
    forall i, y | 0 <= i < |vs| && y in vs[i].recipe
      ensures y in items + Flatten(gs)
    {
      var ps := Picks(gs, i, FirstWide(gs));
      PicksInFlatten(gs, i, FirstWide(gs));
      TallyCounts(items + ps);
    }
  }

  /** A prefix of the groups that already overflows the variant list makes
      the whole recipe fail. */
  lemma WidthFailure(tags: TagStore, ings: seq<Ingredient>, fuel: nat, p: seq<seq<ItemId>>)
    requires StoreNamespaced(tags) && IngredientsNamespaced(ings)
    requires !FitsWidth(p)
    requires ShapelessGroups(tags, ings, fuel).Success? ==> p <= ShapelessGroups(tags, ings, fuel).value
    ensures !ShapelessSucceeds(tags, ings, fuel)
  {
    var gs := ShapelessGroups(tags, ings, fuel);
    if gs.Success? {
      PrefixNotFits(p, gs.value);
    }
  }

  /** Overflowing the variant list cannot be undone by more groups. */
  lemma PrefixNotFits(p: seq<seq<ItemId>>, q: seq<seq<ItemId>>)
    requires p <= q && !FitsWidth(p)
    ensures !FitsWidth(q)
  {
  }
}
