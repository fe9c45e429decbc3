/**
 * The shaped handler of knowledgebase/KnowledgeBase.py:134-283 as it runs:
 * the concrete items of the key are registered and assigned their symbol's
 * count in variant 0; the tags are resolved and the number of variants
 * `reqNum` computed; then, if there is more than one variant, variant 0 is
 * copied, every list is registered and written into its blocks, and every
 * tag after it. A symbol the pattern never uses raises KeyError at its
 * first write.
 *
 * `ShapedRun` follows the code step by step and is what the class's loops
 * are proved against; `ShapedRunMeaning` ties it to ShapedSpec.
 */
module ShapedLoad {
  import opened Wrappers
  import opened Records
  import opened TagResolver
  import opened Indices
  import opened ShapedSpec

  /** `this_recipe[i]["recipe"][x] = cnt` for every variant `i` that
      alternative `ind` hits. */
  function WriteAlt(vs: seq<Variant>, x: ItemId, cnt: int, mode: Mode, stride: nat, n: nat, ind: nat)
    : (ws: seq<Variant>)
    ensures |ws| == |vs|
  {
    seq(|vs|, p requires 0 <= p < |vs| =>
      if Hits(mode, stride, n, ind, p) then vs[p].(recipe := vs[p].recipe[x := cnt]) else vs[p])
  }

  /** The writes of the first `a` alternatives of `g`, in order. */
  function WrittenFirst(vs: seq<Variant>, g: seq<ItemId>, cnt: int, mode: Mode, stride: nat, n: nat, a: nat)
    : (ws: seq<Variant>)
    requires a <= |g|
    ensures |ws| == |vs|
  {
    if a == 0 then vs
    else WriteAlt(WrittenFirst(vs, g, cnt, mode, stride, n, a - 1), g[a - 1], cnt, mode, stride, n, a - 1)
  }

  /** One list or tag of the later passes, with stride `n // len(g)`: each
      alternative is registered, then written into the variants it hits; a
      symbol the pattern does not use raises KeyError at the first write,
      right after the first alternative is registered. */
  function GroupRun(r: Run, g: seq<ItemId>, sym: char, counts: map<char, int>, mode: Mode, n: nat): (r': Run)
    requires 0 < |g| <= n
    ensures |r'.vs| == |r.vs|
  {
    if sym !in counts then Run(r.regs + [g[0]], r.vs, Fail(MissingSymbol(sym)))
    else Run(r.regs + g, WrittenFirst(r.vs, g, counts[sym], mode, n / |g|, n, |g|), r.outcome)
  }

  /** One entry of the concrete-item pass: the item is registered, then
      assigned its symbol's count in variant 0. */
  function ItemStep(r: Run, e: (char, Ingredient), counts: map<char, int>): (r': Run)
    requires |r.vs| >= 1 && IngredientNamespaced(e.1)
    ensures |r'.vs| == |r.vs|
  {
    if r.outcome.Fail? || !e.1.Item? then r
    else
      var x := Strip(e.1.item);
      if e.0 !in counts then Run(r.regs + [x], r.vs, Fail(MissingSymbol(e.0)))
      else Run(r.regs + [x], r.vs[0 := r.vs[0].(recipe := r.vs[0].recipe[x := counts[e.0]])], r.outcome)
  }

  function ItemPassFirst(r0: Run, key: Key, counts: map<char, int>, k: nat): (r: Run)
    requires |r0.vs| >= 1 && k <= |key| && KeyNamespaced(key)
    ensures |r.vs| == |r0.vs|
  {
    if k == 0 then r0 else ItemStep(ItemPassFirst(r0, key, counts, k - 1), key[k - 1], counts)
  }

  /** One entry of the list pass or of the tag pass. */
  function PassStep(r: Run, e: Entry, counts: map<char, int>, n: nat, kind: Kind, mode: Mode): (r': Run)
    requires InPass(e.group, kind) ==> 0 < |e.group.alts| <= n
    ensures |r'.vs| == |r.vs|
  {
    if r.outcome.Fail? || !InPass(e.group, kind) then r else GroupRun(r, e.group.alts, e.symbol, counts, mode, n)
  }

  function PassFirst(r0: Run, es: seq<Entry>, counts: map<char, int>, n: nat, kind: Kind, mode: Mode, k: nat): (r: Run)
    requires k <= |es| && GroupsFit(es, n)
    ensures |r.vs| == |r0.vs|
  {
    if k == 0 then r0 else PassStep(PassFirst(r0, es, counts, n, kind, mode, k - 1), es[k - 1], counts, n, kind, mode)
  }

  /** The whole handler, for a result that is not excluded. */
  function ShapedRun(tags: TagStore, pattern: seq<string>, key: Key, fuel: nat): Run
    requires StoreNamespaced(tags) && KeyNamespaced(key)
  {
    var st := ShapedStation(pattern);
    var counts := SymbolCounts(pattern);
    var r1 := ItemPassFirst(Run([], [Variant(map[], st)], Pass), key, counts, |key|);
    var es := ResolveKey(tags, key, fuel);
    if r1.outcome.Fail? then r1
    else if es.Failure? then r1.(outcome := Fail(es.error))
    else
      var n := VariantCount(es.value);
      if n <= 1 then r1
      else
        VariantCountFits(es.value);
        var r2 := PassFirst(r1.(vs := Copies(r1.vs[0], n)), es.value, counts, n, Lists, Block, |es.value|);
        if r2.outcome.Fail? then r2 else PassFirst(r2, es.value, counts, n, Tags, TagMode(es.value), |es.value|)
  }

  // ---------------------------------------------------------------------
  // What the run computes.

  /** Once a step has failed, the rest of the item pass changes nothing. */
  lemma {:induction false} ItemPassStopped(r0: Run, key: Key, counts: map<char, int>, j: nat)
    requires |r0.vs| >= 1 && j <= |key| && KeyNamespaced(key)
    requires ItemPassFirst(r0, key, counts, j).outcome.Fail?
    ensures ItemPassFirst(r0, key, counts, |key|) == ItemPassFirst(r0, key, counts, j)
    decreases |key| - j
  {
    if j < |key| {
      ItemPassStopped(r0, key, counts, j + 1);
    }
  }

  /** Once a step has failed, the rest of a list or tag pass changes nothing. */
  lemma {:induction false} PassStopped(r0: Run, es: seq<Entry>, counts: map<char, int>, n: nat, kind: Kind, mode: Mode, j: nat)
    requires j <= |es| && GroupsFit(es, n)
    requires PassFirst(r0, es, counts, n, kind, mode, j).outcome.Fail?
    ensures PassFirst(r0, es, counts, n, kind, mode, |es|) == PassFirst(r0, es, counts, n, kind, mode, j)
    decreases |es| - j
  {
    if j < |es| {
      PassStopped(r0, es, counts, n, kind, mode, j + 1);
    }
  }

  /** Variant `p` receives the group's assignments that reach it, in order. */
  lemma {:induction false} WrittenAt(vs: seq<Variant>, g: seq<ItemId>, cnt: int, mode: Mode, stride: nat, n: nat, a: nat, p: nat)
    requires a <= |g| && p < |vs|
    ensures WrittenFirst(vs, g, cnt, mode, stride, n, a)[p]
      == vs[p].(recipe := Overwrite(vs[p].recipe, HitWrites(g, cnt, mode, stride, n, a, p)))
  {
    if a > 0 {
      WrittenAt(vs, g, cnt, mode, stride, n, a - 1, p);
      var h := HitWrites(g, cnt, mode, stride, n, a - 1, p);
      if Hits(mode, stride, n, a - 1, p) {
        OverwriteSnoc(vs[p].recipe, h, (g[a - 1], cnt));
      } else {
        assert h + [] == h;
      }
    }
  }

  /** The item pass fails exactly when a concrete item's symbol is not in
      the pattern; otherwise it registers the concrete items in order and
      gives each its symbol's count in the one variant. */
  lemma {:induction false} ItemPassMeaning(r0: Run, key: Key, counts: map<char, int>, k: nat)
    requires |r0.vs| == 1 && r0.outcome.Pass? && k <= |key| && KeyNamespaced(key)
    ensures var r := ItemPassFirst(r0, key, counts, k);
      && (r.outcome.Pass? <==> ItemSymbolsKnown(key, counts, k))
      && (r.outcome.Fail? ==> r.outcome.error.MissingSymbol? && r.outcome.error.symbol !in counts)
      && (r.outcome.Pass? ==>
            && r.regs == r0.regs + ItemNames(key, k)
            && r.vs == [r0.vs[0].(recipe := Overwrite(r0.vs[0].recipe, ItemWrites(key, counts, k)))])
  {
    if k > 0 {
      ItemPassMeaning(r0, key, counts, k - 1);
      var rp := ItemPassFirst(r0, key, counts, k - 1);
      var e := key[k - 1];
      if rp.outcome.Pass? && e.1.Item? {
        var x := Strip(e.1.item);
        if e.0 in counts {
          AppendAssoc(r0.regs, ItemNames(key, k - 1), [x]);
          OverwriteSnoc(r0.vs[0].recipe, ItemWrites(key, counts, k - 1), (x, counts[e.0]));
        }
      } else if rp.outcome.Pass? {
        assert ItemNames(key, k - 1) + [] == ItemNames(key, k - 1);
        assert ItemWrites(key, counts, k - 1) + [] == ItemWrites(key, counts, k - 1);
      }
    }
  }

  /** One group of a pass, written into variants that already hold the
      earlier groups' assignments. */
  lemma PassStepMeaning(r0: Run, rp: Run, es: seq<Entry>, counts: map<char, int>, n: nat, kind: Kind, mode: Mode, k: nat)
    requires 0 < k <= |es| && GroupsFit(es, n) && |r0.vs| == n && |rp.vs| == n
    requires rp.outcome.Pass? && InPass(es[k - 1].group, kind) && es[k - 1].symbol in counts
    requires forall p :: 0 <= p < n ==>
      rp.vs[p] == r0.vs[p].(recipe := Overwrite(r0.vs[p].recipe, PassWrites(es, counts, n, kind, mode, k - 1, p)))
    ensures var r := PassStep(rp, es[k - 1], counts, n, kind, mode);
      forall p :: 0 <= p < n ==>
        r.vs[p] == r0.vs[p].(recipe := Overwrite(r0.vs[p].recipe, PassWrites(es, counts, n, kind, mode, k, p)))
  {
    var e := es[k - 1];
    var g := e.group.alts;
    var cnt := counts[e.symbol];
    var r := PassStep(rp, e, counts, n, kind, mode);
    assert r.vs == WrittenFirst(rp.vs, g, cnt, mode, n / |g|, n, |g|);
    forall p | 0 <= p < n
      ensures r.vs[p] == r0.vs[p].(recipe := Overwrite(r0.vs[p].recipe, PassWrites(es, counts, n, kind, mode, k, p)))
    {
      WrittenAt(rp.vs, g, cnt, mode, n / |g|, n, |g|, p);
      OverwriteAppend(r0.vs[p].recipe, PassWrites(es, counts, n, kind, mode, k - 1, p), HitWrites(g, cnt, mode, n / |g|, n, |g|, p));
    }
  }

  /** A list or tag pass fails exactly when one of its symbols is not in
      the pattern; otherwise it registers every alternative of its groups in
      order and gives every variant the assignments `PassWrites` lists. */
  lemma {:induction false} PassMeaning(r0: Run, es: seq<Entry>, counts: map<char, int>, n: nat, kind: Kind, mode: Mode, k: nat)
    requires k <= |es| && GroupsFit(es, n) && r0.outcome.Pass? && |r0.vs| == n
    ensures var r := PassFirst(r0, es, counts, n, kind, mode, k);
      && (r.outcome.Pass? <==> PassSymbolsKnown(es, counts, kind, k))
      && (r.outcome.Fail? ==> r.outcome.error.MissingSymbol? && r.outcome.error.symbol !in counts)
      && (r.outcome.Pass? ==>
            && r.regs == r0.regs + PassAlts(es, kind, k)
            && forall p :: 0 <= p < n ==>
                 r.vs[p] == r0.vs[p].(recipe := Overwrite(r0.vs[p].recipe, PassWrites(es, counts, n, kind, mode, k, p))))
  {
    if k == 0 {
      forall p | 0 <= p < n
        ensures r0.vs[p] == r0.vs[p].(recipe := Overwrite(r0.vs[p].recipe, PassWrites(es, counts, n, kind, mode, 0, p)))
      {
      }
    } else {
      PassMeaning(r0, es, counts, n, kind, mode, k - 1);
      var rp := PassFirst(r0, es, counts, n, kind, mode, k - 1);
      var e := es[k - 1];
      if rp.outcome.Pass? && InPass(e.group, kind) {
        if e.symbol in counts {
          AppendAssoc(r0.regs, PassAlts(es, kind, k - 1), e.group.alts);
          PassStepMeaning(r0, rp, es, counts, n, kind, mode, k);
        }
      } else if rp.outcome.Pass? {
        assert PassAlts(es, kind, k - 1) + [] == PassAlts(es, kind, k - 1);
        forall p | 0 <= p < n
          ensures PassWrites(es, counts, n, kind, mode, k, p) == PassWrites(es, counts, n, kind, mode, k - 1, p)
        {
          assert PassWrites(es, counts, n, kind, mode, k - 1, p) + [] == PassWrites(es, counts, n, kind, mode, k - 1, p);
        }
      }
    }
  }

  /** The variants the two later passes leave are `ShapedVariants`. */
  lemma LaterPassesVariants(v: Variant, r2: Run, r3: Run, es: seq<Entry>, counts: map<char, int>, n: nat)
    requires |r2.vs| == n && |r3.vs| == n
    requires forall p :: 0 <= p < n ==>
      r2.vs[p] == Copies(v, n)[p].(recipe := Overwrite(Copies(v, n)[p].recipe, PassWrites(es, counts, n, Lists, Block, |es|, p)))
    requires forall p :: 0 <= p < n ==>
      r3.vs[p] == r2.vs[p].(recipe := Overwrite(r2.vs[p].recipe, PassWrites(es, counts, n, Tags, TagMode(es), |es|, p)))
    ensures r3.vs == ShapedVariants(v.recipe, es, counts, n, v.station)
  {
    var want := ShapedVariants(v.recipe, es, counts, n, v.station);
    forall p | 0 <= p < n
      ensures r3.vs[p] == want[p]
    {
      CopiesAt(v, n, p);
      OverwriteAppend(v.recipe, PassWrites(es, counts, n, Lists, Block, |es|, p), PassWrites(es, counts, n, Tags, TagMode(es), |es|, p));
    }
  }

  /** The handler succeeds exactly when `ShapedSucceeds` holds. It then
      registers the concrete items, and with more than one variant every
      list's and then every tag's alternatives, in order; it yields the one
      variant of the concrete items, or `ShapedVariants`. A failure is a
      symbol the pattern does not use or the first tag that does not
      resolve. */
  lemma ShapedRunMeaning(tags: TagStore, pattern: seq<string>, key: Key, fuel: nat)
    requires StoreNamespaced(tags) && KeyNamespaced(key)
    ensures var run := ShapedRun(tags, pattern, key, fuel);
      var counts := SymbolCounts(pattern);
      var es := ResolveKey(tags, key, fuel);
      var base := Overwrite(map[], ItemWrites(key, counts, |key|));
      var st := ShapedStation(pattern);
      && (run.outcome.Pass? <==> ShapedSucceeds(tags, pattern, key, fuel))
      && (run.outcome.Pass? ==>
            var n := VariantCount(es.value);
            && run.regs == ItemNames(key, |key|) +
                 (if n <= 1 then [] else PassAlts(es.value, Lists, |es.value|) + PassAlts(es.value, Tags, |es.value|))
            && run.vs == if n <= 1 then [Variant(base, st)] else ShapedVariants(base, es.value, counts, n, st))
      && (run.outcome.Fail? ==>
            || (run.outcome.error.MissingSymbol? && run.outcome.error.symbol !in counts)
            || es == Failure(run.outcome.error))
  {
    var counts := SymbolCounts(pattern);
    var es := ResolveKey(tags, key, fuel);
    var st := ShapedStation(pattern);
    var r0 := Run([], [Variant(map[], st)], Pass);
    ItemPassMeaning(r0, key, counts, |key|);
    var r1 := ItemPassFirst(r0, key, counts, |key|);
    assert r0.regs + ItemNames(key, |key|) == ItemNames(key, |key|);
    if r1.outcome.Pass? && es.Success? {
      var n := VariantCount(es.value);
      if n > 1 {
        VariantCountFits(es.value);
        var v := r1.vs[0];
        var r1' := r1.(vs := Copies(v, n));
        PassMeaning(r1', es.value, counts, n, Lists, Block, |es.value|);
        var r2 := PassFirst(r1', es.value, counts, n, Lists, Block, |es.value|);
        if r2.outcome.Pass? {
          var mode := TagMode(es.value);
          PassMeaning(r2, es.value, counts, n, Tags, mode, |es.value|);
          var r3 := PassFirst(r2, es.value, counts, n, Tags, mode, |es.value|);
          if r3.outcome.Pass? {
            AppendAssoc(ItemNames(key, |key|), PassAlts(es.value, Lists, |es.value|), PassAlts(es.value, Tags, |es.value|));
            LaterPassesVariants(v, r2, r3, es.value, counts, n);
          }
        }
      }
    }
  }

  /** Every ingredient of every variant of the run has been registered. */
  ghost predicate KeysRegistered(r: Run) {
    forall i, y :: 0 <= i < |r.vs| && y in r.vs[i].recipe ==> y in r.regs
  }

  /** Writing a group adds to a variant only alternatives of the group. */
  lemma {:induction false} WrittenKeys(vs: seq<Variant>, g: seq<ItemId>, cnt: int, mode: Mode, stride: nat, n: nat, a: nat)
    requires a <= |g|
    ensures var ws := WrittenFirst(vs, g, cnt, mode, stride, n, a);
      forall i, y :: 0 <= i < |ws| && y in ws[i].recipe ==> y in vs[i].recipe || y in g
  {
    if a > 0 {
      WrittenKeys(vs, g, cnt, mode, stride, n, a - 1);
    }
  }

  lemma {:induction false} ItemPassKeys(r0: Run, key: Key, counts: map<char, int>, k: nat)
    requires |r0.vs| >= 1 && k <= |key| && KeyNamespaced(key) && KeysRegistered(r0)
    ensures KeysRegistered(ItemPassFirst(r0, key, counts, k))
  {
    if k > 0 {
      ItemPassKeys(r0, key, counts, k - 1);
    }
  }

  lemma {:induction false} PassKeys(r0: Run, es: seq<Entry>, counts: map<char, int>, n: nat, kind: Kind, mode: Mode, k: nat)
    requires k <= |es| && GroupsFit(es, n) && KeysRegistered(r0)
    ensures KeysRegistered(PassFirst(r0, es, counts, n, kind, mode, k))
  {
    if k > 0 {
      PassKeys(r0, es, counts, n, kind, mode, k - 1);
      var rp := PassFirst(r0, es, counts, n, kind, mode, k - 1);
      var e := es[k - 1];
      if rp.outcome.Pass? && InPass(e.group, kind) && e.symbol in counts {
        var g := e.group.alts;
        WrittenKeys(rp.vs, g, counts[e.symbol], mode, n / |g|, n, |g|);
      }
    }
  }

  lemma ShapedRunKeys(tags: TagStore, pattern: seq<string>, key: Key, fuel: nat)
    requires StoreNamespaced(tags) && KeyNamespaced(key)
    ensures KeysRegistered(ShapedRun(tags, pattern, key, fuel))
  {
    var counts := SymbolCounts(pattern);
    var es := ResolveKey(tags, key, fuel);
    var r0 := Run([], [Variant(map[], ShapedStation(pattern))], Pass);
    ItemPassKeys(r0, key, counts, |key|);
    var r1 := ItemPassFirst(r0, key, counts, |key|);
    if r1.outcome.Pass? && es.Success? && VariantCount(es.value) > 1 {
      var n := VariantCount(es.value);
      VariantCountFits(es.value);
      var r1' := r1.(vs := Copies(r1.vs[0], n));
      forall i | 0 <= i < n {
        CopiesAt(r1.vs[0], n, i);
      }
      PassKeys(r1', es.value, counts, n, Lists, Block, |es.value|);
      var r2 := PassFirst(r1', es.value, counts, n, Lists, Block, |es.value|);
      PassKeys(r2, es.value, counts, n, Tags, TagMode(es.value), |es.value|);
    }
  }

  /** The handler keeps both index invariants: registering the run's
      materials adds no duplicate edge, and every ingredient of the variants
      it appends on success has an edge back to the crafted item. */
  lemma ShapedRunKeepsValid(m0: MaterialIndex, c0: CraftedIndex, m: MaterialIndex, c: CraftedIndex,
                            crafted: ItemId, tags: TagStore, pattern: seq<string>, key: Key, fuel: nat)
    requires StoreNamespaced(tags) && KeyNamespaced(key)
    requires NoDuplicateEdges(m0) && Consistent(m0, c0)
    requires var run := ShapedRun(tags, pattern, key, fuel);
      && m == RegisterAll(m0, run.regs, crafted, ShapedStation(pattern))
      && c == c0[crafted := VariantsOf(c0, crafted) + if run.outcome.Pass? then run.vs else []]
    ensures NoDuplicateEdges(m) && Consistent(m, c)
  {
    var run := ShapedRun(tags, pattern, key, fuel);
    var st := ShapedStation(pattern);
    var vs := if run.outcome.Pass? then run.vs else [];
    RegisterAllKeepsInvariants(m0, c0, run.regs, crafted, st);
    ShapedRunKeys(tags, pattern, key, fuel);
    RegisterAllEdges(m0, run.regs, crafted, st);
    ConsistentAppend(m, c0, crafted, vs);
  }

  // ---------------------------------------------------------------------
  // The loops that touch only local values.

  /** The for/else scan of the pattern that picks the station. */
  method PatternStation(pattern: seq<string>) returns (st: Station)
    ensures st == ShapedStation(pattern)
  {
    var k := 0;
    while k < |pattern|
      invariant 0 <= k <= |pattern|
      invariant forall j :: 0 <= j < k ==> |pattern[j]| < 3
    {
      if |pattern[k]| >= 3 {
        return CraftingTable;
      }
      k := k + 1;
    }
    st := if |pattern| >= 3 then CraftingTable else Player;
  }

  /** The nested loop that builds `keyToNum`. */
  method CountSymbols(pattern: seq<string>) returns (counts: map<char, int>)
    ensures counts == SymbolCounts(pattern)
  {
    counts := map[];
    ghost var seen: seq<char> := [];
    var j := 0;
    while j < |pattern|
      invariant 0 <= j <= |pattern|
      invariant seen == Symbols(pattern[..j]) && counts == Tally(seen)
    {
      var row := pattern[j];
      var k := 0;
      while k < |row|
        invariant 0 <= k <= |row|
        invariant seen == Symbols(pattern[..j]) + RowSymbols(row[..k]) && counts == Tally(seen)
      {
        assert row[..k + 1][..k] == row[..k];
        if row[k] != ' ' {
          TallySnoc(seen, row[k]);
          AppendAssoc(Symbols(pattern[..j]), RowSymbols(row[..k]), [row[k]]);
          seen := seen + [row[k]];
          if row[k] !in counts {
            counts := counts[row[k] := 1];
          } else {
            counts := counts[row[k] := counts[row[k]] + 1];
          }
        }
        k := k + 1;
      }
      assert row[..|row|] == row;
      assert pattern[..j + 1][..j] == pattern[..j];
      j := j + 1;
    }
    assert pattern[..|pattern|] == pattern;
  }

  /** Once the key has failed to resolve, it stays failed. */
  lemma {:induction false} ResolveKeyStopped(tags: TagStore, key: Key, j: nat, fuel: nat)
    requires j <= |key| && StoreNamespaced(tags) && KeyNamespaced(key)
    requires ResolveKeyFirst(tags, key, j, fuel).Failure?
    ensures ResolveKey(tags, key, fuel) == ResolveKeyFirst(tags, key, j, fuel)
    decreases |key| - j
  {
    if j < |key| {
      ResolveKeyStopped(tags, key, j + 1, fuel);
    }
  }

  /** One more key entry resolved after a resolved prefix. */
  lemma ResolveKeyFirstStep(tags: TagStore, key: Key, j: nat, fuel: nat)
    requires j < |key| && StoreNamespaced(tags) && KeyNamespaced(key)
    requires ResolveKeyFirst(tags, key, j, fuel).Success?
    ensures var e := ResolveEntry(tags, key[j], fuel);
      ResolveKeyFirst(tags, key, j + 1, fuel)
        == if e.Failure? then Failure(e.error) else Success(ResolveKeyFirst(tags, key, j, fuel).value + [e.value])
  {
  }

  /** The factor one key entry contributes to `reqNum`: the size of a list
      or of a resolved tag, 1 for an item. */
  method EntryFactor(tags: TagStore, e: (char, Ingredient), fuel: nat) returns (f: int, r: Outcome<KbError>)
    requires StoreNamespaced(tags) && IngredientNamespaced(e.1)
    ensures r.Pass? <==> ResolveEntry(tags, e, fuel).Success?
    ensures r.Fail? ==> ResolveEntry(tags, e, fuel) == Failure(r.error)
    ensures r.Pass? ==> f == Factor(ResolveEntry(tags, e, fuel).value.group)
  {
    f, r := 1, Pass;
    match e.1
    case Item(_) =>
    case Choice(a) =>
      f := |a|;
    case Tag(t) =>
      var res := ResolveTagScan(tags, Strip(t), fuel);
      if res.Failure? {
        r := Fail(res.error);
      } else {
        f := |res.value|;
      }
  }

  /** The loop that resolves every tag of the key and computes `reqNum`;
      the first tag that does not resolve raises. */
  method RequiredVariants(key: Key, tags: TagStore, fuel: nat) returns (n: int, r: Outcome<KbError>)
    requires StoreNamespaced(tags) && KeyNamespaced(key)
    ensures r.Pass? <==> ResolveKey(tags, key, fuel).Success?
    ensures r.Fail? ==> ResolveKey(tags, key, fuel) == Failure(r.error)
    ensures r.Pass? ==> n == VariantCount(ResolveKey(tags, key, fuel).value)
  {
    n := 1;
    var j := 0;
    while j < |key|
      invariant 0 <= j <= |key|
      invariant ResolveKeyFirst(tags, key, j, fuel).Success?
      invariant n == VariantCount(ResolveKeyFirst(tags, key, j, fuel).value)
    {
      var f, step := EntryFactor(tags, key[j], fuel);
      ResolveKeyFirstStep(tags, key, j, fuel);
      if step.Fail? {
        ResolveKeyStopped(tags, key, j + 1, fuel);
        return n, step;
      }
      VariantCountSnoc(ResolveKeyFirst(tags, key, j, fuel).value, ResolveEntry(tags, key[j], fuel).value);
      n := f * n;
      j := j + 1;
    }
    r := Pass;
  }

  /** A step of `range(ind, n, stride)` passes over no other variant of the
      range and lands on the next one. */
  lemma StrideStep(ind: nat, i: nat, stride: nat)
    requires stride > 0 && OnStride(ind, stride, i)
    ensures forall p :: i < p < i + stride ==> !OnStride(ind, stride, p)
    ensures OnStride(ind, stride, i + stride)
  {
    var k := (i - ind) / stride;
    assert i - ind == stride * k;
    forall p | i < p < i + stride ensures !OnStride(ind, stride, p) {
      ModShift(stride, k, p - i);
      assert p - ind == stride * k + (p - i);
    }
    ModShift(stride, k + 1, 0);
    assert i + stride - ind == stride * (k + 1) + 0;
  }

  /** The inner loop that writes alternative `x` into the variants its
      range covers. */
  method WriteAlternative(vs: seq<Variant>, x: ItemId, cnt: int, mode: Mode, stride: nat, n: nat, ind: nat)
    returns (ws: seq<Variant>)
    requires |vs| == n && stride > 0
    requires mode == Block ==> (ind + 1) * stride <= n
    ensures ws == WriteAlt(vs, x, cnt, mode, stride, n, ind)
  {
    if mode == Block {
      ws := WriteBlock(vs, x, cnt, stride, n, ind);
    } else {
      ws := WriteStrided(vs, x, cnt, stride, n, ind);
    }
  }

  /** `for i in range(ind * stride, (ind + 1) * stride)`. */
  method WriteBlock(vs: seq<Variant>, x: ItemId, cnt: int, stride: nat, n: nat, ind: nat)
    returns (ws: seq<Variant>)
    requires |vs| == n && stride > 0 && (ind + 1) * stride <= n
    ensures ws == WriteAlt(vs, x, cnt, Block, stride, n, ind)
  {
    ws := vs;
    var lo := ind * stride;
    var hi := (ind + 1) * stride;
    var i := lo;
    while i < hi
      invariant lo <= i <= hi && |ws| == n
      invariant forall p :: 0 <= p < n ==>
        ws[p] == if lo <= p < i then vs[p].(recipe := vs[p].recipe[x := cnt]) else vs[p]
    {
      ws := ws[i := ws[i].(recipe := ws[i].recipe[x := cnt])];
      i := i + 1;
    }
  }

  /** Variant `p` is on the stride of alternative `ind`. */
  predicate OnStride(ind: nat, stride: nat, p: nat)
    requires stride > 0
  {
    ind <= p && (p - ind) % stride == 0
  }

  /** `for i in range(ind, n, stride)`. */
  method WriteStrided(vs: seq<Variant>, x: ItemId, cnt: int, stride: nat, n: nat, ind: nat)
    returns (ws: seq<Variant>)
    requires |vs| == n && stride > 0
    ensures ws == WriteAlt(vs, x, cnt, Strided, stride, n, ind)
  {
    ws := vs;
    var i := ind;
    while i < n
      invariant OnStride(ind, stride, i) && |ws| == n
      invariant forall p :: 0 <= p < n ==>
        ws[p] == if p < i && OnStride(ind, stride, p) then vs[p].(recipe := vs[p].recipe[x := cnt]) else vs[p]
      decreases n - i
    {
      StrideStep(ind, i, stride);
      ws := ws[i := ws[i].(recipe := ws[i].recipe[x := cnt])];
      i := i + stride;
    }
  }
}
