/**
 * The loot-table handler of knowledgebase/KnowledgeBase.py:357-407.
 *
 * Every named entry of every pool of a mob's table is a drop: the dropped
 * item gets the variant `{recipe: {mob: 1}, type: combat}` unless a variant
 * with that recipe is already listed (the station is not compared), and
 * the mob gets the edge `mob -> (item, combat)` unless it already names the
 * item. A table without pools changes nothing.
 */
module LootTables {
  import opened Wrappers
  import opened Records
  import opened Indices

  /** The recipe a drop stands for: one of the mob. */
  function Drop(mob: ItemId): map<ItemId, int> {
    map[mob := 1]
  }

  function DropVariant(mob: ItemId): Variant {
    Variant(Drop(mob), Combat)
  }

  /** Some variant of `vs` has recipe `rc`. */
  predicate HasRecipe(vs: seq<Variant>, rc: map<ItemId, int>) {
    exists k :: 0 <= k < |vs| && vs[k].recipe == rc
  }

  /** crafted_to_material after `item` is recorded as a drop of `mob`. */
  function AddDrop(c: CraftedIndex, item: ItemId, mob: ItemId): CraftedIndex {
    if item !in c then c[item := [DropVariant(mob)]]
    else if HasRecipe(c[item], Drop(mob)) then c
    else c[item := c[item] + [DropVariant(mob)]]
  }

  /** One drop: the item's variant, then the mob's edge. */
  function DropStep(s: State, mob: ItemId, item: ItemId): State {
    State(s.m2c[mob := AddEdge(s.m2c, mob, item, Combat)], AddDrop(s.c2m, item, mob))
  }

  /** The drops `items`, in order. */
  function DropAll(s: State, mob: ItemId, items: seq<ItemId>): State {
    if items == [] then s else DropStep(DropAll(s, mob, items[..|items| - 1]), mob, items[|items| - 1])
  }

  /** Every entry name of the pool is namespaced. */
  predicate PoolNamespaced(entries: seq<Option<string>>) {
    forall j :: 0 <= j < |entries| && entries[j].Some? ==> Namespaced(entries[j].value)
  }

  predicate PoolsNamespaced(pools: seq<seq<Option<string>>>) {
    forall i :: 0 <= i < |pools| ==> PoolNamespaced(pools[i])
  }

  /** The items a pool drops, in order; entries without a name are skipped. */
  function PoolDrops(entries: seq<Option<string>>): seq<ItemId>
    requires PoolNamespaced(entries)
  {
    if entries == [] then []
    else
      var last := entries[|entries| - 1];
      PoolDrops(entries[..|entries| - 1]) + if last.Some? then [Strip(last.value)] else []
  }

  /** The items a table drops, pool by pool. */
  function TableDrops(pools: seq<seq<Option<string>>>): seq<ItemId>
    requires PoolsNamespaced(pools)
  {
    if pools == [] then [] else TableDrops(pools[..|pools| - 1]) + PoolDrops(pools[|pools| - 1])
  }

  /** The whole handler for the table of `mob`. */
  function LoadTable(s: State, pools: Option<seq<seq<Option<string>>>>, mob: ItemId): State
    requires pools.Some? ==> PoolsNamespaced(pools.value)
  {
    if pools.None? then s else DropAll(s, mob, TableDrops(pools.value))
  }

  // ---------------------------------------------------------------------
  // Properties.

  /** `item` is recorded as a drop of `mob` in both indices. */
  ghost predicate Recorded(s: State, mob: ItemId, item: ItemId) {
    && item in s.c2m && HasRecipe(s.c2m[item], Drop(mob))
    && mob in s.m2c && HasEdgeTo(s.m2c[mob], item)
  }

  /** A drop already recorded changes nothing. */
  lemma DropStepRecorded(s: State, mob: ItemId, item: ItemId)
    requires Recorded(s, mob, item)
    ensures DropStep(s, mob, item) == s
  {
    assert s.m2c[mob := s.m2c[mob]] == s.m2c;
  }

  /** A drop records its item and keeps every earlier record. */
  lemma DropStepRecords(s: State, mob: ItemId, item: ItemId)
    ensures Recorded(DropStep(s, mob, item), mob, item)
    ensures forall y :: Recorded(s, mob, y) ==> Recorded(DropStep(s, mob, item), mob, y)
  {
    var s' := DropStep(s, mob, item);
    AddEdgeFacts(s.m2c, mob, item, Combat);
    assert s'.c2m[item][|s'.c2m[item]| - 1] == DropVariant(mob) || HasRecipe(s.c2m[item], Drop(mob));
    forall y | Recorded(s, mob, y)
      ensures Recorded(s', mob, y)
    {
      var k :| 0 <= k < |s.m2c[mob]| && s.m2c[mob][k].item == y;
      assert s'.m2c[mob][k] == s.m2c[mob][k];
      if y == item {
      } else {
        assert s'.c2m[y] == s.c2m[y];
      }
    }
  }

  /** After the drops, every one of them is recorded. */
  lemma {:induction false} DropAllRecords(s: State, mob: ItemId, items: seq<ItemId>)
    ensures forall i :: 0 <= i < |items| ==> Recorded(DropAll(s, mob, items), mob, items[i])
  {
    if items != [] {
      var init := items[..|items| - 1];
      DropAllRecords(s, mob, init);
      DropStepRecords(DropAll(s, mob, init), mob, items[|items| - 1]);
      assert forall i :: 0 <= i < |init| ==> items[i] == init[i];
    }
  }

  /** Drops that are all recorded already change nothing. */
  lemma {:induction false} DropAllRecorded(s: State, mob: ItemId, items: seq<ItemId>)
    requires forall i :: 0 <= i < |items| ==> Recorded(s, mob, items[i])
    ensures DropAll(s, mob, items) == s
  {
    if items != [] {
      var init := items[..|items| - 1];
      assert forall i :: 0 <= i < |init| ==> init[i] == items[i];
      DropAllRecorded(s, mob, init);
      DropStepRecorded(s, mob, items[|items| - 1]);
    }
  }

  /** Loading the same table twice leaves the indices as loading it once:
      the scans before each append keep every drop to one variant and one
      edge. */
  lemma LoadTableIdempotent(s: State, pools: Option<seq<seq<Option<string>>>>, mob: ItemId)
    requires pools.Some? ==> PoolsNamespaced(pools.value)
    ensures LoadTable(LoadTable(s, pools, mob), pools, mob) == LoadTable(s, pools, mob)
  {
    if pools.Some? {
      var items := TableDrops(pools.value);
      DropAllRecords(s, mob, items);
      DropAllRecorded(DropAll(s, mob, items), mob, items);
    }
  }

  /** A drop touches only the mob's list and the item's list. */
  lemma {:induction false} DropAllFrame(s: State, mob: ItemId, items: seq<ItemId>)
    ensures var s' := DropAll(s, mob, items);
      && (forall x :: x != mob ==> (x in s'.m2c <==> x in s.m2c) && (x in s.m2c ==> s'.m2c[x] == s.m2c[x]))
      && (forall y :: y !in items ==> (y in s'.c2m <==> y in s.c2m) && (y in s.c2m ==> s'.c2m[y] == s.c2m[y]))
  {
    if items != [] {
      DropAllFrame(s, mob, items[..|items| - 1]);
    }
  }

  /** One drop keeps both index invariants. */
  lemma DropStepKeepsValid(s: State, mob: ItemId, item: ItemId)
    requires NoDuplicateEdges(s.m2c) && Consistent(s.m2c, s.c2m)
    ensures var s' := DropStep(s, mob, item); NoDuplicateEdges(s'.m2c) && Consistent(s'.m2c, s'.c2m)
  {
    var m' := s.m2c[mob := AddEdge(s.m2c, mob, item, Combat)];
    AddEdgeKeepsInvariants(s.m2c, s.c2m, mob, item, Combat);
    AddEdgeFacts(s.m2c, mob, item, Combat);
    if !(item in s.c2m && HasRecipe(s.c2m[item], Drop(mob))) {
      ConsistentAppend(m', s.c2m, item, [DropVariant(mob)]);
      assert [] + [DropVariant(mob)] == [DropVariant(mob)];
      assert AddDrop(s.c2m, item, mob) == s.c2m[item := VariantsOf(s.c2m, item) + [DropVariant(mob)]];
    }
  }

  lemma {:induction false} DropAllKeepsValid(s: State, mob: ItemId, items: seq<ItemId>)
    requires NoDuplicateEdges(s.m2c) && Consistent(s.m2c, s.c2m)
    ensures var s' := DropAll(s, mob, items); NoDuplicateEdges(s'.m2c) && Consistent(s'.m2c, s'.c2m)
  {
    if items != [] {
      DropAllKeepsValid(s, mob, items[..|items| - 1]);
      DropStepKeepsValid(DropAll(s, mob, items[..|items| - 1]), mob, items[|items| - 1]);
    }
  }

  /** The table's drops, in order, when split at a pool. */
  lemma TableDropsSnoc(pools: seq<seq<Option<string>>>, pool: seq<Option<string>>)
    requires PoolsNamespaced(pools + [pool])
    ensures PoolsNamespaced(pools) && PoolNamespaced(pool)
    ensures TableDrops(pools + [pool]) == TableDrops(pools) + PoolDrops(pool)
  {
    assert (pools + [pool])[..|pools|] == pools;
    assert forall i :: 0 <= i < |pools| ==> (pools + [pool])[i] == pools[i];
    assert (pools + [pool])[|pools|] == pool;
  }

  /** Dropping `xs` then `ys` is dropping `xs + ys`. */
  lemma {:induction false} DropAllAppend(s: State, mob: ItemId, xs: seq<ItemId>, ys: seq<ItemId>)
    ensures DropAll(DropAll(s, mob, xs), mob, ys) == DropAll(s, mob, xs + ys)
    decreases |ys|
  {
    if ys == [] {
      assert xs + ys == xs;
    } else {
      var init := ys[..|ys| - 1];
      DropAllAppend(s, mob, xs, init);
      assert (xs + ys)[..|xs + ys| - 1] == xs + init;
    }
  }

  // ---------------------------------------------------------------------
  // The loot directory.

  /** The file name ends in `.json`. */
  predicate IsJson(name: string) {
    |name| >= 5 && name[|name| - 5..] == ".json"
  }

  /** `name.split(".")[0]`: the part before the first dot. */
  function BaseName(name: string): (b: string)
    ensures b <= name && '.' !in b
    ensures '.' in name ==> |b| < |name| && name[|b|] == '.'
  {
    if '.' in name then name[..IndexOf(name, '.')] else name
  }

  /** Every table that is loaded has namespaced entry names. */
  predicate FilesNamespaced(files: seq<LootFile>) {
    forall i :: 0 <= i < |files| && IsJson(files[i].fileName) && files[i].pools.Some? ==>
      PoolsNamespaced(files[i].pools.value)
  }

  /** The loot directory, file by file: only `.json` files are read, and
      the mob is the file's base name. */
  function LoadTables(s: State, files: seq<LootFile>): State
    requires FilesNamespaced(files)
  {
    if files == [] then s
    else
      var f := files[|files| - 1];
      var s' := LoadTables(s, files[..|files| - 1]);
      if IsJson(f.fileName) then LoadTable(s', f.pools, BaseName(f.fileName)) else s'
  }

  /** Loading the loot directory keeps both index invariants. */
  lemma {:induction false} LoadTablesKeepsValid(s: State, files: seq<LootFile>)
    requires FilesNamespaced(files)
    requires NoDuplicateEdges(s.m2c) && Consistent(s.m2c, s.c2m)
    ensures var s' := LoadTables(s, files); NoDuplicateEdges(s'.m2c) && Consistent(s'.m2c, s'.c2m)
  {
    if files != [] {
      var init := files[..|files| - 1];
      var f := files[|files| - 1];
      LoadTablesKeepsValid(s, init);
      if IsJson(f.fileName) && f.pools.Some? {
        DropAllKeepsValid(LoadTables(s, init), BaseName(f.fileName), TableDrops(f.pools.value));
      }
    }
  }
}
