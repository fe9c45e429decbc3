/**
 * The two indices of knowledgebase/KnowledgeBase.py and the rules by which an
 * edge is registered in them.
 *
 * - material_to_crafted: material -> list of {item: crafted, type: station}
 * - crafted_to_material: crafted -> list of {recipe: item -> count, type: station}
 */
module Indices {
  import opened Wrappers
  import opened Records

  /** The `type` a recipe variant or edge carries. */
  datatype Station = Player | CraftingTable | Furnace | Combat

  /** An entry `{item, type}` of material_to_crafted. */
  datatype Edge = Edge(item: ItemId, station: Station)

  /** An entry `{recipe, type}` of crafted_to_material. */
  datatype Variant = Variant(recipe: map<ItemId, int>, station: Station)

  type MaterialIndex = map<ItemId, seq<Edge>>
  type CraftedIndex = map<ItemId, seq<Variant>>

  /** Both indices, as one value. */
  datatype State = State(m2c: MaterialIndex, c2m: CraftedIndex)

  /** Some entry of `es` names `c`. */
  predicate HasEdgeTo(es: seq<Edge>, c: ItemId) {
    exists k :: 0 <= k < |es| && es[k].item == c
  }

  /** The list of `x` after registering the edge `x -> (c, st)`: appended
      unless an entry for `c` is already there (the station is not compared). */
  function AddEdge(m: MaterialIndex, x: ItemId, c: ItemId, st: Station): seq<Edge> {
    if x !in m then [Edge(c, st)]
    else if HasEdgeTo(m[x], c) then m[x]
    else m[x] + [Edge(c, st)]
  }

  /** After registration the list names `c`, extends the old list, and is
      either unchanged (an entry for `c` was there) or ends with the new
      edge. */
  lemma AddEdgeFacts(m: MaterialIndex, x: ItemId, c: ItemId, st: Station)
    ensures var es := AddEdge(m, x, c, st);
      && HasEdgeTo(es, c)
      && (x in m ==> m[x] <= es)
      && (x in m && HasEdgeTo(m[x], c) ==> es == m[x])
      && (!(x in m && HasEdgeTo(m[x], c)) ==> es[|es| - 1] == Edge(c, st))
  {
    var es := AddEdge(m, x, c, st);
    if !(x in m && HasEdgeTo(m[x], c)) {
      assert es[|es| - 1].item == c;
    }
  }

  /** `m` after registering `x -> (c, st)` for every `x` in `mats`. The
      result does not depend on the order of registration. */
  ghost function Registered(m: MaterialIndex, mats: set<ItemId>, c: ItemId, st: Station): (r: MaterialIndex)
    ensures r.Keys == m.Keys + mats
  {
    map x | x in m.Keys + mats :: if x in mats then AddEdge(m, x, c, st) else m[x]
  }

  /** Every registered material has an edge to `c`. */
  lemma RegisteredEdges(m: MaterialIndex, mats: set<ItemId>, c: ItemId, st: Station)
    ensures forall x :: x in mats ==> HasEdgeTo(Registered(m, mats, c, st)[x], c)
  {
    forall x | x in mats
      ensures HasEdgeTo(Registered(m, mats, c, st)[x], c)
    {
      AddEdgeFacts(m, x, c, st);
    }
  }

  /** No material lists two entries for the same crafted item. */
  ghost predicate NoDuplicateEdges(m: MaterialIndex) {
    forall x, i, j :: x in m && 0 <= i < j < |m[x]| ==> m[x][i].item != m[x][j].item
  }

  /** Every ingredient of every variant of `c` has an edge naming `c`. */
  ghost predicate Consistent(m2c: MaterialIndex, c2m: CraftedIndex) {
    forall c, k, y :: c in c2m && 0 <= k < |c2m[c]| && y in c2m[c][k].recipe ==>
      y in m2c && HasEdgeTo(m2c[y], c)
  }

  /** Every list of `m` is a prefix of its list in `m'`. */
  ghost predicate Grows(m: MaterialIndex, m': MaterialIndex) {
    forall x :: x in m ==> x in m' && m[x] <= m'[x]
  }

  /** A handler's progress: the materials it has registered so far, in
      order; its variant list `this_recipe`; and whether an exception has
      stopped it. */
  datatype Run = Run(regs: seq<ItemId>, vs: seq<Variant>, outcome: Outcome<KbError>)

  /** `n` copies of a variant. */
  function Copies(v: Variant, n: nat): (vs: seq<Variant>)
    ensures |vs| == n
  {
    if n == 0 then [] else Copies(v, n - 1) + [v]
  }

  lemma {:induction false} CopiesAt(v: Variant, n: nat, i: nat)
    requires i < n
    ensures Copies(v, n)[i] == v
  {
    if i < n - 1 {
      CopiesAt(v, n - 1, i);
    }
  }

  /** A variant list of `n >= 1` entries made the way the handlers make it:
      the variant, then `n - 1` deep copies of it appended. */
  method Replicate(v: Variant, n: nat) returns (vs: seq<Variant>)
    requires n >= 1
    ensures vs == Copies(v, n)
  {
    vs := [v];
    var k := 1;
    while k < n
      invariant 1 <= k <= n
      invariant vs == Copies(v, k)
    {
      vs := vs + [v];
      k := k + 1;
    }
  }

  /** `c2m[c]`, or the empty list the handlers put there when it is absent. */
  function VariantsOf(c2m: CraftedIndex, c: ItemId): seq<Variant> {
    if c in c2m then c2m[c] else []
  }

  /** The crafted-item list a handler creates when missing (`c1`) and then
      extends with `vs`, or leaves alone, read against the original index. */
  lemma ExtendEntry(c0: CraftedIndex, c1: CraftedIndex, c: ItemId, vs: seq<Variant>)
    requires c1 == if c in c0 then c0 else c0[c := []]
    ensures c1 == c0[c := VariantsOf(c0, c) + []]
    ensures c in c1 && c1[c := c1[c] + vs] == c0[c := VariantsOf(c0, c) + vs]
  {
    assert VariantsOf(c0, c) + [] == VariantsOf(c0, c);
  }

  lemma AddEdgeKeepsNoDuplicates(m: MaterialIndex, x: ItemId, c: ItemId, st: Station)
    requires NoDuplicateEdges(m)
    ensures NoDuplicateEdges(m[x := AddEdge(m, x, c, st)])
  {
    var m': MaterialIndex := m[x := AddEdge(m, x, c, st)];
    forall y, i, j | y in m' && 0 <= i < j < |m'[y]|
      ensures m'[y][i].item != m'[y][j].item
    {
      if y == x && x in m && !HasEdgeTo(m[x], c) && j == |m[x]| {
        assert m'[y][i] == m[x][i];
      }
    }
  }

  lemma RegisteredNone(m: MaterialIndex, c: ItemId, st: Station)
    ensures Registered(m, {}, c, st) == m
  {
  }

  /** Registering one more material extends the registered set by it. */
  lemma RegisteredStep(m: MaterialIndex, mats: set<ItemId>, x: ItemId, c: ItemId, st: Station)
    ensures var r := Registered(m, mats, c, st);
      r[x := AddEdge(r, x, c, st)] == Registered(m, mats + {x}, c, st)
  {
    var r := Registered(m, mats, c, st);
    var r1 := r[x := AddEdge(r, x, c, st)];
    var r2 := Registered(m, mats + {x}, c, st);
    assert r1.Keys == r2.Keys;
    forall y | y in r1 ensures r1[y] == r2[y] {
      if y == x && x in mats {
        AddEdgeFacts(m, x, c, st);
      }
    }
  }

  lemma GrowsTransitive(m1: MaterialIndex, m2: MaterialIndex, m3: MaterialIndex)
    requires Grows(m1, m2) && Grows(m2, m3)
    ensures Grows(m1, m3)
  {
  }

  /** Adding edges never breaks consistency. */
  lemma ConsistentGrows(m2c: MaterialIndex, m2c': MaterialIndex, c2m: CraftedIndex)
    requires Consistent(m2c, c2m) && Grows(m2c, m2c')
    ensures Consistent(m2c', c2m)
  {
    forall c, k, y | c in c2m && 0 <= k < |c2m[c]| && y in c2m[c][k].recipe
      ensures y in m2c' && HasEdgeTo(m2c'[y], c)
    {
      var j :| 0 <= j < |m2c[y]| && m2c[y][j].item == c;
      assert m2c'[y][j] == m2c[y][j];
    }
  }

  /** Appending variants whose ingredients all have edges to `c` keeps the
      indices consistent. */
  lemma ConsistentAppend(m2c: MaterialIndex, c2m: CraftedIndex, c: ItemId, vs: seq<Variant>)
    requires Consistent(m2c, c2m)
    requires forall k, y :: 0 <= k < |vs| && y in vs[k].recipe ==> y in m2c && HasEdgeTo(m2c[y], c)
    ensures Consistent(m2c, c2m[c := VariantsOf(c2m, c) + vs])
  {
    var c2m': CraftedIndex := c2m[c := VariantsOf(c2m, c) + vs];
    forall c0, k, y | c0 in c2m' && 0 <= k < |c2m'[c0]| && y in c2m'[c0][k].recipe
      ensures y in m2c && HasEdgeTo(m2c[y], c0)
    {
      if c0 == c && k >= |VariantsOf(c2m, c)| {
        assert c2m'[c0][k] == vs[k - |VariantsOf(c2m, c)|];
      }
    }
  }

  /** Registering the edge `x -> (c, st)` keeps both invariants. */
  lemma AddEdgeKeepsInvariants(m2c: MaterialIndex, c2m: CraftedIndex, x: ItemId, c: ItemId, st: Station)
    requires NoDuplicateEdges(m2c) && Consistent(m2c, c2m)
    ensures var m' := m2c[x := AddEdge(m2c, x, c, st)];
      NoDuplicateEdges(m') && Consistent(m', c2m) && Grows(m2c, m')
  {
    AddEdgeKeepsNoDuplicates(m2c, x, c, st);
    ConsistentGrows(m2c, m2c[x := AddEdge(m2c, x, c, st)], c2m);
  }

  /** `m` after registering `x -> (c, st)` for each of the first `n`
      elements `x` of `xs`, in turn. */
  function RegisterFirst(m: MaterialIndex, xs: seq<ItemId>, n: nat, c: ItemId, st: Station): MaterialIndex
    requires n <= |xs|
  {
    if n == 0 then m
    else
      var r := RegisterFirst(m, xs, n - 1, c, st);
      r[xs[n - 1] := AddEdge(r, xs[n - 1], c, st)]
  }

  /** `m` after registering `x -> (c, st)` for each `x` of `xs`, in turn. */
  function RegisterAll(m: MaterialIndex, xs: seq<ItemId>, c: ItemId, st: Station): MaterialIndex {
    RegisterFirst(m, xs, |xs|, c, st)
  }

  /** Only the first `n` elements matter. */
  lemma {:induction false} RegisterFirstPrefix(m: MaterialIndex, xs: seq<ItemId>, ys: seq<ItemId>, n: nat, c: ItemId, st: Station)
    requires n <= |xs|
    ensures RegisterFirst(m, xs + ys, n, c, st) == RegisterFirst(m, xs, n, c, st)
  {
    if n > 0 {
      RegisterFirstPrefix(m, xs, ys, n - 1, c, st);
      assert (xs + ys)[n - 1] == xs[n - 1];
    }
  }

  lemma RegisterFirstIsAll(m: MaterialIndex, xs: seq<ItemId>, n: nat, c: ItemId, st: Station)
    requires n <= |xs|
    ensures RegisterFirst(m, xs, n, c, st) == RegisterAll(m, xs[..n], c, st)
  {
    assert xs == xs[..n] + xs[n..];
    RegisterFirstPrefix(m, xs[..n], xs[n..], n, c, st);
  }

  lemma RegisterAllSnoc(m: MaterialIndex, xs: seq<ItemId>, x: ItemId, c: ItemId, st: Station)
    ensures var r := RegisterAll(m, xs, c, st);
      RegisterAll(m, xs + [x], c, st) == r[x := AddEdge(r, x, c, st)]
  {
    RegisterFirstPrefix(m, xs, [x], |xs|, c, st);
  }

  lemma {:induction false} RegisterAllAppend(m: MaterialIndex, xs: seq<ItemId>, ys: seq<ItemId>, c: ItemId, st: Station)
    ensures RegisterAll(RegisterAll(m, xs, c, st), ys, c, st) == RegisterAll(m, xs + ys, c, st)
  {
    if ys == [] {
      assert xs + ys == xs;
    } else {
      var init := ys[..|ys| - 1];
      var y := ys[|ys| - 1];
      RegisterAllAppend(m, xs, init, c, st);
      assert ys == init + [y];
      assert xs + ys == (xs + init) + [y];
      RegisterAllSnoc(RegisterAll(m, xs, c, st), init, y, c, st);
      RegisterAllSnoc(m, xs + init, y, c, st);
    }
  }

  /** Registering a group up to alternative `n` after the list `xs`: the
      edges are those of `xs` followed by the group's first `n`. */
  lemma RegisterPartial(m: MaterialIndex, before: MaterialIndex, xs: seq<ItemId>, g: seq<ItemId>,
                        n: nat, c: ItemId, st: Station)
    requires before == RegisterAll(m, xs, c, st) && n <= |g|
    ensures RegisterFirst(before, g, n, c, st) == RegisterAll(m, xs + g[..n], c, st)
  {
    RegisterFirstIsAll(before, g, n, c, st);
    RegisterAllAppend(m, xs, g[..n], c, st);
  }

  /** Registering in sequence gives the same index as registering the set
      of materials at once: the order and repetitions do not matter. */
  lemma {:induction false} RegisterAllIsRegistered(m: MaterialIndex, xs: seq<ItemId>, c: ItemId, st: Station)
    ensures RegisterAll(m, xs, c, st) == Registered(m, ElemSet(xs), c, st)
  {
    if xs == [] {
      RegisteredNone(m, c, st);
    } else {
      var init := xs[..|xs| - 1];
      RegisterAllIsRegistered(m, init, c, st);
      assert xs == init + [xs[|xs| - 1]];
      RegisterAllSnoc(m, init, xs[|xs| - 1], c, st);
      RegisteredStep(m, ElemSet(init), xs[|xs| - 1], c, st);
    }
  }

  /** Registration keeps both invariants and only ever extends lists. */
  lemma {:induction false} RegisterAllKeepsInvariants(m2c: MaterialIndex, c2m: CraftedIndex, xs: seq<ItemId>, c: ItemId, st: Station)
    requires NoDuplicateEdges(m2c) && Consistent(m2c, c2m)
    ensures NoDuplicateEdges(RegisterAll(m2c, xs, c, st))
    ensures Consistent(RegisterAll(m2c, xs, c, st), c2m)
    ensures Grows(m2c, RegisterAll(m2c, xs, c, st))
  {
    if xs != [] {
      var init := xs[..|xs| - 1];
      RegisterAllKeepsInvariants(m2c, c2m, init, c, st);
      assert xs == init + [xs[|xs| - 1]];
      RegisterAllSnoc(m2c, init, xs[|xs| - 1], c, st);
      AddEdgeKeepsInvariants(RegisterAll(m2c, init, c, st), c2m, xs[|xs| - 1], c, st);
      GrowsTransitive(m2c, RegisterAll(m2c, init, c, st), RegisterAll(m2c, xs, c, st));
    }
  }

  /** Every registered material has an edge to `c`. */
  lemma {:induction false} RegisterAllEdges(m: MaterialIndex, xs: seq<ItemId>, c: ItemId, st: Station)
    ensures forall x :: x in xs ==> x in RegisterAll(m, xs, c, st) && HasEdgeTo(RegisterAll(m, xs, c, st)[x], c)
  {
    RegisterAllIsRegistered(m, xs, c, st);
    RegisteredEdges(m, ElemSet(xs), c, st);
    ElemSetIsElements(xs);
  }

  /** A material that is not registered keeps its list, or stays absent. */
  lemma RegisterAllOutside(m: MaterialIndex, xs: seq<ItemId>, x: ItemId, c: ItemId, st: Station)
    requires x !in xs
    ensures x in RegisterAll(m, xs, c, st) <==> x in m
    ensures x in m ==> RegisterAll(m, xs, c, st)[x] == m[x]
  {
    RegisterAllIsRegistered(m, xs, c, st);
    ElemSetIsElements(xs);
  }
}
