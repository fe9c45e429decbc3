/**
 * What a shaped recipe contributes (knowledgebase/KnowledgeBase.py:134-283),
 * stated variant by variant rather than in the order the handler builds it.
 *
 * The pattern decides the station and how many times each key symbol is
 * used. Every key entry is a concrete item, a list of alternatives or a tag;
 * the number of variants is the product of the sizes of the lists and the
 * resolved tags. Variant `p` starts from the concrete items' counts and then
 * receives, for each list entry (in key order) and then each tag entry, the
 * assignments of those alternatives whose index range covers `p`: lists
 * fill consecutive blocks; tags fill blocks too when there is no list, and
 * otherwise every `stride`-th variant starting at the alternative's index.
 */
module ShapedSpec {
  import opened Wrappers
  import opened Records
  import opened TagResolver
  import opened Indices

  /** The results the handler refuses to load. */
  const Excluded: set<ItemId> := {"barrel", "campfire", "soul_campfire"}

  /** A shaped recipe's `key`: symbol to ingredient, in file order. */
  type Key = seq<(char, Ingredient)>

  predicate KeyNamespaced(key: Key) {
    forall k :: 0 <= k < |key| ==> IngredientNamespaced(key[k].1)
  }

  /** Some row of the pattern has three or more characters. */
  predicate HasWideRow(pattern: seq<string>) {
    exists k :: 0 <= k < |pattern| && |pattern[k]| >= 3
  }

  /** A row of three or more characters, or three or more rows, need a
      crafting table. */
  function ShapedStation(pattern: seq<string>): Station {
    if HasWideRow(pattern) || |pattern| >= 3 then CraftingTable else Player
  }

  // ---------------------------------------------------------------------
  // Symbol counts (`keyToNum`).

  /** The non-space characters of a row, in order. */
  function RowSymbols(row: string): seq<char> {
    if row == [] then []
    else RowSymbols(row[..|row| - 1]) + (if row[|row| - 1] == ' ' then [] else [row[|row| - 1]])
  }

  /** The non-space characters of the pattern, row by row. */
  function Symbols(pattern: seq<string>): seq<char> {
    if pattern == [] then [] else Symbols(pattern[..|pattern| - 1]) + RowSymbols(pattern[|pattern| - 1])
  }

  /** `keyToNum`: how often each symbol is used in the pattern. */
  function SymbolCounts(pattern: seq<string>): map<char, int> {
    Tally(Symbols(pattern))
  }

  /** The number of occurrences of `c` in the rows of the pattern. */
  function Occurrences(pattern: seq<string>, c: char): nat {
    if pattern == [] then 0
    else Occurrences(pattern[..|pattern| - 1], c) + multiset(pattern[|pattern| - 1])[c]
  }

  lemma {:induction false} RowSymbolsCount(row: string, c: char)
    requires c != ' '
    ensures multiset(RowSymbols(row))[c] == multiset(row)[c]
  {
    if row != [] {
      var init := row[..|row| - 1];
      RowSymbolsCount(init, c);
      assert row == init + [row[|row| - 1]];
    }
  }

  lemma {:induction false} SymbolsCount(pattern: seq<string>, c: char)
    requires c != ' '
    ensures multiset(Symbols(pattern))[c] == Occurrences(pattern, c)
  {
    if pattern != [] {
      SymbolsCount(pattern[..|pattern| - 1], c);
      RowSymbolsCount(pattern[|pattern| - 1], c);
    }
  }

  lemma {:induction false} RowSymbolsNoSpace(row: string)
    ensures ' ' !in RowSymbols(row)
  {
    if row != [] {
      RowSymbolsNoSpace(row[..|row| - 1]);
    }
  }

  lemma {:induction false} SymbolsNoSpace(pattern: seq<string>)
    ensures ' ' !in Symbols(pattern)
  {
    if pattern != [] {
      SymbolsNoSpace(pattern[..|pattern| - 1]);
      RowSymbolsNoSpace(pattern[|pattern| - 1]);
    }
  }

  /** `keyToNum` knows exactly the non-space characters of the pattern, each
      with its number of occurrences. */
  lemma SymbolCountsMeaning(pattern: seq<string>)
    ensures forall c :: c in SymbolCounts(pattern) <==> c != ' ' && Occurrences(pattern, c) > 0
    ensures forall c :: c in SymbolCounts(pattern) ==> SymbolCounts(pattern)[c] == Occurrences(pattern, c)
  {
    var xs := Symbols(pattern);
    TallyCounts(xs);
    SymbolsNoSpace(pattern);
    forall c | c != ' ' ensures multiset(xs)[c] == Occurrences(pattern, c) {
      SymbolsCount(pattern, c);
    }
  }

  // ---------------------------------------------------------------------
  // Key entries after tag resolution.

  /** What a key entry stands for, namespaces stripped. */
  datatype Group = Single(item: ItemId) | ListOf(alts: seq<ItemId>) | TagOf(alts: seq<ItemId>)

  datatype Entry = Entry(symbol: char, group: Group)

  function ResolveEntry(tags: TagStore, e: (char, Ingredient), fuel: nat): Result<Entry, KbError>
    requires StoreNamespaced(tags) && IngredientNamespaced(e.1)
  {
    match e.1
    case Item(x) => Success(Entry(e.0, Single(Strip(x))))
    case Choice(a) => Success(Entry(e.0, ListOf(StripAll(a))))
    case Tag(t) =>
      var r := ResolveTag(tags, Strip(t), fuel);
      if r.Failure? then Failure(r.error) else Success(Entry(e.0, TagOf(StripAll(r.value))))
  }

  /** The first `n` key entries resolved; the first tag that does not
      resolve gives the failure. */
  function ResolveKeyFirst(tags: TagStore, key: Key, n: nat, fuel: nat): (r: Result<seq<Entry>, KbError>)
    requires n <= |key| && StoreNamespaced(tags) && KeyNamespaced(key)
    ensures r.Success? ==> |r.value| == n
  {
    if n == 0 then Success([])
    else
      var init := ResolveKeyFirst(tags, key, n - 1, fuel);
      if init.Failure? then init
      else
        var e := ResolveEntry(tags, key[n - 1], fuel);
        if e.Failure? then Failure(e.error) else Success(init.value + [e.value])
  }

  function ResolveKey(tags: TagStore, key: Key, fuel: nat): Result<seq<Entry>, KbError>
    requires StoreNamespaced(tags) && KeyNamespaced(key)
  {
    ResolveKeyFirst(tags, key, |key|, fuel)
  }

  /** A resolved key lists each entry's resolution, in order. */
  lemma {:induction false} ResolveKeyAt(tags: TagStore, key: Key, n: nat, fuel: nat)
    requires n <= |key| && StoreNamespaced(tags) && KeyNamespaced(key)
    requires ResolveKeyFirst(tags, key, n, fuel).Success?
    ensures forall j :: 0 <= j < n ==>
      ResolveEntry(tags, key[j], fuel).Success? &&
      ResolveKeyFirst(tags, key, n, fuel).value[j] == ResolveEntry(tags, key[j], fuel).value
  {
    if n > 0 {
      ResolveKeyAt(tags, key, n - 1, fuel);
    }
  }

  /** Entry `j` of a resolved key is key entry `j` with its item stripped,
      its list's items stripped, or its tag resolved. */
  lemma ResolvedEntry(tags: TagStore, key: Key, fuel: nat, es: seq<Entry>, j: nat)
    requires StoreNamespaced(tags) && KeyNamespaced(key) && j < |key|
    requires ResolveKey(tags, key, fuel) == Success(es)
    ensures |es| == |key| && es[j].symbol == key[j].0
    ensures key[j].1.Item? ==> es[j].group == Single(Strip(key[j].1.item))
    ensures key[j].1.Choice? ==> es[j].group == ListOf(StripAll(key[j].1.alternatives))
    ensures key[j].1.Tag? ==>
      var t := ResolveTag(tags, Strip(key[j].1.tag), fuel);
      t.Success? && es[j].group == TagOf(StripAll(t.value))
  {
    ResolveKeyAt(tags, key, |key|, fuel);
  }

  /** A key fails to resolve only through a tag. */
  lemma {:induction false} ResolveKeyFailure(tags: TagStore, key: Key, n: nat, fuel: nat)
    requires n <= |key| && StoreNamespaced(tags) && KeyNamespaced(key)
    requires ResolveKeyFirst(tags, key, n, fuel).Failure?
    ensures var err := ResolveKeyFirst(tags, key, n, fuel).error; err.MissingTag? || err == OutOfFuel
  {
    if n > 0 && ResolveKeyFirst(tags, key, n - 1, fuel).Failure? {
      ResolveKeyFailure(tags, key, n - 1, fuel);
    }
  }

  // ---------------------------------------------------------------------
  // Arithmetic facts, kept apart so that the proofs below do not have to
  // rediscover them.

  lemma MulSwap(x: int, y: int, z: int)
    ensures x * (y * z) == y * (x * z)
  {
  }

  lemma MulMonotone(a: nat, b: nat, s: nat)
    requires a <= b
    ensures a * s <= b * s
  {
  }

  lemma ProductFactors(a: nat, b: nat)
    requires a * b >= 1
    ensures 1 <= a <= a * b && 1 <= b
  {
    if a >= 1 && b >= 1 {
      MulMonotone(1, b, a);
    }
  }

  lemma DivExact(a: nat, b: nat)
    requires a > 0
    ensures (a * b) / a == b
  {
    var q := (a * b) / a;
    assert q * a <= a * b < (q + 1) * a;
    if q < b {
      MulMonotone(q + 1, b, a);
    } else if q > b {
      MulMonotone(b + 1, q, a);
    }
  }

  lemma DivBelow(p: nat, s: nat, m: nat)
    requires s > 0 && p < m * s
    ensures p / s < m
  {
    var q := p / s;
    assert q * s <= p;
    if q >= m {
      MulMonotone(m, q, s);
    }
  }

  /** A group of `len` alternatives among `n >= len` variants has a
      positive stride, and each of its blocks lies among the variants. */
  lemma StrideFacts(len: nat, n: nat, ind: nat)
    requires 0 < len <= n && ind < len
    ensures n / len > 0 && (ind + 1) * (n / len) <= n
  {
    var s := n / len;
    assert s * len <= n;
    MulMonotone(ind + 1, len, s);
  }

  /** The remainder of `s * k + d` for `0 <= d < s` is `d`. */
  lemma ModShift(s: nat, k: nat, d: nat)
    requires 0 <= d < s
    ensures (s * k + d) % s == d
  {
    var x := s * k + d;
    var q := x / s;
    assert q * s <= x < (q + 1) * s;
    if q < k {
      MulMonotone(q + 1, k, s);
    } else if q > k {
      MulMonotone(k + 1, q, s);
    }
  }

  /** `p` lies in block `i` of width `s` exactly when `i == p // s`. */
  lemma BlockOf(s: nat, i: nat, p: nat)
    requires s > 0
    ensures i * s <= p < (i + 1) * s <==> i == p / s
  {
    var q := p / s;
    assert q * s <= p < (q + 1) * s;
    if i < q {
      MulMonotone(i + 1, q, s);
    } else if i > q {
      MulMonotone(q + 1, i, s);
    }
  }

  // ---------------------------------------------------------------------
  // The number of variants (`reqNum`).

  /** What an entry multiplies the number of variants by. */
  function Factor(g: Group): nat {
    if g.Single? then 1 else |g.alts|
  }

  /** `reqNum`: the product of the sizes of every list and resolved tag. */
  function VariantCount(es: seq<Entry>): nat {
    if es == [] then 1 else Factor(es[|es| - 1].group) * VariantCount(es[..|es| - 1])
  }

  /** The product of every factor but entry `j`'s. */
  function CoFactor(es: seq<Entry>, j: nat): nat
    requires j < |es|
  {
    var init := es[..|es| - 1];
    if j == |es| - 1 then VariantCount(init) else Factor(es[|es| - 1].group) * CoFactor(init, j)
  }

  /** Every entry's size divides the number of variants. */
  lemma {:induction false} VariantCountDivides(es: seq<Entry>, j: nat)
    requires j < |es|
    ensures VariantCount(es) == Factor(es[j].group) * CoFactor(es, j)
  {
    var init := es[..|es| - 1];
    if j < |es| - 1 {
      VariantCountDivides(init, j);
      assert init[j] == es[j];
      MulSwap(Factor(es[|es| - 1].group), Factor(es[j].group), CoFactor(init, j));
    }
  }

  lemma VariantCountSnoc(es: seq<Entry>, e: Entry)
    ensures VariantCount(es + [e]) == Factor(e.group) * VariantCount(es)
  {
    assert (es + [e])[..|es|] == es;
  }

  /** Every list and tag of `es` is non-empty and no larger than `n`. */
  predicate GroupsFit(es: seq<Entry>, n: nat) {
    forall j :: 0 <= j < |es| && !es[j].group.Single? ==> 0 < |es[j].group.alts| <= n
  }

  /** With at least one variant, no list or tag is empty and none is larger
      than the number of variants. */
  lemma VariantCountFits(es: seq<Entry>)
    requires VariantCount(es) >= 1
    ensures GroupsFit(es, VariantCount(es))
  {
    forall j | 0 <= j < |es| && !es[j].group.Single?
      ensures 0 < |es[j].group.alts| <= VariantCount(es)
    {
      VariantCountDivides(es, j);
      ProductFactors(Factor(es[j].group), CoFactor(es, j));
    }
  }

  // ---------------------------------------------------------------------
  // Where the alternatives go.

  /** How a group's alternative `ind` chooses its variants: the block
      `range(ind * stride, (ind + 1) * stride)`, or `range(ind, n, stride)`. */
  datatype Mode = Block | Strided

  predicate Hits(mode: Mode, stride: nat, n: nat, ind: nat, p: nat) {
    match mode
    case Block => ind * stride <= p < (ind + 1) * stride
    case Strided => ind <= p < n && stride > 0 && (p - ind) % stride == 0
  }

  /** The assignments variant `p` receives from the first `a` alternatives
      of `g`, in order. */
  function HitWrites(g: seq<ItemId>, cnt: int, mode: Mode, stride: nat, n: nat, a: nat, p: nat): seq<(ItemId, int)>
    requires a <= |g|
  {
    if a == 0 then []
    else HitWrites(g, cnt, mode, stride, n, a - 1, p) + if Hits(mode, stride, n, a - 1, p) then [(g[a - 1], cnt)] else []
  }

  /** The assignments variant `p` receives from the whole group `g`, whose
      stride is `n // len(g)`. */
  function GroupWrites(g: seq<ItemId>, cnt: int, mode: Mode, n: nat, p: nat): seq<(ItemId, int)> {
    if g == [] then [] else HitWrites(g, cnt, mode, n / |g|, n, |g|, p)
  }

  /** The count a symbol assigns; only ever consulted for a symbol the
      pattern uses. */
  function SymbolCount(counts: map<char, int>, s: char): int {
    if s in counts then counts[s] else 0
  }

  /** The two passes that run when there is more than one variant: the
      lists, then the tags. */
  datatype Kind = Lists | Tags

  predicate InPass(g: Group, kind: Kind) {
    match kind
    case Lists => g.ListOf?
    case Tags => g.TagOf?
  }

  /** The assignments variant `p` receives from the entries of pass `kind`
      among the first `k`. */
  function PassWrites(es: seq<Entry>, counts: map<char, int>, n: nat, kind: Kind, mode: Mode, k: nat, p: nat)
    : seq<(ItemId, int)>
    requires k <= |es|
  {
    if k == 0 then []
    else
      var e := es[k - 1];
      PassWrites(es, counts, n, kind, mode, k - 1, p) +
        if InPass(e.group, kind) then GroupWrites(e.group.alts, SymbolCount(counts, e.symbol), mode, n, p) else []
  }

  /** Some entry is a list. */
  predicate HasList(es: seq<Entry>) {
    exists j :: 0 <= j < |es| && es[j].group.ListOf?
  }

  /** Tags fill blocks when there is no list, and strides otherwise. */
  function TagMode(es: seq<Entry>): Mode {
    if HasList(es) then Strided else Block
  }

  /** The `n` variants of a recipe whose concrete items give `base`. */
  function ShapedVariants(base: map<ItemId, int>, es: seq<Entry>, counts: map<char, int>, n: nat, st: Station)
    : (vs: seq<Variant>)
    ensures |vs| == n
  {
    seq(n, p requires 0 <= p => Variant(Overwrite(base, PassWrites(es, counts, n, Lists, Block, |es|, p) + PassWrites(es, counts, n, Tags, TagMode(es), |es|, p)), st))
  }

  /** The assignments the concrete items among the first `k` entries make
      to variant 0. */
  function ItemWrites(key: Key, counts: map<char, int>, k: nat): seq<(ItemId, int)>
    requires k <= |key| && KeyNamespaced(key)
  {
    if k == 0 then []
    else
      ItemWrites(key, counts, k - 1) +
        if key[k - 1].1.Item? then [(Strip(key[k - 1].1.item), SymbolCount(counts, key[k - 1].0))] else []
  }

  /** The concrete items among the first `k` entries, in order. */
  function ItemNames(key: Key, k: nat): seq<ItemId>
    requires k <= |key| && KeyNamespaced(key)
  {
    if k == 0 then []
    else ItemNames(key, k - 1) + if key[k - 1].1.Item? then [Strip(key[k - 1].1.item)] else []
  }

  /** The alternatives of the entries of pass `kind` among the first `k`,
      in order. */
  function PassAlts(es: seq<Entry>, kind: Kind, k: nat): seq<ItemId>
    requires k <= |es|
  {
    if k == 0 then [] else PassAlts(es, kind, k - 1) + if InPass(es[k - 1].group, kind) then es[k - 1].group.alts else []
  }

  /** The symbol of every concrete item among the first `k` entries is used
      by the pattern. */
  predicate ItemSymbolsKnown(key: Key, counts: map<char, int>, k: nat) {
    forall j :: 0 <= j < k && j < |key| && key[j].1.Item? ==> key[j].0 in counts
  }

  /** The symbol of every entry of pass `kind` among the first `k` is used
      by the pattern. */
  predicate PassSymbolsKnown(es: seq<Entry>, counts: map<char, int>, kind: Kind, k: nat) {
    forall j :: 0 <= j < k && j < |es| && InPass(es[j].group, kind) ==> es[j].symbol in counts
  }

  /** The handler completes exactly when every concrete item's symbol is in
      the pattern, every tag resolves and, if there is more than one variant,
      every list's and tag's symbol is in the pattern. */
  predicate ShapedSucceeds(tags: TagStore, pattern: seq<string>, key: Key, fuel: nat)
    requires StoreNamespaced(tags) && KeyNamespaced(key)
  {
    var counts := SymbolCounts(pattern);
    var es := ResolveKey(tags, key, fuel);
    && ItemSymbolsKnown(key, counts, |key|)
    && es.Success?
    && (VariantCount(es.value) > 1 ==>
          PassSymbolsKnown(es.value, counts, Lists, |es.value|) && PassSymbolsKnown(es.value, counts, Tags, |es.value|))
  }

  // ---------------------------------------------------------------------
  // Properties of the placement.

  /** In block mode every variant of a group that covers the `n` variants
      (`len(g) * stride == n`) receives exactly one alternative: the one
      whose block holds it. */
  lemma {:induction false} BlockWritesOne(g: seq<ItemId>, cnt: int, stride: nat, n: nat, a: nat, p: nat)
    requires a <= |g| && stride > 0 && p / stride < |g|
    ensures HitWrites(g, cnt, Block, stride, n, a, p) == if p / stride < a then [(g[p / stride], cnt)] else []
  {
    if a > 0 {
      BlockWritesOne(g, cnt, stride, n, a - 1, p);
      BlockOf(stride, a - 1, p);
    }
  }

  /** Every list fills consecutive blocks: variant `p` receives exactly the
      list's alternative `p // stride`. */
  lemma ListGroupWrites(es: seq<Entry>, j: nat, counts: map<char, int>, p: nat)
    requires j < |es| && es[j].group.ListOf? && p < VariantCount(es)
    ensures var g := es[j].group.alts;
      && |g| > 0 && VariantCount(es) / |g| > 0
      && p / (VariantCount(es) / |g|) < |g|
      && GroupWrites(g, SymbolCount(counts, es[j].symbol), Block, VariantCount(es), p)
           == [(g[p / (VariantCount(es) / |g|)], SymbolCount(counts, es[j].symbol))]
  {
    var g := es[j].group.alts;
    var n := VariantCount(es);
    VariantCountDivides(es, j);
    var co := CoFactor(es, j);
    assert n == |g| * co;
    ProductFactors(|g|, co);
    DivExact(|g|, co);
    assert n / |g| == co;
    DivBelow(p, co, |g|);
    BlockWritesOne(g, SymbolCount(counts, es[j].symbol), co, n, |g|, p);
  }

  /** With a list the tags go in strides: a tag of three alternatives over
      the six variants a list of two makes has stride 2, so `range(0, 6, 2)`
      and `range(2, 6, 2)` both reach variants 2 and 4. Those variants hold
      the tag's first and third items together; the third never appears
      alone, and no variant of the list's second item (variants 3 to 5) has
      the tag's first item alone. */
  lemma StridedTagOverlaps(g: seq<ItemId>, cnt: int)
    requires |g| == 3
    ensures GroupWrites(g, cnt, Strided, 6, 0) == [(g[0], cnt)]
    ensures GroupWrites(g, cnt, Strided, 6, 1) == [(g[1], cnt)]
    ensures GroupWrites(g, cnt, Strided, 6, 2) == [(g[0], cnt), (g[2], cnt)]
    ensures GroupWrites(g, cnt, Strided, 6, 3) == [(g[1], cnt)]
    ensures GroupWrites(g, cnt, Strided, 6, 4) == [(g[0], cnt), (g[2], cnt)]
    ensures GroupWrites(g, cnt, Strided, 6, 5) == [(g[1], cnt)]
  {
    StridedTagWrites(g, cnt, 0);
    StridedTagWrites(g, cnt, 1);
    StridedTagWrites(g, cnt, 2);
    StridedTagWrites(g, cnt, 3);
    StridedTagWrites(g, cnt, 4);
    StridedTagWrites(g, cnt, 5);
  }

  lemma StridedTagWrites(g: seq<ItemId>, cnt: int, p: nat)
    requires |g| == 3 && p < 6
    ensures GroupWrites(g, cnt, Strided, 6, p) ==
      (if p % 2 == 0 then [(g[0], cnt)] else []) +
      (if p % 2 == 1 then [(g[1], cnt)] else []) +
      (if p >= 2 && p % 2 == 0 then [(g[2], cnt)] else [])
  {
    assert 6 / |g| == 2;
    assert Hits(Strided, 2, 6, 0, p) == (p % 2 == 0);
    assert Hits(Strided, 2, 6, 1, p) == (p % 2 == 1);
    assert Hits(Strided, 2, 6, 2, p) == (p >= 2 && p % 2 == 0);
    var w0 := HitWrites(g, cnt, Strided, 2, 6, 0, p);
    var w1 := HitWrites(g, cnt, Strided, 2, 6, 1, p);
    var w2 := HitWrites(g, cnt, Strided, 2, 6, 2, p);
    assert w0 == [];
    assert w1 == w0 + if p % 2 == 0 then [(g[0], cnt)] else [];
    assert w2 == w1 + if p % 2 == 1 then [(g[1], cnt)] else [];
    assert GroupWrites(g, cnt, Strided, 6, p) == w2 + if p >= 2 && p % 2 == 0 then [(g[2], cnt)] else [];
  }
}
