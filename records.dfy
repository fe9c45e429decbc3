/**
 * The records a data pack holds, decoded from JSON, and the small string and
 * counting helpers every loader of knowledgebase/KnowledgeBase.py relies on.
 */
module Records {
  import opened Wrappers

  /** A game item or entity name with its namespace already stripped. */
  type ItemId = string

  /** One ingredient slot: a concrete item, a list of alternatives, or a tag. */
  datatype Ingredient =
    | Item(item: string)
    | Choice(alternatives: seq<string>)
    | Tag(tag: string)

  /** The body of a recipe file, decoded for the craft type it declares. */
  datatype RecipeBody =
    | ShapelessBody(ingredients: seq<Ingredient>, result: string)
    | ShapedBody(pattern: seq<string>, key: seq<(char, Ingredient)>, result: string)
    | SmeltingBody(ingredient: Ingredient, result: string)
    | OtherBody

  /** A recipe file: its declared `type` string and its decoded body. */
  datatype RecipeFile = RecipeFile(craftType: string, body: RecipeBody)

  /** A loot-table file: its file name and its `pools`, if it has any.
      Each pool is the list of its entries; an entry is the `name` it
      carries, if any. */
  datatype LootFile = LootFile(fileName: string, pools: Option<seq<seq<Option<string>>>>)

  /** Why a load stops: the exceptions the source lets escape. */
  datatype KbError =
    | MissingTag(tag: string)      // the tag file does not exist
    | OutOfFuel                    // the tag scan used up its step bound (`fuel`)
    | VariantIndex                 // a group longer than the variant list
    | MissingSymbol(symbol: char)  // a key symbol that the pattern never uses
    | ReboundLoopVariable          // the smelting handler's shadowed `item`
    | MalformedRecord              // the body does not match the declared type

  const ShapelessType := "minecraft:crafting_shapeless"
  const ShapedType := "minecraft:crafting_shaped"
  const SmeltingType := "minecraft:smelting"

  /** The position of the first `c` in `s`. */
  function IndexOf<T(==)>(s: seq<T>, c: T): (i: nat)
    requires c in s
    ensures i < |s| && s[i] == c && c !in s[..i]
  {
    if s[0] == c then 0
    else
      var j := IndexOf(s[1..], c);
      assert s[..j + 1] == [s[0]] + s[1..][..j];
      j + 1
  }

  lemma IndexOfIsFirst<T>(s: seq<T>, c: T, i: nat)
    requires i < |s| && s[i] == c && c !in s[..i]
    ensures IndexOf(s, c) == i
  {
    var j := IndexOf(s, c);
    forall k | 0 <= k < i ensures s[k] != c {
      assert s[..i][k] == s[k];
    }
    forall k | 0 <= k < j ensures s[k] != c {
      assert s[..j][k] == s[k];
    }
  }

  /** An identifier carries a namespace exactly when it holds a colon
      (`NamespacedHasColon`). */
  predicate Namespaced(s: string) {
    |s| > 0 && (s[0] == ':' || Namespaced(s[1..]))
  }

  lemma {:induction false} NamespacedHasColon(s: string)
    ensures Namespaced(s) <==> ':' in s
  {
    if |s| > 0 {
      NamespacedHasColon(s[1..]);
      assert s == [s[0]] + s[1..];
    }
  }

  predicate AllNamespaced(xs: seq<string>) {
    forall k :: 0 <= k < |xs| ==> Namespaced(xs[k])
  }

  predicate IngredientNamespaced(ing: Ingredient) {
    match ing
    case Item(x) => Namespaced(x)
    case Choice(a) => AllNamespaced(a)
    case Tag(t) => Namespaced(t)
  }

  predicate IngredientsNamespaced(ings: seq<Ingredient>) {
    forall k :: 0 <= k < |ings| ==> IngredientNamespaced(ings[k])
  }

  /** `s.split(":")[1]`: the segment between the first colon and the next
      colon (or the end of `s`). */
  function Strip(s: string): (r: ItemId)
    requires Namespaced(s)
    ensures ':' !in r
  {
    NamespacedHasColon(s);
    var rest := s[IndexOf(s, ':') + 1..];
    if ':' in rest then rest[..IndexOf(rest, ':')] else rest
  }

  /** Stripping recovers the name from any `namespace:name[:...]` spelling. */
  lemma StripSegment(ns: string, name: string, tail: string)
    requires ':' !in ns && ':' !in name
    requires tail == [] || tail[0] == ':'
    ensures Namespaced(ns + [':'] + name + tail)
    ensures Strip(ns + [':'] + name + tail) == name
  {
    var s := ns + [':'] + name + tail;
    assert s[|ns|] == ':';
    NamespacedHasColon(s);
    assert s[..|ns|] == ns;
    IndexOfIsFirst(s, ':', |ns|);
    var rest := s[|ns| + 1..];
    AppendAssoc(ns + [':'], name, tail);
    assert rest == name + tail;
    if tail != [] {
      assert rest[|name|] == ':';
      assert rest[..|name|] == name;
      IndexOfIsFirst(rest, ':', |name|);
    }
  }

  function StripAll(xs: seq<string>): (r: seq<ItemId>)
    requires AllNamespaced(xs)
    ensures |r| == |xs|
    ensures forall k :: 0 <= k < |xs| ==> r[k] == Strip(xs[k])
  {
    if xs == [] then [] else [Strip(xs[0])] + StripAll(xs[1..])
  }

  /** `m` with one more occurrence of `x` counted. */
  function Inc<T>(m: map<T, int>, x: T): map<T, int> {
    m[x := if x in m then m[x] + 1 else 1]
  }

  /** The number of occurrences of each element of `xs`, built the way the
      handlers build a recipe map: one increment per occurrence. */
  function Tally<T(!new)>(xs: seq<T>): map<T, int>
  {
    if xs == [] then map[]
    else Inc(Tally(xs[..|xs| - 1]), xs[|xs| - 1])
  }

  /** The tally holds exactly the elements of `xs`, each with its number of
      occurrences. */
  lemma {:induction false} TallyCounts<T(!new)>(xs: seq<T>)
    ensures forall x :: x in Tally(xs) <==> x in xs
    ensures forall x :: x in Tally(xs) ==> Tally(xs)[x] == multiset(xs)[x]
  {
    if xs != [] {
      var init := xs[..|xs| - 1];
      TallyCounts(init);
      assert xs == init + [xs[|xs| - 1]];
    }
  }

  lemma TallySnoc<T(!new)>(xs: seq<T>, x: T)
    ensures Tally(xs + [x]) == Inc(Tally(xs), x)
  {
    assert (xs + [x])[..|xs|] == xs;
  }

  /** `m` after the assignments `ws`, made left to right. */
  function Overwrite<K(!new)>(m: map<K, int>, ws: seq<(K, int)>): (r: map<K, int>)
    ensures forall x :: x in r <==> x in m || exists k :: 0 <= k < |ws| && ws[k].0 == x
  {
    if ws == [] then m
    else
      var init := ws[..|ws| - 1];
      var r' := Overwrite(m, init);
      assert forall k :: 0 <= k < |init| ==> init[k] == ws[k];
      r'[ws[|ws| - 1].0 := ws[|ws| - 1].1]
  }

  lemma OverwriteSnoc<K(!new)>(m: map<K, int>, ws: seq<(K, int)>, w: (K, int))
    ensures Overwrite(m, ws + [w]) == Overwrite(m, ws)[w.0 := w.1]
  {
    assert (ws + [w])[..|ws|] == ws;
  }

  /** Applying two runs of assignments one after the other. */
  lemma {:induction false} OverwriteAppend<K(!new)>(m: map<K, int>, ws: seq<(K, int)>, us: seq<(K, int)>)
    ensures Overwrite(m, ws + us) == Overwrite(Overwrite(m, ws), us)
    decreases |us|
  {
    if us == [] {
      assert ws + us == ws;
    } else {
      var init := us[..|us| - 1];
      var u := us[|us| - 1];
      assert us == init + [u];
      AppendAssoc(ws, init, [u]);
      calc {
        Overwrite(m, ws + us);
        Overwrite(m, (ws + init) + [u]);
        { OverwriteSnoc(m, ws + init, u); }
        Overwrite(m, ws + init)[u.0 := u.1];
        { OverwriteAppend(m, ws, init); }
        Overwrite(Overwrite(m, ws), init)[u.0 := u.1];
        { OverwriteSnoc(Overwrite(m, ws), init, u); }
        Overwrite(Overwrite(m, ws), us);
      }
    }
  }

  /** The last assignment to a key decides its value. */
  lemma {:induction false} OverwriteLastWins<K(!new)>(m: map<K, int>, ws: seq<(K, int)>, k: nat)
    requires k < |ws|
    requires forall j :: k < j < |ws| ==> ws[j].0 != ws[k].0
    ensures ws[k].0 in Overwrite(m, ws) && Overwrite(m, ws)[ws[k].0] == ws[k].1
  {
    var init := ws[..|ws| - 1];
    assert ws == init + [ws[|ws| - 1]];
    OverwriteSnoc(m, init, ws[|ws| - 1]);
    if k < |ws| - 1 {
      OverwriteLastWins(m, init, k);
    }
  }

  /** The elements of `xs`, collected one at a time. */
  function ElemSet<T>(xs: seq<T>): set<T> {
    if xs == [] then {} else ElemSet(xs[..|xs| - 1]) + {xs[|xs| - 1]}
  }

  lemma {:induction false} ElemSetIsElements<T>(xs: seq<T>)
    ensures forall x :: x in ElemSet(xs) <==> x in xs
  {
    if xs != [] {
      var init := xs[..|xs| - 1];
      ElemSetIsElements(init);
      assert xs == init + [xs[|xs| - 1]];
    }
  }

  lemma AppendAssoc<T>(a: seq<T>, b: seq<T>, c: seq<T>)
    ensures a + b + c == a + (b + c)
  {
  }

  /** Extending a prefix of `g` appended to `a` by one element. */
  lemma AppendPrefixSnoc<T>(a: seq<T>, g: seq<T>, i: nat)
    requires i < |g|
    ensures a + g[..i + 1] == (a + g[..i]) + [g[i]]
  {
    assert g[..i + 1] == g[..i] + [g[i]];
  }

  lemma PrefixOfAppend<T>(a: seq<T>, b: seq<T>)
    ensures a <= a + b
  {
    assert (a + b)[..|a|] == a;
  }
}
