/**
 * Tag resolution as the three loaders of knowledgebase/KnowledgeBase.py do it:
 * the tag's `values` list is scanned by position; an entry that names another
 * tag is removed (its first occurrence) and that tag's values are appended at
 * the end of the list, while the scan goes on at the next position.
 */
module TagResolver {
  import opened Wrappers
  import opened Records

  /** The tag files of a data pack: tag name to its `values` list. */
  type TagStore = map<string, seq<string>>

  const TagRefPrefix := "#minecraft:"

  /** `item.startswith("#minecraft:")`. */
  predicate IsTagRef(s: string) {
    |TagRefPrefix| <= |s| && s[..|TagRefPrefix|] == TagRefPrefix
  }

  lemma TagRefIsNamespaced(s: string)
    requires IsTagRef(s)
    ensures Namespaced(s)
  {
    assert s[10] == TagRefPrefix[10] == ':';
    NamespacedHasColon(s);
  }

  predicate StoreNamespaced(tags: TagStore) {
    forall t :: t in tags ==> AllNamespaced(tags[t])
  }

  /** `x` is one of the values listed in some tag file. */
  ghost predicate FromStore(tags: TagStore, x: string) {
    exists t :: t in tags && x in tags[t]
  }

  /** `list.remove(x)`: drops the first occurrence of `x`. */
  function RemoveFirst(xs: seq<string>, x: string): (r: seq<string>)
    requires x in xs
    ensures |r| == |xs| - 1
    ensures forall y :: y in r ==> y in xs
  {
    var j := IndexOf(xs, x);
    assert forall k :: 0 <= k < j ==> xs[..j][k] == xs[k];
    xs[..j] + xs[j + 1..]
  }

  /** The scan from position `i` on; `fuel` bounds the number of loop
      steps (one per scanned position), since a tag that reaches itself can
      make the source scan forever. `OutOfFuel` means the bound was reached,
      not that the tags nest too deeply. */
  function ScanTag(tags: TagStore, list: seq<string>, i: nat, fuel: nat): (r: Result<seq<string>, KbError>)
    requires StoreNamespaced(tags) && AllNamespaced(list)
    ensures r.Success? ==> AllNamespaced(r.value)
    ensures r.Success? ==> forall x :: x in r.value ==> x in list || FromStore(tags, x)
    ensures r.Failure? ==> r.error.MissingTag? || r.error == OutOfFuel
    decreases fuel
  {
    if i >= |list| then Success(list)
    else if fuel == 0 then Failure(OutOfFuel)
    else if IsTagRef(list[i]) then
      TagRefIsNamespaced(list[i]);
      var ref := Strip(list[i]);
      if ref !in tags then Failure(MissingTag(ref))
      else ScanTag(tags, RemoveFirst(list, list[i]) + tags[ref], i + 1, fuel - 1)
    else ScanTag(tags, list, i + 1, fuel - 1)
  }

  /** The concrete list a tag denotes (a missing tag file is an error). */
  function ResolveTag(tags: TagStore, name: string, fuel: nat): (r: Result<seq<string>, KbError>)
    requires StoreNamespaced(tags)
    ensures r.Success? ==> AllNamespaced(r.value)
    ensures r.Success? ==> forall x :: x in r.value ==> FromStore(tags, x)
    ensures name !in tags ==> r == Failure(MissingTag(name))
    ensures r.Failure? ==> r.error.MissingTag? || r.error == OutOfFuel
  {
    if name !in tags then Failure(MissingTag(name))
    else ScanTag(tags, tags[name], 0, fuel)
  }

  /** Fuel only bounds the scan: once a scan ends within `fuel` steps, more
      fuel gives the same result. So a result other than `OutOfFuel` is the
      one the source's loop reaches. */
  lemma {:induction false} ScanTagFuel(tags: TagStore, list: seq<string>, i: nat, fuel: nat, fuel': nat)
    requires StoreNamespaced(tags) && AllNamespaced(list)
    requires fuel <= fuel' && ScanTag(tags, list, i, fuel) != Failure(OutOfFuel)
    ensures ScanTag(tags, list, i, fuel') == ScanTag(tags, list, i, fuel)
    decreases fuel
  {
    if i < |list| {
      if IsTagRef(list[i]) {
        TagRefIsNamespaced(list[i]);
        var ref := Strip(list[i]);
        if ref in tags {
          ScanTagFuel(tags, RemoveFirst(list, list[i]) + tags[ref], i + 1, fuel - 1, fuel' - 1);
        }
      } else {
        ScanTagFuel(tags, list, i + 1, fuel - 1, fuel' - 1);
      }
    }
  }

  lemma ResolveTagFuel(tags: TagStore, name: string, fuel: nat, fuel': nat)
    requires StoreNamespaced(tags)
    requires fuel <= fuel' && ResolveTag(tags, name, fuel) != Failure(OutOfFuel)
    ensures ResolveTag(tags, name, fuel') == ResolveTag(tags, name, fuel)
  {
    if name in tags {
      ScanTagFuel(tags, tags[name], 0, fuel, fuel');
    }
  }

  /** The index loop of knowledgebase/KnowledgeBase.py:100-111. */
  method ResolveTagScan(tags: TagStore, name: string, fuel: nat) returns (r: Result<seq<string>, KbError>)
    requires StoreNamespaced(tags)
    ensures r == ResolveTag(tags, name, fuel)
  {
    if name !in tags {
      return Failure(MissingTag(name));
    }
    var list := tags[name];
    var i := 0;
    var steps := fuel;
    while i < |list|
      invariant AllNamespaced(list)
      invariant ScanTag(tags, list, i, steps) == ResolveTag(tags, name, fuel)
      decreases steps
    {
      if steps == 0 {
        return Failure(OutOfFuel);
      }
      var item := list[i];
      if IsTagRef(item) {
        TagRefIsNamespaced(item);
        var ref := Strip(item);
        if ref !in tags {
          return Failure(MissingTag(ref));
        }
        list := RemoveFirst(list, item);
        list := list + tags[ref];
      }
      i := i + 1;
      steps := steps - 1;
    }
    return Success(list);
  }

  /** A tag without references resolves to its own values, in order. */
  lemma {:induction false} ScanPlain(tags: TagStore, list: seq<string>, i: nat, fuel: nat)
    requires StoreNamespaced(tags) && AllNamespaced(list)
    requires forall k :: i <= k < |list| ==> !IsTagRef(list[k])
    requires i + fuel >= |list|
    ensures ScanTag(tags, list, i, fuel) == Success(list)
    decreases fuel
  {
    if i < |list| {
      ScanPlain(tags, list, i + 1, fuel - 1);
    }
  }

  lemma ResolvePlain(tags: TagStore, name: string, fuel: nat)
    requires StoreNamespaced(tags) && name in tags
    requires forall k :: 0 <= k < |tags[name]| ==> !IsTagRef(tags[name][k])
    requires fuel >= |tags[name]|
    ensures ResolveTag(tags, name, fuel) == Success(tags[name])
  {
    ScanPlain(tags, tags[name], 0, fuel);
  }

  /** No entry of `xs` names another tag. */
  predicate Plain(xs: seq<string>) {
    forall k :: 0 <= k < |xs| ==> !IsTagRef(xs[k])
  }

  /** `#minecraft:<name>` is a reference to the tag `name`. */
  lemma RefName(name: string)
    requires ':' !in name
    ensures IsTagRef(TagRefPrefix + name)
    ensures Namespaced(TagRefPrefix + name) && Strip(TagRefPrefix + name) == name
  {
    var s := TagRefPrefix + name;
    assert s[..|TagRefPrefix|] == TagRefPrefix;
    assert s == "#minecraft" + [':'] + name + [];
    StripSegment("#minecraft", name, []);
  }

  /** A referenced tag's values land at the end of the list, not in the
      reference's place. */
  lemma ReferenceAppendedAtEnd(tags: TagStore, name: string, b: string, rest: seq<string>, fuel: nat)
    requires StoreNamespaced(tags) && ':' !in b && name in tags && b in tags
    requires tags[name] == [TagRefPrefix + b] + rest
    requires Plain(rest) && Plain(tags[b])
    requires fuel > |rest| + |tags[b]|
    ensures ResolveTag(tags, name, fuel) == Success(rest + tags[b])
  {
    var l0 := tags[name];
    RefName(b);
    assert IndexOf(l0, l0[0]) == 0;
    assert RemoveFirst(l0, l0[0]) == rest;
    var l1 := rest + tags[b];
    assert AllNamespaced(l1) by {
      assert forall k :: 0 <= k < |l1| ==> l1[k] in l0 || l1[k] in tags[b];
    }
    assert ScanTag(tags, l0, 0, fuel) == ScanTag(tags, l1, 1, fuel - 1);
    ScanPlain(tags, l1, 1, fuel - 1);
  }

  /** Removing a reference shifts the next entry into the scanned position,
      so a reference right after another one is never resolved (and its
      tag file is never opened). */
  lemma EntryAfterReferenceSkipped(tags: TagStore, name: string, b: string, c: string, fuel: nat)
    requires StoreNamespaced(tags) && ':' !in b && ':' !in c && name in tags && b in tags
    requires tags[name] == [TagRefPrefix + b, TagRefPrefix + c]
    requires Plain(tags[b])
    requires fuel > |tags[b]|
    ensures ResolveTag(tags, name, fuel) == Success([TagRefPrefix + c] + tags[b])
  {
    var l0 := tags[name];
    RefName(b);
    RefName(c);
    TagRefIsNamespaced(TagRefPrefix + c);
    assert IndexOf(l0, l0[0]) == 0;
    assert RemoveFirst(l0, l0[0]) == [TagRefPrefix + c];
    var l1 := [TagRefPrefix + c] + tags[b];
    assert AllNamespaced(l1) by {
      assert forall k :: 1 <= k < |l1| ==> l1[k] in tags[b];
    }
    assert ScanTag(tags, l0, 0, fuel) == ScanTag(tags, l1, 1, fuel - 1);
    ScanPlain(tags, l1, 1, fuel - 1);
  }

  /** Appended values are scanned too, so a reference inside a referenced
      tag is followed when it lands past the scan position. */
  lemma NestedReferenceFollowed(tags: TagStore, name: string, b: string, c: string, x: string, y: string, fuel: nat)
    requires StoreNamespaced(tags) && ':' !in b && ':' !in c
    requires name in tags && b in tags && c in tags
    requires tags[name] == [TagRefPrefix + b, x]
    requires tags[b] == [TagRefPrefix + c, y]
    requires !IsTagRef(x) && !IsTagRef(y) && Plain(tags[c])
    requires fuel > |tags[c]| + 2
    ensures ResolveTag(tags, name, fuel) == Success([x, y] + tags[c])
  {
    var l0 := tags[name];
    RefName(b);
    RefName(c);
    assert IndexOf(l0, l0[0]) == 0;
    assert RemoveFirst(l0, l0[0]) == [x];
    var l1 := [x, TagRefPrefix + c, y];
    assert l1 == [x] + tags[b];
    assert ScanTag(tags, l0, 0, fuel) == ScanTag(tags, l1, 1, fuel - 1);
    assert x != TagRefPrefix + c;
    IndexOfIsFirst(l1, TagRefPrefix + c, 1);
    assert RemoveFirst(l1, l1[1]) == [x, y];
    var l2 := [x, y] + tags[c];
    assert AllNamespaced(l2) by {
      assert forall k :: 2 <= k < |l2| ==> l2[k] in tags[c];
    }
    assert ScanTag(tags, l1, 1, fuel - 1) == ScanTag(tags, l2, 2, fuel - 2);
    ScanPlain(tags, l2, 2, fuel - 2);
  }

  /** `k` copies of `x`. */
  function Repeated(x: string, k: nat): (xs: seq<string>)
    ensures |xs| == k && forall j :: 0 <= j < k ==> xs[j] == x
  {
    if k == 0 then [] else Repeated(x, k - 1) + [x]
  }

  /** The scan of a tag `a` listing `#minecraft:a` and then a plain `x`, once
      `k` copies of `x` precede the reference: the reference is always at
      the scan position, so each step appends it again. */
  lemma {:induction false} SelfReferenceScan(tags: TagStore, a: string, x: string, k: nat, fuel: nat)
    requires StoreNamespaced(tags) && ':' !in a && a in tags
    requires tags[a] == [TagRefPrefix + a, x] && !IsTagRef(x)
    ensures AllNamespaced(Repeated(x, k) + tags[a])
    ensures ScanTag(tags, Repeated(x, k) + tags[a], k, fuel) == Failure(OutOfFuel)
    decreases fuel
  {
    SelfReferenceStep(tags, a, x, k);
    if fuel > 0 {
      var l := Repeated(x, k) + tags[a];
      var l' := Repeated(x, k + 1) + tags[a];
      assert ScanTag(tags, l, k, fuel) == ScanTag(tags, l', k + 1, fuel - 1) by {
        ScanTagReference(tags, l, k, fuel);
      }
      SelfReferenceScan(tags, a, x, k + 1, fuel - 1);
    }
  }

  /** One step of that scan: the reference at position `k` is removed and
      appended again, behind one more copy of `x`. */
  lemma SelfReferenceStep(tags: TagStore, a: string, x: string, k: nat)
    requires StoreNamespaced(tags) && ':' !in a && a in tags
    requires tags[a] == [TagRefPrefix + a, x] && !IsTagRef(x)
    ensures var l := Repeated(x, k) + tags[a];
      && AllNamespaced(l)
      && IsTagRef(l[k]) && Namespaced(l[k]) && Strip(l[k]) == a
      && RemoveFirst(l, l[k]) + tags[a] == Repeated(x, k + 1) + tags[a]
      && AllNamespaced(Repeated(x, k + 1) + tags[a])
  {
    var l := Repeated(x, k) + tags[a];
    RefName(a);
    assert forall j :: 0 <= j < |l| ==> l[j] in tags[a];
    assert l[k] == TagRefPrefix + a;
    assert l[..k] == Repeated(x, k);
    IndexOfIsFirst(l, l[k], k);
    assert RemoveFirst(l, l[k]) == Repeated(x, k + 1);
    var l' := Repeated(x, k + 1) + tags[a];
    assert forall j :: 0 <= j < |l'| ==> l'[j] in tags[a];
  }

  /** One step of the scan at a reference to an existing tag. */
  lemma ScanTagReference(tags: TagStore, list: seq<string>, i: nat, fuel: nat)
    requires StoreNamespaced(tags) && AllNamespaced(list)
    requires i < |list| && fuel > 0 && IsTagRef(list[i])
    requires Namespaced(list[i]) && Strip(list[i]) in tags
    requires AllNamespaced(RemoveFirst(list, list[i]) + tags[Strip(list[i])])
    ensures ScanTag(tags, list, i, fuel) == ScanTag(tags, RemoveFirst(list, list[i]) + tags[Strip(list[i])], i + 1, fuel - 1)
  {
  }

  /** A tag whose first value refers to itself, followed by a plain value,
      never resolves: the source's loop does not end, and no fuel is
      enough. */
  lemma SelfReferenceNeverEnds(tags: TagStore, a: string, x: string, fuel: nat)
    requires StoreNamespaced(tags) && ':' !in a && a in tags
    requires tags[a] == [TagRefPrefix + a, x] && !IsTagRef(x)
    ensures ResolveTag(tags, a, fuel) == Failure(OutOfFuel)
  {
    assert Repeated(x, 0) + tags[a] == tags[a];
    SelfReferenceScan(tags, a, x, 0, fuel);
  }
}
