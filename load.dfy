/**
 * KnowledgeBase.Load and __LoadRecipe (knowledgebase/KnowledgeBase.py:21-33,
 * 339-355): both indices are reset; every recipe file is dispatched on its
 * declared type, the first exception ending the load; then the loot
 * directory is read.
 */
module Loading {
  import opened Wrappers
  import opened Records
  import opened TagResolver
  import opened Indices
  import opened ShapelessSpec
  import opened ShapelessLoad
  import opened ShapedSpec
  import opened ShapedLoad
  import opened Smelting
  import opened LootTables

  /** The identifiers a recipe file's handler splits are all namespaced. */
  predicate RecipeNamespaced(f: RecipeFile) {
    match f.body
    case ShapelessBody(ings, result) => IngredientsNamespaced(ings) && Namespaced(result)
    case ShapedBody(_, key, result) => KeyNamespaced(key) && Namespaced(result)
    case SmeltingBody(ing, result) => IngredientNamespaced(ing) && Namespaced(result)
    case OtherBody => true
  }

  predicate RecipesNamespaced(files: seq<RecipeFile>) {
    forall i :: 0 <= i < |files| ==> RecipeNamespaced(files[i])
  }

  /** The indices after a handler's run: its registrations made, and on
      success its variants appended to the crafted item's list, which
      exists in any case. */
  function Published(s: State, crafted: ItemId, st: Station, run: Run): State {
    State(RegisterAll(s.m2c, run.regs, crafted, st),
          s.c2m[crafted := VariantsOf(s.c2m, crafted) + if run.outcome.Pass? then run.vs else []])
  }

  /** A load step: the new indices and whether an exception escaped. */
  datatype Step = Step(state: State, outcome: Outcome<KbError>)

  /** One recipe file, dispatched on its type; any other type is skipped,
      and a body that does not fit its type is malformed. */
  function RecipeStep(s: State, f: RecipeFile, tags: TagStore, fuel: nat): Step
    requires StoreNamespaced(tags) && RecipeNamespaced(f)
  {
    if f.craftType == ShapelessType then
      match f.body
      case ShapelessBody(ings, result) =>
        var run := ShapelessRun(tags, ings, fuel);
        Step(Published(s, Strip(result), ShapelessStation(ings), run), run.outcome)
      case _ => Step(s, Fail(MalformedRecord))
    else if f.craftType == ShapedType then
      match f.body
      case ShapedBody(pattern, key, result) =>
        if Strip(result) in Excluded then Step(s, Pass)
        else
          var run := ShapedRun(tags, pattern, key, fuel);
          Step(Published(s, Strip(result), ShapedStation(pattern), run), run.outcome)
      case _ => Step(s, Fail(MalformedRecord))
    else if f.craftType == SmeltingType then
      match f.body
      case SmeltingBody(ing, result) =>
        var run := SmeltRun(s.m2c, ing, Strip(result));
        Step(Published(s, Strip(result), Furnace, run), run.outcome)
      case _ => Step(s, Fail(MalformedRecord))
    else Step(s, Pass)
  }

  /** The recipe directory, file by file, stopping at the first exception. */
  function LoadRecipes(s: State, files: seq<RecipeFile>, tags: TagStore, fuel: nat): Step
    requires StoreNamespaced(tags) && RecipesNamespaced(files)
  {
    if files == [] then Step(s, Pass)
    else
      var prev := LoadRecipes(s, files[..|files| - 1], tags, fuel);
      if prev.outcome.Fail? then prev else RecipeStep(prev.state, files[|files| - 1], tags, fuel)
  }

  /** `Load(recipe, loot)`: empty indices, then the recipes if asked for;
      an exception there ends the load; then the loot tables if asked for. */
  function LoadAll(recipe: bool, loot: bool, recipes: seq<RecipeFile>, tables: seq<LootFile>,
                   tags: TagStore, fuel: nat): Step
    requires StoreNamespaced(tags) && RecipesNamespaced(recipes) && FilesNamespaced(tables)
  {
    var s0 := State(map[], map[]);
    var r := if recipe then LoadRecipes(s0, recipes, tags, fuel) else Step(s0, Pass);
    if r.outcome.Fail? then r
    else Step(if loot then LoadTables(r.state, tables) else r.state, Pass)
  }

  // ---------------------------------------------------------------------
  // Properties.

  /** Both index invariants. */
  ghost predicate ValidState(s: State) {
    NoDuplicateEdges(s.m2c) && Consistent(s.m2c, s.c2m)
  }

  /** Every recipe file keeps both index invariants, whatever its outcome. */
  lemma RecipeStepKeepsValid(s: State, f: RecipeFile, tags: TagStore, fuel: nat)
    requires StoreNamespaced(tags) && RecipeNamespaced(f) && ValidState(s)
    ensures ValidState(RecipeStep(s, f, tags, fuel).state)
  {
    var s' := RecipeStep(s, f, tags, fuel).state;
    if f.craftType == ShapelessType && f.body.ShapelessBody? {
      ShapelessRunKeepsValid(s.m2c, s.c2m, s'.m2c, s'.c2m, Strip(f.body.result), tags, f.body.ingredients, fuel);
    } else if f.craftType == ShapedType && f.body.ShapedBody? && Strip(f.body.result) !in Excluded {
      ShapedRunKeepsValid(s.m2c, s.c2m, s'.m2c, s'.c2m, Strip(f.body.result), tags, f.body.pattern, f.body.key, fuel);
    } else if f.craftType == SmeltingType && f.body.SmeltingBody? {
      SmeltRunKeepsValid(s.m2c, s.c2m, s'.m2c, s'.c2m, Strip(f.body.result), f.body.ingredient);
    }
  }

  lemma {:induction false} LoadRecipesKeepsValid(s: State, files: seq<RecipeFile>, tags: TagStore, fuel: nat)
    requires StoreNamespaced(tags) && RecipesNamespaced(files) && ValidState(s)
    ensures ValidState(LoadRecipes(s, files, tags, fuel).state)
  {
    if files != [] {
      var init := files[..|files| - 1];
      LoadRecipesKeepsValid(s, init, tags, fuel);
      var prev := LoadRecipes(s, init, tags, fuel);
      if prev.outcome.Pass? {
        RecipeStepKeepsValid(prev.state, files[|files| - 1], tags, fuel);
      }
    }
  }

  /** Whatever the files hold, a load leaves indices in which no material
      lists a crafted item twice and every ingredient of every variant
      points back to what it crafts. */
  lemma LoadAllValid(recipe: bool, loot: bool, recipes: seq<RecipeFile>, tables: seq<LootFile>,
                     tags: TagStore, fuel: nat)
    requires StoreNamespaced(tags) && RecipesNamespaced(recipes) && FilesNamespaced(tables)
    ensures ValidState(LoadAll(recipe, loot, recipes, tables, tags, fuel).state)
  {
    var s0 := State(map[], map[]);
    if recipe {
      LoadRecipesKeepsValid(s0, recipes, tags, fuel);
    }
    var r := if recipe then LoadRecipes(s0, recipes, tags, fuel) else Step(s0, Pass);
    if r.outcome.Pass? && loot {
      LoadTablesKeepsValid(r.state, tables);
    }
  }

  /** Once a recipe file has raised, the files after it are not read: the
      load's result is the one at that file. */
  lemma {:induction false} LoadRecipesStopped(s: State, files: seq<RecipeFile>, tags: TagStore, fuel: nat, j: nat)
    requires StoreNamespaced(tags) && RecipesNamespaced(files) && j <= |files|
    requires LoadRecipes(s, files[..j], tags, fuel).outcome.Fail?
    ensures LoadRecipes(s, files, tags, fuel) == LoadRecipes(s, files[..j], tags, fuel)
    decreases |files| - j
  {
    if j < |files| {
      assert files[..j + 1][..j] == files[..j];
      LoadRecipesStopped(s, files, tags, fuel, j + 1);
    } else {
      assert files[..j] == files;
    }
  }
}
