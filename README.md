# EnderdragonKiller knowledge base and gamebot core, in Dafny

This project models two parts of the EnderdragonKiller repository.

**The recipe and loot knowledge base** (`knowledgebase/KnowledgeBase.py`) builds two indices from Minecraft data packs:

- `material_to_crafted`, a map from each material to a list of `{item, type}` edges;
- `crafted_to_material`, a map from each crafted item (or drop) to a list of `{recipe: item -> count, type}` variants.

Three handlers fill these indices from recipe files: shapeless, shaped and smelting. A fourth fills them from entity loot tables. `Load` resets both indices, then reads the recipe directory, then the loot directory.

The model is a Dafny class, `Knowledge.KnowledgeBase`, with the two indices as `map` fields. Every method is proved to update them exactly as a pure description of the handler does:

- `ShapelessRun`, `ShapedRun` and `SmeltRun` describe the recipe handlers; `LoadTable` describes the loot handler.
- For each description, lemmas prove what it means: which variants come out, which edges are registered, and when the handler raises.
- They also prove that the class invariant holds. That invariant is: no material lists the same crafted item twice, and every ingredient of every variant of `c` has an edge naming `c`.

**The gamebot's program and action lifecycle** covers:

- the JSON-to-program constructor (`gamebot/lib/programs.js`);
- the bot's program evaluator (`gamebot_js/lib/bot.js`), with the four game actions abstracted as an oracle;
- argument and parameter validation and variable substitution of action instances. Validation uses JavaScript's `in` test on an object built from `{}`, and that test also finds the properties every object inherits from `Object.prototype`;
- the state machines of the action instances and of the legacy `GoToAction`;
- the single-shot iterator of `ActionProgram`.

Each imperative class is proved to act as a pure specification function. The properties are stated as lemmas about those functions.

Modules, one per file:

| File | Contents |
|---|---|
| `wrappers.dfy` | `Option`, `Result`, `Outcome` |
| `records.dfy` | data-pack records, namespace stripping, tallies |
| `tag_resolver.dfy` | tag resolution |
| `indices.dfy` | the two indices and edge registration |
| `shapeless_spec.dfy`, `shapeless_run.dfy` | the shapeless handler |
| `shaped_spec.dfy`, `shaped_run.dfy` | the shaped handler |
| `smelting.dfy` | the smelting handler |
| `loot.dfy` | the loot handler |
| `load.dfy` | the whole load |
| `knowledge_base.dfy` | the class |
| `values.dfy` | JSON values and `typeof` |
| `programs.dfy` | the program tree |
| `evaluation.dfy`, `bot.dfy` | the evaluator |
| `action_instance.dfy` | the shared instance lifecycle and argument record |
| `program_action_instance.dfy` | `ProgramActionInstance` |
| `go_to_action_instance.dfy` | `GoToActionInstance` |
| `go_to_action.dfy` | legacy `GoToAction` |
| `action_program.dfy` | `ActionProgram` |

## Model

| member | source | states |
|---|---|---|
| Records.Strip | knowledgebase/KnowledgeBase.py:46 | `split(":")[1]` of a namespaced id has no colon |
| Records.StripSegment | knowledgebase/KnowledgeBase.py:46 | stripping `ns:name[:tail]` yields exactly `name` |
| Records.NamespacedHasColon | knowledgebase/KnowledgeBase.py:46 | an id can be split (has a second segment) exactly when it contains a colon |
| Records.StripAll | knowledgebase/KnowledgeBase.py:322-335 | stripping a list keeps its length and strips each element in place |
| Records.TallyCounts | knowledgebase/KnowledgeBase.py:68-71 | counting item by item (set to 1, then `+= 1`) gives each item its number of occurrences, and no other keys |
| Records.OverwriteLastWins | knowledgebase/KnowledgeBase.py:186-188 | with plain assignment into a recipe map, the last assignment to a key decides its value |
| Records.OverwriteAppend | knowledgebase/KnowledgeBase.py:236-239 | two runs of assignments compose as one run |
| TagResolver.RemoveFirst | knowledgebase/KnowledgeBase.py:105 | `list.remove` drops one element and introduces none |
| TagResolver.ScanTag | knowledgebase/KnowledgeBase.py:103-111 | the positional scan yields only values of the list or of tag files, all namespaced; it fails only on a missing tag or, as `OutOfFuel`, when its step bound runs out |
| TagResolver.ResolveTag | knowledgebase/KnowledgeBase.py:99-111 | a missing tag file is `MissingTag`; a resolved tag lists only values from tag files |
| TagResolver.ResolveTagScan | knowledgebase/KnowledgeBase.py:100-111 | the index loop with remove-first and extend computes `ResolveTag` |
| TagResolver.ScanTagFuel | knowledgebase/KnowledgeBase.py:103-111 | a scan that ends within its step bound gives the same result with any larger bound, so every result but `OutOfFuel` is the one the loop reaches |
| TagResolver.ResolveTagFuel | knowledgebase/KnowledgeBase.py:99-111 | the same for a whole tag: more fuel never changes a result other than `OutOfFuel` |
| TagResolver.ResolvePlain | knowledgebase/KnowledgeBase.py:102-111 | a tag without references resolves to its own values, in order |
| TagResolver.RefName | knowledgebase/KnowledgeBase.py:104-107 | `#minecraft:<name>` is a reference, and stripping it names the tag `name` |
| TagResolver.ReferenceAppendedAtEnd | knowledgebase/KnowledgeBase.py:103-111 | a referenced tag's values are appended after the rest of the list, not spliced in place |
| TagResolver.EntryAfterReferenceSkipped | knowledgebase/KnowledgeBase.py:103-105 | the entry right after a removed reference is not scanned, so a second reference stays unresolved in the result |
| TagResolver.NestedReferenceFollowed | knowledgebase/KnowledgeBase.py:103-111 | appended values are scanned too, so a reference inside a referenced tag is followed |
| TagResolver.SelfReferenceScan | knowledgebase/KnowledgeBase.py:103-111 | with the self-reference at the scan position, each step appends it again and the scan never ends |
| TagResolver.SelfReferenceNeverEnds | knowledgebase/KnowledgeBase.py:99-111 | a tag `[#minecraft:a, x]` named `a` runs out of any fuel: the loop does not terminate |
| Indices.AddEdgeFacts | knowledgebase/KnowledgeBase.py:54-67 | the for/else scan appends `{item: c, type}` only when no entry names `c`, and otherwise keeps the list; the station is not compared |
| Indices.AddEdgeKeepsNoDuplicates | knowledgebase/KnowledgeBase.py:54-67 | registration never creates two entries for the same crafted item |
| Indices.AddEdgeKeepsInvariants | knowledgebase/KnowledgeBase.py:54-67 | registration keeps both index invariants and only extends the one list |
| Indices.RegisterAllKeepsInvariants | knowledgebase/KnowledgeBase.py:115-127 | registering a list of materials in turn keeps both invariants and only grows lists |
| Indices.RegisterAllEdges | knowledgebase/KnowledgeBase.py:115-127 | every registered material ends with an edge to `c` |
| Indices.RegisterAllOutside | knowledgebase/KnowledgeBase.py:115-127 | a material not in the list keeps its list or stays absent |
| Indices.RegisterAllIsRegistered | knowledgebase/KnowledgeBase.py:115-127 | registering in order gives the same index as registering the set: keys grow by exactly the materials |
| Indices.RegisterAllAppend | knowledgebase/KnowledgeBase.py:52-131 | registering `xs` then `ys` is registering `xs + ys` |
| Indices.ConsistentAppend | knowledgebase/KnowledgeBase.py:132 | appending variants whose ingredients all have edges to `c` keeps consistency |
| Indices.ConsistentGrows | knowledgebase/KnowledgeBase.py:54-67 | adding edges never breaks consistency |
| Indices.ExtendEntry | knowledgebase/KnowledgeBase.py:47-48 | creating the crafted item's list empty when absent, then extending it, is extending the old list or `[]` |
| Indices.Replicate | knowledgebase/KnowledgeBase.py:211-212 | appending `n - 1` deep copies of variant 0 yields `n` equal variants |
| Indices.CopiesAt | knowledgebase/KnowledgeBase.py:211-212 | every copy equals the original variant |
| ShapelessSpec.FirstWide | knowledgebase/KnowledgeBase.py:75-77 | the widening group is the first with two or more alternatives; every earlier group has at most one |
| ShapelessSpec.Width | knowledgebase/KnowledgeBase.py:75-77 | there is at least one variant |
| ShapelessSpec.ShapelessVariants | knowledgebase/KnowledgeBase.py:50-132 | the recipe yields exactly `Width` variants |
| ShapelessSpec.ShapelessBase | knowledgebase/KnowledgeBase.py:50-71 | without groups the recipe is one variant holding the tally of its concrete items |
| ShapelessSpec.ShapelessStepSpec | knowledgebase/KnowledgeBase.py:73-131 | processing one more group as the handler does (widen once, then alternative `i` into variant `i`) gives the declarative variants of the longer group list |
| ShapelessSpec.ShapelessStepFits | knowledgebase/KnowledgeBase.py:93 | one more group fits exactly when there is still one variant or the group is no larger than the variant list |
| ShapelessSpec.PicksBeforeWide | knowledgebase/KnowledgeBase.py:75-77 | before the widening group every variant receives the same items |
| ShapelessSpec.ShapelessVariantsKeys | knowledgebase/KnowledgeBase.py:52-131 | every ingredient of every variant is a concrete item or an alternative of some group |
| ShapelessSpec.WidthFailure | knowledgebase/KnowledgeBase.py:93 | a prefix of groups that overflows the variant list makes the handler fail |
| ShapelessSpec.PrefixNotFits | knowledgebase/KnowledgeBase.py:93 | an overflow is not undone by more groups |
| ShapelessLoad.Widened | knowledgebase/KnowledgeBase.py:75-77 | the widened list is never empty |
| ShapelessLoad.AddGroupRunFits | knowledgebase/KnowledgeBase.py:78-96 | a group that fits registers its alternatives in order and is one declarative group step |
| ShapelessLoad.GroupMeaning | knowledgebase/KnowledgeBase.py:73-131 | one group raises IndexError exactly when it overflows; otherwise it moves the run to the variants of the longer group list |
| ShapelessLoad.ChoiceRunMeaning | knowledgebase/KnowledgeBase.py:73-96 | the list pass stops exactly when the lists do not fit, and otherwise yields the variants of the list groups |
| ShapelessLoad.TagRunMeaning | knowledgebase/KnowledgeBase.py:97-131 | the tag pass stops with the resolver's error or an IndexError, and otherwise yields the variants of lists then tags |
| ShapelessLoad.ChoiceRunStopped | knowledgebase/KnowledgeBase.py:73-96 | after an exception the rest of the list pass changes nothing |
| ShapelessLoad.TagRunStopped | knowledgebase/KnowledgeBase.py:97-131 | after an exception the rest of the tag pass changes nothing |
| ShapelessLoad.ShapelessRunMeaning | knowledgebase/KnowledgeBase.py:35-132 | the handler succeeds iff every tag resolves and every group fits; it then registers the concrete items and every alternative in order, and yields `ShapelessVariants`; any other failure is the first tag that does not resolve |
| ShapelessLoad.ShapelessRunKeepsValid | knowledgebase/KnowledgeBase.py:35-132 | the handler keeps both index invariants, whatever its outcome |
| ShapedSpec.SymbolCountsMeaning | knowledgebase/KnowledgeBase.py:157-165 | `keyToNum` holds exactly the non-space characters of the pattern, each with its number of occurrences |
| ShapedSpec.SymbolsCount | knowledgebase/KnowledgeBase.py:158-165 | the symbols read row by row occur as often as in the rows |
| ShapedSpec.SymbolsNoSpace | knowledgebase/KnowledgeBase.py:160-161 | spaces are skipped |
| ShapedSpec.ResolveKeyFirst | knowledgebase/KnowledgeBase.py:191-208 | resolving the first `n` key entries gives `n` entries |
| ShapedSpec.ResolveKeyAt | knowledgebase/KnowledgeBase.py:191-208 | a resolved key lists each entry's own resolution, in key order |
| ShapedSpec.ResolvedEntry | knowledgebase/KnowledgeBase.py:167-208 | entry `j` keeps its symbol and holds the stripped item, the stripped list, or the resolved tag |
| ShapedSpec.ResolveKeyFailure | knowledgebase/KnowledgeBase.py:194 | a key fails to resolve only through a tag |
| ShapedSpec.VariantCountDivides | knowledgebase/KnowledgeBase.py:206-208 | `reqNum` is the product of every list and tag size, so each size divides it |
| ShapedSpec.VariantCountSnoc | knowledgebase/KnowledgeBase.py:206-208 | each entry multiplies `reqNum` by its size |
| ShapedSpec.VariantCountFits | knowledgebase/KnowledgeBase.py:210-217 | with `reqNum >= 1` no list or tag is empty or larger than `reqNum` |
| ShapedSpec.StrideFacts | knowledgebase/KnowledgeBase.py:217 | the stride `reqNum // len` is positive and every block stays inside the variant list |
| ShapedSpec.BlockOf | knowledgebase/KnowledgeBase.py:236 | variant `p` lies in block `i` of width `s` exactly when `i == p // s` |
| ShapedSpec.ShapedVariants | knowledgebase/KnowledgeBase.py:210-283 | with `reqNum > 1` exactly `reqNum` variants are produced |
| ShapedSpec.BlockWritesOne | knowledgebase/KnowledgeBase.py:236-239 | in block mode a variant receives exactly one alternative of a group: the one whose block holds it |
| ShapedSpec.ListGroupWrites | knowledgebase/KnowledgeBase.py:214-239 | list alternative `ind` fills the block `[ind*stride, (ind+1)*stride)` |
| ShapedSpec.StridedTagWrites | knowledgebase/KnowledgeBase.py:278-281 | with stride 2 over six variants, variant `p` receives the tag's first item when `p` is even, its second when `p` is odd, and its third as well when `p` is 2 or 4 |
| ShapedSpec.StridedTagOverlaps | knowledgebase/KnowledgeBase.py:278-281 | a list of two and a tag of three: variants 2 and 4 receive the tag's first and third items both, the others one item each |
| ShapedLoad.WriteAlt | knowledgebase/KnowledgeBase.py:236-239 | writing one alternative keeps the number of variants |
| ShapedLoad.WrittenAt | knowledgebase/KnowledgeBase.py:218-239 | variant `p` receives, in order, the assignments of the group that reach it |
| ShapedLoad.ItemPassMeaning | knowledgebase/KnowledgeBase.py:167-188 | the item pass fails exactly when a concrete item's symbol is missing from `keyToNum`; otherwise it registers the items and assigns their counts in variant 0 |
| ShapedLoad.PassMeaning | knowledgebase/KnowledgeBase.py:214-281 | a list or tag pass fails exactly when one of its symbols is missing; otherwise each variant is overwritten with that pass's assignments |
| ShapedLoad.LaterPassesVariants | knowledgebase/KnowledgeBase.py:210-281 | the list pass then the tag pass (blocks without lists, strides with them) yield `ShapedVariants` |
| ShapedLoad.ItemPassStopped | knowledgebase/KnowledgeBase.py:167-188 | after an exception the rest of the item pass changes nothing |
| ShapedLoad.PassStopped | knowledgebase/KnowledgeBase.py:214-281 | after an exception the rest of a list or tag pass changes nothing |
| ShapedLoad.ShapedRunMeaning | knowledgebase/KnowledgeBase.py:139-283 | the handler succeeds iff `ShapedSucceeds`; it registers the concrete items and, only when `reqNum > 1`, every list's and every tag's alternatives; it yields one variant or `ShapedVariants`; a failure is a missing symbol or the first unresolved tag |
| ShapedLoad.ShapedRunKeys | knowledgebase/KnowledgeBase.py:167-281 | every ingredient written into a variant has been registered |
| ShapedLoad.ShapedRunKeepsValid | knowledgebase/KnowledgeBase.py:134-283 | the handler keeps both index invariants |
| ShapedLoad.PatternStation | knowledgebase/KnowledgeBase.py:139-147 | the for/else scan picks `crafting_table` iff some row has three or more characters or there are three or more rows |
| ShapedLoad.CountSymbols | knowledgebase/KnowledgeBase.py:157-165 | the nested loop computes `keyToNum` |
| ShapedLoad.ResolveKeyStopped | knowledgebase/KnowledgeBase.py:191-208 | once a tag fails to resolve, later entries do not change the outcome |
| ShapedLoad.EntryFactor | knowledgebase/KnowledgeBase.py:191-208 | one key entry multiplies `reqNum` by its list or tag size, or raises the resolver's error |
| ShapedLoad.RequiredVariants | knowledgebase/KnowledgeBase.py:190-208 | the loop computes `reqNum` of the resolved key, or the first resolution error |
| ShapedLoad.StrideStep | knowledgebase/KnowledgeBase.py:278 | `range(ind, n, stride)` passes over no other variant of the same stride class |
| ShapedLoad.WriteBlock | knowledgebase/KnowledgeBase.py:236-239 | `for i in range(ind*stride, (ind+1)*stride)` writes the block of alternative `ind` |
| ShapedLoad.WriteStrided | knowledgebase/KnowledgeBase.py:278-281 | `for i in range(ind, reqNum, stride)` writes the strided variants of alternative `ind` |
| ShapedLoad.WriteAlternative | knowledgebase/KnowledgeBase.py:272-281 | tag alternatives use blocks without a list, and strides with one |
| Smelting.SmeltStart | knowledgebase/KnowledgeBase.py:319-321 | the list branch starts from `len(ingredient)` variants (one for an empty list) |
| Smelting.SmeltStepFails | knowledgebase/KnowledgeBase.py:322-335 | an alternative raises exactly when its edge list is non-empty (it is not new): the scan rebinds the loop variable, and the append's or the write's subscript raises |
| Smelting.SmeltStopped | knowledgebase/KnowledgeBase.py:322-335 | once an alternative has raised, the rest changes nothing |
| Smelting.SmeltFirstMeaning | knowledgebase/KnowledgeBase.py:319-335 | the list branch succeeds exactly when every alternative is new; it then registers them in order and writes alternative `i` alone into variant `i` with count 1; a failure happens at the first alternative that is not new, with only the alternatives before it registered |
| Smelting.SmeltVariants | knowledgebase/KnowledgeBase.py:319-335 | a list yields one variant per alternative |
| Smelting.SmeltRunMeaning | knowledgebase/KnowledgeBase.py:290-337 | a single item yields one variant `{item: 1}` with station `furnace`; a list succeeds iff its alternatives are new, and then yields `SmeltVariants`; its only failure is the rebound loop variable, which leaves registered exactly the alternatives before the first one that is not new |
| Smelting.RawMaterialRaises | knowledgebase/KnowledgeBase.py:322-335 | with `coal` already a material of `torch`, the list `[minecraft:coal]` for `iron_ingot` raises and the material index is left as it was |
| Smelting.SmeltRunKeys | knowledgebase/KnowledgeBase.py:299-335 | every ingredient written into a variant has been registered |
| Smelting.SmeltRunKeepsValid | knowledgebase/KnowledgeBase.py:285-337 | the handler keeps both index invariants |
| LootTables.DropStepRecorded | knowledgebase/KnowledgeBase.py:372-395 | a drop already recorded in both indices changes nothing |
| LootTables.DropStepRecords | knowledgebase/KnowledgeBase.py:372-395 | a drop records `{mob: 1}` for the item and the edge `mob -> item`, and keeps earlier records |
| LootTables.DropAllRecords | knowledgebase/KnowledgeBase.py:367-395 | after a pool, every named entry is recorded |
| LootTables.DropAllRecorded | knowledgebase/KnowledgeBase.py:367-395 | drops that are all recorded change nothing |
| LootTables.LoadTableIdempotent | knowledgebase/KnowledgeBase.py:357-395 | loading the same table twice leaves the indices as loading it once |
| LootTables.DropAllFrame | knowledgebase/KnowledgeBase.py:372-395 | a pool touches only the mob's list and its items' lists |
| LootTables.DropStepKeepsValid | knowledgebase/KnowledgeBase.py:372-395 | one drop keeps both index invariants |
| LootTables.DropAllKeepsValid | knowledgebase/KnowledgeBase.py:367-395 | a pool keeps both index invariants |
| LootTables.TableDropsSnoc | knowledgebase/KnowledgeBase.py:367-370 | a table's drops are its pools' named entries, pool by pool, in order |
| LootTables.DropAllAppend | knowledgebase/KnowledgeBase.py:367-395 | dropping `xs` then `ys` is dropping `xs + ys` |
| LootTables.BaseName | knowledgebase/KnowledgeBase.py:407 | the mob name is the prefix of the file name up to its first dot |
| LootTables.LoadTablesKeepsValid | knowledgebase/KnowledgeBase.py:397-407 | loading the loot directory keeps both index invariants |
| Loading.RecipeStepKeepsValid | knowledgebase/KnowledgeBase.py:346-355 | each recipe file, whatever its type and outcome, keeps both invariants |
| Loading.LoadRecipesKeepsValid | knowledgebase/KnowledgeBase.py:339-355 | the recipe directory keeps both invariants |
| Loading.LoadRecipesStopped | knowledgebase/KnowledgeBase.py:345-355 | once a file raises, the files after it are not read |
| Loading.LoadAllValid | knowledgebase/KnowledgeBase.py:21-33 | whatever the files hold, a load leaves indices with no duplicate edge and with every ingredient linked back |
| Knowledge.KnowledgeBase.constructor | knowledgebase/KnowledgeBase.py:28-29 | both indices start empty and valid |
| Knowledge.KnowledgeBase.RegisterMaterialEdge | knowledgebase/KnowledgeBase.py:54-67 | the for/else scan replaces the material's list by `AddEdge` and changes nothing else |
| Knowledge.KnowledgeBase.TallyItems | knowledgebase/KnowledgeBase.py:52-71 | the concrete-item pass registers the items in order and builds their tally |
| Knowledge.KnowledgeBase.CountGroup | knowledgebase/KnowledgeBase.py:78-96 | one group registers its alternatives up to the first overflow and counts alternative `i` into variant `i`; it fails iff the group is longer than the variant list |
| Knowledge.KnowledgeBase.AddGroup | knowledgebase/KnowledgeBase.py:75-96 | widening plus one group act as `AddGroupRun` |
| Knowledge.KnowledgeBase.ChoiceIngredient | knowledgebase/KnowledgeBase.py:74-96 | one ingredient of the list pass acts as one step of `ChoiceRunFirst` |
| Knowledge.KnowledgeBase.AddChoiceGroups | knowledgebase/KnowledgeBase.py:73-96 | the list pass acts as `ChoiceRunFirst` |
| Knowledge.KnowledgeBase.TagIngredient | knowledgebase/KnowledgeBase.py:98-131 | one ingredient of the tag pass acts as one step of `TagRunFirst` |
| Knowledge.KnowledgeBase.AddTagGroups | knowledgebase/KnowledgeBase.py:97-131 | the tag pass acts as `TagRunFirst` |
| Knowledge.KnowledgeBase.ShapelessPasses | knowledgebase/KnowledgeBase.py:50-131 | the three passes act as `ShapelessRun` |
| Knowledge.KnowledgeBase.LoadShapeless | knowledgebase/KnowledgeBase.py:35-132 | the station is `crafting_table` iff there are more than four ingredients; the indices become `ShapelessRun`'s registrations plus, on success, its variants appended to the crafted item's list, which is created when missing; an exception keeps earlier registrations; `Valid` is kept |
| Knowledge.KnowledgeBase.ShapedItems | knowledgebase/KnowledgeBase.py:167-188 | the item pass acts as `ItemPassFirst` |
| Knowledge.KnowledgeBase.WriteGroup | knowledgebase/KnowledgeBase.py:214-281 | one list or tag of the later passes acts as `GroupRun` |
| Knowledge.KnowledgeBase.ListEntry | knowledgebase/KnowledgeBase.py:215-239 | one key entry of the list pass acts as one step of the list pass, and reports whether it is a list |
| Knowledge.KnowledgeBase.ListGroups | knowledgebase/KnowledgeBase.py:213-239 | the list pass acts as `PassFirst`, and `flag` records whether the key has a list |
| Knowledge.KnowledgeBase.TagEntry | knowledgebase/KnowledgeBase.py:242-281 | one key entry of the tag pass acts as one step of the tag pass |
| Knowledge.KnowledgeBase.TagGroups | knowledgebase/KnowledgeBase.py:241-281 | the tag pass acts as `PassFirst` in the mode `flag` chose |
| Knowledge.KnowledgeBase.ShapedPasses | knowledgebase/KnowledgeBase.py:155-281 | the passes after the station act as `ShapedRun` |
| Knowledge.KnowledgeBase.LoadShaped | knowledgebase/KnowledgeBase.py:134-283 | `barrel`, `campfire` and `soul_campfire` change nothing; otherwise the indices become `ShapedRun`'s registrations plus, on success, its variants appended; `Valid` is kept |
| Knowledge.KnowledgeBase.SmeltAlternatives | knowledgebase/KnowledgeBase.py:319-335 | the list branch acts as `SmeltFirst` from the starting material index: an alternative that already had edges raises before anything is registered for it |
| Knowledge.KnowledgeBase.SmeltIngredient | knowledgebase/KnowledgeBase.py:299-335 | the ingredient handling acts as `SmeltRun` |
| Knowledge.KnowledgeBase.LoadFurnace | knowledgebase/KnowledgeBase.py:285-337 | the indices become `SmeltRun`'s registrations plus, on success, its variants appended to the crafted item's list; `Valid` is kept |
| Knowledge.KnowledgeBase.AddDropVariant | knowledgebase/KnowledgeBase.py:372-383 | `{mob: 1}` with `combat` is appended to the item's list only if no variant has that recipe; the material index is untouched |
| Knowledge.KnowledgeBase.LootPool | knowledgebase/KnowledgeBase.py:368-395 | one pool acts as `DropAll` over its named entries |
| Knowledge.KnowledgeBase.LoadLootTable | knowledgebase/KnowledgeBase.py:357-395 | the table acts as `LoadTable`: nothing without `pools`; `Valid` is kept |
| Knowledge.KnowledgeBase.LoadLoot | knowledgebase/KnowledgeBase.py:397-407 | the loot directory acts as `LoadTables`: only `.json` files, mob named by `BaseName` |
| Knowledge.KnowledgeBase.LoadRecipeFile | knowledgebase/KnowledgeBase.py:346-355 | one file is dispatched on its three known types, and any other type is ignored (`RecipeStep`) |
| Knowledge.KnowledgeBase.LoadRecipe | knowledgebase/KnowledgeBase.py:339-355 | the recipe directory acts as `LoadRecipes`, stopping at the first exception |
| Knowledge.KnowledgeBase.Load | knowledgebase/KnowledgeBase.py:21-33 | both indices are reset, then recipes and then loot are loaded as asked (`LoadAll`); `Valid` holds afterwards |
| Values.TypeOf | gamebot/lib/actions/program_action_instance.ts:46 | `typeof` is one of five names; `undefined`, `number` and `string` exactly for the undefined value, numbers and strings |
| Programs.GetType | gamebot/lib/programs.js:12-14 | the interface's `getType` throws; an action or sequence names its own tag |
| Programs.CreateProgram | gamebot/lib/programs.js:93-104 | construction succeeds iff every node has a known tag and its field; an action takes `json.action`'s name and paramMap; a sequence maps construction over its items, keeping length and order; an unknown tag throws `unknown program type` |
| Programs.CreateItems | gamebot/lib/programs.js:71-72 | the map over the items succeeds iff every item is well formed, keeps their number, and constructs each in place |
| Programs.UnknownTypeFails | gamebot/lib/programs.js:101-102 | an unknown tag at any depth makes the whole construction throw |
| Programs.CreateFromJson | gamebot/lib/programs.js:24-77 | constructing from a program's JSON gives the program back |
| Programs.CreateItemsFromJson | gamebot/lib/programs.js:71-72 | the same, item by item |
| Evaluation.EvalAction | gamebot_js/lib/bot.js:232-300 | outside `running` an action is skipped; otherwise it appends exactly one `{action, result}` entry, clears the current action, and sets `error` iff the result type is `error`; an unknown name throws before any result, leaving the current action set |
| Evaluation.InertUnlessRunning | gamebot_js/lib/bot.js:233-235 | outside `running` a program changes nothing |
| Evaluation.InertItems | gamebot_js/lib/bot.js:307-311 | outside `running` a sequence changes nothing |
| Evaluation.EvalKeepsCoherent | gamebot_js/lib/bot.js:215-300 | results only grow; `error` is kept; only the last result may be an error, and it is one iff the state is `error` |
| Evaluation.ItemsKeepCoherent | gamebot_js/lib/bot.js:307-311 | the same for a prefix of a sequence |
| Evaluation.ThrowAbandonsRest | gamebot_js/lib/bot.js:307-311 | once a subprogram throws, later siblings are not evaluated |
| Evaluation.SequenceAppend | gamebot_js/lib/bot.js:307-311 | subprograms are evaluated in order: a sequence `xs + ys` runs `xs`, then `ys` unless `xs` threw |
| Evaluation.ItemsPrefix | gamebot_js/lib/bot.js:307-311 | evaluating a prefix of `xs + ys` does not look at `ys` |
| Evaluation.EvalSettles | gamebot_js/lib/bot.js:61-81 | after `eval` the state is never `running`, and the results are coherent |
| Evaluation.UnknownActionLeavesReady | gamebot_js/lib/bot.js:74-80 | an unknown first action is caught by `eval`: no results, state `ready`, current action still set |
| Bots.Bot.constructor | gamebot_js/lib/bot.js:38-49 | a new bot is `ready` with no results and no current action |
| Bots.Bot.Eval | gamebot_js/lib/bot.js:61-81 | `eval` while `running` changes nothing; otherwise it resets the fields, evaluates, and turns `running` into `ready`, exactly as `Evaluation.Eval` |
| Bots.Bot.EvalProgram | gamebot_js/lib/bot.js:215-225 | dispatch acts as `Evaluation.EvalProgram` |
| Bots.Bot.EvalAction | gamebot_js/lib/bot.js:232-300 | the action step acts as `Evaluation.EvalAction` |
| Bots.Bot.EvalSequence | gamebot_js/lib/bot.js:307-311 | the loop acts as `Evaluation.EvalItems` over all subprograms |
| Bots.Bot.GetEvalResults | gamebot_js/lib/bot.js:106-108 | returns the results, as a value not shared with the bot |
| ActionInstances.FirstTaken | gamebot/lib/actions/action_instance.ts:19-22 | nothing is found iff the names scanned are distinct and none is preset |
| ActionInstances.FirstTakenWitness | gamebot/lib/actions/action_instance.ts:19-22 | a name found is preset or occurs at two positions among those scanned |
| ActionInstances.FirstTakenAt | gamebot/lib/actions/action_instance.ts:19-22 | the first name already present decides, whatever follows |
| ActionInstances.Read | gamebot/lib/actions/program_action_instance.ts:46 | `this.args[name].value` is the own argument's value, and `undefined` for a name the record does not own |
| ActionInstances.FillHolds | gamebot/lib/actions/action_instance.ts:19-25 | after `k` distinct args the record has exactly their names as keys, each mapped to its own arg |
| ActionInstances.ArgsRecordMeaning | gamebot/lib/actions/action_instance.ts:17-25 | construction fails iff two args share a name or one is named like a property inherited from `Object.prototype`; otherwise the record has one key per arg, and each arg is stored under its own name |
| ActionInstances.InheritedNameTaken | gamebot/lib/actions/action_instance.ts:17-22 | a lone argument named `constructor` throws `duplicate argument constructor` |
| ActionInstances.RecordArgs | gamebot/lib/actions/action_instance.ts:17-25 | the loop computes `ArgsRecord` |
| ActionInstances.CheckParams | gamebot/lib/actions/program_action_instance.ts:40-49 | no error iff the record answers `in` for every parameter's name and the `typeof` of its `value` is the parameter's type |
| ActionInstances.CheckParamsReason | gamebot/lib/actions/program_action_instance.ts:40-49 | an error is `missing argument` or `wrong type` of a parameter that fails, according to whether the record answers `in` for its name, inherited properties included |
| ActionInstances.CheckParamsAt | gamebot/lib/actions/program_action_instance.ts:40-49 | the first failing parameter decides |
| ActionInstances.CheckArguments | gamebot/lib/actions/go_to_action_instance.ts:46-55 | the loop computes `CheckParams` |
| ActionInstances.Perform | gamebot/lib/actions/program_action_instance.ts:62-128 | `start` only from `READY` to `RUNNING`, `pause` only from `RUNNING` to `PAUSED`, `resume` only from `PAUSED` to `RUNNING`, `cancel` only from `RUNNING` or `PAUSED` to `CANCELED`; a refused call throws and changes nothing; an accepted call emits its one event |
| ActionInstances.SettledIsFinal | gamebot/lib/actions/program_action_instance.ts:62-128 | from `CANCELED`, `SUCCEEDED` or `FAILED` no call is accepted |
| ActionInstances.StartsAtMostOnce | gamebot/lib/actions/action_instance.ts:12 | an instance, which starts `READY`, is started at most once, and never returns to `READY` once it has left it |
| ProgramActions.BindSucceeds | gamebot/lib/actions/program_action_instance.ts:52-59 | binding succeeds iff every variable starts with `$` |
| ProgramActions.BindKeys | gamebot/lib/actions/program_action_instance.ts:52-59 | the bound variables are exactly the parameters' variables |
| ProgramActions.BindValue | gamebot/lib/actions/program_action_instance.ts:58 | a variable holds what the record reads under the name of the last parameter declaring it |
| ProgramActions.InstantiateSucceeds | gamebot/lib/actions/program_action_instance.ts:18-60 | construction succeeds iff args are distinct and none is named like an inherited property, parameters are distinct, the counts agree, every parameter has an argument of its type (or, named like an inherited property, has type `undefined`), and every variable starts with `$` |
| ProgramActions.InstantiateChecked | gamebot/lib/actions/program_action_instance.ts:18-60 | on success every parameter is matched and the variables are bound |
| ProgramActions.ConstructChecked | gamebot/lib/actions/program_action_instance.ts:24-59 | after the record, success means distinct parameters, equal counts, every parameter matched, and the variables bound |
| ProgramActions.ArgumentsClaimed | gamebot/lib/actions/program_action_instance.ts:34-49 | on success, when no parameter is named like an inherited property, every argument is claimed by a parameter of its name |
| ProgramActions.InheritedParameterUnclaimed | gamebot/lib/actions/program_action_instance.ts:34-59 | a parameter `toString` of type `undefined` passes with the one argument `a` unclaimed, and binds its variable to `undefined` |
| ProgramActions.InheritedParameterMistyped | gamebot/lib/actions/program_action_instance.ts:40-49 | a `number` parameter `toString` is reported as `wrong type`, not as missing |
| ProgramActions.NamesClaimKeys | gamebot/lib/actions/program_action_instance.ts:34-49 | distinct parameter names that are all keys of a record of the same size cover the record |
| ProgramActions.VariableBound | gamebot/lib/actions/program_action_instance.ts:52-59 | on success the variable of the last parameter declaring it is bound: to its argument's value, or to `undefined` for a name inherited from `Object.prototype` |
| ProgramActions.ReplaceVariables | gamebot/lib/actions/program_action_instance.ts:188-204 | throws iff a `$` string argument names a variable that is unbound or bound to `undefined`, naming that argument; otherwise it keeps length, order and names, gives `$` arguments their bound value and leaves the others unchanged |
| ProgramActions.ProgramActionInstance.constructor | gamebot/lib/actions/program_action_instance.ts:18-60 | a new instance is `READY`, neither canceled nor paused |
| ProgramActions.ProgramActionInstance.Start | gamebot/lib/actions/program_action_instance.ts:117-128 | acts as `Perform(start)` |
| ProgramActions.ProgramActionInstance.Pause | gamebot/lib/actions/program_action_instance.ts:89-101 | acts as `Perform(pause)` and sets `isPaused` when accepted |
| ProgramActions.ProgramActionInstance.Resume | gamebot/lib/actions/program_action_instance.ts:103-115 | acts as `Perform(resume)` and clears `isPaused` when accepted |
| ProgramActions.ProgramActionInstance.Cancel | gamebot/lib/actions/program_action_instance.ts:62-87 | acts as `Perform(cancel)` and sets `isCanceled` when accepted |
| ProgramActions.NewProgramActionInstance | gamebot/lib/actions/program_action_instance.ts:18-60 | the constructor throws exactly `Instantiate`'s error, and otherwise yields a fresh `READY` instance with its record and bindings |
| ProgramActions.RepeatedParameter | gamebot/lib/actions/program_action_instance.ts:25-31 | the set loop finds the first repeated parameter name |
| ProgramActions.BindAll | gamebot/lib/actions/program_action_instance.ts:52-59 | the loop computes `BindVariables` |
| ProgramActions.BindFailsAt | gamebot/lib/actions/program_action_instance.ts:52-59 | the first bad variable decides |
| GoToInstances.GoToBinding | gamebot/lib/actions/go_to_action_instance.ts:36-60 | on success each coordinate is the number given by the argument of its name |
| GoToInstances.Locate | gamebot/lib/actions/go_to_action_instance.ts:39-59 | after the record, success means each coordinate is the number stored under its name |
| GoToInstances.GoToBindingSucceeds | gamebot/lib/actions/go_to_action_instance.ts:36-60 | construction succeeds iff there are three arguments with distinct names `x`, `y` and `z`, all numbers |
| GoToInstances.BindingSound | gamebot/lib/actions/go_to_action_instance.ts:40-55 | success implies three distinct numeric coordinates |
| GoToInstances.BindingComplete | gamebot/lib/actions/go_to_action_instance.ts:40-55 | three distinct numeric coordinates imply success |
| GoToInstances.LocateSucceeds | gamebot/lib/actions/go_to_action_instance.ts:39-59 | a record of numbers under exactly `x`, `y` and `z` passes the count and the parameter loop |
| GoToInstances.InheritedCoordinateTaken | gamebot/lib/actions/action_instance.ts:19-22 | arguments `x`, `y`, `constructor` throw `duplicate argument constructor` |
| GoToInstances.GoToActionInstance.constructor | gamebot/lib/actions/go_to_action_instance.ts:36-60 | a new instance is `READY` with its goal |
| GoToInstances.GoToActionInstance.Start | gamebot/lib/actions/go_to_action_instance.ts:102-113 | acts as `Perform(start)` |
| GoToInstances.GoToActionInstance.Pause | gamebot/lib/actions/go_to_action_instance.ts:76-87 | acts as `Perform(pause)` |
| GoToInstances.GoToActionInstance.Resume | gamebot/lib/actions/go_to_action_instance.ts:89-100 | acts as `Perform(resume)` |
| GoToInstances.GoToActionInstance.Cancel | gamebot/lib/actions/go_to_action_instance.ts:62-74 | acts as `Perform(cancel)` |
| GoToInstances.GoToActionInstance.GoalReached | gamebot/lib/actions/go_to_action_instance.ts:119-131 | acts as `OnGoalReached` |
| GoToInstances.GoToActionInstance.PathUpdate | gamebot/lib/actions/go_to_action_instance.ts:132-164 | acts as `OnPathUpdate` |
| GoToInstances.OnGoalReached | gamebot/lib/actions/go_to_action_instance.ts:119-131 | `RUNNING` becomes `SUCCEEDED` with a `succeed` event; any other state is ignored |
| GoToInstances.OnPathUpdate | gamebot/lib/actions/go_to_action_instance.ts:132-164 | the state changes iff it is `RUNNING` and the status is `noPath` or `timeout`; it then becomes `FAILED` with the matching reason |
| GoToInstances.SettledStaysSettled | gamebot/lib/actions/go_to_action_instance.ts:62-164 | once canceled, succeeded or failed, no call and no pathfinder report changes the state |
| GoToInstances.SettlesOnlyAfterStart | gamebot/lib/actions/go_to_action_instance.ts:102-164 | without an accepted `start`, reports never move an instance out of `READY` |
| GoToInstances.NewGoToActionInstance | gamebot/lib/actions/go_to_action_instance.ts:36-60 | the constructor throws exactly `GoToBinding`'s error, and otherwise yields a fresh `READY` instance with that goal |
| GoToActions.Apply | gamebot/lib/actions/go_to_action.ts:16-94 | `start` only from `STOPPED`, `pause` only from `RUNNING`, `resume` only from `PAUSED`, `stop` from anything but `STOPPED`; a refused call throws and changes nothing; goal reached always stops with `stopped` then `finished`; `noPath` or `timeout` stops with `stopped` then `error`, and other statuses are ignored |
| GoToActions.LeavesStoppedOnlyByStart | gamebot/lib/actions/go_to_action.ts:16-27 | a stopped action leaves `STOPPED` only through a `start` |
| GoToActions.GoToAction.constructor | gamebot/lib/actions_legacy/action.ts:11 | a new action is `STOPPED` |
| GoToActions.GoToAction.Start | gamebot/lib/actions/go_to_action.ts:16-27 | acts as `Apply(start)` |
| GoToActions.GoToAction.Pause | gamebot/lib/actions/go_to_action.ts:29-40 | acts as `Apply(pause)` |
| GoToActions.GoToAction.Resume | gamebot/lib/actions/go_to_action.ts:42-53 | acts as `Apply(resume)` |
| GoToActions.GoToAction.Stop | gamebot/lib/actions/go_to_action.ts:55-66 | acts as `Apply(stop)` |
| GoToActions.GoToAction.GoalReached | gamebot/lib/actions/go_to_action.ts:73-81 | acts as `Apply` on a goal-reached report |
| GoToActions.GoToAction.PathUpdate | gamebot/lib/actions/go_to_action.ts:82-94 | acts as `Apply` on a path update |
| ActionPrograms.ActionProgram.Iterate | gamebot/lib/programs/action_program.ts:10-16 | every iteration starts a fresh iterator, not yet visited |
| ActionPrograms.InvocationIterator.Next | gamebot/lib/programs/action_program.ts:17-25 | the first `next()` yields `{action, args}`; every later one is done |
| ActionPrograms.Invocations | gamebot/lib/programs/action_program.ts:10-27 | iterating the program to the end yields exactly the one invocation, every time |

## Left out

- File and directory I/O are replaced by values: `os.listdir`, `open` and `json.load`. The recipe and loot directories are sequences of decoded records, and the tag files are a map from tag name to its `values`. A missing tag file is the error `MissingTag`.
- A recipe or loot record that does not decode into JSON shapes the model knows (objects with the fields the handlers read) is not represented. A recipe whose body does not match its declared type is represented: its outcome is `MalformedRecord`, with both indices unchanged. The source instead raises `KeyError` or `TypeError` part way through the handler, after partial updates such as the smelting handler's `crafted_to_material[crafted] = []`; those partial updates are not modelled.
- Identifiers must carry a namespace (`requires Namespaced(...)`). Without a colon, `split(":")[1]` raises `IndexError`; the model does not represent that error.
- Tag resolution is bounded by a `fuel` parameter that counts loop steps, one per scanned position, and not nesting depth; it reports `OutOfFuel` when the bound is reached. `OutOfFuel` means the fuel was too small or the source's loop does not end, as for a tag that lists itself before a plain value (`SelfReferenceNeverEnds`). Any other result is the source's, and more fuel does not change it (`ResolveTagFuel`). The model does not represent the non-termination itself.
- The exceptions the model represents leave partial updates behind, as in the source. An exception is an error outcome of the call; throwing and catching are not modelled.
- The shaped handler's variant expansion is modelled as written, including the combinations it misses. With a list of two and a tag of three, `reqNum` is six and the tag's strides are `range(ind, 6, 2)`. They overlap: variants 2 and 4 each receive the tag's first and third items, under two different keys. The tag's third item therefore never appears on its own (`StridedTagOverlaps`).
- The smelting list branch is modelled as written. An alternative whose edge list is already non-empty makes the handler raise `IndexError`, because the scan rebinds the loop variable to an edge whose bare name has no colon. No edge is added for that alternative: the append's own subscript raises first, or the edge was already there (`RawMaterialRaises`).
- Python dict order is the order of the `key` sequence and of the records.
- `KnowledgeBase.__init__` is the constructor followed by `Load`. The base path is not modelled.
- The two properties, `material_to_crafted` and `crafted_to_material`, are the class's fields `materialToCrafted` and `craftedToMaterial`.
- Evaluation: the four game actions (`collectBlock`, `craftItem`, `explore`, `killEntity`) are replaced by an oracle indexed by the number of results so far. It returns `{type, message}` or raises. Reading `explore`'s nested parameters, which may raise, counts as the oracle raising.
- Evaluation: the asynchrony and re-entrancy of `eval` are not modelled, beyond the guard against a second `eval` while `running`.
- Evaluation: logging through consola is not modelled.
- `getEvalState` and `getEvalCurrentAction` are the fields `state` and `current`.
- The `state` getter of an action instance is its `state` field.
- JSON numbers are `real`.
- ProgramActions.ArgumentsClaimed: one-to-one correspondence holds only when no parameter is named like a property inherited from `Object.prototype`. Such a parameter of type `undefined` passes the source's checks with no argument of its name, so some argument goes unclaimed (`InheritedParameterUnclaimed`).
- `typeof` of functions and bigints does not occur among JSON values. `undefined` does occur: it is the `value` of a property inherited from `Object.prototype`, such as `toString`.
- `ProgramActionInstance.evaluate`, `startEvaluation`, `waitTillActionInstanceEnd`, `waitTillResume` and the wait inside `cancel` are not modelled. They are promise and interval polling that runs sub-instances concurrently.
- The child instance's `pause`, `resume` and `cancel` are likewise not modelled.
- Event emitters, once-listeners, consola logging, and the mineflayer and pathfinder calls (`setGoal`, `stopPathfinding`) are not modelled. Events are returned as a sequence of names, and the pathfinder's reports are plain methods.
- `gamebot/lib/actions/program_action.ts` is not part of this model. It refers to a constructor signature that `program_action_instance.ts` no longer has.
- `predefined_action_instance.ts`, `predefined_action.ts`, `action_instance_state.ts`, `action_status.ts` and `parameter_with_variable.ts` are not part of this model. Their enumerations and record types are datatypes here.
- `GoToActions.GoToAction.constructor`: the coordinates, the creation date and the bot are not stored, since no modelled operation reads them.
