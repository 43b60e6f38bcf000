# chef-assistant: a Dafny model of the recipe and shopping-list logic

chef-assistant is a recipe assistant. A user imports recipes from text or a
web page, asks an AI model for suggestions, edits and shares recipes, tags
them, and keeps a shopping list ("to-do") of ingredients. Everything in it
that computes rather than displays or calls the store is a small text or
list transformation. This project models those transformations and proves
what each one promises:

- `ImportRecipe` (`import_recipe.dfy`) models the unit normaliser of the
  import function. It rewrites `name|quantity|unit` lines in litres,
  decilitres, centilitres and kilograms into millilitres and grams.
- `ImportRecipeDialog` (`import_recipe_dialog.dfy`) models two things:
  - the line parser of the labelled recipe text (`TITRE:`, `DESCRIPTION:`,
    `INGRÉDIENTS:`, `INSTRUCTIONS:`, `TEMPS_PREP:`, `TEMPS_CUISSON:`,
    `PORTIONS:`), as an imperative loop proved against a fold;
  - the decoding of each imported `name|quantity|unit` ingredient into a
    shopping-list row.
- `EditRecipeDialog` (`edit_recipe_dialog.dfy`) models the form the edit
  dialog opens with and the update that saving it writes.
- `ShareRecipeDialog` (`share_recipe_dialog.dfy`) models the shares to add
  and to remove, the guarded insert and delete requests, and the friend
  toggle. The dialog is a class.
- `RecipeTagSelector` (`recipe_tag_selector.dfy`) models the tag toggle
  with its store success or failure, and the selected-tags filter. The
  picker is a class.
- `IndexPage` (`index_page.dfy`) models the main page's list updates:
  - ticking an entry;
  - fanning a recipe out into shopping-list rows;
  - dropping joined rows whose recipe is gone;
  - the records built from suggestions.
- `SuggestRecipes` (`suggest_recipes.dfy`) models the stripping of markdown
  fences from the AI reply and the `recipes` fallback.
- `TextUtils` (`text_utils.dfy`) models `normalizeText`, which spells out
  the `œu` ligature.
- Two modules model JavaScript built-ins the others rely on:
  - `Strings` models `trim` (JavaScript's exact whitespace set), `split`,
    `join`, `startsWith`, `replace` with a string pattern, and the part of
    `toLowerCase` that unit names need;
  - `Seqs` models `filter`.
- Two modules hold what the others share:
  - `Wrappers` holds the option and result types and the abstract number
    services;
  - `Records` (`records.dfy`) holds the shopping-list row written to the
    store, and `trim() || null`.

Numbers are abstract. The result of `parseFloat` and of `String(number)` is
a parameter (`Wrappers.Numerals`), and so is the result of `parseInt`
(`string -> IntValue`, where `NaN` is its own value). The store, the AI
gateway and `JSON.parse` appear only as parameters too: the outcome of a
request, or a partial parse function.

## Model

| member | source | states |
|---|---|---|
| ImportRecipe.Rescale | supabase/functions/import-recipe/index.ts:17-35 | a parsed quantity is multiplied by 1000 for `l`, 100 for `dl`, 10 for `cl` (unit becomes `mL`) and 1000 for `kg` (unit becomes `g`); any other unit keeps quantity and unit |
| ImportRecipe.ConvertLine | supabase/functions/import-recipe/index.ts:11-42 | the `map` callback on one line; what it does is stated by ConvertLineKeeps, ConvertLineRescales, ConvertedFields, ConvertLineKeepsName, ConvertLineAvoidsNewline and ConvertLineIdempotent |
| ImportRecipe.ConvertUnits | supabase/functions/import-recipe/index.ts:9-45 | `convertUnits`; stated line by line by ConvertUnitsLineWise and as a whole by ConvertUnitsIdempotent |
| ImportRecipe.ConvertLineKeeps | supabase/functions/import-recipe/index.ts:13-41 | each of these lines comes out unchanged: no field separator, a number of fields other than three, a quantity that does not parse, or a unit outside the table |
| ImportRecipe.ConvertLineRescales | supabase/functions/import-recipe/index.ts:21-38 | a converting line becomes its name, then the quantity and unit that `Rescale` gives for its parsed quantity and unit, joined by the field separator |
| ImportRecipe.ConvertedFields | supabase/functions/import-recipe/index.ts:21-38 | a converted line has three separator-free fields: the original name first, then the quantity, then `mL` or `g` |
| ImportRecipe.UnitKey | supabase/functions/import-recipe/index.ts:21-32 | `unit.trim().toLowerCase()`; LitreKey and KilogramKey state which units it sends to `l` and `kg` |
| ImportRecipe.LitreKey | supabase/functions/import-recipe/index.ts:21 | the unit is litres exactly when, trimmed, it is `l` or `L` |
| ImportRecipe.KilogramKey | supabase/functions/import-recipe/index.ts:32 | the unit is kilograms exactly when, trimmed, it is two characters: `k`, `K` or the Kelvin sign, then `g` or `G` |
| ImportRecipe.OutputUnitsAreFinal | supabase/functions/import-recipe/index.ts:21-35 | the units written, `mL` and `g`, are not in the conversion table |
| ImportRecipe.ConvertLineAvoidsNewline | supabase/functions/import-recipe/index.ts:11-42 | converting a line never introduces a line break |
| ImportRecipe.ConvertLineKeepsName | supabase/functions/import-recipe/index.ts:38 | the first field of every line is never altered |
| ImportRecipe.ConvertLineIdempotent | supabase/functions/import-recipe/index.ts:11-42 | converting a line twice equals converting it once |
| ImportRecipe.ConvertUnitsLineWise | supabase/functions/import-recipe/index.ts:9-45 | the output has as many lines as the input, and output line i is the conversion of input line i alone |
| ImportRecipe.ConvertUnitsIdempotent | supabase/functions/import-recipe/index.ts:9-45 | `convertUnits` is idempotent |
| ImportRecipeDialog.Classify | src/components/ImportRecipeDialog.tsx:37-63 | the branch of the loop body a trimmed line takes, in the source's order; KindIsTrimmed, TitleLineValue, IngredientsAreBody and ParagraphsAreBody state what it gives |
| ImportRecipeDialog.Step | src/components/ImportRecipeDialog.tsx:37-63 | the effect of one branch on the locals; StepBodyKeeps and the Run lemmas state it |
| ImportRecipeDialog.Run | src/components/ImportRecipeDialog.tsx:34-64 | the locals after a prefix of the lines; RunSection, RunTitle, RunDescription, RunPrepTime, RunCookTime, RunServings, RunIngredients, RunInstructions and RunMeetsRecipe state it |
| ImportRecipeDialog.After | src/components/ImportRecipeDialog.tsx:38-58 | the value after a marker is trimmed |
| ImportRecipeDialog.ParseRecipeResponse | src/components/ImportRecipeDialog.tsx:22-68 | the parse equals the recipe the line kinds describe: the last field values, the ingredients and the joined instruction paragraphs |
| ImportRecipeDialog.StepBodyKeeps | src/components/ImportRecipeDialog.tsx:60-64 | a body line outside both sections, or a blank one, changes nothing |
| ImportRecipeDialog.RunSection | src/components/ImportRecipeDialog.tsx:32-53 | the current section is the one set by the last `INGRÉDIENTS:`, `INSTRUCTIONS:` or `TEMPS_PREP:` line |
| ImportRecipeDialog.RunTitle | src/components/ImportRecipeDialog.tsx:37-38 | the title is the value of the last `TITRE:` line, or empty when there is none |
| ImportRecipeDialog.RunDescription | src/components/ImportRecipeDialog.tsx:39-41 | the description is the value of the last `DESCRIPTION:` line, empty when there is none or when that value is `N/A` |
| ImportRecipeDialog.RunPrepTime | src/components/ImportRecipeDialog.tsx:50-53 | the preparation time is the value of the last `TEMPS_PREP:` line, null when there is none or when that value is `N/A` |
| ImportRecipeDialog.RunCookTime | src/components/ImportRecipeDialog.tsx:54-56 | the cooking time is the value of the last `TEMPS_CUISSON:` line, null when there is none or when that value is `N/A` |
| ImportRecipeDialog.RunServings | src/components/ImportRecipeDialog.tsx:57-59 | the servings are `parseInt` of the value of the last `PORTIONS:` line, null when there is none or when that value is `N/A` |
| ImportRecipeDialog.RunIngredients | src/components/ImportRecipeDialog.tsx:42-61 | the collected ingredients are the non-empty body lines read while the section is `ingredients`, in order |
| ImportRecipeDialog.RunInstructions | src/components/ImportRecipeDialog.tsx:44-63 | the instructions are the paragraphs joined by blank lines: a non-empty `INSTRUCTIONS:` text restarts them, and later non-empty body lines are appended |
| ImportRecipeDialog.RunMeetsRecipe | src/components/ImportRecipeDialog.tsx:22-68 | the fold of the loop body yields the recipe the lines describe |
| ImportRecipeDialog.ParagraphsNonEmpty | src/components/ImportRecipeDialog.tsx:44-63 | no instruction paragraph is empty |
| ImportRecipeDialog.JoinEmptyIffNone | src/components/ImportRecipeDialog.tsx:63 | joined non-empty paragraphs are empty only when there are none, which is the `instructions ?` test |
| ImportRecipeDialog.LastValueNone | src/components/ImportRecipeDialog.tsx:24-59 | a labelled field keeps its initial value exactly when no line carries it |
| ImportRecipeDialog.LastValueAt | src/components/ImportRecipeDialog.tsx:37-59 | a labelled field's value comes from the last line that carries it |
| ImportRecipeDialog.KindIsTrimmed | src/components/ImportRecipeDialog.tsx:35-64 | every value a line gives is trimmed; a body line's text is the trimmed line, and it classifies again as a body line |
| ImportRecipeDialog.TitleLineValue | src/components/ImportRecipeDialog.tsx:37-38 | a line gives the title exactly when its trimmed text starts with `TITRE:`; the title is the trimmed rest of the line |
| ImportRecipeDialog.NoTitleLine | src/components/ImportRecipeDialog.tsx:24-38 | without a `TITRE:` line the title is "" |
| ImportRecipeDialog.TitleIsLastTitleLine | src/components/ImportRecipeDialog.tsx:24-38 | the title is the trimmed remainder of the last `TITRE:` line |
| ImportRecipeDialog.UnlessNA | src/components/ImportRecipeDialog.tsx:41-59 | `=== 'N/A' ? null :`; NotApplicable and RunDescription, RunPrepTime, RunCookTime and RunServings state it |
| ImportRecipeDialog.NotApplicable | src/components/ImportRecipeDialog.tsx:39-59 | `N/A` never survives as the description, a time or the servings |
| ImportRecipeDialog.NoHeaderNoIngredients | src/components/ImportRecipeDialog.tsx:42-61 | outside the ingredients section, lines add no ingredient until an `INGRÉDIENTS:` line |
| ImportRecipeDialog.NoIngredientsWithoutHeader | src/components/ImportRecipeDialog.tsx:42-61 | text without an `INGRÉDIENTS:` line has no ingredients |
| ImportRecipeDialog.PrepTimeClosesIngredients | src/components/ImportRecipeDialog.tsx:50-53 | after a `TEMPS_PREP:` line no ingredient is collected until another `INGRÉDIENTS:` line |
| ImportRecipeDialog.IngredientsAreBodyText | src/components/ImportRecipeDialog.tsx:60-61 | every ingredient is the non-empty text of a body line |
| ImportRecipeDialog.ParagraphsAreBodyText | src/components/ImportRecipeDialog.tsx:44-63 | every paragraph is non-empty; each comes from a body line or an `INSTRUCTIONS:` line, and each after the first from a body line |
| ImportRecipeDialog.IngredientsAreBody | src/components/ImportRecipeDialog.tsx:37-61 | no marker line is collected: every ingredient is non-empty, trimmed, and classified as a body line |
| ImportRecipeDialog.ParagraphsAreBody | src/components/ImportRecipeDialog.tsx:37-63 | every paragraph is non-empty and trimmed, and every paragraph after the first is classified as a body line |
| ImportRecipeDialog.DecodeIngredient | src/components/ImportRecipeDialog.tsx:124-134 | a decoded row carries the user and recipe, is unchecked, and has an empty name only for an empty line |
| ImportRecipeDialog.DecodeFields | src/components/ImportRecipeDialog.tsx:125-131 | for every line: a present quantity or unit is its trimmed piece, a blank or missing one is null, and the name is the trimmed first piece or, when that is blank, the whole line |
| ImportRecipeDialog.DecodeIngredients | src/components/ImportRecipeDialog.tsx:124-134 | one row per ingredient line, in order, each decoded on its own |
| ImportRecipeDialog.DecodeTriple | src/components/ImportRecipeDialog.tsx:125-131 | three trimmed, non-empty, separator-free fields joined by the field separator decode to exactly those fields |
| ImportRecipeDialog.DecodeNameOnly | src/components/ImportRecipeDialog.tsx:125-131 | a line without a field separator gives its trimmed text as the name (or the whole line when blank), with no quantity and no unit |
| Records.TrimOrNull | src/components/EditRecipeDialog.tsx:56-60 | trim-or-null is null exactly for blank text, and otherwise the trimmed text, which is non-empty |
| EditRecipeDialog.InitialForm | src/components/EditRecipeDialog.tsx:29-35 | the form the dialog opens with; SaveUnchangedForm states that saving it at once writes the recipe back |
| EditRecipeDialog.TrimLines | src/components/EditRecipeDialog.tsx:49 | `map(line => line.trim())`: one trimmed line per line; ParsedIngredients and TrimLinesOfTrimmed state it |
| EditRecipeDialog.ParseIngredientLines | src/components/EditRecipeDialog.tsx:47-50 | the saved ingredient list; ParsedIngredients, EmptyTextNoIngredients, JoinedIngredientsRoundTrip and ParseIngredientLinesStable state it |
| EditRecipeDialog.ParsedIngredients | src/components/EditRecipeDialog.tsx:47-50 | the saved ingredients are exactly the non-empty trimmed lines; none is empty, padded or contains a line break |
| EditRecipeDialog.EmptyTextNoIngredients | src/components/EditRecipeDialog.tsx:47-50 | an empty ingredients textarea saves an empty list |
| EditRecipeDialog.JoinedIngredientsRoundTrip | src/components/EditRecipeDialog.tsx:31-50 | trimmed, non-empty, single-line entries joined with `\n` split back to the same list |
| EditRecipeDialog.ParseIngredientLinesStable | src/components/EditRecipeDialog.tsx:31-50 | reopening and saving a saved ingredient list changes nothing |
| EditRecipeDialog.SaveRecipe | src/components/EditRecipeDialog.tsx:39-61 | the save is refused exactly when the title is blank; a saved title is non-empty and trimmed |
| EditRecipeDialog.SavedFields | src/components/EditRecipeDialog.tsx:47-61 | title and instructions are the trimmed texts; description and times are null exactly when blank and otherwise the trimmed texts; servings are null exactly when empty and otherwise `parseInt` of the field |
| EditRecipeDialog.SaveUnchangedForm | src/components/EditRecipeDialog.tsx:29-61 | opening the dialog on a normalised recipe and saving writes the recipe back unchanged, whenever `parseInt` reads back the servings number as `toString` printed it |
| ShareRecipeDialog.ToAdd | src/components/ShareRecipeDialog.tsx:91 | the ids to add are exactly the selected ids not yet shared |
| ShareRecipeDialog.ToRemove | src/components/ShareRecipeDialog.tsx:92 | the ids to remove are exactly the shared ids no longer selected |
| ShareRecipeDialog.AddRemoveDisjoint | src/components/ShareRecipeDialog.tsx:91-92 | no id is both added and removed |
| ShareRecipeDialog.ToAddKeepsOrder | src/components/ShareRecipeDialog.tsx:91 | the ids to add keep the selection order: the diff distributes over concatenation, and is the identity on new ids |
| ShareRecipeDialog.NoEmptyRequest | src/components/ShareRecipeDialog.tsx:95-119 | no insert or delete is sent with an empty id list, and at most two requests are sent |
| ShareRecipeDialog.ShareCalls | src/components/ShareRecipeDialog.tsx:95-119 | the insert and delete requests sent, in order; NoEmptyRequest and ShareReachesSelection state them |
| ShareRecipeDialog.ShareSucceeds | src/components/ShareRecipeDialog.tsx:95-124 | whether the share completes: no request it had to send failed; HandleShare closes the dialog exactly when it does |
| ShareRecipeDialog.ShareReachesSelection | src/components/ShareRecipeDialog.tsx:88-119 | when both requests succeed, current shares minus the removed ids plus the added ids equal the selected set |
| ShareRecipeDialog.Toggled | src/components/ShareRecipeDialog.tsx:139-145 | a toggled id is selected exactly when it was not, and every other id keeps its membership |
| ShareRecipeDialog.ToggledNoDuplicates | src/components/ShareRecipeDialog.tsx:139-145 | toggling keeps a selection free of duplicates |
| ShareRecipeDialog.ToggleTwice | src/components/ShareRecipeDialog.tsx:139-145 | toggling twice restores the selected set, and restores the sequence when the id was absent |
| ShareRecipeDialog.ShareDialog.constructor | src/components/ShareRecipeDialog.tsx:33-36 | the dialog opens closed, with nothing selected and not loading |
| ShareRecipeDialog.ShareDialog.ToggleFriend | src/components/ShareRecipeDialog.tsx:139-145 | the selection becomes its toggle; nothing else changes |
| ShareRecipeDialog.ShareDialog.HandleShare | src/components/ShareRecipeDialog.tsx:78-137 | sends the insert (when there is something to add) and then the delete (when there is something to remove, and only if no insert failed); the selection is kept, `loading` ends false, and the dialog closes only on success |
| RecipeTagSelector.SelectedTags | src/components/RecipeTagSelector.tsx:86 | the selected tags are exactly the user's tags whose id is selected |
| RecipeTagSelector.SelectedTagsKeepOrder | src/components/RecipeTagSelector.tsx:86 | the selected tags keep the order of the user's tags |
| RecipeTagSelector.AfterToggle | src/components/RecipeTagSelector.tsx:55-81 | a failed request leaves the ids unchanged; a successful check appends the id after the old ids and adds nothing else; a successful uncheck removes every occurrence and keeps exactly the other ids |
| RecipeTagSelector.UncheckRemovesEveryCopy | src/components/RecipeTagSelector.tsx:78 | a successful uncheck removes the id wherever it stands, however often, and keeps the ids on either side of it in their order |
| RecipeTagSelector.CheckThenUncheck | src/components/RecipeTagSelector.tsx:64-78 | checking a new tag and then unchecking it, both successfully, restores the ids |
| RecipeTagSelector.TagSelector.constructor | src/components/RecipeTagSelector.tsx:28-30 | the picker starts with no tags, none selected, and not loading |
| RecipeTagSelector.TagSelector.HandleToggleTag | src/components/RecipeTagSelector.tsx:52-84 | the selected ids become their toggle for the request's outcome, the tag list is kept, and `loading` is false on every exit path |
| IndexPage.WithChecked | src/pages/Index.tsx:158 | ticking keeps the list's length and every field except `checked`, which changes only on entries with that id |
| IndexPage.WithCheckedIdempotent | src/pages/Index.tsx:158 | ticking twice to the same value is ticking once |
| IndexPage.WithCheckedUndo | src/pages/Index.tsx:158 | setting the flag back restores the list |
| IndexPage.WithCheckedElsewhere | src/pages/Index.tsx:158 | a list with no entry of that id is unchanged |
| IndexPage.IngredientsToAdd | src/pages/Index.tsx:122 | one row per ingredient, each unchecked, with the user and recipe and no quantity or unit |
| IndexPage.IngredientsToAddNames | src/pages/Index.tsx:122 | the rows' names are the recipe's ingredients, in order |
| IndexPage.Present | src/pages/Index.tsx:70 | the kept recipes are exactly the joined recipes that are present |
| IndexPage.PresentAppend | src/pages/Index.tsx:70 | dropping missing recipes keeps the order of the rows |
| IndexPage.PresentAll | src/pages/Index.tsx:78 | when no recipe is missing, every one is kept, in order |
| IndexPage.Loaded | src/pages/Index.tsx:65-79 | a failed read keeps the list; a read with no data empties it; otherwise the list holds the present joined recipes |
| IndexPage.RecipesToSave | src/pages/Index.tsx:96-105 | one record per suggestion, each owned by the user |
| IndexPage.RecipesToSaveRoundTrip | src/pages/Index.tsx:96-105 | every field of every suggestion is copied: dropping the owner gives back the suggestions |
| SuggestRecipes.DropClosingFence | supabase/functions/suggest-recipes/index.ts:92 | removing a closing fence never lengthens the text |
| SuggestRecipes.UnfencedIsTrimmedOnly | supabase/functions/suggest-recipes/index.ts:90-95 | content that does not start with a fence is only trimmed |
| SuggestRecipes.DropClosingFenceTrimmed | supabase/functions/suggest-recipes/index.ts:92 | dropping a closing fence with the whitespace before it keeps text trimmed |
| SuggestRecipes.CleanContent | supabase/functions/suggest-recipes/index.ts:89-95 | the text handed to `JSON.parse`; UnfencedIsTrimmedOnly, CleanContentTrimmed, FencedJson, FencedBare and FencedRoundTrip state it |
| SuggestRecipes.CleanContentTrimmed | supabase/functions/suggest-recipes/index.ts:90-95 | the text handed to the JSON parser is always trimmed |
| SuggestRecipes.ClosingFenceDropped | supabase/functions/suggest-recipes/index.ts:92 | a closing fence on its own line is removed with its line break |
| SuggestRecipes.FencedJson | supabase/functions/suggest-recipes/index.ts:91-94 | a trimmed body inside a `json`-tagged fence comes out unchanged |
| SuggestRecipes.FencedBare | supabase/functions/suggest-recipes/index.ts:91-94 | a trimmed body inside a bare fence comes out unchanged |
| SuggestRecipes.FencedRoundTrip | supabase/functions/suggest-recipes/index.ts:91-94 | a trimmed body wrapped in a `json`-tagged or bare fence comes out as it went in, with no `json` tag left |
| SuggestRecipes.Truthy | supabase/functions/suggest-recipes/index.ts:98 | JavaScript truthiness behind `parsed.recipes || parsed`; FencedRecipes and RecipesFallback state both outcomes |
| SuggestRecipes.ExtractRecipes | supabase/functions/suggest-recipes/index.ts:80-102 | the result is "no content" exactly when the content is missing or empty, and a result is never `null` |
| SuggestRecipes.FencedRecipes | supabase/functions/suggest-recipes/index.ts:89-98 | an object whose `recipes` member is a list, fenced with `json`, gives that list, even an empty one |
| SuggestRecipes.BareFencedList | supabase/functions/suggest-recipes/index.ts:89-98 | a bare list in a bare fence gives the list itself |
| SuggestRecipes.RecipesFallback | supabase/functions/suggest-recipes/index.ts:96-98 | an unfenced object whose `recipes` member is missing or falsy gives the whole object |
| TextUtils.NormalizeText | src/lib/utils.ts:9 | every `œu` occurrence, in any case, is replaced: the output is longer than the input by exactly the number of occurrences |
| TextUtils.NoLigatureUnchanged | src/lib/utils.ts:9 | text without `œ` or `Œ` is unchanged |
| TextUtils.NoPairUnchanged | src/lib/utils.ts:9 | text with no `œu` in any case is unchanged, so a lone `œ` is kept |
| TextUtils.NormalizeTextHead | src/lib/utils.ts:9 | the output starts with `o` where a pair starts the input, and with the input's first character otherwise |
| TextUtils.ReplacementAddsNoPair | src/lib/utils.ts:9 | the replacement `oeu` starts no new pair |
| TextUtils.NormalizeTextAt | src/lib/utils.ts:9 | an `œu` in any case becomes `oeu` where it stands, and the text on either side is normalised on its own |
| TextUtils.NoPairLeft | src/lib/utils.ts:9 | no `œu`, in any case, remains in the output |
| TextUtils.NormalizeTextIdempotent | src/lib/utils.ts:8-10 | `normalizeText` is idempotent |
| Strings.Split | src/components/EditRecipeDialog.tsx:48 | `split` gives at least one piece, and no piece contains the separator |
| Strings.SplitJoin | src/components/EditRecipeDialog.tsx:31-48 | joining separator-free pieces and splitting again gives the pieces back |
| Strings.JoinSplit | supabase/functions/import-recipe/index.ts:10-44 | splitting and joining with the same separator gives the text back |
| Strings.Trim | src/components/ImportRecipeDialog.tsx:35 | JavaScript's `trim`; TrimIsTrimmed, TrimEmptyIffAllSpace and TrimOfTrimmed state it |
| Strings.TrimIsTrimmed | src/components/ImportRecipeDialog.tsx:35 | `trim` leaves no whitespace at either end |
| Strings.TrimEmptyIffAllSpace | src/components/EditRecipeDialog.tsx:39 | `trim` gives "" exactly for all-whitespace text |
| Strings.Join | supabase/functions/import-recipe/index.ts:44 | JavaScript's `join`; SplitJoin, JoinSplit and JoinAvoids state it |
| Strings.ReplaceFirst | src/components/ImportRecipeDialog.tsx:38 | `replace` with a string pattern; ReplaceLeadingPattern and IndexOfFirst state it |
| Strings.StartsWith | src/components/ImportRecipeDialog.tsx:37 | `startsWith`; ReplaceLeadingPattern and ImportRecipeDialog.TitleLineValue use it as the marker test |
| Strings.TrimStart | supabase/functions/suggest-recipes/index.ts:91 | the `\s*` after an opening fence; its result is never longer, and TrimStartDropsSpaces states that it drops exactly the leading whitespace |
| Strings.TrimEnd | supabase/functions/suggest-recipes/index.ts:91 | the `\s*` before a closing fence; its result is never longer, and TrimEndDropsSpaces states that it drops exactly the trailing whitespace |
| Strings.LowerChar | supabase/functions/import-recipe/index.ts:21 | `toLowerCase` on one character, for ASCII capitals and the Kelvin sign; ImportRecipe.LitreKey and ImportRecipe.KilogramKey state what it decides |
| Strings.Lower | supabase/functions/import-recipe/index.ts:21 | `toLowerCase` character by character; the length is kept |
| Strings.ReplaceLeadingPattern | src/components/ImportRecipeDialog.tsx:38 | replacing a marker the text starts with removes exactly that prefix |
| Strings.IndexOfFirst | src/components/ImportRecipeDialog.tsx:38 | a string pattern is replaced at its first occurrence |
| Seqs.Filter | src/components/ShareRecipeDialog.tsx:91 | `filter` keeps exactly the elements that pass, and never lengthens |
| Seqs.FilterAppend | src/components/RecipeTagSelector.tsx:86 | `filter` keeps order: it distributes over concatenation |
| Seqs.RemoveAll | src/components/RecipeTagSelector.tsx:78 | every occurrence of the value is removed, and every other value keeps its membership |
| Seqs.FilterNoDuplicates | src/components/ShareRecipeDialog.tsx:142 | filtering keeps a list free of duplicates |

## Left out

- Store, network and UI are not modelled. This covers Supabase reads and writes, authentication, `functions.invoke`, `fetch`, the HTTP handlers, prompts, page scraping, toasts, console logging and React rendering. Where an outcome matters, a request's success or failure is a parameter, and its effect is given as a value or a list of requests.
- Floating point and integer parsing are abstract. `parseFloat`, `String(number)` and `parseInt` are parameters, so the model states the scale factors but not JavaScript number printing or rounding.
- ImportRecipe.ConvertLineIdempotent, ImportRecipe.ConvertUnitsLineWise, ImportRecipe.ConvertUnitsIdempotent, ImportRecipe.ConvertedFields, ImportRecipe.ConvertLineAvoidsNewline and ImportRecipe.ConvertLineKeepsName hold only when `String(number)` never prints `|` or a line break. This is true of JavaScript, but it is stated as a precondition because printing is abstract.
- Dafny strings are sequences of code points, while JavaScript strings are sequences of UTF-16 code units. Every marker, separator and whitespace character the source uses lies in the Basic Multilingual Plane, so `trim`, `split`, `startsWith`, `replace` and the length-free operations agree on well-formed text; only lengths and indices of text outside that plane would differ, and the model uses neither.
- Strings.Lower models `toLowerCase` only on ASCII letters and the Kelvin sign. That is exact for comparisons with `l`, `dl`, `cl` and `kg`, and nothing else uses it.
- `JSON.parse` is an abstract partial function. SuggestRecipes.ExtractRecipes reads only an object's own `recipes` member, not inherited properties, and takes the reply content to be a string or missing.
- ImportRecipeDialog.ParseRecipeResponse keeps the locals of `parseRecipeResponse` as one record (`ParserState`). Its loop body is the function `Classify` (the branch the trimmed line takes, tested in the source's order) followed by the function `Step` (that branch's effect on the locals).
- EditRecipeDialog.SaveRecipe does not model the store error after a valid save (lines 65 and 70-72) or the `isSaving` flag.
- ShareRecipeDialog.ShareDialog.HandleShare does not model `loadFriendsAndShares` (lines 45-76), which loads the dialog's data and is not part of the share logic.
- RecipeTagSelector.TagSelector.HandleToggleTag does not model `loading` being true while the request is pending, because the model is sequential. Only the value on every exit is stated. The `onTagsChanged` callback is left out.
- IndexPage.RecipesToSave and IndexPage.IngredientsToAdd copy fields by construction, so IndexPage.RecipesToSaveRoundTrip and IndexPage.IngredientsToAddNames hold trivially. `Suggestion` holds exactly the seven fields that are copied, so the one real effect of the `map`, dropping any other field of the AI reply, is not expressed.
- IndexPage does not model the reloads that follow each write in the handlers (`loadTodoRecipes`, `loadIngredients`), or the exception when a suggestion reply has no `recipes` list.
