# Recipe generator — a Dafny model of its ingredient store and request flow

The application keeps a list of ingredients the user has on hand, and on
request asks a generative-language provider for recipe suggestions in a
fixed JSON shape. This project models the two pieces of logic in it:

- the **ingredient store** of the page: adding a trimmed ingredient unless it
  is blank or already listed ignoring case, and removing an entry by
  position. The invariant is "every entry trimmed and non-empty, no two
  equal once lower-cased";
- the **generation request**: the page's start and settle steps over the
  state `(ingredients, newIngredient, recipes, isLoading, error)`, and the
  service `generateRecipes`. The service short-circuits on an empty list,
  builds the prompt from the joined ingredient list and sends it with the
  response schema. It then trims and parses the answer and returns its
  `recipes` member or `[]`. Every failure becomes one fixed message.

Everything is pure functions over immutable datatypes:

| file | module | models |
|---|---|---|
| `wrappers.dfy` | `Wrappers` | `Option` and `Result` |
| `text.dfy` | `Text` | `trim`, `toLowerCase` and `join`. `Split` is the inverse used to check `join` |
| `json.dfy` | `Json` | `JSON.parse` values, property reads such as `parsed.recipes`, truthiness |
| `recipes.dfy` | `Recipes` | the `Recipe` interface and its JSON encoding/decoding |
| `schema.dfy` | `Schema` | `recipeSchema`, `responseSchema`, and conformance of a JSON value to them |
| `gemini_service.dfy` | `GeminiService` | API-key initialisation, the prompt, `generateRecipes` |
| `app.dfy` | `App` | page state, the add/remove/key/generate handlers, enable and visibility predicates |
| `session.dfy` | `Session` | one Generate click composed with the service call, its result held to `Recipe[]` |

The provider and `JSON.parse` are parameters. A provider is a total function
from a `Request` (key, prompt, response schema) to response text or a
failure, and a parser maps text to `Some(json)` or `None`. The service
returns its list of provider calls, so "no call was made" is a statement
about that list.

`Text.Trim` removes the ECMAScript WhiteSpace and LineTerminator code
points. These are TAB through CR, SPACE, NO-BREAK SPACE, the Unicode space
separators, LINE and PARAGRAPH SEPARATOR, and U+FEFF.

Behaviours of the code a reader might not expect, which the model follows:

- A parsed response without `recipes`, or with a falsy `recipes`, is not a
  failure: the service returns `[]`. The same holds for a parsed value that
  is not an object. Only a parsed `null` fails, because reading a property of
  `null` throws inside the `try` (`GeminiService.RecipesOrEmpty`).
- The request state is three independent fields, `recipes`, `isLoading` and `error`, not one phase. A validation
  error leaves the recipes of an earlier request on screen next to the error
  banner (`App.ValidationErrorKeepsRecipes`).
- The validation message can only be produced by calling the handler
  directly. The Generate button is disabled when the list is empty, so a
  click on the enabled button always reaches the service
  (`App.EnabledGenerateCallsService`).
- The prompt asks for 3 recipes and the schema's description says 2–3. The
  schema puts no bound on the array length, and neither does the model.

## Model

| member | source | states |
|---|---|---|
| `Text.Trim` | src/App.tsx:17 | `trim()` never lengthens its input and leaves no whitespace at either end. `TrimSplit` and `TrimUnique` pin it down completely |
| `Text.TrimSplit` | src/App.tsx:17 | `trim` returns a contiguous slice of its input. Everything cut from either side is whitespace, and the result has no whitespace at either end |
| `Text.TrimUnique` | src/App.tsx:17 | conversely, a trimmed string with any whitespace padding on both sides trims back to exactly itself |
| `Text.TrimIdempotent` | src/App.tsx:17-18 | trimming an already-trimmed string changes nothing, so stored entries are fixed points of `trim` |
| `Text.TrimEmptyIffWhitespace` | src/App.tsx:17 | `input.trim()` is falsy exactly when the input is empty or all whitespace |
| `Text.LowerFixpoint` | src/App.tsx:17 | lower-casing leaves a string unchanged iff it has no upper-case letter, and lower-casing twice is lower-casing once |
| `Text.Lower` | src/App.tsx:17 | `toLowerCase()` keeps the length, turns every upper-case letter into its own lower-case letter (32 code points up), and keeps every other character |
| `Text.Join` | services/geminiService.ts:62 | `ingredients.join(', ')`: the elements in order with the separator between neighbours. `SplitJoin` states that it can be undone |
| `Text.SplitJoin` | services/geminiService.ts:62 | when no element contains the separator's first character, cutting `xs.join(sep)` at each `sep` gives back `xs`, in order |
| `Json.LookupLast` | services/geminiService.ts:77-78 | a member is found iff some member has the name, and the value found is the last member with that name, as `JSON.parse` keeps it |
| `Json.LookupAt` | services/geminiService.ts:77-78 | the member at a position is the one found when no later member has the same name |
| `Json.GetProperty` | services/geminiService.ts:78 | `parsed.recipes` throws exactly on `null`. It yields a value exactly for an object that has the member, and is `undefined` otherwise |
| `Json.Truthy` | services/geminiService.ts:78 | JavaScript truthiness of a parsed value: `null`, `false`, `0` and `""` are falsy, every array and object is truthy |
| `Json.OrElse` | services/geminiService.ts:78 | the logical-or fallback to `[]`: the result is the value read, when it is truthy, and the fallback otherwise; an `undefined` read always gives the fallback |
| `Recipes.DecodeEncodeStrings` | src/types.ts:6-9 | a `string[]` survives the trip to JSON and back |
| `Recipes.DecodeEncodeIngredientLists` | src/types.ts:5-8 | the `{used, additional}` record survives the trip to JSON and back |
| `Recipes.DecodeEncodeRecipe` | src/types.ts:2-12 | a `Recipe` survives the trip to JSON and back, every field intact |
| `Recipes.DecodeEncodeRecipes` | src/types.ts:2-12 | a `Recipe[]` survives the trip to JSON and back, same recipes, same order |
| `Recipes.EncodeRecipeFields` | src/types.ts:2-12 | an encoded recipe has exactly the six interface fields, in order, and its `ingredients` has exactly `used` and `additional` |
| `Schema.RequiredFieldsMatchRecipeType` | services/geminiService.ts:13-55 | the recipe schema declares and requires exactly the six `Recipe` fields. The `ingredients` schema declares and requires exactly `used` and `additional`. The response requires exactly `recipes` |
| `Schema.StringListConforms` | services/geminiService.ts:21-25 | a value matches the string-array schema iff it decodes as `string[]` |
| `Schema.IngredientsConforms` | services/geminiService.ts:18-33 | a value matches the `ingredients` schema iff it decodes as the `{used, additional}` record |
| `Schema.RecipeSchemaFields` | services/geminiService.ts:13-43 | matching the recipe schema means being an object with all six members present, each of its declared type |
| `Schema.RecipeConforms` | services/geminiService.ts:13-43 | the recipe schema accepts exactly the JSON values that are `Recipe`s |
| `Schema.EncodedRecipeConforms` | services/geminiService.ts:13-43 | every `Recipe` serialises to a value the recipe schema accepts |
| `Schema.ResponseConforms` | services/geminiService.ts:45-55 | a response matches the response schema iff it is an object whose `recipes` member is a `Recipe[]` |
| `Schema.EncodedResponseConforms` | services/geminiService.ts:45-55 | every recipe list wrapped as `{recipes: [...]}` matches the response schema |
| `GeminiService.InitClient` | services/geminiService.ts:5-11 | initialisation succeeds iff an API key is present and non-empty. The client then uses that key; otherwise it fails with the fixed missing-key message |
| `GeminiService.BuildPrompt` | services/geminiService.ts:62 | the prompt is exactly the fixed opening, then the joined ingredient list, then the fixed request for three recipes |
| `GeminiService.PromptRoundTrip` | services/geminiService.ts:62 | the prompt is the fixed prefix, the joined list and the fixed suffix. The whole list can be read back from it in its original order, provided no ingredient contains a comma |
| `GeminiService.PromptConflatesCommas` | services/geminiService.ts:62 | without that proviso the prompt is ambiguous: `["salt, pepper"]` and `["salt", "pepper"]` give the same prompt |
| `GeminiService.GenerateRecipes` | services/geminiService.ts:57-83 | an empty list returns `[]` with no provider call. Otherwise there is exactly one call, carrying the key, the prompt and the response schema. The result fails iff the provider fails, the trimmed text does not parse, or it parses to `null`, and a failure always carries the one fixed message |
| `GeminiService.HandleResponse` | services/geminiService.ts:76-82 | after the provider answers, the outcome fails iff the provider failed, the trimmed text does not parse, or it parses to `null`, always with the fixed message. A success is `[]` or the truthy `recipes` member of a parsed object |
| `GeminiService.ResponseWhitespaceIgnored` | services/geminiService.ts:76-77 | whitespace around the response text never changes the outcome |
| `GeminiService.FailureIndependentOfCause` | services/geminiService.ts:79-82 | provider failures with different causes give the same fixed error |
| `GeminiService.RecipesOrEmpty` | services/geminiService.ts:77-78 | after a successful non-null parse, a present truthy `recipes` is returned unchanged. Otherwise the result is `[]` |
| `GeminiService.ConformingResponse` | services/geminiService.ts:64-78 | when the parsed answer matches the response schema, the service returns its `recipes` array, and that array is a genuine `Recipe[]` |
| `GeminiService.EncodedResponseYieldsRecipes` | services/geminiService.ts:76-78 | an answer that encodes a recipe list yields exactly those recipes, in order |
| `GeminiService.NonRecipeValueEscapes` | services/geminiService.ts:57-78 | as written, an answer `{"recipes": "soup"}` makes the service succeed with a string, a value that is not a `Recipe[]` |
| `GeminiService.GenerateRecipeList` | services/geminiService.ts:57-83 | the service held to its declared type `Recipe[]`. An empty list gives `[]`, and every failure carries the fixed message. It succeeds iff the unchecked service succeeds with a value that decodes as `Recipe[]`, and then returns exactly that decoding |
| `GeminiService.NonRecipeValueFails` | services/geminiService.ts:57-83 | the answer that escapes the unchecked service is a failure, with the fixed message, of the checked one |
| `GeminiService.ConformingResponseGivesRecipes` | services/geminiService.ts:45-78 | checking the type never rejects a schema-conforming answer, extra members included: the result is the recipes of its `recipes` array |
| `GeminiService.EncodedResponseGivesRecipes` | services/geminiService.ts:76-78 | an answer encoding a recipe list makes the checked service return exactly that list |
| `App.HandleAddIngredient` | src/App.tsx:16-21 | blank input changes nothing, and neither does input whose trim equals a listed entry ignoring case. Otherwise `trim(input)` is appended after the unchanged earlier entries and the input is cleared. Recipes, loading flag and error are never touched |
| `App.HandleKeyPress` | src/App.tsx:23-27 | Enter behaves as the Add button, and any other key changes nothing |
| `App.FilterOutPosition` | src/App.tsx:30 | filtering out position `index` deletes exactly that position when it is in range, and is the identity otherwise |
| `App.HandleRemoveIngredient` | src/App.tsx:29-31 | removing an in-range index shortens the list by one. Entries before it stay in place and entries after it shift down by one. An out-of-range index changes nothing, and no other field changes |
| `App.InitialWellFormed` | src/App.tsx:10 | the initial three ingredients satisfy the list invariant |
| `App.AddPreservesWellFormed` | src/App.tsx:16-21 | Add preserves "all entries trimmed, non-empty and distinct ignoring case" |
| `App.RemovePreservesWellFormed` | src/App.tsx:29-31 | Remove preserves the same invariant |
| `App.AddTwiceIsAddOnce` | src/App.tsx:17-19 | a second Add straight after the first changes nothing |
| `App.RemoveUndoesAdd` | src/App.tsx:16-31 | removing the entry an accepted Add appended restores the previous list |
| `App.StartGenerate` | src/App.tsx:33-40 | on an empty list only the validation error is set. Recipes and loading flag are kept and no service call is made. Otherwise loading starts, error and recipes are cleared, and the service is called with the current list |
| `App.SettleGenerate` | src/App.tsx:42-49 | success installs the result and keeps the error. Failure installs the message, or the generic one when the message is empty, and keeps the recipes. Loading always ends, and ingredients edited meanwhile survive |
| `App.GenerateEnabled` | src/App.tsx:123 | the Generate button is enabled iff no request is loading and the list is non-empty |
| `App.IngredientListShown` | src/App.tsx:99 | the ingredient chips are shown iff the list is non-empty |
| `App.ErrorShown` | src/App.tsx:143 | the error banner is shown iff there is an error and its message is non-empty (truthy) |
| `App.RecipesShown` | src/App.tsx:150 | the recipe cards are shown iff there are recipes and no request is loading |
| `App.HintShown` | src/App.tsx:161 | the "Click Generate Recipes" hint is shown iff nothing is loading, there are no recipes, the list is non-empty and no error is shown |
| `App.VisibilityExclusive` | src/App.tsx:99-165 | cards and hint never show together, and the hint only shows below a non-empty ingredient list. While loading neither shows and the button is disabled |
| `App.EnabledGenerateCallsService` | src/App.tsx:121-124 | a click on the enabled button always calls the service with the list. The page is then loading, with the button disabled and nothing shown |
| `App.GenerateThenSettle` | src/App.tsx:33-50 | a full request ends with loading off and the button enabled. Success shows exactly the new recipes with no error, or the hint when there are none. Failure shows the error, no recipes and no hint |
| `App.ValidationErrorKeepsRecipes` | src/App.tsx:34-37 | on an empty list, recipes already shown stay shown next to the validation error |
| `App.ConsistentInitially` | src/App.tsx:10-14 | the initial state satisfies the list invariant, with no recipes or error while loading |
| `App.ControlsPreserveConsistent` | src/App.tsx:16-50 | Add, Remove, an enabled Generate click and Settle all preserve that invariant |
| `Session.Generate` | src/App.tsx:33-50 | one click composed with the checked service. An empty list only sets the validation error. Otherwise loading ends; a success shows exactly the service's recipes with no error, a failure the fixed message with no recipes. Ingredients and input are unchanged |
| `Session.EmptyListNeverCallsProvider` | src/App.tsx:34-37 | an empty list never reaches the service. Only the validation error changes |
| `Session.FailureShowsServiceMessage` | src/App.tsx:42-49 | after a failed generation the page's error is exactly the service's fixed message, with no recipes, no hint and loading off |
| `Session.ConformingAnswerShowsRecipes` | src/App.tsx:42-49 | an answer honouring the response schema, extra members included, ends with the recipes of its `recipes` array on the page and no error |
| `Session.NoRecipesMemberShowsHint` | src/App.tsx:42-49 | an answer parsing to an object without a truthy `recipes` is no failure: the page shows no recipes, no error, and the hint |
| `Session.SuccessShowsRecipes` | src/App.tsx:42-49 | when the provider answers with an encoded recipe list, possibly padded with whitespace, the page shows exactly those recipes with no error |
| `Session.InitialListTwoRecipes` | src/App.tsx:10-50 | starting from the initial three ingredients with a provider answering two recipes, the page goes through loading to exactly two shown recipes |

## Left out

- `src/components/RecipeCard.tsx`, `src/components/icons/ChefHatIcon.tsx` and the page's JSX and CSS: markup with no logic. Only the enable and visibility conditions of the page are modelled.
- The network call to the provider: replaced by the `Provider` function parameter. Model name, system instruction, `responseMimeType`, `temperature: 0.7` and the `description` strings of the schema properties are fixed configuration with no behaviour to check, so they are not part of `Request` or `Schema.Schema`.
- `JSON.parse` internals: replaced by the `Parser` parameter.
- A `response.text` that is undefined makes `.trim()` throw inside the `try`. It is treated as a provider failure, which has the same outcome, the fixed message.
- `console.error` logging: a side effect with no influence on results.
- Asynchrony and React state scheduling: a generation is two explicit steps, start and settle. Responses arriving after unmount, and interleavings beyond the disabled button, are not modelled.
- Typing in the input field and the example buttons only assign `newIngredient`. The handlers accept any value of that field, so these two assignments are not separate operations.
- `Text.Lower`: only upper-case letters of Basic Latin and Latin-1 are lowered. Full Unicode case mapping is not modelled.
- JSON numbers are an integer stand-in, because only whether a number is zero matters (truthiness). Floating point is not modelled.
- What the page does with a `recipes` value that is not a `Recipe[]` (see Findings): the page is composed with the checked service only, so such a render is not modelled.

## Findings

| source | as written | input that shows it | evidently intended | confidence | as-written member | corrected member |
|---|---|---|---|---|---|---|
| services/geminiService.ts:77-78 | `parsedJson.recipes`, with the logical-or fallback to `[]`, is returned unchecked as `Recipe[]`, so any truthy value gets through | a provider answer `{"recipes": "soup"}`: the service succeeds with a string, and the page's render then fails at `recipes.map` (src/App.tsx:154). An array element without `ingredients` would fail at `recipe.ingredients.used` (src/components/RecipeCard.tsx:35) | an answer whose `recipes` is not a `Recipe[]` is a failure, reported with the fixed message like any other unusable answer | medium, not executed | `GeminiService.NonRecipeValueEscapes` | `GeminiService.GenerateRecipeList` |
