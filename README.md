# Recipe validation and creation, modelled in Dafny

This project models the two pieces of logic in the recipe-sharing app
(fredhawk/owafood). Everything else in it is page markup.

- **The "Add recipe" form schema** (`formSchema` in `src/pages/new.tsx`). This zod object schema turns the raw
  form values into an accepted submission, or rejects them with one issue per failure of each field. It covers:
  - the minimum lengths of the text fields;
  - the ingredient pipeline `String(val).trim().split('\n').filter(...)`, followed by a per-line
    `trim().min(1)` and a non-empty list;
  - the number-or-string fields `preptime`, `calories` and `cooktime`.
- **The `create` mutation of the recipes router** (`src/server/api/routers/recipe.ts`). It has three parts:
  - its looser input schema;
  - the record it builds: the input spread, then `authorId`, `imageUrl` and `datepublished` overridden;
  - the single insert of a recipe together with its nested ingredient rows.

  The insert goes into an in-memory stand-in for the database: a class holding the recipe table, the
  ingredient table and the next ids to hand out.

Modules:

| file | module | what |
|---|---|---|
| `js_strings.dfy` | `JsStrings` | `trim`, `split` on one character and its inverse `join`, the decimal rendering of whole numbers |
| `js_values.dfy` | `JsValues` | JavaScript values (`undefined`, `null`, booleans, numbers, strings, arrays, plain objects) and `String(value)` |
| `schemas.dfy` | `Schemas` | zod outcomes (`Checked`, `Parsed`, `Issue`), `z.string()`, `z.number()`, `z.optional()` |
| `recipe_form.dfy` | `RecipeForm` | `formSchema` of the form, field by field, and the object schema over them |
| `recipe_store.dfy` | `RecipeStore` | the recipe and ingredient tables, their integrity invariant, the class `Store` and its `Insert` |
| `recipe_router.dfy` | `RecipeRouter` | the input schema of `create`, the record it builds, and `Create` |

How some things are represented:

- **Numbers.** A JavaScript number is `Int(i)`, `NonInteger(text)` (a fraction or an infinity, known by its
  `String()` text) or `NaN`.
- **`Number(string)`.** This is the float parse done by `z.coerce.number()`. It is a function parameter
  `toNumber`, so every result is proved for every parse. The lemmas about decimal text assume only that the parse
  reads decimal digits correctly.
- **Missing keys.** A key an object lacks reads as `Undefined`.
- **Issue paths.** An issue carries the field it is about. For the router's ingredient elements it also carries
  the element's index.

Edge cases of the code that the model keeps as written:

- **Whitespace-only ingredient lines.** The form's filter runs before the per-line trim, so it drops only
  empty lines. Empty lines are dropped wherever they are. A white-space-only line counts as blank only at the
  two ends of the text, where the text trim removes it. A line of spaces between two ingredients is kept,
  trimmed to `""`, and then fails `min(1)`, so the whole field is rejected (`RecipeForm.InnerBlankLineRejected`).
  White space at the ends of each kept line is removed by the per-line trim.
- **Missing ingredients field.** `String(undefined)` is `"undefined"`, so a form without the field is accepted
  with the single ingredient `"undefined"` (`RecipeForm.MissingIngredientsBecomeUndefined`).
- **Recipes without ingredients.** The router's input schema accepts `ingredients: []`, and `create` then
  stores a recipe with no ingredient rows (`RecipeRouter.NoIngredientsAccepted`).
- **Text lengths.** The router's input schema checks only that the text fields are strings. It sets no
  minimum length, unlike the form.
- **Field names.** The form's field is `mealtype` and its ingredients are a text block. The router's field is
  `meal` and its ingredients are `{ ingredient }` objects. No code converting one into the other is part of
  this model.

## Model

| member | source | states |
|---|---|---|
| JsStrings.Trim | src/pages/new.tsx:36 | `trim()` is empty exactly for a white-space-only string, and otherwise starts and ends with a non-white-space character; with `JsStrings.TrimStripsEnds` this fixes it uniquely |
| JsStrings.TrimUnchanged | src/pages/new.tsx:36 | a string with no white space at either end is its own trim |
| JsStrings.TrimIdempotent | src/pages/new.tsx:36 | trimming twice is trimming once, so the per-line trim after the text trim is stable |
| JsStrings.Split | src/pages/new.tsx:36 | `split('\n')` gives one more piece than there are separators, and no piece holds the separator |
| JsStrings.JoinSplit | src/pages/new.tsx:36 | joining the pieces of a split gives back the text |
| JsStrings.SplitJoin | src/pages/new.tsx:36 | splitting a join of separator-free pieces gives back the pieces |
| JsStrings.SplitPiece | src/pages/new.tsx:36 | a separator-free text is one piece |
| JsStrings.SplitPieceThenRest | src/pages/new.tsx:36 | a piece followed by the separator splits off as the first piece |
| JsStrings.FirstPieceNonEmpty | src/pages/new.tsx:36 | a text not starting with the separator has a non-empty first piece |
| JsStrings.LeadingWhitespace | src/pages/new.tsx:36 | the length of the white space a string starts with, and nothing more |
| JsStrings.TrailingStart | src/pages/new.tsx:36 | where the white space a string ends with begins |
| JsStrings.DecimalRoundTrip | src/pages/new.tsx:62-72 | the decimal text of a whole number is digits only and reads back as that number |
| JsStrings.TrimStripsEnds | src/pages/new.tsx:36 | a string is some white space, then its trim, then some white space: trim removes the two ends and nothing else |
| JsStrings.IsWhitespace | src/pages/new.tsx:36 | the fixed set of characters trim removes contains space, tab, `\n` and `\r`, and no digit or comma |
| JsStrings.NatToDecimal | src/pages/new.tsx:36 | `String(n)` of a whole number is decimal digits with no leading zero; `JsStrings.DecimalRoundTrip` proves it reads back as n |
| JsStrings.IntToString | src/pages/new.tsx:36 | `String(i)` is the decimal digits of i, after a minus sign when i is negative, and reads back as i |
| JsValues.NumberToString | src/pages/new.tsx:36 | `String(n)` of an integer reads back as that integer, and NaN renders as "NaN" |
| JsValues.ToJsString | src/pages/new.tsx:36 | `String(val)`: a string renders as itself, `undefined` as "undefined", an empty array as ""; other values are defined, not proved about, except arrays of strings below |
| JsValues.Texts | src/pages/new.tsx:36 | the texts of an array of strings, one per element, in order |
| JsValues.StringOfStringsSplits | src/pages/new.tsx:36 | `String()` of a non-empty array of comma-free strings splits on ',' back into those strings |
| Schemas.ReceivedType | src/server/api/routers/recipe.ts:16-30 | the received-type name zod reports is "string", "number", "array" or "object" exactly for a string, a non-NaN number, an array or an object |
| Schemas.TypeMessage | src/server/api/routers/recipe.ts:16-30 | zod's type message is "Required" exactly when the value is missing |
| RecipeForm.IngredientLines | src/pages/new.tsx:36 | the preprocessed lines are non-empty and hold no `\n`, and there are no more of them than the pieces of the trimmed text |
| RecipeForm.Denoted | src/pages/new.tsx:62-72 | the number the number-or-string fields stand for: a number as it is, a string as `Number` reads it, and none for other values (definition) |
| RecipeRouter.CheckInputFields | src/server/api/routers/recipe.ts:17-29 | every field passes its own schema exactly when the body is `WellTyped` |
| Schemas.IssuesAt | src/pages/new.tsx:20-76 | definition: a field's failure messages become issues about that field, one each and in order, and a pass gives none; `RecipeForm.ReportedOwn` proves they are about that field only |
| Schemas.ExpectString | src/server/api/routers/recipe.ts:17-19 | definition: `z.string()` accepts exactly strings, unchanged, and otherwise reports "Required" or the received type; `RecipeRouter.ParseInput` proves the whole input schema against `WellTyped` |
| Schemas.ExpectNumber | src/server/api/routers/recipe.ts:27 | definition: `z.number()` accepts exactly numbers other than NaN, unchanged; `RecipeRouter.ParseInput` carries the property |
| Schemas.Optional | src/server/api/routers/recipe.ts:24-26 | definition: `z.optional` accepts undefined as absent, and otherwise gives exactly the inner schema's verdict and messages; `RecipeForm.CheckOptionalNumber` and `RecipeRouter.ParseInput` carry the property |
| RecipeForm.CheckText | src/pages/new.tsx:21-35 | a text field passes exactly when it is a string of at least its minimum length, and is then unchanged |
| RecipeForm.NonEmpty | src/pages/new.tsx:36 | the filter keeps only non-empty pieces, each taken from the input, and never adds any |
| RecipeForm.NonEmptyMembers | src/pages/new.tsx:36 | a piece is kept exactly when it is present and non-empty |
| RecipeForm.NonEmptyAppend | src/pages/new.tsx:36 | the filter works piece by piece and keeps the order |
| RecipeForm.TrimEach | src/pages/new.tsx:36 | definition: the element trim replaces each line by its trim and keeps the count; `RecipeForm.AcceptedIngredientsAreClean` proves the result is clean |
| RecipeForm.BlankMessages | src/pages/new.tsx:36 | there is a `min(1)` message exactly when some trimmed line is empty |
| RecipeForm.CheckIngredients | src/pages/new.tsx:36 | the field passes exactly when at least one line is left and no line is white space only; the result is the trimmed lines in order; no lines gives "Recipe must contain at least 1 ingredient." |
| RecipeForm.AcceptedIngredientsAreClean | src/pages/new.tsx:36 | accepted ingredients are non-empty, have no white space at either end, and are no more than the pieces of the trimmed text |
| RecipeForm.TrimmedLinesAreClean | src/pages/new.tsx:36 | lines none of which is white space only trim to non-empty lines with no white space at either end |
| RecipeForm.BlankIngredientTextRejected | src/pages/new.tsx:36 | the text gives no lines exactly when it is white space only, and is then rejected with the ingredient message |
| RecipeForm.InnerBlankLineRejected | src/pages/new.tsx:36 | a white-space-only piece inside the text makes the field fail rather than being dropped |
| RecipeForm.LinesFromPieces | src/pages/new.tsx:36 | when the trimmed text joins some pieces, the lines are the non-empty pieces |
| RecipeForm.TrimmedLinesAccepted | src/pages/new.tsx:36 | lines that are already trimmed are accepted as they are |
| RecipeForm.InnerBlankLineExample | src/pages/new.tsx:36 | `"a\n  \nb"` is rejected |
| RecipeForm.PastaIngredients | src/pages/new.tsx:36 | `"Pasta\nSalt\n\nOlive oil"` is accepted as `["Pasta", "Salt", "Olive oil"]` |
| RecipeForm.PastaPieces | src/pages/new.tsx:36 | that text is its own trim and the join of its four pieces |
| RecipeForm.PastaKept | src/pages/new.tsx:36 | the filter drops its one empty piece |
| RecipeForm.MissingIngredientsBecomeUndefined | src/pages/new.tsx:36 | a missing ingredients value is accepted as `["undefined"]` |
| RecipeForm.InitialIngredientsRejected | src/pages/new.tsx:36 | the initial value `[]` renders as `""` and is rejected with the ingredient message |
| RecipeForm.CheckWhole | src/pages/new.tsx:39-40 | `nonnegative().int()` passes exactly for whole numbers of at least 0; on failure the "positive" message appears exactly for a negative number and the "whole" message exactly for a non-integer |
| RecipeForm.CheckNumberOrString | src/pages/new.tsx:62-72 | the field passes exactly when its value, as a number or as a string read by `Number`, is a whole number of at least 0, which is then the output |
| RecipeForm.NegativeOrFractionRejected | src/pages/new.tsx:62-72 | a negative number or a fraction is rejected with the matching messages, given as a number or as text |
| RecipeForm.DecimalTextAgreesWithNumber | src/pages/new.tsx:62-72 | a whole number typed as its decimal text gives the same outcome as the number, and is accepted |
| RecipeForm.DecimalTextAccepted | src/pages/new.tsx:62-72 | any decimal text is accepted as the number it denotes, the same as that number |
| RecipeForm.CheckOptionalNumber | src/pages/new.tsx:37-47 | preptime and calories are accepted when absent, and otherwise obey the cooktime rule |
| RecipeForm.CheckFatContent | src/pages/new.tsx:48-50 | fatcontent passes exactly when absent or a non-empty string |
| RecipeForm.EmptyFatContentRejected | src/pages/new.tsx:48-50 | the empty string is not absent: it fails with the fatcontent message |
| RecipeForm.CheckFields | src/pages/new.tsx:20-76 | every field's check gives a message whenever it fails |
| RecipeForm.Combine | src/pages/new.tsx:20 | definition: a rejection lists the issues of all fields in the schema's order; `RecipeForm.CombineAcceptedIff` and `RecipeForm.CombineReportsFailures` carry the properties |
| RecipeForm.ValidateForm | src/pages/new.tsx:20-76 | an accepted form keeps its text fields unchanged, has the trimmed lines as ingredients, numbers as read at least 0, and absent optional fields exactly when they were absent; a rejection lists every field's issues in order |
| RecipeForm.NoIssuesIffPass | src/pages/new.tsx:20-76 | a field contributes issues exactly when its check fails |
| RecipeForm.CombineAcceptedIff | src/pages/new.tsx:20 | the object schema accepts exactly when no field contributes an issue |
| RecipeForm.ReportedAppend | src/pages/new.tsx:20 | an issue of concatenated issue lists is an issue of one of them |
| RecipeForm.ReportedOwn | src/pages/new.tsx:20 | a field's issues are all about that field |
| RecipeForm.ReportedFor | src/pages/new.tsx:20 | the issues of a list of fields are about exactly the listed fields that fail |
| RecipeForm.CombineReportsFailures | src/pages/new.tsx:20 | a rejection reports exactly the failing fields |
| RecipeForm.FailingFieldReported | src/pages/new.tsx:20 | one failing field is enough to reject, and it is reported |
| RecipeForm.FormAcceptedIff | src/pages/new.tsx:20-76 | the form is accepted exactly when every field is |
| RecipeForm.RejectedFieldsReported | src/pages/new.tsx:20-76 | a rejected form reports a field exactly when that field fails on its own |
| RecipeForm.UntouchedIngredientsBlockSubmit | src/pages/new.tsx:90 | with the initial ingredients `[]` the form is rejected and ingredients reported |
| RecipeForm.EmptyFatContentBlocksSubmit | src/pages/new.tsx:92 | with the initial fatcontent `""` the form is rejected and fatcontent reported |
| RecipeStore.IngredientRows | src/server/api/routers/recipe.ts:36-38 | definition: one row per ingredient, with the same text, the same order, consecutive fresh ids, all pointing at the new recipe; `RecipeStore.TextsOfRows` proves the rows hold exactly those texts for that recipe |
| RecipeStore.InsertKeepsInvariant | src/server/api/routers/recipe.ts:33-43 | adding a recipe and its rows under fresh ids keeps ids unique and every row pointing at a stored recipe |
| RecipeStore.TextsOfAppend | src/server/api/routers/recipe.ts:36-38 | a recipe's ingredients in two tables are those of each table, in order |
| RecipeStore.TextsOfNone | src/server/api/routers/recipe.ts:36-38 | a table with no row for a recipe holds no ingredient for it |
| RecipeStore.TextsOfRows | src/server/api/routers/recipe.ts:36-38 | the nested create's rows hold exactly the given texts for the new recipe and none for any other |
| RecipeStore.InsertedIngredients | src/server/api/routers/recipe.ts:33-43 | after the insert, the new recipe's ingredients are exactly the submitted ones and other recipes keep theirs |
| RecipeStore.Store.constructor | src/server/api/routers/recipe.ts:33 | the tables start empty and consistent |
| RecipeStore.Store.Insert | src/server/api/routers/recipe.ts:33-43 | appends exactly one recipe under a fresh id and its rows and changes nothing else; the new recipe's ingredients are the given texts, other recipes keep theirs, the tables stay consistent |
| RecipeRouter.ElementIssues | src/server/api/routers/recipe.ts:20-22 | definition: an element passes exactly when it is an object with a string ingredient, and otherwise reports where it fails; `RecipeRouter.ParseIngredients` carries the property |
| RecipeRouter.ElementsIssues | src/server/api/routers/recipe.ts:20-22 | the elements report nothing exactly when all of them pass |
| RecipeRouter.ParseIngredients | src/server/api/routers/recipe.ts:20-22 | the field passes exactly for an array of ingredient objects, possibly empty, and gives their texts in order |
| RecipeRouter.CombineInput | src/server/api/routers/recipe.ts:16-30 | definition: the input is accepted exactly when every field passes, and otherwise every field's issues are listed; `RecipeRouter.ParseInput` proves acceptance equals `WellTyped` |
| RecipeRouter.ParseInput | src/server/api/routers/recipe.ts:16-30 | the body is accepted exactly when it is an object of the declared shape, with its own values handed on; a non-object is rejected as a whole |
| RecipeRouter.RejectionExplained | src/server/api/routers/recipe.ts:16-30 | a rejected body always has an issue |
| RecipeRouter.UnknownKeyIgnored | src/server/api/routers/recipe.ts:16 | a key the schema does not list does not change the outcome |
| RecipeRouter.NoIngredientsAccepted | src/server/api/routers/recipe.ts:20-22 | `ingredients: []` is accepted as no ingredients |
| RecipeRouter.RecordData | src/server/api/routers/recipe.ts:34-42 | definition: the record has the signed-in user as author, the placeholder image, an empty publication date and all other fields from the input; `RecipeRouter.AuthorIsSignedInUser` proves a client cannot change the author |
| RecipeRouter.AuthorIsSignedInUser | src/server/api/routers/recipe.ts:35-39 | whatever `authorId` the client sends, the record is the same and names the signed-in user |
| RecipeRouter.Create | src/server/api/routers/recipe.ts:15-46 | a rejected body reports its issues and leaves the store unchanged; an accepted one stores exactly one new recipe built from it plus its ingredient rows, returns it, and keeps the store consistent |

## Left out

- The page markup, the form wiring and `onSubmit` in `src/pages/new.tsx` (lines 78-278) only render and log.
- The read and delete operations of the router do not appear in its source and are not modelled.
- `protectedProcedure`, `createTRPCRouter` and the identity provider are not part of this model. The
  signed-in user's id is a parameter, and the unauthenticated path is not modelled.
- The database is replaced by the in-memory `Store`. Ids are consecutive whole numbers (the real id columns'
  types are not part of this model). Connection failures, constraint errors, transactions, async behaviour
  and `console.log` are not modelled.
- `Number(string)`, used by `z.coerce.number()`, is a float parse. It is the parameter `toNumber`, not a
  definition; for example `""` reads as 0 in JavaScript, which the model leaves to `toNumber`.
- Doubles are not modelled bit for bit. `String(n)` of an integer is its decimal text, and the exponent
  notation JavaScript uses from 1e21 on is not modelled.
- The router's number fields are stored as they are given. Whether the database column accepts a fraction is
  not modelled.
- String lengths count characters, whereas zod's `min` counts UTF-16 code units.
- `trim()` removes a fixed set of white-space characters: the ASCII ones, NBSP, U+2028, U+2029 and
  U+FEFF. The other Unicode space separators are not modelled.
- RecipeForm.CheckNumberOrString: the `invalid_type_error` texts of the number branch are never shown
  by zod inside `or(...)`, so they are not modelled. The invalid-union issue carries only "Invalid input"; the
  per-branch errors zod nests inside it are not modelled.
- RecipeForm.ValidateForm: issues carry the field, not the element index within the ingredient list.
- RecipeForm.ValidateForm: every field's schema runs and reports its issues even when earlier fields have
  failed. Zod releases in which `z.preprocess` stops early once earlier fields have issues would leave out the
  ingredient issues, which `RecipeForm.RejectedFieldsReported` and
  `RecipeForm.UntouchedIngredientsBlockSubmit` state are reported. The zod version is not part of this model.
- The mapping of issues to on-screen messages by the form resolver is not modelled.
- `datepublished` is stored as `""`, as the code does. What it is meant to hold is not modelled.
