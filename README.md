# recipe-app rule layer, modelled in Dafny

This project models the rule layer of the recipe-sharing backend, an Express and
mongoose API. The model covers:

- the Recipe schema: its per-path validators and messages, and `toJSON`;
- the two express-validator chains: `createRecipeValidation` and `updateProfileValidation`;
- the recipe handlers: create, list with filters, get, update, delete, list own, and the
  separate `getRecipeById`;
- the profile handlers: `getProfile` and `updateProfile`;
- the error middleware: `errorHandler` and `notFound`.

It also records the defect at the end of the recipe controller, where
`module.exports = { getRecipeById }` throws away every handler the routes import.

The recipe and user collections are fields of two classes, `RecipeTable` and
`UserTable`. Each handler is a method. Most return either a sent response
(`Send`) or the error they pass to `next` (`Next`). `GetAllRecipes`,
`GetMyRecipes`, `GetRecipeById` and `UserTable.GetProfile` always answer
themselves, so they return a bare `Response`. The `Valid()` invariant of
`RecipeTable` is kept by every handler:

- every stored recipe passed the schema and sits under its own id;
- no two recipes share a creation tick.

The `Valid()` invariant of `UserTable` is that usernames and emails are unique.

Each file is one layer:

- `js.dfy`: the JavaScript semantics the handlers use, namely `undefined`/`null`/present
  fields, truthiness, `trim`, `charAt(0).toUpperCase()`, `join` and substring search.
- `object_ids.dfy`: ObjectIds and the cast of path parameters.
- `http.dfy`: error objects, the response envelope and request bodies.
- `recipe_model.dfy`, `error_middleware.dfy`, `recipe_validator.dfy`, `user_validator.dfy`,
  `recipe_controller.dfy`, `user_controller.dfy`: one file per source file.
- `recipe_routes.dfy`: how the validator chain and the schema combine on the two
  recipe write routes.

Modelling decisions:

- **Ids.** An ObjectId is 24 lower-case hexadecimal digits. A path parameter
  casts when it is 24 hexadecimal digits in either case, and is lower-cased.
  Anything else is a `CastError`, which the error middleware maps to 400.
- **Timestamps.** `createdAt` and `updatedAt` are ticks of a clock that each
  create and each update advances; a delete leaves it alone. As a result,
  `.sort({ createdAt: -1 })` is a strict order.
- **New ids.** The id mongoose generates for a new recipe is a parameter.
  An id already in use is the duplicate-key error on `_id`.
- **Create casting.** A missing array takes the schema default `[]`. That
  passes `required`, and the custom validator `arr && arr.length > 0` then
  rejects it. A null value fails `required`.
- **Validation messages.** Each path reports at most one message: the first of
  its validators that fails, with `required` first. Messages are listed in
  schema order.
- **Updates.** With `runValidators`, an update runs the validators of exactly
  the paths it sets. The title is trimmed on update as on create.
- **Whole numbers on create only.** The create chain demands a whole cooking
  time (validators/recipeValidator.js:19-20), but the update route runs no chain
  (routes/recipeRoutes.js:23) and the schema only asks for at least 1
  (models/Recipe.js:45-49). So an update stores a fractional cooking time that a
  create refuses. See `RecipeRoutes.FractionalTimeStoppedByChain` and
  `RecipeRoutes.FractionalTimeAcceptedOnUpdate`.
- **Truthiness.** Updates copy only truthy fields
  (controllers/recipeController.js:111-117), so `""` and `0` cannot clear or
  change a recipe field. `bio` is copied whenever it is sent
  (controllers/userController.js:27), so an empty or null `bio` does clear it.
- **Exports.** Because of the export defect, the recipe routes are not served as
  written (see "## Findings").

## Model

| member | source | states |
|---|---|---|
| `Js.Trim` | models/Recipe.js:7 | `trim` never lengthens a string, and what it leaves starts and ends with a non-whitespace character |
| `Js.Join` | middleware/errorMiddleware.js:9 | joining no messages gives "", and a joined list starts with its first message |
| `Js.ContainsIgnoringCase` | controllers/recipeController.js:45 | a title matches the case-insensitive `search` only when it is at least as long as the search text |
| `Js.ContainsIgnoringCaseIff` | controllers/recipeController.js:44-46 | a title matches `search` exactly when, at some index, each character of the search text equals the title's character up to case |
| `Js.TrimIsWhitespaceFreeSlice` | models/Recipe.js:7 | `trim` leaves a contiguous slice of its input, removes only whitespace, and leaves no whitespace at either end |
| `Js.TrimIdempotent` | models/Recipe.js:7 | trimming a trimmed title changes nothing |
| `Js.Capitalize` | middleware/errorMiddleware.js:18 | `charAt(0).toUpperCase() + slice(1)` keeps the length and the tail, and upper-cases a lower-case first letter |
| `Js.JoinContainsEvery` | middleware/errorMiddleware.js:6-9 | every element of a joined list occurs in the joined string |
| `Js.ContainsIffSlice` | controllers/recipeController.js:44-46 | the substring test used for `search` holds exactly when the text occurs at some index |
| `ObjectIds.Cast` | controllers/recipeController.js:67 | a path id casts exactly when it is 24 hexadecimal digits, and then to its lower-case form |
| `ObjectIds.CastCanonical` | controllers/recipeController.js:67 | an id taken from a response casts back to itself |
| `ObjectIds.CastIgnoresCase` | controllers/recipeController.js:67 | the cast does not depend on the case of the digits |
| `RecipeModel.TrimmedTitle` | models/Recipe.js:4-10 | a trimmed valid title is still valid and is its own trim |
| `RecipeModel.TitleTextUnderTrim` | models/Recipe.js:7-9 | the length bounds hold of a title exactly when they hold of its trim |
| `RecipeModel.TitleErrors` | models/Recipe.js:4-10 | the title path reports one message exactly when it is missing, empty or out of 3..100 after trimming, and none otherwise |
| `RecipeModel.DescriptionErrors` | models/Recipe.js:11-16 | one message exactly when the description is missing or outside 10..500 characters |
| `RecipeModel.StepsErrors` | models/Recipe.js:17-36 | a null array fails `required`, an empty array fails the custom validator, and only a non-empty array passes |
| `RecipeModel.IngredientsErrors` | models/Recipe.js:17-26 | one message exactly when the ingredient list is null or empty |
| `RecipeModel.InstructionsErrors` | models/Recipe.js:27-36 | one message exactly when the instruction list is null or empty |
| `RecipeModel.CategoryErrors` | models/Recipe.js:37-44 | one message exactly when the category is missing or outside the five values |
| `RecipeModel.AtLeastOneErrors` | models/Recipe.js:45-54 | a missing number fails `required`, one below 1 fails `min`, and the path is valid otherwise |
| `RecipeModel.CookingTimeErrors` | models/Recipe.js:45-49 | one message exactly when cooking time is missing or below 1 |
| `RecipeModel.ServingsErrors` | models/Recipe.js:50-54 | one message exactly when servings are missing or below 1 |
| `RecipeModel.AuthorErrors` | models/Recipe.js:55-59 | one message exactly when the author is missing |
| `RecipeModel.SchemaErrors` | models/Recipe.js:3-62 | a document is rejected exactly when it breaks a constraint, with one message per invalid path; validation does not stop at the first failure |
| `RecipeModel.Build` | controllers/recipeController.js:8-17 | the stored document keeps every path of the draft except the title, which is trimmed; it gets the new id, version 0, and both timestamps at `now` |
| `RecipeModel.BuildStoredValid` | controllers/recipeController.js:8-17 | the document stored for an accepted draft (trimmed title, both timestamps at `now`) is itself valid |
| `RecipeModel.ApplyPatch` | controllers/recipeController.js:119-123 | an update never touches the id, the author, the creation time or the version key |
| `RecipeModel.NoChangeIsIdentity` | controllers/recipeController.js:110-123 | an empty update document leaves the recipe as it is |
| `RecipeModel.ApplyPatchIdempotent` | controllers/recipeController.js:119-123 | applying the same update twice equals applying it once |
| `RecipeModel.UpdateErrors` | controllers/recipeController.js:119-123 | with `runValidators`, an update fails exactly when a path it sets is invalid; paths it does not set are not checked |
| `RecipeModel.UpdateErrorsExact` | controllers/recipeController.js:119-123 | on a valid stored recipe, the update validators pass exactly when the updated document is valid as a whole |
| `RecipeModel.ToObject` | models/Recipe.js:65-66 | the plain object has the eleven document keys and `__v` |
| `RecipeModel.ToJson` | models/Recipe.js:65-69 | `toJSON` removes `__v` and keeps every other key with its value |
| `RecipeModel.ToJsonForgetsOnlyVersion` | models/Recipe.js:65-69 | two recipes serialise alike exactly when they differ at most in `__v` |
| `ErrorMiddleware.ErrorHandler` | middleware/errorMiddleware.js:1-51 | first match wins: ValidationError and 11000 give 400, CastError 400, the token errors 401, anything else the error's non-zero status or 500, with its non-empty message or 'Internal Server Error'; the handler throws exactly on an 11000 with no key pattern; a sent body is a failure with a message and no data; a stack appears only in development |
| `ErrorMiddleware.FallbackStatus` | middleware/errorMiddleware.js:46 | the fallback status is never 0: the error's own non-zero status, or 500 |
| `ErrorMiddleware.FallbackMessage` | middleware/errorMiddleware.js:48 | the fallback message is never empty: the error's own non-empty message, or 'Internal Server Error' |
| `ErrorMiddleware.ValidationMessageListsEvery` | middleware/errorMiddleware.js:5-11 | every validation message appears in the 400 response |
| `ErrorMiddleware.DuplicateKeyNamesField` | middleware/errorMiddleware.js:14-20 | a duplicate-key error names its field with the first letter upper-cased, followed by " already exists" |
| `ErrorMiddleware.StatusIsClassified` | middleware/errorMiddleware.js:1-51 | every sent status is 400, 401, 500 or the error's own status |
| `ErrorMiddleware.NotFound` | middleware/errorMiddleware.js:54-59 | unmatched routes get a failed 404 whose message contains the URL |
| `Http.RuleErrors` | validators/recipeValidator.js:3-24 | a rule of a chain adds its own message exactly when it fails, and nothing else |
| `RecipeValidator.CreateRecipeErrors` | validators/recipeValidator.js:3-24 | the chain reports nothing exactly when every rule holds, and never more than seven entries |
| `RecipeValidator.CreateRecipeErrorsOncePerRule` | validators/recipeValidator.js:3-24 | no error is listed twice: each rule reports at most once, and the seven rules' errors differ |
| `RecipeValidator.CreateRecipeErrorsNameFailures` | validators/recipeValidator.js:4-23 | each rule's message is listed exactly when that rule fails: empty or missing text, a missing or empty array, a number that is not a whole number from 1 up to, but excluding, 10^21 |
| `RecipeValidator.CategoryRuleIgnoresMembership` | validators/recipeValidator.js:16-17 | any non-empty category passes the chain |
| `RecipeValidator.NumericRulesNeedWholeNumbers` | validators/recipeValidator.js:19-23 | 2.5, 0 and 10^21 fail `isInt({ min: 1 })` |
| `UserValidator.ProfileErrors` | validators/userValidator.js:3-14 | a missing field passes its rule; a present one (null reads as "") is listed exactly when it breaks it, lengths counted as `isLength` counts them; nothing listed exactly when all rules hold |
| `Js.IsLengthCount` | validators/userValidator.js:6 | `isLength`'s count of a string is never more than its number of code points |
| `Js.IsLengthCountWithoutSelectors` | validators/userValidator.js:6 | without presentation selectors, `isLength` counts every code point |
| `Js.IsLengthCountAppend` | validators/userValidator.js:14 | the `isLength` count of a concatenation is the sum of the parts' counts |
| `UserValidator.SelectorsDoNotCount` | validators/userValidator.js:4-14 | "ab" followed by U+FE0F is too short a username, and 200 letters followed by U+FE0F is a short enough bio |
| `UserValidator.EmptyBodyPasses` | validators/userValidator.js:3-14 | an empty body passes the chain, whatever the email check is |
| `UserValidator.EmptyBioPassesNullUsernameFails` | validators/userValidator.js:4-14 | an empty or null bio passes; a null username is present and fails the length rule |
| `RecipeController.CastScalar` | controllers/recipeController.js:8-15 | a String or Number path is absent when missing or null and otherwise holds the value sent |
| `RecipeController.CastArray` | controllers/recipeController.js:10-11 | an array path is absent only when null; a missing one becomes `[]`, a sent one is kept |
| `RecipeController.DraftFor` | controllers/recipeController.js:6-17 | the created document's author is the authenticated user |
| `RecipeController.DraftIgnoresBodyAuthor` | controllers/recipeController.js:6-17 | an `author` in the body has no effect on the created document |
| `RecipeController.CreatedRecipeBelongsToUser` | controllers/recipeController.js:8-17 | an accepted create stores a valid recipe owned by the user with both timestamps at the current tick |
| `RecipeController.PatchOf` | controllers/recipeController.js:110-117 | the update sets a field exactly when it is sent and truthy: "" and 0 are dropped, while any array, `[]` included, is kept |
| `RecipeController.RecipeUpdateRules` | controllers/recipeController.js:108-123 | per field, an update replaces the stored value by a truthy one (the title trimmed) and keeps it for a falsy, missing or null one, whatever the other fields are |
| `RecipeController.ZeroTimeBesideTitleKeepsTime` | controllers/recipeController.js:111-116 | a cooking time of 0 sent with a new title keeps the stored cooking time |
| `RecipeController.FalsyFieldsKeepStoredValues` | controllers/recipeController.js:108-117 | a body of only falsy or missing fields leaves the recipe unchanged |
| `RecipeController.EmptyIngredientsReachTheValidator` | controllers/recipeController.js:113-123 | an empty ingredient array is truthy, is copied, and is rejected by the schema's update validator |
| `RecipeController.PatchIgnoresBodyAuthor` | controllers/recipeController.js:108-117 | an update cannot change the author |
| `RecipeController.InsertKeepsValid` | controllers/recipeController.js:8-17 | storing a valid recipe under a fresh id at the current tick keeps the collection invariant |
| `RecipeController.ReplaceKeepsValid` | controllers/recipeController.js:119-123 | replacing a recipe by a valid one with the same id and creation time keeps the invariant |
| `RecipeController.UpdateDataOf` | controllers/recipeController.js:110-117 | the `updateData` built field by field holds exactly the truthy fields of the body |
| `RecipeController.RecipeTable.Select` | controllers/recipeController.js:48-50 | on a table where each recipe sits under its own id with its own past creation tick, the query returns every matching stored recipe and only those, newest first |
| `RecipeController.RecipeTable.GetAllRecipes` | controllers/recipeController.js:34-60 | 200 with `count` equal to the list length; a truthy category filters exactly, a truthy search filters by case-insensitive title substring, and with neither every recipe is listed |
| `RecipeController.RecipeTable.GetMyRecipes` | controllers/recipeController.js:171-185 | exactly the user's recipes, newest first, with their count |
| `RecipeController.RecipeTable.GetRecipe` | controllers/recipeController.js:65-83 | a malformed id goes to the error middleware as a CastError, an unknown one is a 404, a stored one is returned with 200 |
| `RecipeController.RecipeTable.GetRecipeById` | controllers/recipeController.js:187-198 | as `getRecipe`, but every failure inside its `try`, a malformed id included, is a 500 "Server error" |
| `RecipeController.RecipeTable.CreateRecipe` | controllers/recipeController.js:4-29 | a schema failure and a duplicate id store nothing; otherwise exactly one recipe, owned by the user, is added, the clock advances, and the 201 response carries it |
| `RecipeController.RecipeTable.UpdateRecipe` | controllers/recipeController.js:87-133 | checks in order: cast, 404, strict owner 403 (whatever the payload), update validators; only then is exactly this recipe replaced by its truthy-field update with a new `updatedAt` |
| `RecipeController.RecipeTable.DeleteRecipe` | controllers/recipeController.js:138-167 | cast, 404, strict owner 403, then exactly this recipe is removed and nothing else changes |
| `RecipeController.ReplaceDiscardsEarlier` | controllers/recipeController.js:200 | assigning `module.exports` discards every name exported before it |
| `RecipeController.ExportsLoseRoutedHandlers` | controllers/recipeController.js:200 | as written, the controller exports only `getRecipeById`, none of the six handlers the routes import |
| `RecipeController.IntendedExportsServeRoutes` | controllers/recipeController.js:200 | with the last line an addition, every routed handler is exported |
| `UserController.ProfilePatchOf` | controllers/userController.js:24-27 | username and email are set exactly when sent and non-empty; bio is set whenever it is sent, null as a clear |
| `UserController.ApplyProfile` | controllers/userController.js:29-33 | a profile update never changes the user's id |
| `UserController.ProfileUpdateRules` | controllers/userController.js:22-33 | a username or email is replaced only by a truthy value; any bio that is sent replaces the stored one, null and "" included |
| `UserController.EmptyBodyKeepsProfile` | controllers/userController.js:24-27 | an empty body changes nothing |
| `UserController.UpdateKeepsUnique` | controllers/userController.js:29-33 | an update that takes no other user's username or email keeps both unique |
| `UserController.UserTable.GetProfile` | controllers/userController.js:5-16 | 200 with the stored user, or null data when there is none |
| `UserController.UserTable.UpdateProfile` | controllers/userController.js:20-43 | schema errors first; an unknown user gives 200 with null data; a username, then an email, held by another user is a duplicate-key error; otherwise only this user changes, per the truthiness rules |
| `RecipeRoutes.SchemaValidWholeNumbersPass` | routes/recipeRoutes.js:22 | a body the schema accepts, with whole-number time and servings below 10^21, passes the create chain |
| `RecipeRoutes.UnknownCategoryReachesSchema` | validators/recipeValidator.js:16-17 | a "brunch" recipe passes the chain and is rejected only by the schema's enum |
| `RecipeRoutes.ShortTitleReachesSchema` | validators/recipeValidator.js:4-5 | a two-character title passes the chain and fails the schema's minimum length |
| `RecipeRoutes.FractionalTimeStoppedByChain` | validators/recipeValidator.js:19-20 | 1.5 minutes satisfies the schema but not the chain |
| `RecipeRoutes.FractionalTimeAcceptedOnUpdate` | routes/recipeRoutes.js:23 | the update route has no chain: 1.5 minutes passes the update validators and is stored |
| `RecipeRoutes.RejectedDraftReportsEveryPath` | middleware/errorMiddleware.js:5-11 | a schema-rejected create answers 400 with every failing path's message |

## Left out

- Server bootstrapping, routing plumbing, the front end, CORS and rate limits, and
  `console.error`: these are I/O and framework code. `res.json` and `res.status` are
  modelled only as the returned `Response`.
- The auth gate (`protect`), JWT issue and verify, password hashing and `authController` are
  not part of this model. The authenticated user is a parameter (`user`).
- The `validate` middleware, which turns a non-empty chain result into a response,
  is not part of this model. The chains are modelled by their error lists, and
  the lemmas assume the chain rejects whenever that list is non-empty.
- The User model is not part of this model. Its update validators are the function
  parameter `userErrors`, and only its unique indexes on `username` and `email` are
  modelled. When both conflict, the username is assumed to be reported.
  Passwords and the other user fields are left out.
- `isEmail` is the function parameter `isEmail`. Its grammar is not modelled.
- `populate('author', …)`: responses carry the author's id, not the expanded user.
- The schema's type casting of mistyped JSON values (a number sent as a string, say) is
  left out. Body fields have the JSON type the schema expects. JSON has no literal
  for `NaN`, so `NaN` cannot occur.
- `RecipeController.RecipeTable.UpdateRecipe`: a number literal too large for a
  double, such as `1e400`, parses to `Infinity`. On the update route, which has no
  validator chain, `Infinity` is truthy, passes `min: 1` and is stored, and the
  reply shows it as `null`. A `real` cannot hold it, so the model does not
  represent this case. On the create route `isInt` rejects it.
- Response data is the stored document before `toJSON`: the `Recipe` in a reply
  still carries `version`. `RecipeModel.ToJson` states what the projection keeps,
  but no handler's contract applies it to what it sends.
- Numbers are exact reals. Double-precision rounding is not modelled. The one
  place where the printed form of a double matters, `isInt` refusing numbers
  from 10^21 up because they print with an exponent, is modelled as the bound
  `RecipeValidator.ExponentFormFrom`.
- Query parameters are single strings. A repeated or bracketed parameter
  (`?category=lunch&category=dinner`), which the query parser turns into an
  array and mongoose into an `$in` filter, is not modelled.
- 12-byte ObjectId strings and other non-hexadecimal ids that mongoose can cast are
  left out.
- `None` in the stored state stands for both a missing and a null `bio`.
- `Js.ContainsIgnoringCase`: `search` is a regular expression in the source. The
  model matches it as a literal, case-insensitive substring with ASCII case folding;
  regular-expression metacharacters are not modelled.
- `Js.Capitalize`: upper-cases ASCII letters only, while `toUpperCase` covers all
  of Unicode.
- String lengths count Unicode code points. The schema's `minlength` and
  `maxlength` on the title and description count UTF-16 code units instead, which
  differ for characters outside the Basic Multilingual Plane.
- `UserValidator.ProfileErrors`: the profile chain's `isLength` is modelled as
  validator.js 13.7 and later count: code points, leaving out the presentation
  selectors U+FE0E and U+FE0F (`Js.IsLengthCount`). Earlier versions count them,
  and the repository pins no version.
- The order of a ValidationError's messages is assumed to be schema order. This is the
  insertion order of the paths in `err.errors`.
- `async` execution, concurrent requests and their races are left out (for example,
  a recipe deleted between `findById` and `findByIdAndUpdate`). Database failures
  other than those modelled are left out too.
- Statuses are not range-checked: `res.status` throws on a status outside
  100..999. That is not modelled.

## Findings

| source | as written | input that shows it | evidently intended | confidence | as-written member | corrected member |
|---|---|---|---|---|---|---|
| controllers/recipeController.js:200 | `module.exports = { getRecipeById }` replaces the exports object that the six `exports.x = …` assignments filled | `require('../controllers/recipeController')` in routes/recipeRoutes.js:4-11 yields `createRecipe`, `getAllRecipes`, `getRecipe`, `updateRecipe`, `deleteRecipe` and `getMyRecipes` as `undefined`, so registering the routes at routes/recipeRoutes.js:18-25 fails | `exports.getRecipeById = getRecipeById`, which adds to the exports | high (not executed) | `RecipeController.ExportsLoseRoutedHandlers` | `RecipeController.IntendedExportsServeRoutes` |
