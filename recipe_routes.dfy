/** The recipe routes: `POST /` runs `createRecipeValidation` before
    `createRecipe`, so a body reaches the schema only if the chain accepts it;
    `PUT /:id` runs no chain, so an update meets only the schema's update
    validators. The layers check different things; these lemmas say where. */
module RecipeRoutes {
  import opened Js
  import opened ObjectIds
  import opened Http
  import opened RecipeModel
  import opened RecipeValidator
  import opened RecipeController
  import opened ErrorMiddleware

  /** Everything the schema accepts with whole-number times and servings
      below 10^21 also passes the chain: on those bodies the chain rejects
      nothing the schema would store. */
  lemma SchemaValidWholeNumbersPass(b: RecipeBody, user: ObjectId)
    requires SchemaValid(DraftFor(b, user))
    requires b.cookingTime.Present? && IsInteger(b.cookingTime.value) && b.cookingTime.value < ExponentFormFrom
    requires b.servings.Present? && IsInteger(b.servings.value) && b.servings.value < ExponentFormFrom
    ensures CreateRecipeErrors(b) == []
  {
    var d := DraftFor(b, user);
    assert d.title == CastScalar(b.title) && d.description == CastScalar(b.description);
    ValidTitleNotEmpty(d.title.value);
    assert NotEmpty(b.title) && NotEmpty(b.description);
    assert d.ingredients == CastArray(b.ingredients) && d.instructions == CastArray(b.instructions);
    assert IsNonEmptyArray(b.ingredients) && IsNonEmptyArray(b.instructions);
    assert d.category == CastScalar(b.category);
    assert NotEmpty(b.category);
    assert IsIntAtLeastOne(b.cookingTime) && IsIntAtLeastOne(b.servings);
    assert Accepts(b);
  }

  /** A title that is valid after trimming is not empty before it. */
  lemma ValidTitleNotEmpty(t: string)
    requires ValidTitleText(t)
    ensures t != ""
  {
    TrimStartFacts(t);
    TrimEndFacts(TrimStart(t));
  }

  /** The chain only asks for a non-empty category; "brunch" passes it and is
      left for the schema's enum to reject. */
  lemma UnknownCategoryReachesSchema(user: ObjectId)
    ensures var b := RecipeBody(Present("Pancakes"), Present("Fluffy pancakes for a late start"),
                                Present(["flour", "milk"]), Present(["mix", "fry"]), Present("brunch"),
                                Present(15.0), Present(2.0), Undefined);
      && CreateRecipeErrors(b) == []
      && SchemaErrors(DraftFor(b, user)) == ["Category must be breakfast, lunch, dinner, dessert, or snacks"]
  {
    var b := RecipeBody(Present("Pancakes"), Present("Fluffy pancakes for a late start"),
                        Present(["flour", "milk"]), Present(["mix", "fry"]), Present("brunch"),
                        Present(15.0), Present(2.0), Undefined);
    assert (15.0).Floor == 15 && (2.0).Floor == 2;
    assert Trim("Pancakes") == "Pancakes";
  }

  /** A title of two characters passes `notEmpty()` and fails the schema's
      minimum length. */
  lemma ShortTitleReachesSchema(b: RecipeBody, user: ObjectId)
    requires b.title == Present("ab")
    ensures TitleRequired !in CreateRecipeErrors(b)
    ensures TitleErrors(DraftFor(b, user).title) == ["Title must be at least 3 characters"]
  {
    CreateRecipeErrorsNameFailures(b);
    assert Trim("ab") == "ab";
  }

  /** A fractional cooking time satisfies the schema's `min: 1` but not the
      chain's `isInt`. */
  lemma FractionalTimeStoppedByChain(b: RecipeBody)
    requires b.cookingTime == Present(1.5)
    ensures CookingTimeAtLeastOne in CreateRecipeErrors(b)
    ensures CookingTimeErrors(CastScalar(b.cookingTime)) == []
  {
    assert (1.5).Floor == 1;
    CreateRecipeErrorsNameFailures(b);
  }

  /** When the schema rejects a draft, the error middleware answers 400 and
      its message carries the message of every failing path. */
  lemma RejectedDraftReportsEveryPath<D>(b: RecipeBody, user: ObjectId, nodeEnv: string, k: nat)
    requires k < |SchemaErrors(DraftFor(b, user))|
    ensures var h := ErrorHandler<D>(ValidationError(SchemaErrors(DraftFor(b, user))), nodeEnv);
      && h.Sent? && h.response.status == 400 && !h.response.body.success
      && Contains(h.response.body.message.value, SchemaErrors(DraftFor(b, user))[k])
  {
    ValidationMessageListsEvery<D>(ValidationError(SchemaErrors(DraftFor(b, user))), nodeEnv, k);
  }

  /** No chain guards an update: a fractional cooking time, which the create
      route turns away, is stored by an update. */
  lemma FractionalTimeAcceptedOnUpdate(r: Recipe, b: RecipeBody)
    requires SchemaValid(DraftOf(r))
    requires b == RecipeBody(Undefined, Undefined, Undefined, Undefined, Undefined, Present(1.5), Undefined, Undefined)
    ensures UpdateErrors(PatchOf(b)) == []
    ensures ApplyPatch(r, PatchOf(b)).cookingTime == 1.5
    ensures CookingTimeAtLeastOne in CreateRecipeErrors(b)
  {
    assert (1.5).Floor == 1;
    CreateRecipeErrorsNameFailures(b);
  }
}
