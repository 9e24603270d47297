/** `createRecipeValidation`: the express-validator chain the create route
    runs before the handler. Every rule is checked and every failure is
    listed, in the order the rules are declared. */
module RecipeValidator {
  import opened Js
  import opened Http

  /** `notEmpty()`: the field's string view is not "" (missing and null read as ""). */
  predicate NotEmpty(f: Field<string>) {
    StringOf(f) != ""
  }

  /** `isArray({ min: 1 })`. */
  predicate IsNonEmptyArray(f: Field<seq<string>>) {
    f.Present? && |f.value| >= 1
  }

  predicate IsInteger(x: real) {
    x == x.Floor as real
  }

  /** From 10^21 up, a JavaScript number prints in exponent form ("1e+21"),
      which is not the decimal integer `isInt` asks for. */
  const ExponentFormFrom: real := 1000000000000000000000.0

  /** `isInt({ min: 1 })`, which tests the number's printed form: a whole
      number of at least 1 that prints without an exponent. */
  predicate IsIntAtLeastOne(f: Field<real>) {
    f.Present? && IsInteger(f.value) && 1.0 <= f.value < ExponentFormFrom
  }

  const TitleRequired := FieldError("title", "Title is required")
  const DescriptionRequired := FieldError("description", "Description is required")
  const IngredientsNonEmpty := FieldError("ingredients", "Ingredients must be a non-empty array")
  const InstructionsNonEmpty := FieldError("instructions", "Instructions must be a non-empty array")
  const CategoryRequired := FieldError("category", "Category is required")
  const CookingTimeAtLeastOne := FieldError("cookingTime", "Cooking time must be at least 1 minute")
  const ServingsAtLeastOne := FieldError("servings", "Servings must be at least 1")

  /** The body passes every rule of the chain. */
  predicate Accepts(b: RecipeBody) {
    && NotEmpty(b.title) && NotEmpty(b.description)
    && IsNonEmptyArray(b.ingredients) && IsNonEmptyArray(b.instructions)
    && NotEmpty(b.category)
    && IsIntAtLeastOne(b.cookingTime) && IsIntAtLeastOne(b.servings)
  }

  /** The errors `validationResult(req)` holds after the chain has run: one
      entry per failing rule, in declaration order, and none exactly when the
      body is accepted. */
  function CreateRecipeErrors(b: RecipeBody): (errs: seq<FieldError>)
    ensures errs == [] <==> Accepts(b)
    ensures |errs| <= 7
  {
    RuleErrors(NotEmpty(b.title), TitleRequired)
    + RuleErrors(NotEmpty(b.description), DescriptionRequired)
    + RuleErrors(IsNonEmptyArray(b.ingredients), IngredientsNonEmpty)
    + RuleErrors(IsNonEmptyArray(b.instructions), InstructionsNonEmpty)
    + RuleErrors(NotEmpty(b.category), CategoryRequired)
    + RuleErrors(IsIntAtLeastOne(b.cookingTime), CookingTimeAtLeastOne)
    + RuleErrors(IsIntAtLeastOne(b.servings), ServingsAtLeastOne)
  }

  /** Each rule's error is listed exactly when that rule fails: the response
      names every failing field and no passing one. */
  lemma CreateRecipeErrorsNameFailures(b: RecipeBody)
    ensures var errs := CreateRecipeErrors(b);
      && (TitleRequired in errs <==> StringOf(b.title) == "")
      && (DescriptionRequired in errs <==> StringOf(b.description) == "")
      && (IngredientsNonEmpty in errs <==> !IsNonEmptyArray(b.ingredients))
      && (InstructionsNonEmpty in errs <==> !IsNonEmptyArray(b.instructions))
      && (CategoryRequired in errs <==> StringOf(b.category) == "")
      && (CookingTimeAtLeastOne in errs <==> !IsIntAtLeastOne(b.cookingTime))
      && (ServingsAtLeastOne in errs <==> !IsIntAtLeastOne(b.servings))
  {
    var t, d := RuleErrors(NotEmpty(b.title), TitleRequired), RuleErrors(NotEmpty(b.description), DescriptionRequired);
    var i := RuleErrors(IsNonEmptyArray(b.ingredients), IngredientsNonEmpty);
    var n := RuleErrors(IsNonEmptyArray(b.instructions), InstructionsNonEmpty);
    var c := RuleErrors(NotEmpty(b.category), CategoryRequired);
    var ct := RuleErrors(IsIntAtLeastOne(b.cookingTime), CookingTimeAtLeastOne);
    var sv := RuleErrors(IsIntAtLeastOne(b.servings), ServingsAtLeastOne);
    var errs := CreateRecipeErrors(b);
    assert errs == t + d + i + n + c + ct + sv;
    forall e | e in errs ensures e in t || e in d || e in i || e in n || e in c || e in ct || e in sv {
    }
  }

  /** One if `e` is the error `r`, zero otherwise. */
  function Hit(e: FieldError, r: FieldError): nat {
    if e == r then 1 else 0
  }

  /** A rule's list holds its own error at most once and no other error. */
  lemma RuleErrorsCount(ok: bool, r: FieldError, e: FieldError)
    ensures multiset(RuleErrors(ok, r))[e] <= Hit(e, r)
  {
    if !ok {
      assert multiset(RuleErrors(ok, r)) == multiset{r};
    }
  }

  /** The seven rules' errors are pairwise different: their fields differ. */
  lemma AtMostOneRule(e: FieldError)
    ensures Hit(e, TitleRequired) + Hit(e, DescriptionRequired) + Hit(e, IngredientsNonEmpty)
      + Hit(e, InstructionsNonEmpty) + Hit(e, CategoryRequired) + Hit(e, CookingTimeAtLeastOne)
      + Hit(e, ServingsAtLeastOne) <= 1
  {
    var f := e.field;
    if |f| == 11 {
      assert "description"[0] == 'd' && "ingredients"[0] == 'i' && "cookingTime"[0] == 'c';
    } else if |f| == 8 {
      assert "category"[0] == 'c' && "servings"[0] == 's';
    }
  }

  /** How often `e` occurs in the chain's errors: the sum over the rules. */
  function RuleCounts(b: RecipeBody, e: FieldError): nat {
    multiset(RuleErrors(NotEmpty(b.title), TitleRequired))[e]
    + multiset(RuleErrors(NotEmpty(b.description), DescriptionRequired))[e]
    + multiset(RuleErrors(IsNonEmptyArray(b.ingredients), IngredientsNonEmpty))[e]
    + multiset(RuleErrors(IsNonEmptyArray(b.instructions), InstructionsNonEmpty))[e]
    + multiset(RuleErrors(NotEmpty(b.category), CategoryRequired))[e]
    + multiset(RuleErrors(IsIntAtLeastOne(b.cookingTime), CookingTimeAtLeastOne))[e]
    + multiset(RuleErrors(IsIntAtLeastOne(b.servings), ServingsAtLeastOne))[e]
  }

  lemma CountsAddUp(b: RecipeBody, e: FieldError)
    ensures multiset(CreateRecipeErrors(b))[e] == RuleCounts(b, e)
  {
    var t, d := RuleErrors(NotEmpty(b.title), TitleRequired), RuleErrors(NotEmpty(b.description), DescriptionRequired);
    var i := RuleErrors(IsNonEmptyArray(b.ingredients), IngredientsNonEmpty);
    var n := RuleErrors(IsNonEmptyArray(b.instructions), InstructionsNonEmpty);
    var c := RuleErrors(NotEmpty(b.category), CategoryRequired);
    var ct := RuleErrors(IsIntAtLeastOne(b.cookingTime), CookingTimeAtLeastOne);
    var sv := RuleErrors(IsIntAtLeastOne(b.servings), ServingsAtLeastOne);
    var p1 := t + d;
    CountAppend(t, d, e);
    var p2 := p1 + i;
    CountAppend(p1, i, e);
    var p3 := p2 + n;
    CountAppend(p2, n, e);
    var p4 := p3 + c;
    CountAppend(p3, c, e);
    var p5 := p4 + ct;
    CountAppend(p4, ct, e);
    var p6 := p5 + sv;
    CountAppend(p5, sv, e);
    assert CreateRecipeErrors(b) == p6;
  }

  /** No error is listed twice: every rule reports at most once, and the
      rules' errors are all different. */
  lemma CreateRecipeErrorsOncePerRule(b: RecipeBody, e: FieldError)
    ensures multiset(CreateRecipeErrors(b))[e] <= 1
  {
    CountsAddUp(b, e);
    RuleErrorsCount(NotEmpty(b.title), TitleRequired, e);
    RuleErrorsCount(NotEmpty(b.description), DescriptionRequired, e);
    RuleErrorsCount(IsNonEmptyArray(b.ingredients), IngredientsNonEmpty, e);
    RuleErrorsCount(IsNonEmptyArray(b.instructions), InstructionsNonEmpty, e);
    RuleErrorsCount(NotEmpty(b.category), CategoryRequired, e);
    RuleErrorsCount(IsIntAtLeastOne(b.cookingTime), CookingTimeAtLeastOne, e);
    RuleErrorsCount(IsIntAtLeastOne(b.servings), ServingsAtLeastOne, e);
    AtMostOneRule(e);
  }

  lemma CountAppend(a: seq<FieldError>, b: seq<FieldError>, e: FieldError)
    ensures multiset(a + b)[e] == multiset(a)[e] + multiset(b)[e]
  {
  }

  /** The chain only asks for a non-empty category: any non-empty string,
      in the fixed set or not, satisfies the category rule. */
  lemma CategoryRuleIgnoresMembership(b: RecipeBody, category: string)
    requires category != ""
    ensures CategoryRequired !in CreateRecipeErrors(b.(category := Present(category)))
  {
    CreateRecipeErrorsNameFailures(b.(category := Present(category)));
  }

  /** A number such as 2.5 passes neither numeric rule, and 0 and 10^21 fail
      them too. */
  lemma NumericRulesNeedWholeNumbers(b: RecipeBody)
    requires b.cookingTime == Present(2.5) && b.servings in {Present(0.0), Present(ExponentFormFrom)}
    ensures CookingTimeAtLeastOne in CreateRecipeErrors(b) && ServingsAtLeastOne in CreateRecipeErrors(b)
  {
    assert (2.5).Floor == 2;
    CreateRecipeErrorsNameFailures(b);
  }
}
