/** The Recipe schema: the field constraints mongoose enforces before it
    writes a recipe, and its `toJSON` projection. */
module RecipeModel {
  import opened Js
  import opened ObjectIds

  const Categories: seq<string> := ["breakfast", "lunch", "dinner", "dessert", "snacks"]

  /** A stored recipe document. `createdAt` and `updatedAt` are ticks of the
      store's clock, `version` is mongoose's `__v` key. */
  datatype Recipe = Recipe(
    id: ObjectId,
    title: string,
    description: string,
    ingredients: seq<string>,
    instructions: seq<string>,
    category: string,
    cookingTime: real,
    servings: real,
    author: ObjectId,
    createdAt: nat,
    updatedAt: nat,
    version: nat)

  /** The paths of a document about to be validated, as cast by mongoose:
      `None` is a missing or null path. The title is the raw value; the
      schema's `trim` is applied here, in the validators and on storage. */
  datatype Draft = Draft(
    title: Option<string>,
    description: Option<string>,
    ingredients: Option<seq<string>>,
    instructions: Option<seq<string>>,
    category: Option<string>,
    cookingTime: Option<real>,
    servings: Option<real>,
    author: Option<ObjectId>)

  // Validity of each path, stated directly from the schema's options.

  /** The title's bounds apply to the trimmed text. */
  predicate ValidTitleText(t: string) {
    3 <= |Trim(t)| <= 100
  }

  predicate ValidTitle(t: Option<string>) {
    t.Some? && ValidTitleText(t.value)
  }

  /** Trimming keeps a valid title valid, and a trimmed title is its own cast. */
  lemma TrimmedTitle(t: string)
    requires ValidTitleText(t)
    ensures ValidTitleText(Trim(t)) && Trim(Trim(t)) == Trim(t)
  {
    TrimIdempotent(t);
  }

  predicate ValidDescription(d: Option<string>) {
    d.Some? && 10 <= |d.value| <= 500
  }

  predicate ValidSteps(a: Option<seq<string>>) {
    a.Some? && |a.value| >= 1
  }

  predicate ValidCategory(c: Option<string>) {
    c.Some? && c.value in Categories
  }

  predicate ValidAtLeastOne(n: Option<real>) {
    n.Some? && n.value >= 1.0
  }

  /** Every path of the draft satisfies its schema constraints. */
  predicate SchemaValid(d: Draft) {
    && ValidTitle(d.title)
    && ValidDescription(d.description)
    && ValidSteps(d.ingredients)
    && ValidSteps(d.instructions)
    && ValidCategory(d.category)
    && ValidAtLeastOne(d.cookingTime)
    && ValidAtLeastOne(d.servings)
    && d.author.Some?
  }

  // The messages of each path's validators. Mongoose reports at most one
  // error per path: the first of its validators that fails, `required` first.

  /** `required` for a String path: missing, null and "" all fail it. */
  predicate MissingString(s: Option<string>) {
    s.None? || s.value == ""
  }

  function TitleErrors(t: Option<string>): (errs: seq<string>)
    ensures |errs| == if ValidTitle(t) then 0 else 1
  {
    var trimmed := if t.Some? then Some(Trim(t.value)) else None;
    if MissingString(trimmed) then ["Recipe title is required"]
    else if |trimmed.value| < 3 then ["Title must be at least 3 characters"]
    else if |trimmed.value| > 100 then ["Title cannot exceed 100 characters"]
    else []
  }

  function DescriptionErrors(d: Option<string>): (errs: seq<string>)
    ensures |errs| == if ValidDescription(d) then 0 else 1
  {
    if MissingString(d) then ["Description is required"]
    else if |d.value| < 10 then ["Description must be at least 10 characters"]
    else if |d.value| > 500 then ["Description cannot exceed 500 characters"]
    else []
  }

  /** An array path: `required` only rejects null; the custom validator
      `arr && arr.length > 0` rejects the empty array. */
  function StepsErrors(a: Option<seq<string>>, required: string, nonEmpty: string): (errs: seq<string>)
    ensures errs == (if a.None? then [required] else if a.value == [] then [nonEmpty] else [])
    ensures errs == [] <==> ValidSteps(a)
  {
    if a.None? then [required] else if |a.value| == 0 then [nonEmpty] else []
  }

  function IngredientsErrors(a: Option<seq<string>>): (errs: seq<string>)
    ensures |errs| == if ValidSteps(a) then 0 else 1
  {
    StepsErrors(a, "At least one ingredient is required", "Recipe must have at least one ingredient")
  }

  function InstructionsErrors(a: Option<seq<string>>): (errs: seq<string>)
    ensures |errs| == if ValidSteps(a) then 0 else 1
  {
    StepsErrors(a, "At least one instruction step is required", "Recipe must have at least one instruction step")
  }

  function CategoryErrors(c: Option<string>): (errs: seq<string>)
    ensures |errs| == if ValidCategory(c) then 0 else 1
  {
    if MissingString(c) then ["Category is required"]
    else if c.value !in Categories then ["Category must be breakfast, lunch, dinner, dessert, or snacks"]
    else []
  }

  function AtLeastOneErrors(n: Option<real>, required: string, tooSmall: string): (errs: seq<string>)
    ensures errs == (if n.None? then [required] else if n.value < 1.0 then [tooSmall] else [])
    ensures errs == [] <==> ValidAtLeastOne(n)
  {
    if n.None? then [required] else if n.value < 1.0 then [tooSmall] else []
  }

  function CookingTimeErrors(n: Option<real>): (errs: seq<string>)
    ensures |errs| == if ValidAtLeastOne(n) then 0 else 1
  {
    AtLeastOneErrors(n, "Cooking time is required", "Cooking time must be at least 1 minute")
  }

  function ServingsErrors(n: Option<real>): (errs: seq<string>)
    ensures |errs| == if ValidAtLeastOne(n) then 0 else 1
  {
    AtLeastOneErrors(n, "Number of servings is required", "Servings must be at least 1")
  }

  function AuthorErrors(a: Option<ObjectId>): (errs: seq<string>)
    ensures |errs| == if a.Some? then 0 else 1
  {
    if a.None? then ["Path `author` is required."] else []
  }

  /** The number of paths of `d` that break their constraints. */
  function InvalidPathCount(d: Draft): nat {
    (if ValidTitle(d.title) then 0 else 1)
    + (if ValidDescription(d.description) then 0 else 1)
    + (if ValidSteps(d.ingredients) then 0 else 1)
    + (if ValidSteps(d.instructions) then 0 else 1)
    + (if ValidCategory(d.category) then 0 else 1)
    + (if ValidAtLeastOne(d.cookingTime) then 0 else 1)
    + (if ValidAtLeastOne(d.servings) then 0 else 1)
    + (if d.author.Some? then 0 else 1)
  }

  /** The messages of the ValidationError `Recipe.create` raises, path by path
      in schema order. A draft is accepted exactly when it is valid, and every
      invalid path contributes exactly one message: validation does not stop
      at the first. */
  function SchemaErrors(d: Draft): (errs: seq<string>)
    ensures errs == [] <==> SchemaValid(d)
    ensures |errs| == InvalidPathCount(d)
  {
    var t, de, i, n := TitleErrors(d.title), DescriptionErrors(d.description),
      IngredientsErrors(d.ingredients), InstructionsErrors(d.instructions);
    var c, ct, sv, au := CategoryErrors(d.category), CookingTimeErrors(d.cookingTime),
      ServingsErrors(d.servings), AuthorErrors(d.author);
    assert |t + de + i + n + c + ct + sv + au| == |t| + |de| + |i| + |n| + |c| + |ct| + |sv| + |au|;
    t + de + i + n + c + ct + sv + au
  }

  /** The draft a stored recipe corresponds to. */
  function DraftOf(r: Recipe): Draft {
    Draft(Some(r.title), Some(r.description), Some(r.ingredients), Some(r.instructions),
          Some(r.category), Some(r.cookingTime), Some(r.servings), Some(r.author))
  }

  /** Every path of the draft is present. */
  predicate Complete(d: Draft) {
    && d.title.Some? && d.description.Some? && d.ingredients.Some? && d.instructions.Some?
    && d.category.Some? && d.cookingTime.Some? && d.servings.Some? && d.author.Some?
  }

  /** The document `Recipe.create` stores for a draft: the title trimmed, a
      fresh version key, both timestamps at `now`. */
  function Build(d: Draft, id: ObjectId, now: nat): (r: Recipe)
    requires Complete(d)
    ensures r.id == id && r.createdAt == now && r.updatedAt == now && r.version == 0
    ensures DraftOf(r) == d.(title := Some(Trim(d.title.value)))
  {
    Recipe(id, Trim(d.title.value), d.description.value, d.ingredients.value, d.instructions.value,
           d.category.value, d.cookingTime.value, d.servings.value, d.author.value, now, now, 0)
  }

  /** What passes validation is stored valid. */
  lemma BuildStoredValid(d: Draft, id: ObjectId, now: nat)
    requires SchemaValid(d)
    ensures SchemaValid(DraftOf(Build(d, id, now)))
  {
    TrimmedTitle(d.title.value);
  }

  // Updates: `findByIdAndUpdate(id, update, { runValidators: true })`.

  /** The paths an update document sets; `None` is a path it leaves alone. */
  datatype Patch = Patch(
    title: Option<string>,
    description: Option<string>,
    ingredients: Option<seq<string>>,
    instructions: Option<seq<string>>,
    category: Option<string>,
    cookingTime: Option<real>,
    servings: Option<real>)

  const NoChange := Patch(None, None, None, None, None, None, None)

  function Pick<T>(p: Option<T>, current: T): T {
    if p.Some? then p.value else current
  }

  /** The title after an update: the new one trimmed, or the current one. */
  function PatchedTitle(t: Option<string>, current: string): string {
    if t.Some? then Trim(t.value) else current
  }

  lemma PatchedTitleIdempotent(t: Option<string>, current: string)
    ensures PatchedTitle(t, PatchedTitle(t, current)) == PatchedTitle(t, current)
  {
    if t.Some? {
      TrimIdempotent(t.value);
    }
  }

  /** The stored document after the update: each path the patch sets is
      replaced (the title through the schema's `trim`); the id, the author,
      the creation time and the version key are never touched. The caller
      stamps `updatedAt`. */
  function ApplyPatch(r: Recipe, p: Patch): (u: Recipe)
    ensures u.id == r.id && u.author == r.author && u.createdAt == r.createdAt
    ensures u.updatedAt == r.updatedAt && u.version == r.version
  {
    r.(title := PatchedTitle(p.title, r.title),
       description := Pick(p.description, r.description),
       ingredients := Pick(p.ingredients, r.ingredients),
       instructions := Pick(p.instructions, r.instructions),
       category := Pick(p.category, r.category),
       cookingTime := Pick(p.cookingTime, r.cookingTime),
       servings := Pick(p.servings, r.servings))
  }

  /** An update that sets nothing leaves the document as it is. */
  lemma NoChangeIsIdentity(r: Recipe)
    ensures ApplyPatch(r, NoChange) == r
  {
  }

  /** Applying the same update twice is applying it once, even though the
      title is trimmed again the second time. */
  lemma ApplyPatchIdempotent(r: Recipe, p: Patch)
    ensures ApplyPatch(ApplyPatch(r, p), p) == ApplyPatch(r, p)
  {
    PatchedTitleIdempotent(p.title, r.title);
  }

  /** A path's errors when the update sets it, none otherwise. */
  function When<T>(p: Option<T>, errs: seq<string>): seq<string> {
    if p.Some? then errs else []
  }

  /** Every path the update sets satisfies its schema constraints. */
  predicate SetPathsValid(p: Patch) {
    && (p.title.Some? ==> ValidTitle(p.title))
    && (p.description.Some? ==> ValidDescription(p.description))
    && (p.ingredients.Some? ==> ValidSteps(p.ingredients))
    && (p.instructions.Some? ==> ValidSteps(p.instructions))
    && (p.category.Some? ==> ValidCategory(p.category))
    && (p.cookingTime.Some? ==> ValidAtLeastOne(p.cookingTime))
    && (p.servings.Some? ==> ValidAtLeastOne(p.servings))
  }

  /** The errors of the update validators mongoose runs for
      `runValidators: true`: the validators of exactly the paths the update
      sets. The update fails exactly when one of them is invalid; the paths it
      leaves alone are not checked, even when `required`. */
  function UpdateErrors(p: Patch): (errs: seq<string>)
    ensures errs == [] <==> SetPathsValid(p)
  {
    var t, de := When(p.title, TitleErrors(p.title)), When(p.description, DescriptionErrors(p.description));
    var i, n := When(p.ingredients, IngredientsErrors(p.ingredients)), When(p.instructions, InstructionsErrors(p.instructions));
    var c, ct := When(p.category, CategoryErrors(p.category)), When(p.cookingTime, CookingTimeErrors(p.cookingTime));
    var sv := When(p.servings, ServingsErrors(p.servings));
    assert |t + de + i + n + c + ct + sv| == |t| + |de| + |i| + |n| + |c| + |ct| + |sv|;
    t + de + i + n + c + ct + sv
  }

  /** Trimming does not change whether a title is valid. */
  lemma TitleTextUnderTrim(t: string)
    ensures ValidTitleText(Trim(t)) <==> ValidTitleText(t)
  {
    TrimIdempotent(t);
  }

  /** Checking only the paths an update sets is enough: on a stored, valid
      recipe, the update validators pass exactly when the updated document is
      valid as a whole. */
  lemma UpdateErrorsExact(r: Recipe, p: Patch)
    requires SchemaValid(DraftOf(r))
    ensures UpdateErrors(p) == [] <==> SchemaValid(DraftOf(ApplyPatch(r, p)))
  {
    if p.title.Some? {
      TitleTextUnderTrim(p.title.value);
    }
  }

  // toJSON

  /** A JSON value inside a recipe document. */
  datatype Json = JString(s: string) | JNumber(n: real) | JStrings(items: seq<string>)

  const VersionKey := "__v"

  const RecipeKeys: set<string> := {"_id", "title", "description", "ingredients", "instructions",
    "category", "cookingTime", "servings", "author", "createdAt", "updatedAt"}

  /** `recipe.toObject()`: the stored document as a plain object. */
  function ToObject(r: Recipe): (o: map<string, Json>)
    ensures o.Keys == RecipeKeys + {VersionKey}
  {
    map["_id" := JString(r.id), "title" := JString(r.title), "description" := JString(r.description),
        "ingredients" := JStrings(r.ingredients), "instructions" := JStrings(r.instructions),
        "category" := JString(r.category), "cookingTime" := JNumber(r.cookingTime),
        "servings" := JNumber(r.servings), "author" := JString(r.author),
        "createdAt" := JNumber(r.createdAt as real), "updatedAt" := JNumber(r.updatedAt as real),
        VersionKey := JNumber(r.version as real)]
  }

  /** `recipeSchema.methods.toJSON`: the plain object with `__v` deleted and
      every other key kept with its value. */
  function ToJson(r: Recipe): (j: map<string, Json>)
    ensures j.Keys == ToObject(r).Keys - {VersionKey}
    ensures forall k :: k in j ==> j[k] == ToObject(r)[k]
  {
    ToObject(r) - {VersionKey}
  }

  /** Equal serialisations come from recipes that agree on every field but `__v`. */
  lemma SameJsonSameFields(r1: Recipe, r2: Recipe)
    requires ToJson(r1) == ToJson(r2)
    ensures r1.(version := 0) == r2.(version := 0)
  {
    var o1, o2 := ToObject(r1), ToObject(r2);
    assert o1["_id"] == o2["_id"] && o1["title"] == o2["title"];
    assert o1["description"] == o2["description"] && o1["ingredients"] == o2["ingredients"];
    assert o1["instructions"] == o2["instructions"] && o1["category"] == o2["category"];
    assert o1["cookingTime"] == o2["cookingTime"] && o1["servings"] == o2["servings"];
    assert o1["author"] == o2["author"] && o1["createdAt"] == o2["createdAt"];
    assert o1["updatedAt"] == o2["updatedAt"];
  }

  /** `toJSON` loses nothing but the version key: two recipes serialise alike
      exactly when they differ at most in `__v`. */
  lemma ToJsonForgetsOnlyVersion(r1: Recipe, r2: Recipe)
    ensures ToJson(r1) == ToJson(r2) <==> r1.(version := 0) == r2.(version := 0)
  {
    if ToJson(r1) == ToJson(r2) {
      SameJsonSameFields(r1, r2);
    }
    if r1.(version := 0) == r2.(version := 0) {
      assert ToObject(r1) - {VersionKey} == ToObject(r2) - {VersionKey};
    }
  }
}
