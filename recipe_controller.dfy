/** The recipe handlers, over a recipe collection held in memory: a map from
    id to stored document, and a clock whose ticks stand for the creation and
    update timestamps mongoose writes. */
module RecipeController {
  import opened Js
  import opened ObjectIds
  import opened Http
  import opened RecipeModel

  /** What a recipe response carries under `data`: one document or a list. */
  datatype RecipeData = One(recipe: Recipe) | Many(recipes: seq<Recipe>)

  // From request bodies to what mongoose sees.

  /** A String or Number path as cast on create: missing and null are both
      absent, a present value is kept as sent. */
  function CastScalar<T>(f: Field<T>): (o: Option<T>)
    ensures o.Some? <==> f.Present?
    ensures o.Some? ==> o.value == f.value
  {
    if f.Present? then Some(f.value) else None
  }

  /** An array path as cast on create: a missing array takes the schema
      default `[]`, a null one stays null. */
  function CastArray(f: Field<seq<string>>): (o: Option<seq<string>>)
    ensures o.None? <==> f.Null?
    ensures f.Undefined? ==> o == Some([])
    ensures f.Present? ==> o == Some(f.value)
  {
    match f
    case Undefined => Some([])
    case Null => None
    case Present(xs) => Some(xs)
  }

  /** The document `createRecipe` passes to `Recipe.create`: the seven
      destructured fields, and `author` from the authenticated user. */
  function DraftFor(b: RecipeBody, user: ObjectId): (d: Draft)
    ensures d.author == Some(user)
  {
    Draft(CastScalar(b.title), CastScalar(b.description), CastArray(b.ingredients),
          CastArray(b.instructions), CastScalar(b.category), CastScalar(b.cookingTime),
          CastScalar(b.servings), Some(user))
  }

  /** A client cannot choose the author of a recipe it creates. */
  lemma DraftIgnoresBodyAuthor(b: RecipeBody, user: ObjectId, claimed: Field<string>)
    ensures DraftFor(b.(author := claimed), user) == DraftFor(b, user)
  {
  }

  /** A draft the schema accepts leaves a stored recipe owned by the user. */
  lemma CreatedRecipeBelongsToUser(b: RecipeBody, user: ObjectId, id: ObjectId, now: nat)
    requires SchemaErrors(DraftFor(b, user)) == []
    ensures var r := Build(DraftFor(b, user), id, now);
      r.author == user && r.id == id && r.createdAt == now && r.updatedAt == now
      && SchemaValid(DraftOf(r))
  {
    BuildStoredValid(DraftFor(b, user), id, now);
  }

  /** The truthy value of a field, the way `if (x) updateData.x = x` copies it. */
  function IfTruthyString(f: Field<string>): Option<string> {
    if StringTruthy(f) then Some(f.value) else None
  }

  function IfTruthyArray(f: Field<seq<string>>): Option<seq<string>> {
    if ArrayTruthy(f) then Some(f.value) else None
  }

  function IfTruthyNumber(f: Field<real>): Option<real> {
    if NumberTruthy(f) then Some(f.value) else None
  }

  /** The `updateData` object `updateRecipe` builds from the body: a field is
      set when it is truthy, so "" and 0 are dropped while `[]` is kept. */
  function PatchOf(b: RecipeBody): (p: Patch)
    ensures CopiedUnlessFalsy(p.title, b.title, {""})
    ensures CopiedUnlessFalsy(p.description, b.description, {""})
    ensures CopiedUnlessFalsy(p.ingredients, b.ingredients, {})
    ensures CopiedUnlessFalsy(p.instructions, b.instructions, {})
    ensures CopiedUnlessFalsy(p.category, b.category, {""})
    ensures CopiedUnlessFalsy(p.cookingTime, b.cookingTime, {0.0})
    ensures CopiedUnlessFalsy(p.servings, b.servings, {0.0})
  {
    Patch(IfTruthyString(b.title), IfTruthyString(b.description), IfTruthyArray(b.ingredients),
          IfTruthyArray(b.instructions), IfTruthyString(b.category), IfTruthyNumber(b.cookingTime),
          IfTruthyNumber(b.servings))
  }

  /** Falsy values cannot clear a field: an empty title, category or
      description and a zero cooking time or serving count keep what is
      stored, and so does a missing or null field. */
  lemma FalsyFieldsKeepStoredValues(r: Recipe, b: RecipeBody)
    requires !StringTruthy(b.title) && !StringTruthy(b.description) && !StringTruthy(b.category)
    requires !NumberTruthy(b.cookingTime) && !NumberTruthy(b.servings)
    requires !b.ingredients.Present? && !b.instructions.Present?
    ensures ApplyPatch(r, PatchOf(b)) == r
  {
  }

  /** What a body does to a recipe, field by field: a truthy value replaces
      the stored one (the title trimmed), and a falsy, missing or null one
      keeps it, whatever the other fields do. Any array, `[]` included, is
      truthy. */
  lemma RecipeUpdateRules(r: Recipe, b: RecipeBody)
    ensures var u := ApplyPatch(r, PatchOf(b));
      && u.title == (if StringTruthy(b.title) then Trim(b.title.value) else r.title)
      && u.description == (if StringTruthy(b.description) then b.description.value else r.description)
      && u.ingredients == (if ArrayTruthy(b.ingredients) then b.ingredients.value else r.ingredients)
      && u.instructions == (if ArrayTruthy(b.instructions) then b.instructions.value else r.instructions)
      && u.category == (if StringTruthy(b.category) then b.category.value else r.category)
      && u.cookingTime == (if NumberTruthy(b.cookingTime) then b.cookingTime.value else r.cookingTime)
      && u.servings == (if NumberTruthy(b.servings) then b.servings.value else r.servings)
  {
  }

  /** A zero cooking time sent beside a new title keeps the stored cooking
      time and only replaces the title. */
  lemma ZeroTimeBesideTitleKeepsTime(r: Recipe, b: RecipeBody)
    requires b.cookingTime == Present(0.0) && StringTruthy(b.title)
    ensures ApplyPatch(r, PatchOf(b)).cookingTime == r.cookingTime
    ensures ApplyPatch(r, PatchOf(b)).title == Trim(b.title.value)
  {
    RecipeUpdateRules(r, b);
  }

  /** An empty array is truthy: it is copied into the update, and the
      schema's custom validator then rejects it. */
  lemma EmptyIngredientsReachTheValidator(b: RecipeBody)
    requires b.ingredients == Present([])
    ensures PatchOf(b).ingredients == Some([])
    ensures "Recipe must have at least one ingredient" in UpdateErrors(PatchOf(b))
  {
    var p := PatchOf(b);
    assert When(p.ingredients, IngredientsErrors(p.ingredients)) == ["Recipe must have at least one ingredient"];
  }

  /** The author a client sends in an update is never copied. */
  lemma PatchIgnoresBodyAuthor(b: RecipeBody, claimed: Field<string>)
    ensures PatchOf(b.(author := claimed)) == PatchOf(b)
  {
  }

  // Queries.

  /** A `Recipe.find` filter: an exact category, a case-insensitive title
      substring, an exact author; `None` leaves that path unconstrained. */
  datatype Query = Query(category: Option<string>, title: Option<string>, author: Option<ObjectId>)

  predicate Matches(r: Recipe, q: Query) {
    && (q.category.Some? ==> r.category == q.category.value)
    && (q.title.Some? ==> ContainsIgnoringCase(r.title, q.title.value))
    && (q.author.Some? ==> r.author == q.author.value)
  }

  /** `.sort({ createdAt: -1 })`: strictly newest first. */
  predicate NewestFirst(rs: seq<Recipe>) {
    forall i, j :: 0 <= i < j < |rs| ==> rs[i].createdAt > rs[j].createdAt
  }

  /** The handler names the routes take from this module. */
  const RoutedHandlers: set<string> :=
    {"createRecipe", "getAllRecipes", "getRecipe", "updateRecipe", "deleteRecipe", "getMyRecipes"}

  const ResponseCreated := "Recipe created successfully"
  const ResponseUpdated := "Recipe updated successfully"
  const ResponseDeleted := "Recipe deleted successfully"
  const NotFoundMessage := "Recipe not found"

  /** Every stored recipe sits under its own id and was created before the
      current tick, and no two share a creation tick. */
  ghost predicate KeyedByTick(recipes: map<ObjectId, Recipe>, clock: nat) {
    && (forall id :: id in recipes ==> recipes[id].id == id && recipes[id].createdAt < clock)
    && (forall a, b :: a in recipes && b in recipes && recipes[a].createdAt == recipes[b].createdAt ==> a == b)
  }

  /** Besides being keyed by tick, every stored recipe passed the schema. */
  ghost predicate ValidTable(recipes: map<ObjectId, Recipe>, clock: nat) {
    && KeyedByTick(recipes, clock)
    && (forall id :: id in recipes ==> SchemaValid(DraftOf(recipes[id])))
  }

  /** Storing a valid recipe under a fresh id, created at the current tick,
      keeps the table valid once the clock moves on. */
  lemma InsertKeepsValid(recipes: map<ObjectId, Recipe>, clock: nat, r: Recipe)
    requires ValidTable(recipes, clock) && r.id !in recipes
    requires r.createdAt == clock && SchemaValid(DraftOf(r))
    ensures ValidTable(recipes[r.id := r], clock + 1)
  {
  }

  /** Replacing a recipe by a valid one with the same id and creation time
      keeps the table valid. */
  lemma ReplaceKeepsValid(recipes: map<ObjectId, Recipe>, clock: nat, u: Recipe)
    requires ValidTable(recipes, clock) && u.id in recipes
    requires u.createdAt == recipes[u.id].createdAt && SchemaValid(DraftOf(u))
    ensures ValidTable(recipes[u.id := u], clock + 1)
  {
  }

  /** Builds `updateData` field by field, each `if (x) updateData.x = x`. */
  method UpdateDataOf(body: RecipeBody) returns (updateData: Patch)
    ensures updateData == PatchOf(body)
  {
    updateData := NoChange;
    if StringTruthy(body.title) { updateData := updateData.(title := Some(body.title.value)); }
    if StringTruthy(body.description) { updateData := updateData.(description := Some(body.description.value)); }
    if ArrayTruthy(body.ingredients) { updateData := updateData.(ingredients := Some(body.ingredients.value)); }
    if ArrayTruthy(body.instructions) { updateData := updateData.(instructions := Some(body.instructions.value)); }
    if StringTruthy(body.category) { updateData := updateData.(category := Some(body.category.value)); }
    if NumberTruthy(body.cookingTime) { updateData := updateData.(cookingTime := Some(body.cookingTime.value)); }
    if NumberTruthy(body.servings) { updateData := updateData.(servings := Some(body.servings.value)); }
  }

  class RecipeTable {
    var recipes: map<ObjectId, Recipe>
    var clock: nat

    ghost predicate Valid()
      reads this
    {
      ValidTable(recipes, clock)
    }

    /** `rs` is the answer to `Recipe.find(q).sort({ createdAt: -1 })`: the
        stored recipes that match, each once, newest first. */
    ghost predicate Lists(rs: seq<Recipe>, q: Query)
      reads this
    {
      && (forall r :: r in rs ==> r.id in recipes && recipes[r.id] == r && Matches(r, q))
      && (forall id :: id in recipes && Matches(recipes[id], q) ==> recipes[id] in rs)
      && NewestFirst(rs)
    }

    constructor ()
      ensures Valid() && recipes == map[] && clock == 0
    {
      recipes := map[];
      clock := 0;
    }

    /** The query and the sort: scans the creation ticks from the newest down
        and keeps the matching recipe created at each. The scan needs only
        that the table is keyed by tick. */
    method Select(q: Query) returns (rs: seq<Recipe>)
      requires KeyedByTick(recipes, clock)
      ensures Lists(rs, q)
    {
      rs := [];
      var t := clock;
      while t > 0
        invariant t <= clock
        invariant forall r :: r in rs ==>
          r.id in recipes && recipes[r.id] == r && Matches(r, q) && r.createdAt >= t
        invariant forall id :: id in recipes && Matches(recipes[id], q) && recipes[id].createdAt >= t ==>
          recipes[id] in rs
        invariant NewestFirst(rs)
      {
        t := t - 1;
        if exists id :: id in recipes && recipes[id].createdAt == t && Matches(recipes[id], q) {
          var id :| id in recipes && recipes[id].createdAt == t && Matches(recipes[id], q);
          rs := rs + [recipes[id]];
        }
      }
    }

    /** `getAllRecipes`: each query parameter filters only when it is truthy;
        the list comes with its length. */
    method GetAllRecipes(category: Field<string>, search: Field<string>) returns (resp: Response<RecipeData>)
      requires Valid()
      ensures resp.status == 200 && resp.body.success && resp.body.message.None?
      ensures resp.body.data.Some? && resp.body.data.value.Many?
      ensures var rs := resp.body.data.value.recipes;
        && resp.body.count == Some(|rs|)
        && Lists(rs, Query(IfTruthyString(category), IfTruthyString(search), None))
      ensures StringTruthy(category) ==>
        forall r :: r in resp.body.data.value.recipes ==> r.category == category.value
      ensures StringTruthy(search) ==>
        forall r :: r in resp.body.data.value.recipes ==> ContainsIgnoringCase(r.title, search.value)
      ensures !StringTruthy(category) && !StringTruthy(search) ==>
        forall id :: id in recipes ==> recipes[id] in resp.body.data.value.recipes
    {
      var query := Query(None, None, None);
      if StringTruthy(category) {
        query := query.(category := Some(category.value));
      }
      if StringTruthy(search) {
        query := query.(title := Some(search.value));
      }
      var rs := Select(query);
      resp := Response(200, Body(true, None, Some(Many(rs)), Some(|rs|), None));
    }

    /** `getMyRecipes`: exactly the user's own recipes, newest first. */
    method GetMyRecipes(user: ObjectId) returns (resp: Response<RecipeData>)
      requires Valid()
      ensures resp.status == 200 && resp.body.success && resp.body.data.Some? && resp.body.data.value.Many?
      ensures var rs := resp.body.data.value.recipes;
        && resp.body.count == Some(|rs|)
        && (forall r :: r in rs ==> r.author == user && r.id in recipes && recipes[r.id] == r)
        && (forall id :: id in recipes && recipes[id].author == user ==> recipes[id] in rs)
        && NewestFirst(rs)
    {
      var rs := Select(Query(None, None, Some(user)));
      resp := Response(200, Body(true, None, Some(Many(rs)), Some(|rs|), None));
    }

    /** `getRecipe`: an id that is not an ObjectId is a CastError for the
        error middleware; an unknown one is a 404. */
    method GetRecipe(rawId: string) returns (reply: Reply<RecipeData>)
      ensures Cast(rawId).None? ==> reply == Next(CastError())
      ensures Cast(rawId).Some? && Cast(rawId).value !in recipes ==>
        reply == Send(Failure(404, NotFoundMessage))
      ensures Cast(rawId).Some? && Cast(rawId).value in recipes ==>
        reply == Send(Response(200, Body(true, None, Some(One(recipes[Cast(rawId).value])), None, None)))
    {
      var id := Cast(rawId);
      if id.None? {
        reply := Next(CastError());
      } else if id.value !in recipes {
        reply := Send(Failure(404, NotFoundMessage));
      } else {
        reply := Send(Response(200, Body(true, None, Some(One(recipes[id.value])), None, None)));
      }
    }

    /** `getRecipeById`: like `getRecipe`, but its own `catch` answers every
        failure, a malformed id included, with a 500. */
    method GetRecipeById(rawId: string) returns (resp: Response<RecipeData>)
      ensures Cast(rawId).None? ==> resp == Failure(500, "Server error")
      ensures Cast(rawId).Some? && Cast(rawId).value !in recipes ==> resp == Failure(404, NotFoundMessage)
      ensures Cast(rawId).Some? && Cast(rawId).value in recipes ==>
        resp == Response(200, Body(true, None, Some(One(recipes[Cast(rawId).value])), None, None))
    {
      var id := Cast(rawId);
      if id.None? {
        resp := Failure(500, "Server error");
      } else if id.value !in recipes {
        resp := Failure(404, NotFoundMessage);
      } else {
        resp := Response(200, Body(true, None, Some(One(recipes[id.value])), None, None));
      }
    }

    /** `createRecipe` for the authenticated `user`; `newId` is the id mongoose
        generates. A ValidationError or a duplicate `_id` stores nothing. */
    method CreateRecipe(user: ObjectId, body: RecipeBody, newId: ObjectId) returns (reply: Reply<RecipeData>)
      requires Valid()
      modifies this
      ensures Valid()
      ensures var d := DraftFor(body, user);
        if SchemaErrors(d) != [] then
          reply == Next(ValidationError(SchemaErrors(d))) && unchanged(this)
        else if newId in old(recipes) then
          reply == Next(DuplicateKeyError("_id")) && unchanged(this)
        else
          var r := Build(d, newId, old(clock));
          && recipes == old(recipes)[newId := r] && clock == old(clock) + 1
          && reply == Send(Response(201, Body(true, Some(ResponseCreated), Some(One(r)), None, None)))
      ensures reply.Send? ==> reply.response.body.data.value.recipe.author == user
    {
      var d := DraftFor(body, user);
      var errs := SchemaErrors(d);
      if errs != [] {
        reply := Next(ValidationError(errs));
        return;
      }
      if newId in recipes {
        reply := Next(DuplicateKeyError("_id"));
        return;
      }
      BuildStoredValid(d, newId, clock);
      var r := Build(d, newId, clock);
      InsertKeepsValid(recipes, clock, r);
      recipes := recipes[newId := r];
      clock := clock + 1;
      reply := Send(Response(201, Body(true, Some(ResponseCreated), Some(One(r)), None, None)));
    }

    /** `updateRecipe` for the authenticated `user`: 404, then the strict
        owner check, then an update of the truthy fields only, validated path
        by path; `updatedAt` moves to the current tick. */
    method UpdateRecipe(user: ObjectId, rawId: string, body: RecipeBody) returns (reply: Reply<RecipeData>)
      requires Valid()
      modifies this
      ensures Valid()
      ensures Cast(rawId).None? ==> reply == Next(CastError()) && unchanged(this)
      ensures Cast(rawId).Some? ==>
        var id := Cast(rawId).value;
        if id !in old(recipes) then
          reply == Send(Failure(404, NotFoundMessage)) && unchanged(this)
        else if old(recipes)[id].author != user then
          reply == Send(Failure(403, "Not authorized to update this recipe")) && unchanged(this)
        else if UpdateErrors(PatchOf(body)) != [] then
          reply == Next(ValidationError(UpdateErrors(PatchOf(body)))) && unchanged(this)
        else
          var u := ApplyPatch(old(recipes)[id], PatchOf(body)).(updatedAt := old(clock));
          && recipes == old(recipes)[id := u] && clock == old(clock) + 1
          && reply == Send(Response(200, Body(true, Some(ResponseUpdated), Some(One(u)), None, None)))
    {
      var cast := Cast(rawId);
      if cast.None? {
        reply := Next(CastError());
        return;
      }
      var id := cast.value;
      if id !in recipes {
        reply := Send(Failure(404, NotFoundMessage));
        return;
      }
      var recipe := recipes[id];
      if recipe.author != user {
        reply := Send(Failure(403, "Not authorized to update this recipe"));
        return;
      }
      var updateData := UpdateDataOf(body);
      var errs := UpdateErrors(updateData);
      if errs != [] {
        reply := Next(ValidationError(errs));
        return;
      }
      UpdateErrorsExact(recipe, updateData);
      var u := ApplyPatch(recipe, updateData).(updatedAt := clock);
      ReplaceKeepsValid(recipes, clock, u);
      recipes := recipes[id := u];
      clock := clock + 1;
      reply := Send(Response(200, Body(true, Some(ResponseUpdated), Some(One(u)), None, None)));
    }

    /** `deleteRecipe` for the authenticated `user`: 404, then the strict owner
        check, then the document is removed and nothing else changes. */
    method DeleteRecipe(user: ObjectId, rawId: string) returns (reply: Reply<RecipeData>)
      requires Valid()
      modifies this
      ensures Valid()
      ensures Cast(rawId).None? ==> reply == Next(CastError()) && unchanged(this)
      ensures Cast(rawId).Some? ==>
        var id := Cast(rawId).value;
        if id !in old(recipes) then
          reply == Send(Failure(404, NotFoundMessage)) && unchanged(this)
        else if old(recipes)[id].author != user then
          reply == Send(Failure(403, "Not authorized to delete this recipe")) && unchanged(this)
        else
          && recipes == old(recipes) - {id} && clock == old(clock)
          && reply == Send(Response(200, Body(true, Some(ResponseDeleted), None, None, None)))
    {
      var cast := Cast(rawId);
      if cast.None? {
        reply := Next(CastError());
        return;
      }
      var id := cast.value;
      if id !in recipes {
        reply := Send(Failure(404, NotFoundMessage));
        return;
      }
      if recipes[id].author != user {
        reply := Send(Failure(403, "Not authorized to delete this recipe"));
        return;
      }
      recipes := recipes - {id};
      reply := Send(Response(200, Body(true, Some(ResponseDeleted), None, None, None)));
    }
  }

  // `module.exports` at the end of the controller.

  /** A statement that shapes a CommonJS module's exports: `exports.x = …`
      adds a name to the exports object, `module.exports = { … }` replaces
      the object. */
  datatype ExportStep = AddExport(name: string) | ReplaceExports(names: set<string>)

  /** The names `require` sees after the statements have run in order. */
  function Exports(steps: seq<ExportStep>): set<string> {
    if steps == [] then {}
    else match steps[|steps| - 1]
      case AddExport(n) => Exports(steps[..|steps| - 1]) + {n}
      case ReplaceExports(ns) => ns
  }

  /** Replacing the exports object discards everything exported before it. */
  lemma {:induction false} ReplaceDiscardsEarlier(before: seq<ExportStep>, names: set<string>, after: seq<ExportStep>)
    ensures Exports(before + [ReplaceExports(names)] + after) == Exports([ReplaceExports(names)] + after)
    decreases |after|
  {
    if after == [] {
      assert (before + [ReplaceExports(names)] + after)[|before|] == ReplaceExports(names);
    } else {
      var s := before + [ReplaceExports(names)] + after;
      var s0 := [ReplaceExports(names)] + after;
      var last := |after| - 1;
      ReplaceDiscardsEarlier(before, names, after[..last]);
      assert s[..|s| - 1] == before + [ReplaceExports(names)] + after[..last];
      assert s0[..|s0| - 1] == [ReplaceExports(names)] + after[..last];
      assert s[|s| - 1] == s0[|s0| - 1];
    }
  }

  /** The controller's statements as written: six `exports.x = …` and, on the
      last line, `module.exports = { getRecipeById }`. */
  const ControllerAsWritten: seq<ExportStep> := [
    AddExport("createRecipe"), AddExport("getAllRecipes"), AddExport("getRecipe"),
    AddExport("updateRecipe"), AddExport("deleteRecipe"), AddExport("getMyRecipes"),
    ReplaceExports({"getRecipeById"})]

  /** As written, the module exports only `getRecipeById`: every handler the
      routes destructure from it is `undefined`. */
  lemma ExportsLoseRoutedHandlers()
    ensures Exports(ControllerAsWritten) == {"getRecipeById"}
    ensures Exports(ControllerAsWritten) * RoutedHandlers == {}
  {
    ReplaceDiscardsEarlier(ControllerAsWritten[..6], {"getRecipeById"}, []);
  }

  /** With the last line an addition (`exports.getRecipeById = …`), every
      routed handler is exported, and so is `getRecipeById`. */
  const ControllerIntended: seq<ExportStep> := ControllerAsWritten[..6] + [AddExport("getRecipeById")]

  /** `exports.n = …` adds exactly `n`. */
  lemma ExportsAdd(steps: seq<ExportStep>, n: string)
    ensures Exports(steps + [AddExport(n)]) == Exports(steps) + {n}
  {
    assert (steps + [AddExport(n)])[..|steps|] == steps;
  }

  lemma IntendedExportsServeRoutes()
    ensures Exports(ControllerIntended) == RoutedHandlers + {"getRecipeById"}
  {
    var s0: seq<ExportStep> := [];
    var s1 := s0 + [AddExport("createRecipe")];
    var s2 := s1 + [AddExport("getAllRecipes")];
    var s3 := s2 + [AddExport("getRecipe")];
    var s4 := s3 + [AddExport("updateRecipe")];
    var s5 := s4 + [AddExport("deleteRecipe")];
    var s6 := s5 + [AddExport("getMyRecipes")];
    var s7 := s6 + [AddExport("getRecipeById")];
    ExportsAdd(s0, "createRecipe");
    ExportsAdd(s1, "getAllRecipes");
    ExportsAdd(s2, "getRecipe");
    ExportsAdd(s3, "updateRecipe");
    ExportsAdd(s4, "deleteRecipe");
    ExportsAdd(s5, "getMyRecipes");
    ExportsAdd(s6, "getRecipeById");
    assert s7 == ControllerIntended;
  }
}
