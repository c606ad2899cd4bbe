/**
  The `Recipe` record the application displays, and its JSON shape.

  `DecodeRecipe` says when a parsed JSON value really is a `Recipe` as the
  TypeScript interface describes it: an object carrying every field with a
  value of the declared type (other members are allowed, as structural
  typing allows them). `EncodeRecipe` is its inverse.
 */
module Recipes {
  import opened Wrappers
  import opened Json

  datatype IngredientLists = IngredientLists(used: seq<string>, additional: seq<string>)

  datatype Recipe = Recipe(
    title: string,
    description: string,
    ingredients: IngredientLists,
    instructions: seq<string>,
    prepTime: string,
    cookTime: string
  )

  /** The field names of `Recipe`, in declaration order. */
  const RecipeFields: seq<string> :=
    ["title", "description", "ingredients", "instructions", "prepTime", "cookTime"]

  /** The field names of the nested `ingredients` record. */
  const IngredientListFields: seq<string> := ["used", "additional"]

  function EncodeStringItems(xs: seq<string>): (r: seq<Json>)
    ensures |r| == |xs|
    decreases |xs|
  {
    if |xs| == 0 then [] else [JString(xs[0])] + EncodeStringItems(xs[1..])
  }

  function DecodeStringItems(items: seq<Json>): (r: Option<seq<string>>)
    decreases |items|
  {
    if |items| == 0 then Some([])
    else if !items[0].JString? then None
    else
      var rest :- DecodeStringItems(items[1..]);
      Some([items[0].s] + rest)
  }

  function EncodeStrings(xs: seq<string>): Json {
    JArray(EncodeStringItems(xs))
  }

  function DecodeStrings(j: Json): Option<seq<string>> {
    if j.JArray? then DecodeStringItems(j.items) else None
  }

  function StringMember(members: seq<(string, Json)>, key: string): Option<string> {
    match Lookup(members, key)
    case Some(JString(s)) => Some(s)
    case _ => None
  }

  function StringsMember(members: seq<(string, Json)>, key: string): Option<seq<string>> {
    match Lookup(members, key)
    case Some(v) => DecodeStrings(v)
    case None => None
  }

  function EncodeIngredientLists(l: IngredientLists): Json {
    JObject([("used", EncodeStrings(l.used)), ("additional", EncodeStrings(l.additional))])
  }

  function DecodeIngredientLists(j: Json): Option<IngredientLists> {
    if !j.JObject? then None
    else
      var used := StringsMember(j.members, "used");
      var additional := StringsMember(j.members, "additional");
      if used.Some? && additional.Some? then Some(IngredientLists(used.value, additional.value))
      else None
  }

  function EncodeRecipe(r: Recipe): Json {
    JObject([
      ("title", JString(r.title)),
      ("description", JString(r.description)),
      ("ingredients", EncodeIngredientLists(r.ingredients)),
      ("instructions", EncodeStrings(r.instructions)),
      ("prepTime", JString(r.prepTime)),
      ("cookTime", JString(r.cookTime))
    ])
  }

  function RecordMember(members: seq<(string, Json)>, key: string): Option<IngredientLists> {
    match Lookup(members, key)
    case Some(v) => DecodeIngredientLists(v)
    case None => None
  }

  function DecodeRecipe(j: Json): Option<Recipe> {
    if !j.JObject? then None
    else
      var title := StringMember(j.members, "title");
      var description := StringMember(j.members, "description");
      var ingredients := RecordMember(j.members, "ingredients");
      var instructions := StringsMember(j.members, "instructions");
      var prepTime := StringMember(j.members, "prepTime");
      var cookTime := StringMember(j.members, "cookTime");
      if title.Some? && description.Some? && ingredients.Some? && instructions.Some?
         && prepTime.Some? && cookTime.Some?
      then Some(Recipe(title.value, description.value, ingredients.value, instructions.value,
                       prepTime.value, cookTime.value))
      else None
  }

  function EncodeRecipeItems(rs: seq<Recipe>): (r: seq<Json>)
    ensures |r| == |rs|
    decreases |rs|
  {
    if |rs| == 0 then [] else [EncodeRecipe(rs[0])] + EncodeRecipeItems(rs[1..])
  }

  function DecodeRecipeItems(items: seq<Json>): Option<seq<Recipe>>
    decreases |items|
  {
    if |items| == 0 then Some([])
    else
      var first :- DecodeRecipe(items[0]);
      var rest :- DecodeRecipeItems(items[1..]);
      Some([first] + rest)
  }

  /** A `Recipe[]` as JSON. */
  function EncodeRecipes(rs: seq<Recipe>): Json {
    JArray(EncodeRecipeItems(rs))
  }

  /** When a JSON value is a `Recipe[]`, the recipes it holds, in order. */
  function DecodeRecipes(j: Json): Option<seq<Recipe>> {
    if j.JArray? then DecodeRecipeItems(j.items) else None
  }

  /** A whole response document `{ "recipes": [...] }`. */
  function EncodeResponse(rs: seq<Recipe>): Json {
    JObject([("recipes", EncodeRecipes(rs))])
  }

  lemma {:induction false} DecodeEncodeStringItems(xs: seq<string>)
    ensures DecodeStringItems(EncodeStringItems(xs)) == Some(xs)
    decreases |xs|
  {
    if |xs| > 0 {
      var items := EncodeStringItems(xs);
      assert items[0] == JString(xs[0]);
      assert items[1..] == EncodeStringItems(xs[1..]);
      DecodeEncodeStringItems(xs[1..]);
      assert [xs[0]] + xs[1..] == xs;
    }
  }

  /** Decoding an encoded string list gives the list back. */
  lemma DecodeEncodeStrings(xs: seq<string>)
    ensures DecodeStrings(EncodeStrings(xs)) == Some(xs)
  {
    DecodeEncodeStringItems(xs);
  }

  /** The members of an encoded recipe are named exactly by the `Recipe` fields, in order. */
  lemma EncodeRecipeFields(r: Recipe)
    ensures EncodeRecipe(r).JObject?
    ensures |EncodeRecipe(r).members| == |RecipeFields|
    ensures forall i | 0 <= i < |RecipeFields| :: EncodeRecipe(r).members[i].0 == RecipeFields[i]
    ensures EncodeIngredientLists(r.ingredients).JObject?
    ensures |EncodeIngredientLists(r.ingredients).members| == |IngredientListFields|
    ensures forall i | 0 <= i < |IngredientListFields| ::
      EncodeIngredientLists(r.ingredients).members[i].0 == IngredientListFields[i]
  {
  }

  /** Decoding an encoded ingredient breakdown gives it back. */
  lemma DecodeEncodeIngredientLists(l: IngredientLists)
    ensures DecodeIngredientLists(EncodeIngredientLists(l)) == Some(l)
  {
    var m := EncodeIngredientLists(l).members;
    LookupAt(m, 0, "used");
    LookupAt(m, 1, "additional");
    DecodeEncodeStrings(l.used);
    DecodeEncodeStrings(l.additional);
    assert StringsMember(m, "used") == Some(l.used);
    assert StringsMember(m, "additional") == Some(l.additional);
  }

  /** Decoding an encoded recipe gives the recipe back. */
  lemma DecodeEncodeRecipe(r: Recipe)
    ensures DecodeRecipe(EncodeRecipe(r)) == Some(r)
  {
    var m := EncodeRecipe(r).members;
    LookupAt(m, 0, "title");
    LookupAt(m, 1, "description");
    LookupAt(m, 2, "ingredients");
    LookupAt(m, 3, "instructions");
    LookupAt(m, 4, "prepTime");
    LookupAt(m, 5, "cookTime");
    DecodeEncodeIngredientLists(r.ingredients);
    DecodeEncodeStrings(r.instructions);
    assert RecordMember(m, "ingredients") == Some(r.ingredients);
    assert StringMember(m, "title") == Some(r.title);
    assert StringMember(m, "description") == Some(r.description);
    assert StringsMember(m, "instructions") == Some(r.instructions);
    assert StringMember(m, "prepTime") == Some(r.prepTime);
    assert StringMember(m, "cookTime") == Some(r.cookTime);
  }

  lemma {:induction false} DecodeEncodeRecipeItems(rs: seq<Recipe>)
    ensures DecodeRecipeItems(EncodeRecipeItems(rs)) == Some(rs)
    decreases |rs|
  {
    if |rs| > 0 {
      var items := EncodeRecipeItems(rs);
      assert items[0] == EncodeRecipe(rs[0]);
      assert items[1..] == EncodeRecipeItems(rs[1..]);
      DecodeEncodeRecipe(rs[0]);
      DecodeEncodeRecipeItems(rs[1..]);
      assert [rs[0]] + rs[1..] == rs;
    }
  }

  /** Decoding an encoded recipe list gives the list back, same recipes, same order. */
  lemma DecodeEncodeRecipes(rs: seq<Recipe>)
    ensures DecodeRecipes(EncodeRecipes(rs)) == Some(rs)
  {
    DecodeEncodeRecipeItems(rs);
  }
}
