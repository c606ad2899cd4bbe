/**
  The response-shape specification the service hands to the provider
  (`recipeSchema` and `responseSchema`), and what it means for a parsed
  JSON value to conform to such a specification.
 */
module Schema {
  import opened Wrappers
  import opened Json
  import opened Recipes

  datatype Schema =
    | SString
    | SArray(items: Schema)
    | SObject(properties: seq<Property>, required: seq<string>)

  datatype Property = Property(name: string, schema: Schema)

  function PropertyNames(props: seq<Property>): seq<string> {
    seq(|props|, i requires 0 <= i < |props| => props[i].name)
  }

  /**
    A string matches `SString`; an array matches `SArray` when every item
    matches; an object matches `SObject` when every required member is
    present and every member named by a property matches that property's
    schema. Members the schema does not name are not constrained.
   */
  predicate Conforms(j: Json, s: Schema)
    decreases s
  {
    match s
    case SString => j.JString?
    case SArray(items) =>
      j.JArray? && forall k | 0 <= k < |j.items| :: Conforms(j.items[k], items)
    case SObject(props, required) =>
      && j.JObject?
      && (forall n | n in required :: Lookup(j.members, n).Some?)
      && forall i | 0 <= i < |props| ::
        match Lookup(j.members, props[i].name)
        case None => true
        case Some(v) => Conforms(v, props[i].schema)
  }

  const StringList: Schema := SArray(SString)

  const IngredientsSchema: Schema := SObject(
    [Property("used", StringList), Property("additional", StringList)],
    ["used", "additional"])

  const RecipeSchema: Schema := SObject(
    [ Property("title", SString),
      Property("description", SString),
      Property("ingredients", IngredientsSchema),
      Property("instructions", StringList),
      Property("prepTime", SString),
      Property("cookTime", SString) ],
    ["title", "description", "ingredients", "instructions", "prepTime", "cookTime"])

  const ResponseSchema: Schema := SObject(
    [Property("recipes", SArray(RecipeSchema))],
    ["recipes"])

  /**
    Every object schema requires exactly the properties it declares, and
    those are the fields of the `Recipe` type and of its `ingredients`
    record; the response requires its single `recipes` member.
   */
  lemma RequiredFieldsMatchRecipeType()
    ensures RecipeSchema.required == RecipeFields
    ensures PropertyNames(RecipeSchema.properties) == RecipeFields
    ensures IngredientsSchema.required == IngredientListFields
    ensures PropertyNames(IngredientsSchema.properties) == IngredientListFields
    ensures ResponseSchema.required == ["recipes"]
    ensures PropertyNames(ResponseSchema.properties) == ["recipes"]
  {
  }

  lemma {:induction false} StringItemsConform(items: seq<Json>)
    ensures (forall k | 0 <= k < |items| :: Conforms(items[k], SString))
        <==> DecodeStringItems(items).Some?
    decreases |items|
  {
    if |items| > 0 {
      StringItemsConform(items[1..]);
      assert forall k | 1 <= k < |items| :: items[k] == items[1..][k - 1];
    }
  }

  /** A value matches the string-list schema exactly when it decodes as `string[]`. */
  lemma StringListConforms(j: Json)
    ensures Conforms(j, StringList) <==> DecodeStrings(j).Some?
  {
    if j.JArray? {
      StringItemsConform(j.items);
    }
  }

  /** The `ingredients` schema accepts exactly the values that decode as the nested record. */
  lemma IngredientsConforms(j: Json)
    ensures Conforms(j, IngredientsSchema) <==> DecodeIngredientLists(j).Some?
  {
    if j.JObject? {
      var m := j.members;
      var props := IngredientsSchema.properties;
      assert props[0] == Property("used", StringList);
      assert props[1] == Property("additional", StringList);
      match Lookup(m, "used") {
        case Some(v) => StringListConforms(v);
        case None =>
      }
      match Lookup(m, "additional") {
        case Some(v) => StringListConforms(v);
        case None =>
      }
      if Conforms(j, IngredientsSchema) {
        assert "used" in IngredientsSchema.required;
        assert "additional" in IngredientsSchema.required;
      }
    }
  }

  /** The member `name` is present and matches `s`. */
  predicate HasConforming(members: seq<(string, Json)>, name: string, s: Schema) {
    Lookup(members, name).Some? && Conforms(Lookup(members, name).value, s)
  }

  /** `Conforms` against the recipe schema, spelled out field by field. */
  lemma RecipeSchemaFields(j: Json)
    ensures Conforms(j, RecipeSchema) <==>
      && j.JObject?
      && HasConforming(j.members, "title", SString)
      && HasConforming(j.members, "description", SString)
      && HasConforming(j.members, "ingredients", IngredientsSchema)
      && HasConforming(j.members, "instructions", StringList)
      && HasConforming(j.members, "prepTime", SString)
      && HasConforming(j.members, "cookTime", SString)
  {
    var props := RecipeSchema.properties;
    var req := RecipeSchema.required;
    if Conforms(j, RecipeSchema) {
      assert req[0] in req && req[1] in req && req[2] in req;
      assert req[3] in req && req[4] in req && req[5] in req;
      assert props[0] == Property("title", SString);
      assert props[1] == Property("description", SString);
      assert props[2] == Property("ingredients", IngredientsSchema);
      assert props[3] == Property("instructions", StringList);
      assert props[4] == Property("prepTime", SString);
      assert props[5] == Property("cookTime", SString);
    }
  }

  /**
    The recipe schema and the `Recipe` type describe the same values: a
    JSON value conforms exactly when it decodes as a `Recipe`.
   */
  lemma RecipeConforms(j: Json)
    ensures Conforms(j, RecipeSchema) <==> DecodeRecipe(j).Some?
  {
    RecipeSchemaFields(j);
    if j.JObject? {
      var m := j.members;
      match Lookup(m, "ingredients") {
        case Some(v) => IngredientsConforms(v);
        case None =>
      }
      match Lookup(m, "instructions") {
        case Some(v) => StringListConforms(v);
        case None =>
      }
      assert HasConforming(m, "title", SString) <==> StringMember(m, "title").Some?;
      assert HasConforming(m, "description", SString) <==> StringMember(m, "description").Some?;
      assert HasConforming(m, "prepTime", SString) <==> StringMember(m, "prepTime").Some?;
      assert HasConforming(m, "cookTime", SString) <==> StringMember(m, "cookTime").Some?;
      assert HasConforming(m, "ingredients", IngredientsSchema) <==> RecordMember(m, "ingredients").Some?;
      assert HasConforming(m, "instructions", StringList) <==> StringsMember(m, "instructions").Some?;
    }
  }

  /** Every `Recipe` serialises to a value the recipe schema accepts. */
  lemma EncodedRecipeConforms(r: Recipe)
    ensures Conforms(EncodeRecipe(r), RecipeSchema)
  {
    DecodeEncodeRecipe(r);
    RecipeConforms(EncodeRecipe(r));
  }

  lemma {:induction false} RecipeItemsConform(items: seq<Json>)
    ensures (forall k | 0 <= k < |items| :: Conforms(items[k], RecipeSchema))
        <==> DecodeRecipeItems(items).Some?
    decreases |items|
  {
    if |items| > 0 {
      RecipeConforms(items[0]);
      RecipeItemsConform(items[1..]);
      assert forall k | 1 <= k < |items| :: items[k] == items[1..][k - 1];
    }
  }

  /**
    A response conforms to the response schema exactly when it is an object
    whose `recipes` member decodes as a `Recipe[]`.
   */
  lemma ResponseConforms(j: Json)
    ensures Conforms(j, ResponseSchema) <==>
      && j.JObject?
      && Lookup(j.members, "recipes").Some?
      && DecodeRecipes(Lookup(j.members, "recipes").value).Some?
  {
    if j.JObject? {
      match Lookup(j.members, "recipes") {
        case Some(v) =>
          if v.JArray? {
            RecipeItemsConform(v.items);
          }
          assert ResponseSchema.properties[0] == Property("recipes", SArray(RecipeSchema));
        case None =>
          assert "recipes" in ResponseSchema.required;
      }
    }
  }

  /** Every recipe list, wrapped as a response document, conforms to the response schema. */
  lemma EncodedResponseConforms(rs: seq<Recipe>)
    ensures Conforms(EncodeResponse(rs), ResponseSchema)
  {
    DecodeEncodeRecipes(rs);
    LookupAt(EncodeResponse(rs).members, 0, "recipes");
    ResponseConforms(EncodeResponse(rs));
  }
}
