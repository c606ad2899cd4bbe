/**
  The page and the service together: one click of Generate, the service
  call it makes, and the state once the call has settled.

  The page stores the service's answer as `Recipe[]`, so the click is
  composed with `GenerateRecipeList`, the service with its result held to
  that type.
 */
module Session {
  import opened Wrappers
  import opened Json
  import opened Recipes
  import opened Schema
  import opened GeminiService
  import opened App

  /**
    One click of Generate, settled. An empty list only sets the validation
    error. Otherwise the page ends with loading off: after a success it
    shows exactly the service's recipes and no error, after a failure the
    service's fixed message and no recipes.
   */
  function Generate(s: AppState, client: Client, provider: Provider, parse: Parser): (r: AppState)
    requires Initialised(client)
    ensures r.ingredients == s.ingredients && r.newIngredient == s.newIngredient
    ensures |s.ingredients| == 0 ==> r == s.(error := Some(ValidationMessage))
    ensures |s.ingredients| > 0 ==>
      var result := GenerateRecipeList(client, s.ingredients, provider, parse);
      && !r.isLoading
      && (result.Success? ==> r.recipes == result.value && r.error.None?)
      && (result.Failure? ==> r.recipes == [] && r.error == Some(FailureMessage))
  {
    var started := StartGenerate(s);
    match started.call
    case None => started.state
    case Some(list) => SettleGenerate(started.state, GenerateRecipeList(client, list, provider, parse))
  }

  /**
    An empty list never reaches the provider: the page stops at its own
    validation error, and recipes and loading flag stay as they were.
   */
  lemma EmptyListNeverCallsProvider(s: AppState, client: Client, provider: Provider, parse: Parser)
    requires Initialised(client) && |s.ingredients| == 0
    ensures StartGenerate(s).call.None?
    ensures Generate(s, client, provider, parse) == s.(error := Some(ValidationMessage))
  {
  }

  /**
    After a failed generation the page shows exactly the service's fixed
    message, whatever went wrong, and no recipes.
   */
  lemma FailureShowsServiceMessage(s: AppState, client: Client, provider: Provider, parse: Parser)
    requires Initialised(client) && |s.ingredients| > 0
    requires GenerateRecipes(client, s.ingredients, provider, parse).result.Failure?
    ensures var t := Generate(s, client, provider, parse);
      && t.error == Some(FailureMessage)
      && t.recipes == []
      && !t.isLoading
      && ErrorShown(t) && !RecipesShown(t) && !HintShown(t)
  {
  }

  /**
    An answer honouring the response schema, whatever extra members it has,
    ends with the recipes of its `recipes` array on the page and no error.
   */
  lemma ConformingAnswerShowsRecipes(s: AppState, client: Client, provider: Provider, parse: Parser, parsed: Json)
    requires Initialised(client) && |s.ingredients| > 0
    requires provider(RequestFor(client, s.ingredients)).Success?
    requires parse(Text.Trim(provider(RequestFor(client, s.ingredients)).value)) == Some(parsed)
    requires Conforms(parsed, ResponseSchema)
    ensures Lookup(parsed.members, "recipes").Some?
    ensures DecodeRecipes(Lookup(parsed.members, "recipes").value).Some?
    ensures var t := Generate(s, client, provider, parse);
      && t.recipes == DecodeRecipes(Lookup(parsed.members, "recipes").value).value
      && t.error.None?
      && !t.isLoading
  {
    ConformingResponseGivesRecipes(client, s.ingredients, provider, parse, parsed);
  }

  /**
    An answer that parses to an object without a truthy `recipes` member is
    no failure: the service gives `[]` and the page shows the hint.
   */
  lemma NoRecipesMemberShowsHint(s: AppState, client: Client, provider: Provider, parse: Parser, parsed: Json)
    requires Initialised(client) && |s.ingredients| > 0
    requires provider(RequestFor(client, s.ingredients)).Success?
    requires parse(Text.Trim(provider(RequestFor(client, s.ingredients)).value)) == Some(parsed)
    requires parsed.JObject?
    requires Lookup(parsed.members, "recipes").None? || !Truthy(Lookup(parsed.members, "recipes").value)
    ensures var t := Generate(s, client, provider, parse);
      && t.recipes == [] && t.error.None? && HintShown(t) && !RecipesShown(t)
  {
  }

  /**
    When the provider's answer is the JSON form of a recipe list (possibly
    surrounded by whitespace), the page ends up showing exactly those
    recipes, with no error.
   */
  lemma SuccessShowsRecipes(s: AppState, client: Client, provider: Provider, parse: Parser, rs: seq<Recipe>)
    requires Initialised(client) && |s.ingredients| > 0
    requires provider(RequestFor(client, s.ingredients)).Success?
    requires parse(Text.Trim(provider(RequestFor(client, s.ingredients)).value)) == Some(EncodeResponse(rs))
    ensures var t := Generate(s, client, provider, parse);
      && t.recipes == rs
      && t.error.None?
      && !t.isLoading
      && (RecipesShown(t) <==> |rs| > 0)
  {
    EncodedResponseGivesRecipes(client, s.ingredients, provider, parse, rs);
  }

  /**
    The page's initial three ingredients and a provider answering with two
    recipes: the page goes from idle through loading to two recipe cards.
   */
  lemma InitialListTwoRecipes(client: Client, provider: Provider, parse: Parser, rs: seq<Recipe>)
    requires Initialised(client) && |rs| == 2
    requires provider(RequestFor(client, Initial.ingredients)).Success?
    requires parse(Text.Trim(provider(RequestFor(client, Initial.ingredients)).value)) == Some(EncodeResponse(rs))
    ensures GenerateEnabled(Initial)
    ensures StartGenerate(Initial).state.isLoading
    ensures RecipesShown(Generate(Initial, client, provider, parse))
    ensures |Generate(Initial, client, provider, parse).recipes| == 2
  {
    SuccessShowsRecipes(Initial, client, provider, parse, rs);
  }
}
