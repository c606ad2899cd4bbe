/**
  The recipe request service: client initialisation from the API key, the
  prompt built from the ingredient list, and `generateRecipes`, which asks
  the text-generation provider for schema-shaped JSON, trims and parses the
  answer and returns its `recipes` member (or an empty list), turning every
  failure into one fixed message.

  The provider and `JSON.parse` are parameters: `provider` answers a request
  with the response text or a failure, `parse` returns the parsed value or
  `None` when the text is not JSON.
 */
module GeminiService {
  import opened Wrappers
  import opened Text
  import opened Json
  import opened Recipes
  import opened Schema

  const MissingKeyMessage: string := "API_KEY environment variable not set"

  const FailureMessage: string :=
    "Failed to generate recipes. The model might be unable to process the request."

  const PromptPrefix: string := "I have the following ingredients: "

  const PromptSuffix: string :=
    ". Please generate 3 creative and delicious recipe ideas using these ingredients."
    + " You can suggest additional common pantry items if needed."

  const IngredientSeparator: string := ", "

  /** The configured client; it exists only once a key was found. */
  datatype Client = Client(apiKey: string)

  predicate Initialised(c: Client) {
    |c.apiKey| > 0
  }

  /**
    Module initialisation: an absent or empty `API_KEY` aborts with an
    error, any other key yields a client that uses it.
   */
  function InitClient(apiKey: Option<string>): (r: Result<Client, string>)
    ensures r.Success? <==> apiKey.Some? && |apiKey.value| > 0
    ensures r.Success? ==> Initialised(r.value) && r.value.apiKey == apiKey.value
    ensures r.Failure? ==> r.error == MissingKeyMessage
  {
    if apiKey.None? || |apiKey.value| == 0 then Failure(MissingKeyMessage)
    else Success(Client(apiKey.value))
  }

  /** One call to the provider: the key, the prompt and the response schema. */
  datatype Request = Request(apiKey: string, prompt: string, responseSchema: Schema)

  /** The provider either answers with response text or fails for some reason. */
  type Provider = Request -> Result<string, string>

  type Parser = string -> Option<Json>

  /** The prompt: the fixed opening, the ingredients joined by ", ", the fixed request. */
  function BuildPrompt(ingredients: seq<string>): (r: string)
    ensures |r| == |PromptPrefix| + |Join(ingredients, IngredientSeparator)| + |PromptSuffix|
    ensures r[..|PromptPrefix|] == PromptPrefix
    ensures r[|r| - |PromptSuffix|..] == PromptSuffix
    ensures r[|PromptPrefix|..|r| - |PromptSuffix|] == Join(ingredients, IngredientSeparator)
  {
    PromptPrefix + Join(ingredients, IngredientSeparator) + PromptSuffix
  }

  /** The one request `generateRecipes` sends for a list. */
  function RequestFor(client: Client, ingredients: seq<string>): Request {
    Request(client.apiKey, BuildPrompt(ingredients), ResponseSchema)
  }

  /**
    Reads an ingredient list back out of a prompt: the text between the
    fixed prefix and suffix, cut at each separator.
   */
  function ExtractIngredients(prompt: string): Option<seq<string>> {
    var p := |PromptPrefix|;
    var q := |PromptSuffix|;
    if |prompt| < p + q || prompt[..p] != PromptPrefix || prompt[|prompt| - q..] != PromptSuffix
    then None
    else Some(Split(prompt[p..|prompt| - q], IngredientSeparator))
  }

  /**
    The prompt carries the whole ingredient list in its original order: it
    can be read back exactly, provided no ingredient contains a comma (the
    first character of the separator).
   */
  lemma PromptRoundTrip(ingredients: seq<string>)
    requires |ingredients| > 0
    requires forall i | 0 <= i < |ingredients| :: ',' !in ingredients[i]
    ensures ExtractIngredients(BuildPrompt(ingredients)) == Some(ingredients)
  {
    SplitJoin(ingredients, IngredientSeparator);
  }

  /**
    Without that proviso the prompt is ambiguous: one ingredient containing
    ", " gives the same prompt as the two ingredients on either side of it.
   */
  lemma PromptConflatesCommas()
    ensures BuildPrompt(["salt, pepper"]) == BuildPrompt(["salt", "pepper"])
    ensures ["salt, pepper"] != ["salt", "pepper"]
  {
  }

  /** What the service did: the provider calls it made and what it returned. */
  datatype Run = Run(calls: seq<Request>, result: Result<Json, string>)

  /**
    Everything after the provider answered: trim the text, parse it, read
    `recipes` and fall back to `[]`; a failure anywhere gives the fixed message.
   */
  function HandleResponse(response: Result<string, string>, parse: Parser): (r: Result<Json, string>)
    ensures r.Failure? ==> r.error == FailureMessage
    ensures r.Failure? <==>
      || response.Failure?
      || parse(Trim(response.value)).None?
      || parse(Trim(response.value)) == Some(JNull)
    ensures r.Success? ==>
      var parsed := parse(Trim(response.value)).value;
      || r.value == JArray([])
      || (parsed.JObject? && Lookup(parsed.members, "recipes") == Some(r.value) && Truthy(r.value))
  {
    match response
    case Failure(_) => Failure(FailureMessage)
    case Success(text) =>
      match parse(Trim(text))
      case None => Failure(FailureMessage)
      case Some(parsed) =>
        var recipes := GetProperty(parsed, "recipes");
        if recipes.Thrown? then Failure(FailureMessage)
        else Success(OrElse(recipes, JArray([])))
  }

  /** `generateRecipes(ingredients)`. */
  function GenerateRecipes(client: Client, ingredients: seq<string>, provider: Provider, parse: Parser): (r: Run)
    requires Initialised(client)
    ensures |ingredients| == 0 ==> r.calls == [] && r.result == Success(JArray([]))
    ensures |ingredients| > 0 ==> r.calls == [RequestFor(client, ingredients)]
    ensures r.result.Failure? ==> r.result.error == FailureMessage
    ensures r.result.Failure? <==>
      && |ingredients| > 0
      && var answer := provider(r.calls[0]);
      || answer.Failure?
      || parse(Trim(answer.value)).None?
      || parse(Trim(answer.value)) == Some(JNull)
  {
    if |ingredients| == 0 then Run([], Success(JArray([])))
    else
      var request := RequestFor(client, ingredients);
      Run([request], HandleResponse(provider(request), parse))
  }

  /**
    The service's answer depends only on the trimmed response text: padding
    it with whitespace on either side changes nothing.
   */
  lemma ResponseWhitespaceIgnored(pad1: string, text: string, pad2: string, parse: Parser)
    requires AllWhitespace(pad1) && AllWhitespace(pad2)
    ensures HandleResponse(Success(pad1 + text + pad2), parse) == HandleResponse(Success(text), parse)
  {
    TrimSplit(text);
    var a := |text| - |TrimStart(text)|;
    var t := Trim(text);
    var lead := text[..a];
    var trail := text[a + |t|..];
    assert text == lead + t + trail;
    assert pad1 + text + pad2 == (pad1 + lead) + t + (trail + pad2);
    assert AllWhitespace(pad1 + lead) by {
      forall i | 0 <= i < |pad1 + lead| ensures IsWhitespace((pad1 + lead)[i]) {
        if i >= |pad1| {
          assert (pad1 + lead)[i] == lead[i - |pad1|];
        }
      }
    }
    assert AllWhitespace(trail + pad2) by {
      forall i | 0 <= i < |trail + pad2| ensures IsWhitespace((trail + pad2)[i]) {
        if i < |trail| {
          assert (trail + pad2)[i] == trail[i];
        } else {
          assert (trail + pad2)[i] == pad2[i - |trail|];
        }
      }
    }
    TrimUnique(pad1 + lead, t, trail + pad2);
  }

  /** Every failure, whatever its cause, reaches the caller as the same message. */
  lemma FailureIndependentOfCause(cause1: string, cause2: string, parse1: Parser, parse2: Parser)
    ensures HandleResponse(Failure(cause1), parse1) == HandleResponse(Failure(cause2), parse2)
    ensures HandleResponse(Failure(cause1), parse1) == Failure(FailureMessage)
  {
  }

  /**
    The `recipes || []` step: a present, truthy `recipes` member is returned
    unchanged; a missing or falsy one, or a parsed value that is not an
    object (other than `null`), gives the empty array.
   */
  lemma RecipesOrEmpty(text: string, parse: Parser, parsed: Json)
    requires parse(Trim(text)) == Some(parsed) && parsed != JNull
    ensures HandleResponse(Success(text), parse).Success?
    ensures parsed.JObject? && Lookup(parsed.members, "recipes").Some?
              && Truthy(Lookup(parsed.members, "recipes").value)
            ==> HandleResponse(Success(text), parse).value == Lookup(parsed.members, "recipes").value
    ensures !(parsed.JObject? && Lookup(parsed.members, "recipes").Some?
              && Truthy(Lookup(parsed.members, "recipes").value))
            ==> HandleResponse(Success(text), parse).value == JArray([])
  {
  }

  /**
    When the provider honours the response schema, the service returns the
    `recipes` array itself, and that array is a genuine `Recipe[]`.
   */
  lemma ConformingResponse(text: string, parse: Parser, parsed: Json)
    requires parse(Trim(text)) == Some(parsed) && Conforms(parsed, ResponseSchema)
    ensures HandleResponse(Success(text), parse).Success?
    ensures Lookup(parsed.members, "recipes").Some?
    ensures HandleResponse(Success(text), parse).value == Lookup(parsed.members, "recipes").value
    ensures DecodeRecipes(HandleResponse(Success(text), parse).value).Some?
  {
    ResponseConforms(parsed);
  }

  /**
    A response that is the JSON form of a recipe list yields exactly those
    recipes, in order.
   */
  lemma EncodedResponseYieldsRecipes(text: string, parse: Parser, rs: seq<Recipe>)
    requires parse(Trim(text)) == Some(EncodeResponse(rs))
    ensures HandleResponse(Success(text), parse) == Success(EncodeRecipes(rs))
    ensures DecodeRecipes(HandleResponse(Success(text), parse).value) == Some(rs)
  {
    LookupAt(EncodeResponse(rs).members, 0, "recipes");
    DecodeEncodeRecipes(rs);
  }

  // ---------------------------------------------------------------------
  // The declared return type `Recipe[]`
  // ---------------------------------------------------------------------

  /**
    As written, the service returns whatever truthy value the parsed
    `recipes` member holds, although its declared type is `Recipe[]`: a
    provider answering `{"recipes": "soup"}` makes it succeed with a string.
   */
  lemma NonRecipeValueEscapes()
    ensures var run := GenerateRecipes(Client("key"), ["Garlic"],
                                       _ => Success("{\"recipes\": \"soup\"}"),
                                       _ => Some(JObject([("recipes", JString("soup"))])));
      && run.result == Success(JString("soup"))
      && DecodeRecipes(run.result.value).None?
  {
  }

  /**
    `generateRecipes` with its result held to the declared type: an answer
    whose `recipes` is not a `Recipe[]` is one more failure with the fixed
    message, and every success is a genuine recipe list.
   */
  function GenerateRecipeList(client: Client, ingredients: seq<string>, provider: Provider, parse: Parser)
    : (r: Result<seq<Recipe>, string>)
    requires Initialised(client)
    ensures |ingredients| == 0 ==> r == Success([])
    ensures r.Failure? ==> r.error == FailureMessage
    ensures var run := GenerateRecipes(client, ingredients, provider, parse);
      && (r.Success? <==> run.result.Success? && DecodeRecipes(run.result.value).Some?)
      && (r.Success? ==> DecodeRecipes(run.result.value) == Some(r.value))
  {
    var run := GenerateRecipes(client, ingredients, provider, parse);
    match run.result
    case Failure(message) => Failure(message)
    case Success(value) =>
      match DecodeRecipes(value)
      case None => Failure(FailureMessage)
      case Some(recipes) => Success(recipes)
  }

  /** The answer that escapes the unchecked service is a failure of the checked one. */
  lemma NonRecipeValueFails()
    ensures GenerateRecipeList(Client("key"), ["Garlic"],
                               _ => Success("{\"recipes\": \"soup\"}"),
                               _ => Some(JObject([("recipes", JString("soup"))])))
            == Failure(FailureMessage)
  {
    NonRecipeValueEscapes();
  }

  /**
    Checking the type never rejects an answer that honours the response
    schema, extra members included: the checked service succeeds with the
    recipes of the `recipes` array.
   */
  lemma ConformingResponseGivesRecipes(client: Client, ingredients: seq<string>, provider: Provider,
                                       parse: Parser, parsed: Json)
    requires Initialised(client) && |ingredients| > 0
    requires provider(RequestFor(client, ingredients)).Success?
    requires parse(Trim(provider(RequestFor(client, ingredients)).value)) == Some(parsed)
    requires Conforms(parsed, ResponseSchema)
    ensures Lookup(parsed.members, "recipes").Some?
    ensures DecodeRecipes(Lookup(parsed.members, "recipes").value).Some?
    ensures GenerateRecipeList(client, ingredients, provider, parse)
            == Success(DecodeRecipes(Lookup(parsed.members, "recipes").value).value)
  {
    ConformingResponse(provider(RequestFor(client, ingredients)).value, parse, parsed);
  }

  /** An answer encoding a recipe list gives exactly that list, in order. */
  lemma EncodedResponseGivesRecipes(client: Client, ingredients: seq<string>, provider: Provider,
                                    parse: Parser, rs: seq<Recipe>)
    requires Initialised(client) && |ingredients| > 0
    requires provider(RequestFor(client, ingredients)).Success?
    requires parse(Trim(provider(RequestFor(client, ingredients)).value)) == Some(EncodeResponse(rs))
    ensures GenerateRecipeList(client, ingredients, provider, parse) == Success(rs)
  {
    EncodedResponseYieldsRecipes(provider(RequestFor(client, ingredients)).value, parse, rs);
  }
}
