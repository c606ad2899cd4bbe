/**
  The application's state and its event handlers: adding and removing
  ingredients, the two steps of a generation request (start, then settle
  with the service's outcome), and the predicates that decide which parts of
  the page are enabled or visible.

  The five pieces of component state are one immutable record; each handler
  is a function from the state before the event to the state after it.
 */
module App {
  import opened Wrappers
  import opened Text
  import opened Recipes

  datatype AppState = AppState(
    ingredients: seq<string>,
    newIngredient: string,
    recipes: seq<Recipe>,
    isLoading: bool,
    error: Option<string>
  )

  const InitialIngredients: seq<string> := ["Tomatoes", "Chicken Breast", "Garlic"]

  const Initial: AppState := AppState(InitialIngredients, "", [], false, None)

  const ValidationMessage: string := "Please add at least one ingredient."

  const UnknownErrorMessage: string := "An unknown error occurred."

  // ---------------------------------------------------------------------
  // Ingredient list
  // ---------------------------------------------------------------------

  /**
    The list invariant: every entry is non-empty and already trimmed, and
    no two entries are equal once lower-cased.
   */
  predicate WellFormed(list: seq<string>) {
    && (forall i | 0 <= i < |list| :: |list[i]| > 0 && Trim(list[i]) == list[i])
    && (forall i, j | 0 <= i < j < |list| :: Lower(list[i]) != Lower(list[j]))
  }

  /** Some entry equals `entry` ignoring case. */
  predicate ContainsIgnoringCase(list: seq<string>, entry: string) {
    exists i | 0 <= i < |list| :: Lower(list[i]) == Lower(entry)
  }

  /**
    The Add button (and Enter in the input field). A blank input, or one
    whose trimmed text is already listed ignoring case, changes nothing;
    otherwise the trimmed text goes to the end of the list and the input
    field is cleared.
   */
  function HandleAddIngredient(s: AppState): (r: AppState)
    ensures r.recipes == s.recipes && r.isLoading == s.isLoading && r.error == s.error
    ensures AllWhitespace(s.newIngredient) ==> r == s
    ensures ContainsIgnoringCase(s.ingredients, Trim(s.newIngredient)) ==> r == s
    ensures !AllWhitespace(s.newIngredient) && !ContainsIgnoringCase(s.ingredients, Trim(s.newIngredient)) ==>
      && r.ingredients == s.ingredients + [Trim(s.newIngredient)]
      && r.newIngredient == ""
  {
    TrimEmptyIffWhitespace(s.newIngredient);
    var entry := Trim(s.newIngredient);
    assert forall i | 0 <= i < |s.ingredients| :: LowerAll(s.ingredients)[i] == Lower(s.ingredients[i]);
    if |entry| > 0 && Lower(entry) !in LowerAll(s.ingredients) then
      s.(ingredients := s.ingredients + [entry], newIngredient := "")
    else
      s
  }

  /** A key press in the input field: Enter adds, any other key does nothing. */
  function HandleKeyPress(s: AppState, key: string): (r: AppState)
    ensures key != "Enter" ==> r == s
    ensures key == "Enter" ==> r == HandleAddIngredient(s)
  {
    if key == "Enter" then HandleAddIngredient(s) else s
  }

  /** `list.filter((_, i) => i !== index)`, scanning positions from the end. */
  function FilterOutPosition(list: seq<string>, index: int): (r: seq<string>)
    ensures 0 <= index < |list| ==> r == list[..index] + list[index + 1..]
    ensures !(0 <= index < |list|) ==> r == list
    decreases |list|
  {
    if |list| == 0 then []
    else
      var last := |list| - 1;
      FilterOutPosition(list[..last], index) + (if last != index then [list[last]] else [])
  }

  /**
    The remove button of entry `index`: exactly that entry disappears and
    the others keep their order; an index outside the list changes nothing.
   */
  function HandleRemoveIngredient(s: AppState, index: int): (r: AppState)
    ensures r.newIngredient == s.newIngredient && r.recipes == s.recipes
    ensures r.isLoading == s.isLoading && r.error == s.error
    ensures 0 <= index < |s.ingredients| ==>
      && |r.ingredients| == |s.ingredients| - 1
      && (forall k | 0 <= k < index :: r.ingredients[k] == s.ingredients[k])
      && (forall k | index <= k < |r.ingredients| :: r.ingredients[k] == s.ingredients[k + 1])
    ensures !(0 <= index < |s.ingredients|) ==> r.ingredients == s.ingredients
  {
    s.(ingredients := FilterOutPosition(s.ingredients, index))
  }

  /** The initial list satisfies the list invariant. */
  lemma InitialWellFormed()
    ensures WellFormed(Initial.ingredients)
  {
  }

  /** Adding keeps the list invariant. */
  lemma AddPreservesWellFormed(s: AppState)
    requires WellFormed(s.ingredients)
    ensures WellFormed(HandleAddIngredient(s).ingredients)
  {
    var r := HandleAddIngredient(s);
    if r.ingredients != s.ingredients {
      var entry := Trim(s.newIngredient);
      TrimEmptyIffWhitespace(s.newIngredient);
      TrimIdempotent(s.newIngredient);
      var l := r.ingredients;
      assert l[|l| - 1] == entry;
      forall i, j | 0 <= i < j < |l| ensures Lower(l[i]) != Lower(l[j]) {
        assert l[i] == s.ingredients[i];
        if j < |s.ingredients| {
          assert l[j] == s.ingredients[j];
        }
      }
    }
  }

  /** Removing keeps the list invariant. */
  lemma RemovePreservesWellFormed(s: AppState, index: int)
    requires WellFormed(s.ingredients)
    ensures WellFormed(HandleRemoveIngredient(s, index).ingredients)
  {
  }

  /** A second Add right after the first changes nothing: the input field is blank or rejected. */
  lemma AddTwiceIsAddOnce(s: AppState)
    ensures HandleAddIngredient(HandleAddIngredient(s)) == HandleAddIngredient(s)
  {
  }

  /** Removing the entry an Add just appended restores the list. */
  lemma RemoveUndoesAdd(s: AppState)
    requires HandleAddIngredient(s).ingredients != s.ingredients
    ensures HandleRemoveIngredient(HandleAddIngredient(s), |s.ingredients|).ingredients == s.ingredients
  {
  }

  // ---------------------------------------------------------------------
  // Generation request
  // ---------------------------------------------------------------------

  /** The state after the click, and the ingredient list handed to the service, if any. */
  datatype Started = Started(state: AppState, call: Option<seq<string>>)

  /**
    The Generate button, up to the service call. An empty list only sets the
    validation error and calls nothing; otherwise loading starts, the error
    and the previous recipes are cleared and the service is asked about the
    current list.
   */
  function StartGenerate(s: AppState): (r: Started)
    ensures r.state.ingredients == s.ingredients && r.state.newIngredient == s.newIngredient
    ensures r.call.None? <==> |s.ingredients| == 0
    ensures |s.ingredients| == 0 ==>
      && r.state.error == Some(ValidationMessage)
      && r.state.recipes == s.recipes
      && r.state.isLoading == s.isLoading
    ensures |s.ingredients| > 0 ==>
      && r.call == Some(s.ingredients)
      && r.state.isLoading
      && r.state.error.None?
      && r.state.recipes == []
  {
    if |s.ingredients| == 0 then
      Started(s.(error := Some(ValidationMessage)), None)
    else
      Started(s.(isLoading := true, error := None, recipes := []), Some(s.ingredients))
  }

  /**
    The service settled. Success installs its recipes, failure installs its
    message (or a generic one when the message is empty); either way loading
    ends. Ingredients edited in the meantime are kept.
   */
  function SettleGenerate(s: AppState, outcome: Result<seq<Recipe>, string>): (r: AppState)
    ensures !r.isLoading
    ensures r.ingredients == s.ingredients && r.newIngredient == s.newIngredient
    ensures outcome.Success? ==> r.recipes == outcome.value && r.error == s.error
    ensures outcome.Failure? ==> r.recipes == s.recipes && r.error.Some? && |r.error.value| > 0
    ensures outcome.Failure? && |outcome.error| > 0 ==> r.error == Some(outcome.error)
    ensures outcome.Failure? && |outcome.error| == 0 ==> r.error == Some(UnknownErrorMessage)
  {
    match outcome
    case Success(recipes) => s.(recipes := recipes, isLoading := false)
    case Failure(message) =>
      var shown := if |message| > 0 then message else UnknownErrorMessage;
      s.(error := Some(shown), isLoading := false)
  }

  // ---------------------------------------------------------------------
  // What the page shows
  // ---------------------------------------------------------------------

  /** The Generate button is enabled. */
  predicate GenerateEnabled(s: AppState) {
    !s.isLoading && |s.ingredients| > 0
  }

  /** The ingredient chips are shown. */
  predicate IngredientListShown(s: AppState) {
    |s.ingredients| > 0
  }

  /** The error banner is shown (an empty message is falsy and hides it). */
  predicate ErrorShown(s: AppState) {
    s.error.Some? && |s.error.value| > 0
  }

  /** The recipe cards are shown. */
  predicate RecipesShown(s: AppState) {
    |s.recipes| > 0 && !s.isLoading
  }

  /** The "Click Generate Recipes" hint is shown. */
  predicate HintShown(s: AppState) {
    !s.isLoading && |s.recipes| == 0 && |s.ingredients| > 0 && !ErrorShown(s)
  }

  /**
    The cards and the hint never appear together, the hint only appears
    below a non-empty ingredient list, and while a request is in flight
    neither appears and the button is disabled, so no second request can
    start.
   */
  lemma VisibilityExclusive(s: AppState)
    ensures !(RecipesShown(s) && HintShown(s))
    ensures HintShown(s) ==> IngredientListShown(s)
    ensures s.isLoading ==> !RecipesShown(s) && !HintShown(s) && !GenerateEnabled(s)
  {
  }

  /**
    Clicking the enabled button always reaches the service: the validation
    branch runs only when the handler is invoked with an empty list, which
    the disabled button prevents. Afterwards the button is disabled.
   */
  lemma EnabledGenerateCallsService(s: AppState)
    requires GenerateEnabled(s)
    ensures StartGenerate(s).call == Some(s.ingredients)
    ensures !GenerateEnabled(StartGenerate(s).state)
    ensures !RecipesShown(StartGenerate(s).state) && !HintShown(StartGenerate(s).state)
    ensures !ErrorShown(StartGenerate(s).state)
  {
  }

  /**
    A complete request from a non-empty list: on success the new recipes
    are shown (or the hint, when there are none) with no error; on failure
    the message is shown, no recipes are, and the hint is hidden.
   */
  lemma GenerateThenSettle(s: AppState, outcome: Result<seq<Recipe>, string>)
    requires |s.ingredients| > 0
    ensures var t := SettleGenerate(StartGenerate(s).state, outcome);
      && !t.isLoading
      && t.ingredients == s.ingredients
      && GenerateEnabled(t)
      && (outcome.Success? ==>
            && t.recipes == outcome.value && t.error.None?
            && (RecipesShown(t) <==> |outcome.value| > 0)
            && (HintShown(t) <==> |outcome.value| == 0))
      && (outcome.Failure? ==>
            && t.recipes == [] && ErrorShown(t)
            && !RecipesShown(t) && !HintShown(t))
  {
  }

  /**
    The request state is four independent fields rather than one phase: the
    validation error leaves the recipes of an earlier request in place, so
    cards and error banner can be shown at once.
   */
  lemma ValidationErrorKeepsRecipes(s: AppState)
    requires |s.ingredients| == 0 && RecipesShown(s)
    ensures RecipesShown(StartGenerate(s).state) && ErrorShown(StartGenerate(s).state)
  {
  }

  /**
    The states the page can reach by its controls: the list invariant holds,
    and while loading there are neither recipes nor an error.
   */
  predicate Consistent(s: AppState) {
    && WellFormed(s.ingredients)
    && (s.isLoading ==> s.recipes == [] && s.error.None?)
  }

  lemma ConsistentInitially()
    ensures Consistent(Initial)
  {
  }

  /** Every control keeps the state consistent; Generate is only clickable when enabled. */
  lemma ControlsPreserveConsistent(s: AppState, index: int, outcome: Result<seq<Recipe>, string>)
    requires Consistent(s)
    ensures Consistent(HandleAddIngredient(s))
    ensures Consistent(HandleRemoveIngredient(s, index))
    ensures GenerateEnabled(s) ==> Consistent(StartGenerate(s).state)
    ensures Consistent(SettleGenerate(s, outcome))
  {
    AddPreservesWellFormed(s);
    RemovePreservesWellFormed(s, index);
  }
}
