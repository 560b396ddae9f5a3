/** The recipe form page: the form record, its per-field update, the dietary-option toggle, the
    submit guard and the loading/error/recipe state around one generation attempt. The
    generation call itself is a parameter: its outcome, a recipe or a failure. */
module App {
  import opened Optional
  import opened Text
  import opened Types
  import GeneratePrompt

  /** The form as the page first shows it: no ingredients, both selects on "any type", no
      dietary option. */
  function InitialFormData(): (r: FormData)
    ensures r.ingredients == "" && r.dietaryOptions == []
    ensures r.cuisine == GeneratePrompt.AnyType && r.mealType == GeneratePrompt.AnyType
  {
    FormData("", GeneratePrompt.AnyType, GeneratePrompt.AnyType, [])
  }

  /** Shown when the generation attempt fails. */
  const GenerationErrorMessage: string := "حدث خطأ أثناء إنشاء الوصفة. يرجى المحاولة مرة أخرى."

  /** The three named inputs of the form: the ingredients text area and the two selects. */
  datatype FormField = Ingredients | Cuisine | MealType

  function FieldValue(f: FormData, field: FormField): string {
    match field
    case Ingredients => f.ingredients
    case Cuisine => f.cuisine
    case MealType => f.mealType
  }

  /** `handleInputChange`: the named field takes the new value; the rest of the record is kept. */
  function WithField(f: FormData, field: FormField, value: string): (r: FormData)
    ensures FieldValue(r, field) == value
    ensures forall other :: other != field ==> FieldValue(r, other) == FieldValue(f, other)
    ensures r.dietaryOptions == f.dietaryOptions
  {
    match field
    case Ingredients => f.(ingredients := value)
    case Cuisine => f.(cuisine := value)
    case MealType => f.(mealType := value)
  }

  /** The later of two changes to one field wins, and writing back a field's own value changes
      nothing. */
  lemma WithFieldOverwrite(f: FormData, field: FormField, x: string, y: string)
    ensures WithField(WithField(f, field, x), field, y) == WithField(f, field, y)
    ensures WithField(f, field, FieldValue(f, field)) == f
  {
  }

  /** Changes to two different fields commute. */
  lemma WithFieldCommute(f: FormData, a: FormField, b: FormField, x: string, y: string)
    requires a != b
    ensures WithField(WithField(f, a, x), b, y) == WithField(WithField(f, b, y), a, x)
  {
  }

  /** `a` is `b` with some elements left out, order kept. */
  predicate IsSubsequence<T(==)>(a: seq<T>, b: seq<T>)
    decreases |b|
  {
    a == [] || (b != [] && (if a[0] == b[0] then IsSubsequence(a[1..], b[1..]) else IsSubsequence(a, b[1..])))
  }

  /** `xs.filter(o => o !== option)`: every occurrence of the option goes, the rest stay in order. */
  function RemoveAll(xs: seq<string>, option: string): (r: seq<string>)
    ensures option !in r
    ensures forall y :: y != option ==> multiset(r)[y] == multiset(xs)[y]
    ensures IsSubsequence(r, xs)
  {
    if xs == [] then []
    else
      assert xs == [xs[0]] + xs[1..];
      var rest := RemoveAll(xs[1..], option);
      if xs[0] == option then rest
      else
        assert ([xs[0]] + rest)[1..] == rest;
        [xs[0]] + rest
  }

  /** `handleDietaryOptionToggle`: a chosen option is removed, every occurrence of it, the rest
      keeping their order; an unchosen one is appended at the end. */
  function ToggleOption(xs: seq<string>, option: string): (r: seq<string>)
    ensures option in xs ==>
      && option !in r && IsSubsequence(r, xs)
      && forall y :: y != option ==> multiset(r)[y] == multiset(xs)[y]
    ensures option !in xs ==> |r| == |xs| + 1 && r[..|xs|] == xs && r[|xs|] == option
    ensures option in r <==> option !in xs
  {
    if option in xs then RemoveAll(xs, option) else xs + [option]
  }

  lemma {:induction false} RemoveAllAbsent(xs: seq<string>, option: string)
    requires option !in xs
    ensures RemoveAll(xs, option) == xs
  {
    if xs != [] {
      assert xs == [xs[0]] + xs[1..] && xs[0] != option;
      RemoveAllAbsent(xs[1..], option);
      assert RemoveAll(xs, option) == [xs[0]] + RemoveAll(xs[1..], option);
    }
  }

  lemma {:induction false} RemoveAllAppend(xs: seq<string>, ys: seq<string>, option: string)
    ensures RemoveAll(xs + ys, option) == RemoveAll(xs, option) + RemoveAll(ys, option)
  {
    if xs != [] {
      assert (xs + ys)[0] == xs[0] && (xs + ys)[1..] == xs[1..] + ys;
      RemoveAllAppend(xs[1..], ys, option);
      var a, b := RemoveAll(xs[1..], option), RemoveAll(ys, option);
      assert [xs[0]] + (a + b) == [xs[0]] + a + b;
    } else {
      assert xs + ys == ys;
    }
  }

  /** Choosing an unchosen option and then unchoosing it restores the list. */
  lemma ToggleTwiceRestores(xs: seq<string>, option: string)
    requires option !in xs
    ensures ToggleOption(ToggleOption(xs, option), option) == xs
  {
    RemoveAllAppend(xs, [option], option);
    RemoveAllAbsent(xs, option);
  }

  /** No option occurs twice. */
  predicate NoDuplicates(xs: seq<string>) {
    forall y :: y in xs ==> multiset(xs)[y] == 1
  }

  /** A list without duplicates stays without duplicates under the toggle. */
  lemma ToggleKeepsNoDuplicates(xs: seq<string>, option: string)
    requires NoDuplicates(xs)
    ensures NoDuplicates(ToggleOption(xs, option))
  {
    var r := ToggleOption(xs, option);
    if option !in xs {
      assert r == xs + [option];
      assert multiset(r) == multiset(xs) + multiset{option};
    }
  }

  /** The guard of `handleSubmit`: not loading and the ingredients not the empty string. */
  predicate SubmitGuardPasses(isLoading: bool, f: FormData)
    ensures SubmitGuardPasses(isLoading, f) <==> !isLoading && |f.ingredients| > 0
  {
    !isLoading && f.ingredients != ""
  }

  /** The submit button is enabled: not loading and the trimmed ingredients not empty, that is,
      some character of the ingredients is not white space. */
  predicate SubmitEnabled(isLoading: bool, f: FormData)
    ensures SubmitEnabled(isLoading, f) <==> !isLoading && !AllSpace(f.ingredients)
  {
    TrimBlank(f.ingredients);
    !isLoading && !IsBlank(f.ingredients)
  }

  /** An enabled button always gets past the guard; the guard alone does not reject ingredients
      made only of white space, which the button does. */
  lemma EnabledImpliesGuard(isLoading: bool, f: FormData)
    ensures SubmitEnabled(isLoading, f) ==> SubmitGuardPasses(isLoading, f)
    ensures f.ingredients != "" && AllSpace(f.ingredients) ==>
      SubmitGuardPasses(false, f) && !SubmitEnabled(false, f)
  {
    TrimBlank(f.ingredients);
  }

  /** The initial form cannot be submitted, and it asks for a recipe of any cuisine and meal
      type with no dietary restriction. */
  lemma InitialFormState()
    ensures !SubmitGuardPasses(false, InitialFormData()) && !SubmitEnabled(false, InitialFormData())
    ensures GeneratePrompt.Prompt(InitialFormData()) ==
      GeneratePrompt.Header + GeneratePrompt.IngredientsLine("") + GeneratePrompt.AnyCuisineLine
      + GeneratePrompt.AnyMealTypeLine + GeneratePrompt.NoDietaryLine
  {
    TrimBlank("");
    var f := InitialFormData();
    assert GeneratePrompt.CuisineLine(f.cuisine) == GeneratePrompt.AnyCuisineLine;
    assert GeneratePrompt.MealTypeLine(f.mealType) == GeneratePrompt.AnyMealTypeLine;
    assert GeneratePrompt.DietaryLine(f.dietaryOptions) == GeneratePrompt.NoDietaryLine;
  }

  /** What the generation call did. */
  datatype GenerationOutcome = Generated(recipe: Recipe) | GenerationFailed

  /** The page's state: the four `useState` fields. */
  class RecipeApp {
    var formData: FormData
    var recipe: Option<Recipe>
    var isLoading: bool
    var error: Option<string>

    /** While loading nothing is shown, and a recipe and an error are never shown together. */
    predicate Valid()
      reads this
      ensures Valid() ==> !(isLoading && (recipe.Some? || error.Some?))
      ensures Valid() ==> recipe.None? || error.None?
    {
      && (isLoading ==> recipe.None? && error.None?)
      && !(recipe.Some? && error.Some?)
    }

    constructor()
      ensures Valid()
      ensures formData == InitialFormData() && recipe == None && !isLoading && error == None
    {
      formData := InitialFormData();
      recipe := None;
      isLoading := false;
      error := None;
    }

    method HandleInputChange(field: FormField, value: string)
      requires Valid()
      modifies this
      ensures Valid()
      ensures formData == WithField(old(formData), field, value)
      ensures recipe == old(recipe) && isLoading == old(isLoading) && error == old(error)
    {
      formData := WithField(formData, field, value);
    }

    method HandleDietaryOptionToggle(option: string)
      requires Valid()
      modifies this
      ensures Valid()
      ensures formData == old(formData).(dietaryOptions := ToggleOption(old(formData.dietaryOptions), option))
      ensures recipe == old(recipe) && isLoading == old(isLoading) && error == old(error)
    {
      formData := formData.(dietaryOptions := ToggleOption(formData.dietaryOptions, option));
    }

    /** The part of `handleSubmit` before the awaited call: when the guard passes, loading starts,
        error and recipe are cleared, and the form is the request to send; otherwise nothing
        happens. */
    method StartSubmit() returns (request: Option<FormData>)
      requires Valid()
      modifies this
      ensures Valid() && formData == old(formData)
      ensures request.Some? <==> SubmitGuardPasses(old(isLoading), old(formData))
      ensures request.Some? ==>
        request.value == formData && isLoading && recipe == None && error == None
      ensures request.None? ==>
        recipe == old(recipe) && isLoading == old(isLoading) && error == old(error)
    {
      if isLoading || formData.ingredients == "" {
        return None;
      }
      isLoading := true;
      error := None;
      recipe := None;
      request := Some(formData);
    }

    /** The part after the awaited call: a recipe on success, the fixed message on failure, and
        loading over in both cases. */
    method FinishSubmit(outcome: GenerationOutcome)
      requires Valid() && isLoading
      modifies this
      ensures Valid() && !isLoading && formData == old(formData)
      ensures outcome.Generated? ==> recipe == Some(outcome.recipe) && error == None
      ensures outcome.GenerationFailed? ==> recipe == None && error == Some(GenerationErrorMessage)
    {
      if outcome.Generated? {
        recipe := Some(outcome.recipe);
      } else {
        error := Some(GenerationErrorMessage);
      }
      isLoading := false;
    }

    /** One whole submit, with `outcome` standing for what the generation call did. */
    method HandleSubmit(outcome: GenerationOutcome)
      requires Valid()
      modifies this
      ensures Valid() && formData == old(formData)
      ensures SubmitGuardPasses(old(isLoading), old(formData)) ==>
        && !isLoading
        && (outcome.Generated? ==> recipe == Some(outcome.recipe) && error == None)
        && (outcome.GenerationFailed? ==> recipe == None && error == Some(GenerationErrorMessage))
      ensures !SubmitGuardPasses(old(isLoading), old(formData)) ==>
        recipe == old(recipe) && isLoading == old(isLoading) && error == old(error)
    {
      var request := StartSubmit();
      if request.Some? {
        FinishSubmit(outcome);
      }
    }
  }
}
