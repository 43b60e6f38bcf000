/** The edit dialog of a saved recipe (src/components/EditRecipeDialog.tsx):
    the form filled from the recipe, and the update that saving the form
    sends to the store. */
module EditRecipeDialog {
  import opened Wrappers
  import opened Strings
  import opened Seqs
  import opened Records

  /** A saved recipe as the dialog receives it. */
  datatype Recipe = Recipe(
    id: string,
    title: string,
    description: Option<string>,
    ingredients: seq<string>,
    instructions: string,
    prepTime: Option<string>,
    cookTime: Option<string>,
    servings: Option<int>)

  /** The text fields of the form. */
  datatype Form = Form(
    title: string,
    description: string,
    ingredients: string,
    instructions: string,
    prepTime: string,
    cookTime: string,
    servings: string)

  /** The columns of the update sent to the store. */
  datatype RecipeUpdate = RecipeUpdate(
    title: string,
    description: Option<string>,
    ingredients: seq<string>,
    instructions: string,
    prepTime: Option<string>,
    cookTime: Option<string>,
    servings: Option<IntValue>)

  datatype SaveError = TitleRequired

  /** `x || ""` on an optional string. */
  function OrEmpty(v: Option<string>): string {
    match v
    case None => ""
    case Some(s) => s
  }

  /** The form as the dialog opens it: the ingredients one per line, the
      missing optional fields empty; `show` is `Number.prototype.toString`. */
  function InitialForm(r: Recipe, show: int -> string): Form {
    Form(
      r.title,
      OrEmpty(r.description),
      Join(r.ingredients, "\n"),
      r.instructions,
      OrEmpty(r.prepTime),
      OrEmpty(r.cookTime),
      match r.servings
      case None => ""
      case Some(n) => show(n))
  }

  /** `lines.map(line => line.trim())`. */
  function TrimLines(lines: seq<string>): (r: seq<string>)
    ensures |r| == |lines|
  {
    seq(|lines|, i requires 0 <= i < |lines| => Trim(lines[i]))
  }

  predicate NonEmpty(line: string) {
    line != ""
  }

  /** The ingredients textarea as saved: its lines, trimmed, without the empty ones. */
  function ParseIngredientLines(text: string): seq<string> {
    Filter(TrimLines(Split(text, '\n')), NonEmpty)
  }

  /** A list entry the textarea can hold on one line and give back as it is. */
  predicate IsEntry(x: string) {
    x != "" && IsTrimmed(x) && '\n' !in x
  }

  /** The saved ingredients are exactly the non-empty trimmed lines of the
      textarea; none is empty, padded or spans two lines. */
  lemma ParsedIngredients(text: string)
    ensures var r := ParseIngredientLines(text);
      && (forall x :: x in r <==> x != "" && x in TrimLines(Split(text, '\n')))
      && (forall i :: 0 <= i < |r| ==> IsEntry(r[i]))
  {
    var lines := Split(text, '\n');
    var r := ParseIngredientLines(text);
    forall i | 0 <= i < |r| ensures IsEntry(r[i]) {
      assert r[i] in TrimLines(lines);
      var j :| 0 <= j < |lines| && TrimLines(lines)[j] == r[i];
      TrimIsTrimmed(lines[j]);
      TrimSubset(lines[j]);
    }
  }

  /** An empty textarea saves no ingredients. */
  lemma EmptyTextNoIngredients()
    ensures ParseIngredientLines("") == []
  {
    assert Split("", '\n') == [""];
    assert TrimLines([""]) == [""] by {
      TrimOfTrimmed("");
    }
  }

  /** Trimming lines that are already trimmed leaves them as they are. */
  lemma TrimLinesOfTrimmed(xs: seq<string>)
    requires forall i :: 0 <= i < |xs| ==> IsTrimmed(xs[i])
    ensures TrimLines(xs) == xs
  {
    forall i | 0 <= i < |xs| ensures Trim(xs[i]) == xs[i] {
      TrimOfTrimmed(xs[i]);
    }
  }

  /** Saving a list joined one entry per line gives the list back. */
  lemma JoinedIngredientsRoundTrip(xs: seq<string>)
    requires forall i :: 0 <= i < |xs| ==> IsEntry(xs[i])
    ensures ParseIngredientLines(Join(xs, "\n")) == xs
  {
    if xs == [] {
      EmptyTextNoIngredients();
    } else {
      SplitJoin(xs, '\n');
      TrimLinesOfTrimmed(xs);
      FilterKeepsAll(xs, NonEmpty);
    }
  }

  /** Reopening and saving a saved ingredient list changes nothing. */
  lemma ParseIngredientLinesStable(text: string)
    ensures ParseIngredientLines(Join(ParseIngredientLines(text), "\n")) == ParseIngredientLines(text)
  {
    ParsedIngredients(text);
    JoinedIngredientsRoundTrip(ParseIngredientLines(text));
  }

  /** `handleSave`: a blank title is refused; otherwise the update, with the
      optional fields null when blank and an empty servings field null. */
  function SaveRecipe(f: Form, parseInt: string -> IntValue): (r: Result<RecipeUpdate, SaveError>)
    ensures r.Err? <==> AllSpace(f.title)
    ensures r.Ok? ==> r.value.title != "" && IsTrimmed(r.value.title)
  {
    TrimEmptyIffAllSpace(f.title);
    TrimIsTrimmed(f.title);
    if Trim(f.title) == "" then Err(TitleRequired)
    else Ok(RecipeUpdate(
      Trim(f.title),
      TrimOrNull(f.description),
      ParseIngredientLines(f.ingredients),
      Trim(f.instructions),
      TrimOrNull(f.prepTime),
      TrimOrNull(f.cookTime),
      if f.servings != "" then Some(parseInt(f.servings)) else None))
  }

  /** What a successful save writes: every text trimmed, every blank
      optional field null, an empty servings field null. */
  lemma SavedFields(f: Form, parseInt: string -> IntValue)
    requires !AllSpace(f.title)
    ensures var u := SaveRecipe(f, parseInt).value;
      && u.title == Trim(f.title)
      && u.ingredients == ParseIngredientLines(f.ingredients)
      && u.instructions == Trim(f.instructions) && IsTrimmed(u.instructions)
      && (u.description.Some? ==> u.description.value == Trim(f.description))
      && (u.prepTime.Some? ==> u.prepTime.value == Trim(f.prepTime))
      && (u.cookTime.Some? ==> u.cookTime.value == Trim(f.cookTime))
      && (f.servings != "" ==> u.servings == Some(parseInt(f.servings)))
      && (u.description == None <==> AllSpace(f.description))
      && (u.prepTime == None <==> AllSpace(f.prepTime))
      && (u.cookTime == None <==> AllSpace(f.cookTime))
      && (u.servings == None <==> f.servings == "")
  {
    TrimIsTrimmed(f.instructions);
  }

  /** A recipe whose texts are already normalised is what it was after
      being opened and saved without a change. */
  predicate Normalised(r: Recipe) {
    && r.title != "" && IsTrimmed(r.title)
    && (r.description.Some? ==> r.description.value != "" && IsTrimmed(r.description.value))
    && (forall i :: 0 <= i < |r.ingredients| ==> IsEntry(r.ingredients[i]))
    && IsTrimmed(r.instructions)
    && (r.prepTime.Some? ==> r.prepTime.value != "" && IsTrimmed(r.prepTime.value))
    && (r.cookTime.Some? ==> r.cookTime.value != "" && IsTrimmed(r.cookTime.value))
  }

  lemma OptionalUnchanged(v: Option<string>)
    requires v.Some? ==> v.value != "" && IsTrimmed(v.value)
    ensures TrimOrNull(OrEmpty(v)) == v
  {
    match v
    case None =>
      assert AllSpace("");
    case Some(s) =>
      TrimOfTrimmed(s);
  }

  /** Opening the dialog and saving at once writes back the recipe as it was,
      provided `parseInt` reads back what `toString` printed for the recipe's
      own servings. */
  lemma SaveUnchangedForm(r: Recipe, show: int -> string, parseInt: string -> IntValue)
    requires Normalised(r)
    requires r.servings.Some? ==> show(r.servings.value) != "" && parseInt(show(r.servings.value)) == Int(r.servings.value)
    ensures SaveRecipe(InitialForm(r, show), parseInt) == Ok(RecipeUpdate(
      r.title, r.description, r.ingredients, r.instructions, r.prepTime, r.cookTime,
      match r.servings
      case None => None
      case Some(n) => Some(Int(n))))
  {
    TrimOfTrimmed(r.title);
    TrimOfTrimmed(r.instructions);
    JoinedIngredientsRoundTrip(r.ingredients);
    OptionalUnchanged(r.description);
    OptionalUnchanged(r.prepTime);
    OptionalUnchanged(r.cookTime);
  }
}
