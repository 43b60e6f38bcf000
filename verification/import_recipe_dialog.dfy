/** The import dialog (src/components/ImportRecipeDialog.tsx): the parser of
    the labelled text the import function returns (`parseRecipeResponse`),
    and the decoding of each `name|quantity|unit` ingredient into a row of
    the shopping list. */
module ImportRecipeDialog {
  import opened Wrappers
  import opened Strings
  import opened Records

  /** What one trimmed line of the response is, tested in the source's
      order; a line that is none of the labelled ones is a body line. */
  datatype LineKind =
    | TitleLine(title: string)
    | DescriptionLine(description: string)
    | IngredientsHeader
    | InstructionsLine(firstLine: string)
    | PrepTimeLine(prepTime: string)
    | CookTimeLine(cookTime: string)
    | PortionsLine(portions: string)
    | Body(text: string)

  /** `currentSection`: "", "ingredients" or "instructions". */
  datatype Section = NoSection | Ingredients | Instructions

  /** The labelled single-line fields; the last line carrying one wins. */
  datatype Field = TitleField | DescriptionField | PrepField | CookField | PortionsField

  datatype ParsedRecipe = ParsedRecipe(
    title: string,
    description: string,
    ingredients: seq<string>,
    instructions: string,
    prepTime: Option<string>,
    cookTime: Option<string>,
    servings: Option<IntValue>)

  const IngredientsMarker: string := "INGR\U{00C9}DIENTS:"

  /** `line.replace(marker, '').trim()`. */
  function After(line: string, marker: string): (r: string)
    ensures IsTrimmed(r)
  {
    TrimIsTrimmed(ReplaceFirst(line, marker, ""));
    Trim(ReplaceFirst(line, marker, ""))
  }

  /** The branch of the loop body a trimmed line takes; the two
      section-dependent branches are both `Body`. */
  function Classify(t: string): LineKind {
    if StartsWith(t, "TITRE:") then TitleLine(After(t, "TITRE:"))
    else if StartsWith(t, "DESCRIPTION:") then DescriptionLine(After(t, "DESCRIPTION:"))
    else if t == IngredientsMarker then IngredientsHeader
    else if StartsWith(t, "INSTRUCTIONS:") then InstructionsLine(After(t, "INSTRUCTIONS:"))
    else if StartsWith(t, "TEMPS_PREP:") then PrepTimeLine(After(t, "TEMPS_PREP:"))
    else if StartsWith(t, "TEMPS_CUISSON:") then CookTimeLine(After(t, "TEMPS_CUISSON:"))
    else if StartsWith(t, "PORTIONS:") then PortionsLine(After(t, "PORTIONS:"))
    else Body(t)
  }

  function Kind(line: string): LineKind {
    Classify(Trim(line))
  }

  /** The kinds of the lines of a response, in order. */
  function Kinds(lines: seq<string>): seq<LineKind> {
    seq(|lines|, i requires 0 <= i < |lines| => Kind(lines[i]))
  }

  /** The value a line gives to a labelled field, if it is that field's line. */
  function FieldOf(k: LineKind, f: Field): Option<string> {
    match f
    case TitleField => if k.TitleLine? then Some(k.title) else None
    case DescriptionField => if k.DescriptionLine? then Some(k.description) else None
    case PrepField => if k.PrepTimeLine? then Some(k.prepTime) else None
    case CookField => if k.CookTimeLine? then Some(k.cookTime) else None
    case PortionsField => if k.PortionsLine? then Some(k.portions) else None
  }

  /** The value of the last line of `ks` that carries field `f`. */
  function LastValue(ks: seq<LineKind>, f: Field): Option<string>
  {
    if ks == [] then None
    else match FieldOf(ks[|ks| - 1], f)
      case Some(v) => Some(v)
      case None => LastValue(ks[..|ks| - 1], f)
  }

  /** `x === 'N/A' ? null : x`. */
  function UnlessNA(v: Option<string>): Option<string> {
    if v == Some("N/A") then None else v
  }

  /** The section the parser is in after reading lines of kinds `ks`. */
  function SectionAfter(ks: seq<LineKind>): Section
  {
    if ks == [] then NoSection
    else match ks[|ks| - 1]
      case IngredientsHeader => Ingredients
      case InstructionsLine(_) => Instructions
      case PrepTimeLine(_) => NoSection
      case _ => SectionAfter(ks[..|ks| - 1])
  }

  /** The ingredient lines: non-empty body lines read in the ingredients section. */
  function IngredientsOf(ks: seq<LineKind>): seq<string>
  {
    if ks == [] then []
    else
      var init := ks[..|ks| - 1];
      var k := ks[|ks| - 1];
      IngredientsOf(init) + (if k.Body? && k.text != "" && SectionAfter(init) == Ingredients then [k.text] else [])
  }

  /** The paragraphs of the instructions: a non-empty text after
      `INSTRUCTIONS:` starts them afresh, and every non-empty body line read
      in the instructions section is one more. */
  function Paragraphs(ks: seq<LineKind>): seq<string>
  {
    if ks == [] then []
    else
      var init := ks[..|ks| - 1];
      match ks[|ks| - 1]
      case InstructionsLine(first) => if first != "" then [first] else Paragraphs(init)
      case Body(t) => if t != "" && SectionAfter(init) == Instructions then Paragraphs(init) + [t] else Paragraphs(init)
      case _ => Paragraphs(init)
  }

  /** The recipe that lines of kinds `ks` describe. */
  function RecipeOf(ks: seq<LineKind>, parseInt: string -> IntValue): ParsedRecipe
  {
    ParsedRecipe(
      LastValue(ks, TitleField).GetOr(""),
      UnlessNA(LastValue(ks, DescriptionField)).GetOr(""),
      IngredientsOf(ks),
      Join(Paragraphs(ks), "\n\n"),
      UnlessNA(LastValue(ks, PrepField)),
      UnlessNA(LastValue(ks, CookField)),
      match UnlessNA(LastValue(ks, PortionsField))
      case None => None
      case Some(p) => Some(parseInt(p)))
  }

  lemma {:induction false} ParagraphsNonEmpty(ks: seq<LineKind>)
    ensures forall i :: 0 <= i < |Paragraphs(ks)| ==> Paragraphs(ks)[i] != ""
  {
    if ks != [] {
      ParagraphsNonEmpty(ks[..|ks| - 1]);
    }
  }

  /** Joining non-empty paragraphs gives "" only when there are none. */
  lemma {:induction false} JoinEmptyIffNone(ps: seq<string>, sep: string)
    requires forall i :: 0 <= i < |ps| ==> ps[i] != ""
    ensures Join(ps, sep) == "" <==> ps == []
  {
    if |ps| > 1 {
      assert |Join(ps, sep)| >= |ps[0]|;
    }
  }

  /** The locals of `parseRecipeResponse` between two iterations. */
  datatype ParserState = ParserState(
    title: string,
    description: string,
    ingredients: seq<string>,
    instructions: string,
    prepTime: Option<string>,
    cookTime: Option<string>,
    servings: Option<IntValue>,
    section: Section)

  const Start := ParserState("", "", [], "", None, None, None, NoSection)

  /** The effect on the locals of one line of kind `k`. */
  function Step(st: ParserState, k: LineKind, parseInt: string -> IntValue): ParserState
  {
    match k
    case TitleLine(v) => st.(title := v)
    case DescriptionLine(v) => st.(description := if v == "N/A" then "" else v)
    case IngredientsHeader => st.(section := Ingredients)
    case InstructionsLine(v) => st.(section := Instructions, instructions := if v != "" then v else st.instructions)
    case PrepTimeLine(v) => st.(section := NoSection, prepTime := if v == "N/A" then None else Some(v))
    case CookTimeLine(v) => st.(cookTime := if v == "N/A" then None else Some(v))
    case PortionsLine(v) => st.(servings := if v == "N/A" then None else Some(parseInt(v)))
    case Body(t) =>
      if st.section == Ingredients && t != "" then st.(ingredients := st.ingredients + [t])
      else if st.section == Instructions && t != "" then
        st.(instructions := st.instructions + (if st.instructions != "" then "\n\n" else "") + t)
      else st
  }

  /** The locals after reading lines of kinds `ks`. */
  function Run(ks: seq<LineKind>, parseInt: string -> IntValue): ParserState
  {
    if ks == [] then Start
    else Step(Run(ks[..|ks| - 1], parseInt), ks[|ks| - 1], parseInt)
  }

  lemma {:induction false} RunSection(ks: seq<LineKind>, parseInt: string -> IntValue)
    ensures Run(ks, parseInt).section == SectionAfter(ks)
  {
    if ks != [] {
      RunSection(ks[..|ks| - 1], parseInt);
    }
  }

  lemma {:induction false} RunTitle(ks: seq<LineKind>, parseInt: string -> IntValue)
    ensures Run(ks, parseInt).title == LastValue(ks, TitleField).GetOr("")
  {
    if ks != [] {
      RunTitle(ks[..|ks| - 1], parseInt);
    }
  }

  lemma {:induction false} RunDescription(ks: seq<LineKind>, parseInt: string -> IntValue)
    ensures Run(ks, parseInt).description == UnlessNA(LastValue(ks, DescriptionField)).GetOr("")
  {
    if ks != [] {
      RunDescription(ks[..|ks| - 1], parseInt);
    }
  }

  lemma {:induction false} RunPrepTime(ks: seq<LineKind>, parseInt: string -> IntValue)
    ensures Run(ks, parseInt).prepTime == UnlessNA(LastValue(ks, PrepField))
  {
    if ks != [] {
      RunPrepTime(ks[..|ks| - 1], parseInt);
    }
  }

  lemma {:induction false} RunCookTime(ks: seq<LineKind>, parseInt: string -> IntValue)
    ensures Run(ks, parseInt).cookTime == UnlessNA(LastValue(ks, CookField))
  {
    if ks != [] {
      RunCookTime(ks[..|ks| - 1], parseInt);
    }
  }

  lemma {:induction false} RunServings(ks: seq<LineKind>, parseInt: string -> IntValue)
    ensures Run(ks, parseInt).servings == match UnlessNA(LastValue(ks, PortionsField))
                                         case None => None
                                         case Some(p) => Some(parseInt(p))
  {
    if ks != [] {
      RunServings(ks[..|ks| - 1], parseInt);
    }
  }

  lemma {:induction false} RunIngredients(ks: seq<LineKind>, parseInt: string -> IntValue)
    ensures Run(ks, parseInt).ingredients == IngredientsOf(ks)
  {
    if ks != [] {
      var init := ks[..|ks| - 1];
      RunIngredients(init, parseInt);
      RunSection(init, parseInt);
    }
  }

  lemma {:induction false} RunInstructions(ks: seq<LineKind>, parseInt: string -> IntValue)
    ensures Run(ks, parseInt).instructions == Join(Paragraphs(ks), "\n\n")
  {
    if ks != [] {
      var init := ks[..|ks| - 1];
      RunInstructions(init, parseInt);
      RunSection(init, parseInt);
      ParagraphsNonEmpty(init);
      JoinEmptyIffNone(Paragraphs(init), "\n\n");
      var k := ks[|ks| - 1];
      if k.Body? && Paragraphs(init) != [] {
        JoinSnoc(Paragraphs(init), k.text, "\n\n");
      }
    }
  }

  /** The fold of `Step` produces the recipe that the lines describe. */
  lemma RunMeetsRecipe(ks: seq<LineKind>, parseInt: string -> IntValue)
    ensures var st := Run(ks, parseInt);
      RecipeOf(ks, parseInt)
        == ParsedRecipe(st.title, st.description, st.ingredients, st.instructions, st.prepTime, st.cookTime, st.servings)
  {
    RunTitle(ks, parseInt);
    RunDescription(ks, parseInt);
    RunPrepTime(ks, parseInt);
    RunCookTime(ks, parseInt);
    RunServings(ks, parseInt);
    RunIngredients(ks, parseInt);
    RunInstructions(ks, parseInt);
  }

  lemma StepBodyKeeps(st: ParserState, t: string, parseInt: string -> IntValue)
    requires !(st.section == Ingredients && t != "") && !(st.section == Instructions && t != "")
    ensures Step(st, Body(t), parseInt) == st
  {
  }

  /** `parseRecipeResponse`: one pass over the lines of the response; the
      if-chain of the loop body is `Classify` on the trimmed line followed
      by `Step`. */
  method ParseRecipeResponse(parsedText: string, parseInt: string -> IntValue) returns (recipe: ParsedRecipe)
    ensures recipe == RecipeOf(Kinds(Split(parsedText, '\n')), parseInt)
  {
    var lines := Split(parsedText, '\n');
    ghost var ks := Kinds(lines);
    var st := Start;
    for i := 0 to |lines|
      invariant st == Run(ks[..i], parseInt)
    {
      assert ks[..i + 1][..i] == ks[..i];
      assert ks[i] == Kind(lines[i]);
      st := Step(st, Kind(lines[i]), parseInt);
    }
    assert ks[..|lines|] == ks;
    RunMeetsRecipe(ks, parseInt);
    recipe := ParsedRecipe(st.title, st.description, st.ingredients, st.instructions, st.prepTime, st.cookTime, st.servings);
  }

  /** A labelled field has no value exactly when no line carries it. */
  lemma {:induction false} LastValueNone(ks: seq<LineKind>, f: Field)
    ensures LastValue(ks, f).None? <==> forall i :: 0 <= i < |ks| ==> FieldOf(ks[i], f).None?
  {
    if ks != [] {
      var init := ks[..|ks| - 1];
      LastValueNone(init, f);
      assert forall i :: 0 <= i < |init| ==> init[i] == ks[i];
    }
  }

  /** The value of a labelled field is the one on the last line carrying it. */
  lemma {:induction false} LastValueAt(ks: seq<LineKind>, f: Field, i: nat)
    requires i < |ks| && FieldOf(ks[i], f).Some?
    requires forall j :: i < j < |ks| ==> FieldOf(ks[j], f).None?
    ensures LastValue(ks, f) == FieldOf(ks[i], f)
  {
    if i < |ks| - 1 {
      var init := ks[..|ks| - 1];
      assert forall j :: 0 <= j < |init| ==> init[j] == ks[j];
      LastValueAt(init, f, i);
    }
  }

  /** A line is a title line when its trimmed text starts with `TITRE:`. */
  predicate IsTitleLine(line: string) {
    StartsWith(Trim(line), "TITRE:")
  }

  /** The title a title line gives: the trimmed rest of the line. */
  function TitleText(line: string): string
    requires IsTitleLine(line)
  {
    Trim(Trim(line)[6..])
  }

  /** Every text a line carries is trimmed, and a body line's text is the trimmed line. */
  predicate PayloadTrimmed(k: LineKind) {
    match k
    case TitleLine(v) => IsTrimmed(v)
    case DescriptionLine(v) => IsTrimmed(v)
    case IngredientsHeader => true
    case InstructionsLine(v) => IsTrimmed(v)
    case PrepTimeLine(v) => IsTrimmed(v)
    case CookTimeLine(v) => IsTrimmed(v)
    case PortionsLine(v) => IsTrimmed(v)
    case Body(t) => IsTrimmed(t)
  }

  lemma KindIsTrimmed(line: string)
    ensures PayloadTrimmed(Kind(line))
    ensures Kind(line).Body? ==> Kind(line).text == Trim(line) && Classify(Kind(line).text) == Kind(line)
  {
    TrimIsTrimmed(line);
  }

  /** The `TITRE:` branch: a title line, and only one, gives the title
      field, and gives it its title text. */
  lemma TitleLineValue(line: string)
    ensures FieldOf(Kind(line), TitleField).Some? <==> IsTitleLine(line)
    ensures IsTitleLine(line) ==> FieldOf(Kind(line), TitleField) == Some(TitleText(line))
  {
    var t := Trim(line);
    if StartsWith(t, "TITRE:") {
      ReplaceLeadingPattern(t, "TITRE:");
    }
  }

  /** The title is "" when no line is a title line. */
  lemma NoTitleLine(lines: seq<string>, parseInt: string -> IntValue)
    requires forall i :: 0 <= i < |lines| ==> !IsTitleLine(lines[i])
    ensures RecipeOf(Kinds(lines), parseInt).title == ""
  {
    var ks := Kinds(lines);
    forall i | 0 <= i < |ks| ensures FieldOf(ks[i], TitleField).None? {
      TitleLineValue(lines[i]);
    }
    LastValueNone(ks, TitleField);
  }

  /** The title is the title text of the last title line. */
  lemma TitleIsLastTitleLine(lines: seq<string>, parseInt: string -> IntValue, i: nat)
    requires i < |lines| && IsTitleLine(lines[i])
    requires forall j :: i < j < |lines| ==> !IsTitleLine(lines[j])
    ensures RecipeOf(Kinds(lines), parseInt).title == TitleText(lines[i])
  {
    var ks := Kinds(lines);
    forall j | i <= j < |ks|
      ensures FieldOf(ks[j], TitleField).Some? <==> j == i
    {
      TitleLineValue(lines[j]);
    }
    TitleLineValue(lines[i]);
    LastValueAt(ks, TitleField, i);
  }

  /** `N/A` is never kept as a description, a time or a serving count. */
  lemma NotApplicable(ks: seq<LineKind>, parseInt: string -> IntValue)
    ensures var r := RecipeOf(ks, parseInt);
      && r.description != "N/A"
      && r.prepTime != Some("N/A")
      && r.cookTime != Some("N/A")
      && (LastValue(ks, PortionsField) == Some("N/A") ==> r.servings == None)
  {
  }

  /** A section other than the ingredients section stays so until an
      `INGRÉDIENTS:` line, and meanwhile no ingredient is collected. */
  lemma {:induction false} NoHeaderNoIngredients(a: seq<LineKind>, b: seq<LineKind>)
    requires SectionAfter(a) != Ingredients
    requires IngredientsHeader !in b
    ensures SectionAfter(a + b) != Ingredients
    ensures IngredientsOf(a + b) == IngredientsOf(a)
  {
    if b == [] {
      assert a + b == a;
    } else {
      var b' := b[..|b| - 1];
      assert IngredientsHeader !in b' by {
        forall j | 0 <= j < |b'| ensures b'[j] != IngredientsHeader {
          assert b'[j] == b[j];
        }
      }
      NoHeaderNoIngredients(a, b');
      assert (a + b)[..|a + b| - 1] == a + b';
      assert (a + b)[|a + b| - 1] == b[|b| - 1];
    }
  }

  /** Without an `INGRÉDIENTS:` line there are no ingredients. */
  lemma NoIngredientsWithoutHeader(ks: seq<LineKind>)
    requires IngredientsHeader !in ks
    ensures IngredientsOf(ks) == []
  {
    NoHeaderNoIngredients([], ks);
    assert [] + ks == ks;
  }

  /** A `TEMPS_PREP:` line ends the ingredients: the lines after it add
      none until another `INGRÉDIENTS:` line. */
  lemma PrepTimeClosesIngredients(a: seq<LineKind>, b: seq<LineKind>)
    requires a != [] && a[|a| - 1].PrepTimeLine?
    requires IngredientsHeader !in b
    ensures IngredientsOf(a + b) == IngredientsOf(a)
  {
    NoHeaderNoIngredients(a, b);
  }

  /** Every ingredient is the non-empty text of a body line. */
  lemma {:induction false} IngredientsAreBodyText(ks: seq<LineKind>)
    ensures forall x :: x in IngredientsOf(ks) ==> x != "" && Body(x) in ks
  {
    if ks != [] {
      var init := ks[..|ks| - 1];
      IngredientsAreBodyText(init);
      assert forall k :: k in init ==> k in ks;
    }
  }

  /** Every paragraph of the instructions is non-empty, and every paragraph
      after the first is the text of a body line. */
  lemma {:induction false} ParagraphsAreBodyText(ks: seq<LineKind>)
    ensures forall k :: 0 <= k < |Paragraphs(ks)| ==> Paragraphs(ks)[k] != ""
    ensures forall k :: 0 <= k < |Paragraphs(ks)| ==>
      (k > 0 ==> Body(Paragraphs(ks)[k]) in ks) && (Body(Paragraphs(ks)[k]) in ks || InstructionsLine(Paragraphs(ks)[k]) in ks)
  {
    ParagraphsNonEmpty(ks);
    if ks != [] {
      var init := ks[..|ks| - 1];
      ParagraphsAreBodyText(init);
      assert forall k :: k in init ==> k in ks;
      var last := ks[|ks| - 1];
      var ps := Paragraphs(init);
      if last.Body? && last.text != "" && SectionAfter(init) == Instructions {
        assert Paragraphs(ks) == ps + [last.text];
        forall k | 0 <= k < |Paragraphs(ks)|
          ensures Body(Paragraphs(ks)[k]) in ks || InstructionsLine(Paragraphs(ks)[k]) in ks
          ensures k > 0 ==> Body(Paragraphs(ks)[k]) in ks
        {
          if k < |ps| {
            assert Paragraphs(ks)[k] == ps[k];
          }
        }
      }
    }
  }

  /** No marker line is ever collected: every ingredient of a response is a
      non-empty trimmed line that the parser classifies as a body line. */
  lemma IngredientsAreBody(lines: seq<string>)
    ensures forall x :: x in IngredientsOf(Kinds(lines)) ==> x != "" && IsTrimmed(x) && Classify(x) == Body(x)
  {
    var ks := Kinds(lines);
    IngredientsAreBodyText(ks);
    forall x | x in IngredientsOf(ks)
      ensures IsTrimmed(x) && Classify(x) == Body(x)
    {
      var i :| 0 <= i < |ks| && ks[i] == Body(x);
      KindIsTrimmed(lines[i]);
    }
  }

  /** Every paragraph of the instructions of a response is non-empty and
      trimmed, and every paragraph after the first is a line that the parser
      classifies as a body line. */
  lemma ParagraphsAreBody(lines: seq<string>)
    ensures var ps := Paragraphs(Kinds(lines));
      && (forall k :: 0 <= k < |ps| ==> ps[k] != "" && IsTrimmed(ps[k]))
      && (forall k :: 0 < k < |ps| ==> Classify(ps[k]) == Body(ps[k]))
  {
    var ks := Kinds(lines);
    var ps := Paragraphs(ks);
    ParagraphsAreBodyText(ks);
    forall k | 0 <= k < |ps|
      ensures IsTrimmed(ps[k])
      ensures k > 0 ==> Classify(ps[k]) == Body(ps[k])
    {
      if Body(ps[k]) in ks {
        var i :| 0 <= i < |ks| && ks[i] == Body(ps[k]);
        KindIsTrimmed(lines[i]);
      } else {
        var i :| 0 <= i < |ks| && ks[i] == InstructionsLine(ps[k]);
        KindIsTrimmed(lines[i]);
      }
    }
  }

  /** One imported ingredient `name|quantity|unit` as a row of the shopping
      list: the trimmed name, or the whole line when the name is blank; a
      missing or blank quantity or unit is null; the row is unchecked. */
  function DecodeIngredient(userId: string, recipeId: string, ing: string): (row: IngredientRow)
    ensures row.userId == userId && row.recipeId == recipeId && !row.checked
    ensures row.name == "" <==> ing == ""
  {
    var parts := Split(ing, '|');
    var name := Trim(parts[0]);
    IngredientRow(
      userId,
      recipeId,
      if name != "" then name else ing,
      if |parts| > 1 then TrimOrNull(parts[1]) else None,
      if |parts| > 2 then TrimOrNull(parts[2]) else None,
      false)
  }

  /** `recipe.ingredients.map(...)`: one row per ingredient line, in order. */
  function DecodeIngredients(userId: string, recipeId: string, ings: seq<string>): (rows: seq<IngredientRow>)
    ensures |rows| == |ings|
    ensures forall i :: 0 <= i < |rows| ==> rows[i] == DecodeIngredient(userId, recipeId, ings[i])
  {
    seq(|ings|, i requires 0 <= i < |ings| => DecodeIngredient(userId, recipeId, ings[i]))
  }

  /** Every line, padded, blank or short: each present field is the trimmed
      piece and a blank or missing one is null; the name falls back to the
      whole line when its piece is blank, as `|2|kg` does. */
  lemma DecodeFields(userId: string, recipeId: string, ing: string)
    ensures var row := DecodeIngredient(userId, recipeId, ing);
      var parts := Split(ing, '|');
      && (row.quantity == None <==> |parts| < 2 || AllSpace(parts[1]))
      && (row.quantity.Some? ==> row.quantity.value == Trim(parts[1]))
      && (row.unit == None <==> |parts| < 3 || AllSpace(parts[2]))
      && (row.unit.Some? ==> row.unit.value == Trim(parts[2]))
      && row.name == (if AllSpace(parts[0]) then ing else Trim(parts[0]))
  {
    TrimEmptyIffAllSpace(Split(ing, '|')[0]);
  }

  /** A line of three trimmed, non-empty, separator-free fields decodes to
      exactly those fields. */
  lemma DecodeTriple(userId: string, recipeId: string, name: string, quantity: string, unit: string)
    requires name != "" && quantity != "" && unit != ""
    requires IsTrimmed(name) && IsTrimmed(quantity) && IsTrimmed(unit)
    requires '|' !in name && '|' !in quantity && '|' !in unit
    ensures DecodeIngredient(userId, recipeId, Join([name, quantity, unit], "|"))
            == IngredientRow(userId, recipeId, name, Some(quantity), Some(unit), false)
  {
    SplitJoin([name, quantity, unit], '|');
    TrimOfTrimmed(name);
    TrimOfTrimmed(quantity);
    TrimOfTrimmed(unit);
  }

  /** A line without separators is a name alone: no quantity, no unit. */
  lemma DecodeNameOnly(userId: string, recipeId: string, ing: string)
    requires '|' !in ing
    ensures var row := DecodeIngredient(userId, recipeId, ing);
      && row.name == (if Trim(ing) != "" then Trim(ing) else ing)
      && row.quantity == None && row.unit == None
  {
    SplitWithoutSep(ing, '|');
  }
}
