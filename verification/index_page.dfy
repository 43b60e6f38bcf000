/** The main page (src/pages/Index.tsx): the shopping list and recipe
    lists it keeps, and the records it builds for the store. */
module IndexPage {
  import opened Wrappers
  import opened Records

  /** A saved recipe, as the store returns it. */
  datatype Recipe = Recipe(
    id: string,
    userId: string,
    title: string,
    description: Option<string>,
    ingredients: seq<string>,
    instructions: string,
    prepTime: Option<string>,
    cookTime: Option<string>,
    servings: Option<int>)

  /** An entry of the shopping list. */
  datatype Ingredient = Ingredient(
    id: string,
    name: string,
    quantity: Option<string>,
    checked: bool,
    recipeId: Option<string>)

  /** `ingredients.map(ing => ing.id === id ? { ...ing, checked } : ing)`:
      the list after a tick, of the same length, where only the `checked`
      flag of the entries with that id changes. */
  function WithChecked(items: seq<Ingredient>, id: string, checked: bool): (r: seq<Ingredient>)
    ensures |r| == |items|
    ensures forall i :: 0 <= i < |r| ==> r[i].(checked := items[i].checked) == items[i]
    ensures forall i :: 0 <= i < |r| ==> r[i].checked == (if items[i].id == id then checked else items[i].checked)
  {
    seq(|items|, i requires 0 <= i < |items| => if items[i].id == id then items[i].(checked := checked) else items[i])
  }

  /** Ticking twice to the same value is ticking once. */
  lemma WithCheckedIdempotent(items: seq<Ingredient>, id: string, checked: bool)
    ensures WithChecked(WithChecked(items, id, checked), id, checked) == WithChecked(items, id, checked)
  {
    var once := WithChecked(items, id, checked);
    var twice := WithChecked(once, id, checked);
    forall i | 0 <= i < |items| ensures twice[i] == once[i] {
      assert twice[i].(checked := once[i].checked) == once[i];
    }
  }

  /** Unticking restores the list when the entries with that id all had
      the same flag before. */
  lemma WithCheckedUndo(items: seq<Ingredient>, id: string, checked: bool, before: bool)
    requires forall i :: 0 <= i < |items| && items[i].id == id ==> items[i].checked == before
    ensures WithChecked(WithChecked(items, id, checked), id, before) == items
  {
    var once := WithChecked(items, id, checked);
    var back := WithChecked(once, id, before);
    forall i | 0 <= i < |items| ensures back[i] == items[i] {
      assert back[i].(checked := once[i].checked) == once[i];
      assert once[i].(checked := items[i].checked) == items[i];
    }
  }

  /** A list in which no entry has that id is left as it is. */
  lemma WithCheckedElsewhere(items: seq<Ingredient>, id: string, checked: bool)
    requires forall i :: 0 <= i < |items| ==> items[i].id != id
    ensures WithChecked(items, id, checked) == items
  {
    var r := WithChecked(items, id, checked);
    forall i | 0 <= i < |items| ensures r[i] == items[i] {
      assert r[i].(checked := items[i].checked) == items[i];
    }
  }

  /** `recipe.ingredients.map(ing => ({ user_id, recipe_id, name: ing, checked: false }))`:
      one unticked shopping-list row per ingredient of the recipe. */
  function IngredientsToAdd(userId: string, recipe: Recipe): (r: seq<IngredientRow>)
    ensures |r| == |recipe.ingredients|
    ensures forall i :: 0 <= i < |r| ==>
      r[i].userId == userId && r[i].recipeId == recipe.id && !r[i].checked
      && r[i].quantity == None && r[i].unit == None
  {
    seq(|recipe.ingredients|, i requires 0 <= i < |recipe.ingredients| =>
      IngredientRow(userId, recipe.id, recipe.ingredients[i], None, None, false))
  }

  /** The names of a list of rows. */
  function Names(rows: seq<IngredientRow>): (r: seq<string>)
    ensures |r| == |rows|
  {
    seq(|rows|, i requires 0 <= i < |rows| => rows[i].name)
  }

  /** The rows carry the recipe's ingredients, in order: reading their
      names back gives the recipe's list. */
  lemma IngredientsToAddNames(userId: string, recipe: Recipe)
    ensures Names(IngredientsToAdd(userId, recipe)) == recipe.ingredients
  {
  }

  /** A row of the `todo_recipes` or `favorite_recipes` table joined with
      its recipe, which is null when the recipe is gone. */
  datatype JoinedRow = JoinedRow(recipeId: string, recipe: Option<Recipe>)

  /** `rows.map(item => item.recipes).filter(Boolean)`. */
  function Present(rows: seq<JoinedRow>): (r: seq<Recipe>)
    ensures |r| <= |rows|
    ensures forall rec :: rec in r <==> exists i :: 0 <= i < |rows| && rows[i].recipe == Some(rec)
  {
    if rows == [] then []
    else
      var rest := Present(rows[1..]);
      assert forall i :: 1 <= i < |rows| ==> rows[i] == rows[1..][i - 1];
      match rows[0].recipe
      case Some(rec) => [rec] + rest
      case None => rest
  }

  /** `Present` keeps the order of the rows: it distributes over
      concatenation. */
  lemma {:induction false} PresentAppend(a: seq<JoinedRow>, b: seq<JoinedRow>)
    ensures Present(a + b) == Present(a) + Present(b)
  {
    if a == [] {
      assert a + b == b;
    } else {
      assert (a + b)[1..] == a[1..] + b;
      PresentAppend(a[1..], b);
    }
  }

  /** When every joined recipe is there, all of them are kept, in order. */
  lemma {:induction false} PresentAll(rows: seq<JoinedRow>)
    requires forall i :: 0 <= i < |rows| ==> rows[i].recipe.Some?
    ensures |Present(rows)| == |rows|
    ensures forall i :: 0 <= i < |rows| ==> Present(rows)[i] == rows[i].recipe.value
  {
    if rows != [] {
      PresentAll(rows[1..]);
    }
  }

  /** `loadTodoRecipes` / `loadFavoriteRecipes`: on a read error the list is
      kept; otherwise it becomes the joined recipes that are still there,
      or nothing when the read returned no data. */
  function Loaded(current: seq<Recipe>, error: bool, data: Option<seq<JoinedRow>>): (r: seq<Recipe>)
    ensures error ==> r == current
    ensures !error && data == None ==> r == []
    ensures !error && data.Some? ==>
      forall rec :: rec in r <==> exists i :: 0 <= i < |data.value| && data.value[i].recipe == Some(rec)
  {
    if error then current
    else match data
      case None => []
      case Some(rows) => Present(rows)
  }

  /** A recipe proposed by the suggestion function. */
  datatype Suggestion = Suggestion(
    title: string,
    description: Option<string>,
    ingredients: seq<string>,
    instructions: string,
    prepTime: Option<string>,
    cookTime: Option<string>,
    servings: Option<int>)

  /** A row inserted into the `recipes` table. */
  datatype RecipeInsert = RecipeInsert(userId: string, recipe: Suggestion)

  /** `data.recipes.map(recipe => ({ user_id, title, ... }))`: one row per
      suggestion, owned by the user. */
  function RecipesToSave(userId: string, suggestions: seq<Suggestion>): (r: seq<RecipeInsert>)
    ensures |r| == |suggestions|
    ensures forall i :: 0 <= i < |r| ==> r[i].userId == userId
  {
    seq(|suggestions|, i requires 0 <= i < |suggestions| => RecipeInsert(userId, suggestions[i]))
  }

  function Contents(rows: seq<RecipeInsert>): (r: seq<Suggestion>)
    ensures |r| == |rows|
  {
    seq(|rows|, i requires 0 <= i < |rows| => rows[i].recipe)
  }

  /** Every field of every suggestion is copied: dropping the owner gives
      the suggestions back, in order. */
  lemma RecipesToSaveRoundTrip(userId: string, suggestions: seq<Suggestion>)
    ensures Contents(RecipesToSave(userId, suggestions)) == suggestions
  {
  }
}
