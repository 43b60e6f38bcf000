/** Records the front end writes to the store, shared by several components. */
module Records {
  import opened Wrappers
  import opened Strings

  /** A row of the `ingredients` table as the front end inserts it. */
  datatype IngredientRow = IngredientRow(
    userId: string,
    recipeId: string,
    name: string,
    quantity: Option<string>,
    unit: Option<string>,
    checked: bool)

  /** `s.trim() || null`: the trimmed text, or null when nothing is left. */
  function TrimOrNull(s: string): (r: Option<string>)
    ensures r == None <==> AllSpace(s)
    ensures r.Some? ==> r.value == Trim(s) && r.value != "" && IsTrimmed(r.value)
  {
    TrimEmptyIffAllSpace(s);
    TrimIsTrimmed(s);
    if Trim(s) == "" then None else Some(Trim(s))
  }
}
