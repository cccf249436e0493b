/**
 * What the recipe finder reads from a parsed TheMealDB response: the `meals`
 * field, and in each meal record the name, category, instructions, thumbnail
 * and the twenty strIngredient<i>/strMeasure<i> slots. The HTTP GET and the
 * JSON decoding are not modelled; a `Response` is their output.
 */
module MealDb {
  import opened Wrappers

  /** Number of ingredient/measure slots in a meal record (strIngredient1 .. strIngredient20). */
  const SlotCount := 20

  /** Slot i of a meal: the values of strIngredient<i> and strMeasure<i>; `None` is a JSON null. */
  datatype Slot = Slot(ingredient: Option<string>, measure: Option<string>)

  /** The twenty slots of a meal record, slot 1 first. */
  type Slots = s: seq<Slot> | |s| == SlotCount witness seq(SlotCount, _ => Slot(None, None))

  /** The strMealThumb entry of a meal record: key missing, JSON null, or a URL string. */
  datatype Thumb = NoThumbKey | NullThumb | ThumbUrl(url: string)

  /** One meal record of the `meals` array. */
  datatype Meal = Meal(name: string, category: string, instructions: string, thumb: Thumb, slots: Slots)

  /** The `meals` field of a response: key absent, JSON null, or an array of meals. */
  datatype Response = MealsAbsent | MealsNull | Meals(meals: seq<Meal>)

  /** Python's `"meals" in data and data["meals"]`: present, not null and not an empty list. */
  predicate HasMeals(r: Response)
  {
    r.Meals? && |r.meals| > 0
  }

  /** The single entry listed when a search finds nothing. */
  const NoRecipeFound := "No recipe found."

  /** `[meal["strMeal"] for meal in meals]`: the names, one per meal, in response order. */
  function Names(ms: seq<Meal>): (names: seq<string>)
    ensures |names| == |ms|
    ensures forall i :: 0 <= i < |ms| ==> names[i] == ms[i].name
  {
    if ms == [] then [] else [ms[0].name] + Names(ms[1..])
  }

  /**
   * The data side of `fetch_recipe`: the meal names when `meals` is present and not
   * null (so an empty array gives an empty list), otherwise the one-entry placeholder.
   */
  function FetchRecipe(r: Response): (names: seq<string>)
    ensures r.Meals? ==> |names| == |r.meals| && forall i :: 0 <= i < |names| ==> names[i] == r.meals[i].name
    ensures !r.Meals? ==> names == [NoRecipeFound]
  {
    if r.Meals? then Names(r.meals) else [NoRecipeFound]
  }

  /** Names keeps the response order: the names of two runs of meals are the two lists of names, joined. */
  lemma {:induction false} NamesAppend(a: seq<Meal>, b: seq<Meal>)
    ensures Names(a + b) == Names(a) + Names(b)
  {
    if a != [] {
      assert (a + b)[1..] == a[1..] + b;
      NamesAppend(a[1..], b);
    }
  }

  /**
   * The list is empty exactly for an empty `meals` array; an absent or null field
   * always gives one entry.
   */
  lemma FetchRecipeEmptyIff(r: Response)
    ensures FetchRecipe(r) == [] <==> r == Meals([])
  {
  }

  /** `meal.get("strMealThumb", "")`: "" when the key is missing, Python `None` for a JSON null. */
  function ThumbOf(m: Meal): (url: Option<string>)
    ensures url == Some("") <==> m.thumb == NoThumbKey || m.thumb == ThumbUrl("")
    ensures url == None <==> m.thumb == NullThumb
    ensures m.thumb.ThumbUrl? ==> url == Some(m.thumb.url)
  {
    match m.thumb
    case NoThumbKey => Some("")
    case NullThumb => None
    case ThumbUrl(u) => Some(u)
  }

  /**
   * The data side of `fetch_recipe_image`: the first meal's thumbnail entry, or ""
   * when `meals` is absent, null or empty. Meals after the first are never read.
   */
  function FetchRecipeImage(r: Response): (url: Option<string>)
    ensures !HasMeals(r) ==> url == Some("")
    ensures HasMeals(r) ==> url == ThumbOf(r.meals[0])
  {
    if HasMeals(r) then ThumbOf(r.meals[0]) else Some("")
  }

  /** `if image_url:` in the callers: an image is loaded only for a non-empty URL string. */
  predicate ShowsImage(url: Option<string>)
  {
    url.Some? && url.value != ""
  }

  /** An image is shown for a search response exactly when its first meal carries a non-empty thumbnail URL. */
  lemma ImageShownIff(r: Response)
    ensures ShowsImage(FetchRecipeImage(r)) <==> HasMeals(r) && r.meals[0].thumb.ThumbUrl? && r.meals[0].thumb.url != ""
  {
  }
}
