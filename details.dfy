/**
 * The detail text of `fetch_recipe_details` and of `show_random_recipe`: a
 * Category header, one "<ingredient> - <measure>" line per usable slot in slot
 * order, then the instructions verbatim.
 */
module Details {
  import opened Wrappers
  import opened MealDb

  /** The text shown when a search response carries no meal. */
  const Unavailable := "Details not available."

  /** A slot value passes the filter: a string that is neither empty nor the API's "null" sentinel. */
  predicate Usable(v: Option<string>)
  {
    v.Some? && v.value != "" && v.value != "null"
  }

  /** A slot gets a line when both its ingredient and its measure are usable. */
  predicate Kept(s: Slot)
  {
    Usable(s.ingredient) && Usable(s.measure)
  }

  /** The line for a kept slot. */
  function Line(s: Slot): string
    requires Kept(s)
  {
    s.ingredient.value + " - " + s.measure.value + "\n"
  }

  /** The ingredient lines of the given slots, as the formatting loop appends them. */
  function IngredientLines(slots: seq<Slot>): string
  {
    if slots == [] then ""
    else
      var last := slots[|slots| - 1];
      IngredientLines(slots[..|slots| - 1]) + (if Kept(last) then Line(last) else "")
  }

  /** The positions (0-based: slot i + 1) of the kept slots, ascending, each exactly once. */
  function KeptIndices(slots: seq<Slot>): (ix: seq<nat>)
    ensures |ix| <= |slots|
    ensures forall k :: 0 <= k < |ix| ==> ix[k] < |slots| && Kept(slots[ix[k]])
    ensures forall k, l :: 0 <= k < l < |ix| ==> ix[k] < ix[l]
    ensures forall i :: 0 <= i < |slots| && Kept(slots[i]) ==> i in ix
  {
    if slots == [] then []
    else
      var n := |slots| - 1;
      var ix := KeptIndices(slots[..n]);
      if Kept(slots[n]) then ix + [n] else ix
  }

  /** The lines of the slots at positions `ix`, in the order of `ix`. */
  function LinesAt(slots: seq<Slot>, ix: seq<nat>): string
    requires forall k :: 0 <= k < |ix| ==> ix[k] < |slots| && Kept(slots[ix[k]])
  {
    if ix == [] then "" else LinesAt(slots, ix[..|ix| - 1]) + Line(slots[ix[|ix| - 1]])
  }

  lemma {:induction false} LinesAtExtend(slots: seq<Slot>, x: Slot, ix: seq<nat>)
    requires forall k :: 0 <= k < |ix| ==> ix[k] < |slots| && Kept(slots[ix[k]])
    ensures LinesAt(slots + [x], ix) == LinesAt(slots, ix)
  {
    if ix != [] {
      LinesAtExtend(slots, x, ix[..|ix| - 1]);
      assert (slots + [x])[ix[|ix| - 1]] == slots[ix[|ix| - 1]];
    }
  }

  /**
   * The ingredient section holds exactly the lines of the kept slots, in increasing
   * slot order: one line for slot i exactly when its ingredient and measure are both
   * usable, and nothing else.
   */
  lemma {:induction false} IngredientLinesAreKeptSlots(slots: seq<Slot>)
    ensures IngredientLines(slots) == LinesAt(slots, KeptIndices(slots))
  {
    if slots != [] {
      var n := |slots| - 1;
      var init := slots[..n];
      assert slots == init + [slots[n]];
      IngredientLinesAreKeptSlots(init);
      LinesAtExtend(init, slots[n], KeptIndices(init));
      if Kept(slots[n]) {
        var ix := KeptIndices(init) + [n];
        assert ix[..|ix| - 1] == KeptIndices(init);
      }
    }
  }

  /** A meal has at most twenty ingredient lines. */
  lemma AtMostTwentyLines(m: Meal)
    ensures |KeptIndices(m.slots)| <= SlotCount
  {
  }

  /** Number of occurrences of `c` in `s`. */
  function Occurrences(s: string, c: char): nat
  {
    if s == [] then 0 else (if s[0] == c then 1 else 0) + Occurrences(s[1..], c)
  }

  lemma {:induction false} OccurrencesAppend(a: string, b: string, c: char)
    ensures Occurrences(a + b, c) == Occurrences(a, c) + Occurrences(b, c)
  {
    if a != [] {
      assert (a + b)[1..] == a[1..] + b;
      OccurrencesAppend(a[1..], b, c);
    } else {
      assert a + b == b;
    }
  }

  /** Neither value of the slot contains a line break. */
  predicate SingleLine(s: Slot)
  {
    (s.ingredient.Some? ==> '\n' !in s.ingredient.value) && (s.measure.Some? ==> '\n' !in s.measure.value)
  }

  lemma {:induction false} NoNewlineNoOccurrence(s: string)
    requires '\n' !in s
    ensures Occurrences(s, '\n') == 0
  {
    if s != [] {
      NoNewlineNoOccurrence(s[1..]);
    }
  }

  /**
   * When no slot value contains a line break, the ingredient section has exactly as
   * many lines as there are kept slots.
   */
  lemma {:induction false} LineCountIsKeptCount(slots: seq<Slot>)
    requires forall i :: 0 <= i < |slots| ==> SingleLine(slots[i])
    ensures Occurrences(IngredientLines(slots), '\n') == |KeptIndices(slots)|
  {
    if slots != [] {
      var n := |slots| - 1;
      var last := slots[n];
      LineCountIsKeptCount(slots[..n]);
      var tail := if Kept(last) then Line(last) else "";
      OccurrencesAppend(IngredientLines(slots[..n]), tail, '\n');
      if Kept(last) {
        var ing, mea := last.ingredient.value, last.measure.value;
        NoNewlineNoOccurrence(ing);
        NoNewlineNoOccurrence(mea);
        OccurrencesAppend(ing, " - ", '\n');
        OccurrencesAppend(ing + " - ", mea, '\n');
        OccurrencesAppend(ing + " - " + mea, "\n", '\n');
        assert Occurrences(" - ", '\n') == 0;
        assert Occurrences("\n", '\n') == 1;
      }
    }
  }

  /** The header that `fetch_recipe_details` starts from. */
  function Header(category: string): string
  {
    "Category: " + category + "\n\nIngredients:\n"
  }

  /** The text `fetch_recipe_details` builds for one meal. */
  function DetailText(m: Meal): string
  {
    Header(m.category) + IngredientLines(m.slots) + "\nInstructions:\n" + m.instructions
  }

  /** The value `fetch_recipe_details` returns for a response. */
  function DetailsOf(r: Response): string
  {
    if HasMeals(r) then DetailText(r.meals[0]) else Unavailable
  }

  /**
   * The data side of `fetch_recipe_details`: the loop over slots 1..20 of the first
   * meal appends the line of every kept slot.
   */
  method FetchRecipeDetails(r: Response) returns (details: string)
    ensures details == DetailsOf(r)
  {
    if HasMeals(r) {
      var meal := r.meals[0];
      details := Header(meal.category);
      for i := 1 to SlotCount + 1
        invariant details == Header(meal.category) + IngredientLines(meal.slots[..i - 1])
      {
        var slot := meal.slots[i - 1];
        if Kept(slot) {
          details := details + Line(slot);
        }
        assert meal.slots[..i][..i - 1] == meal.slots[..i - 1];
      }
      assert meal.slots[..SlotCount] == meal.slots;
      details := details + "\nInstructions:\n" + meal.instructions;
    } else {
      details := Unavailable;
    }
  }

  /**
   * The detail text starts with the Category header and ends with the Instructions
   * trailer followed by the instructions, copied verbatim.
   */
  lemma DetailTextFrame(m: Meal)
    ensures |DetailText(m)| >= |Header(m.category)|
    ensures DetailText(m)[..|Header(m.category)|] == "Category: " + m.category + "\n\nIngredients:\n"
    ensures var t := "\nInstructions:\n" + m.instructions;
            |DetailText(m)| >= |t| && DetailText(m)[|DetailText(m)| - |t|..] == t
  {
    var t := "\nInstructions:\n" + m.instructions;
    assert DetailText(m) == Header(m.category) + (IngredientLines(m.slots) + t);
    assert DetailText(m) == (Header(m.category) + IngredientLines(m.slots)) + t;
  }

  /** The placeholder is returned exactly when the response carries no meal. */
  lemma UnavailableIffNoMeals(r: Response)
    ensures DetailsOf(r) == Unavailable <==> !HasMeals(r)
  {
    if HasMeals(r) {
      assert DetailsOf(r)[0] == 'C';
    }
  }

  /** Only the first meal matters: two responses with the same first meal give the same text. */
  lemma DetailsDependOnFirstMealOnly(r1: Response, r2: Response)
    requires HasMeals(r1) && HasMeals(r2) && r1.meals[0] == r2.meals[0]
    ensures DetailsOf(r1) == DetailsOf(r2)
  {
  }

  /** Why `show_random_recipe` fails on a response without a first meal. */
  datatype Crash =
    | MealsKeyError    // data["meals"] with no "meals" key: KeyError
    | MealsTypeError   // data["meals"][0] on a JSON null: TypeError
    | MealsIndexError  // data["meals"][0] on an empty array: IndexError

  /** What `show_random_recipe` puts on screen: the detail text and the thumbnail entry. */
  datatype RandomView = RandomView(text: string, imageUrl: Option<string>)

  /**
   * The data side of `show_random_recipe`: it takes the first meal unchecked, so a
   * response without one raises; otherwise the text is "Recipe: <name>" and a blank
   * line in front of the same text `fetch_recipe_details` builds for that meal.
   */
  method ShowRandomRecipe(r: Response) returns (res: Result<RandomView, Crash>)
    ensures r.MealsAbsent? ==> res == Err(MealsKeyError)
    ensures r.MealsNull? ==> res == Err(MealsTypeError)
    ensures r == Meals([]) ==> res == Err(MealsIndexError)
    ensures HasMeals(r) ==> res.Ok? && res.value.text == "Recipe: " + r.meals[0].name + "\n\n" + DetailsOf(r)
    ensures HasMeals(r) ==> res.Ok? && res.value.imageUrl == FetchRecipeImage(r)
  {
    match r
    case MealsAbsent => res := Err(MealsKeyError);
    case MealsNull => res := Err(MealsTypeError);
    case Meals(ms) =>
      if ms == [] {
        res := Err(MealsIndexError);
      } else {
        var meal := ms[0];
        var details := "Recipe: " + meal.name + "\n\n" + Header(meal.category);
        for i := 1 to SlotCount + 1
          invariant details == "Recipe: " + meal.name + "\n\n" + Header(meal.category) + IngredientLines(meal.slots[..i - 1])
        {
          var slot := meal.slots[i - 1];
          if Kept(slot) {
            details := details + Line(slot);
          }
          assert meal.slots[..i][..i - 1] == meal.slots[..i - 1];
        }
        assert meal.slots[..SlotCount] == meal.slots;
        details := details + "\nInstructions:\n" + meal.instructions;
        res := Ok(RandomView(details, ThumbOf(meal)));
      }
  }
}
