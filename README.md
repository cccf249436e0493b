# Recipe Finder: a Dafny model of its data side

Recipe Finder is a small Tk desktop program that searches TheMealDB by name,
lists the matching meal names, shows the details and thumbnail of a selected
meal, shows a random meal, and saves the shown details to a text file. This
project models what the program computes from an already-parsed API response
and how it fills the results list:

- `MealDb`: the `meals` field of a response (absent, JSON null, or an array of
  meal records with name, category, instructions, thumbnail entry and twenty
  ingredient/measure slots), the name list of `fetch_recipe` with its
  "No recipe found." placeholder, and the thumbnail entry of `fetch_recipe_image`.
- `Details`: the slot filter (both values present, non-empty and not the
  literal `"null"`), the detail text of `fetch_recipe_details` and the random
  recipe text of `show_random_recipe`, each built by a loop over slots 1..20 and
  proved equal to one specification (`DetailText`, `DetailsOf`); lemmas state
  that exactly the kept slots get a line, in slot order, at most twenty of them.
- `PyStr`: Python's `str.strip()` over Python's own set of whitespace code points.
- `RecipeSearch`: the results list box as a class whose rows `search_recipes`
  clears and refills.
- `Wrappers`: `Option` and `Result`.

The network is replaced by inputs: each data-side operation takes the parsed
`Response`, and `SearchRecipes` takes the service as a function from query to
either a `Response` or the error the request raises.

The model follows the code as written. The random-recipe path is left undefended as in the
code: an absent, null or empty `meals` field is the exception Python raises
(`Details.Crash`), not a placeholder. The name search tests the `meals` field
with `is not None`, so an empty array clears the list and lists nothing
(`MealDb.FetchRecipeEmptyIff`), while the detail and image lookups test
truthiness and treat an empty array like a missing one.

## Model

| member | source | states |
|---|---|---|
| `PyStr.Strip` | recipefinder.py:94 | the stripped entry is empty exactly when every character is whitespace; otherwise it neither starts nor ends with whitespace |
| `PyStr.StripIdempotent` | recipefinder.py:94 | stripping a stripped text changes nothing |
| `PyStr.StripIsTrimmedSlice` | recipefinder.py:94 | the result is a contiguous slice of the entry and everything cut from either end is whitespace |
| `MealDb.Names` | recipefinder.py:51 | one name per meal, the i-th name being the i-th meal's `strMeal` |
| `MealDb.NamesAppend` | recipefinder.py:51 | the name list preserves response order: names of a concatenation are the concatenated names |
| `MealDb.FetchRecipe` | recipefinder.py:50-55 | a present, non-null `meals` gives exactly its names in order and of the same length (an empty array gives `[]`); absent or null gives exactly `["No recipe found."]` |
| `MealDb.FetchRecipeEmptyIff` | recipefinder.py:50-55 | the name list is empty exactly for an empty `meals` array |
| `MealDb.ThumbOf` | recipefinder.py:65 | a missing `strMealThumb` gives "", a JSON null gives `None`, a string is returned as is |
| `MealDb.FetchRecipeImage` | recipefinder.py:63-68 | "" when `meals` is absent, null or empty; otherwise the first meal's thumbnail entry |
| `MealDb.ImageShownIff` | recipefinder.py:123-131 | an image is loaded exactly when the first meal has a non-empty thumbnail URL string |
| `Details.KeptIndices` | recipefinder.py:80-83 | the positions of the kept slots: strictly increasing, each one kept, every kept slot present, no more than there are slots |
| `Details.IngredientLinesAreKeptSlots` | recipefinder.py:80-84 | the ingredient section is exactly the `"<ingredient> - <measure>\n"` lines of the kept slots, in increasing slot order |
| `Details.AtMostTwentyLines` | recipefinder.py:80 | a meal yields at most twenty ingredient lines |
| `Details.LineCountIsKeptCount` | recipefinder.py:83-84 | when no slot value contains a line break, the section has exactly one line per kept slot |
| `Details.FetchRecipeDetails` | recipefinder.py:77-88 | the loop's text is `"Category: " + category + "\n\nIngredients:\n"`, the kept lines, `"\nInstructions:\n"` and the instructions, for the first meal; `"Details not available."` without a meal |
| `Details.DetailTextFrame` | recipefinder.py:79-85 | the detail text begins with the Category/Ingredients header and ends with the Instructions trailer and the instructions verbatim |
| `Details.UnavailableIffNoMeals` | recipefinder.py:77-88 | the placeholder is returned exactly when `meals` is absent, null or empty |
| `Details.DetailsDependOnFirstMealOnly` | recipefinder.py:77-78 | two responses with the same first meal give the same details |
| `Details.ShowRandomRecipe` | recipefinder.py:141-155 | absent, null or empty `meals` raises KeyError, TypeError or IndexError; otherwise the text is `"Recipe: " + name + "\n\n"` followed by the same detail text, and the image entry is the first meal's thumbnail |
| `RecipeSearch.Listbox.constructor` | recipefinder.py:201 | a new list box has no rows |
| `RecipeSearch.Listbox.DeleteAll` | recipefinder.py:97 | deleting from 0 to END leaves no rows |
| `RecipeSearch.Listbox.InsertAtEnd` | recipefinder.py:102 | inserting at END appends one row and keeps the others |
| `RecipeSearch.SearchRecipes` | recipefinder.py:94-102 | a blank entry leaves the rows unchanged; any other entry clears the rows, then makes them exactly the name list for the stripped query, nothing of the old rows kept; a search that raises leaves them empty |

## Left out

- HTTP requests and JSON decoding (recipefinder.py:44-46, 59-61, 72-74, 138-140): network I/O and a foreign library; their output is the `Response` input, and the service in `SearchRecipes` is the `lookup` parameter, whose failures are the `FetchError` values.
- The search URL built from the unencoded query (recipefinder.py:44): string interpolation against an external service.
- Image download, decoding and scaling to 200x200, and the Tk image label (recipefinder.py:123-132, 157-166): PIL and Tk calls; only the decision whether an image is shown is modelled (`MealDb.ImageShownIff`).
- `save_recipe` (recipefinder.py:169-177): a file dialog and a file write; note that on a cancelled dialog it calls `write` on `None` and raises rather than doing nothing.
- `display_recipe_details` (recipefinder.py:106-132): widget plumbing; it also reads `image_url` when nothing is selected, where that name was never bound.
- Window, widgets, styling, fonts, background image and the main loop (recipefinder.py:15-33, 183-238): user interface only.
- Meal records lacking one of the strIngredient1..20 / strMeasure1..20 keys, or with a non-string name, category or instructions: the code would raise KeyError or print Python's rendering of the value; the model gives every meal all twenty slots and string fields; so a meal without `strMeal`, which would leave the search's list box cleared, is not modelled.
- Slot values that are JSON strings are tested with Python truthiness; non-string JSON values in a slot (numbers, booleans) are not modelled.
