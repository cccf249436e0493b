/**
 * `search_recipes`: the results list box is refilled from a name search on the
 * stripped entry text. The web service is the parameter `lookup`, which maps a
 * query to the parsed response it would return, or to the error the request raises.
 */
module RecipeSearch {
  import opened Wrappers
  import opened MealDb
  import opened PyStr

  /** The results list box: its rows, top to bottom. */
  class Listbox {
    var rows: seq<string>

    constructor ()
      ensures rows == []
    {
      rows := [];
    }

    /** `delete(0, END)`: removes every row. */
    method DeleteAll()
      modifies this
      ensures rows == []
    {
      rows := [];
    }

    /** `insert(END, item)`: adds one row at the bottom. */
    method InsertAtEnd(item: string)
      modifies this
      ensures rows == old(rows) + [item]
    {
      rows := rows + [item];
    }
  }

  /** Why the search request can fail: the GET raised, or the body was not JSON. */
  datatype FetchError = RequestFailed | BodyNotJson

  /**
   * A query that is empty once stripped leaves the list box as it was. Any other
   * query first clears the list box; if the search then succeeds, its rows become
   * the names that search yields, in order, nothing of the old ones kept; if the
   * search raises, the list box stays cleared.
   */
  method SearchRecipes(entryText: string, lookup: string -> Result<Response, FetchError>, listbox: Listbox)
    modifies listbox
    ensures AllSpace(entryText) ==> listbox.rows == old(listbox.rows)
    ensures !AllSpace(entryText) && lookup(Strip(entryText)).Ok? ==>
              listbox.rows == FetchRecipe(lookup(Strip(entryText)).value)
    ensures !AllSpace(entryText) && lookup(Strip(entryText)).Err? ==> listbox.rows == []
  {
    var query := Strip(entryText);
    if query != [] {
      listbox.DeleteAll();
      var fetched := lookup(query);
      if fetched.Ok? {
        var recipes := FetchRecipe(fetched.value);
        for k := 0 to |recipes|
          invariant listbox.rows == recipes[..k]
        {
          listbox.InsertAtEnd(recipes[k]);
          assert recipes[..k + 1] == recipes[..k] + [recipes[k]];
        }
        assert recipes[..|recipes|] == recipes;
      }
    }
  }
}
