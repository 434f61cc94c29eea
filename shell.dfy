/**
 * The parts of the menu code (project.cpp, classes Customer and Manager)
 * that decide what the catalog does: the category-code switch and the
 * review that viewing an item collects. Prompts and reads are parameters.
 */
module Shell {
  import opened Wrappers
  import opened Items
  import opened Inventories

  /** The category names in the order the menu prints them, as 1. to 4. */
  const MenuCategories: seq<string> := ["Electronics", "Food & Beverages", "Beauty Products", "Stationeries"]

  /** The menu offers four different category names. */
  lemma MenuCategoriesDistinct()
    ensures |MenuCategories| == 4
    ensures forall i, j :: 0 <= i < j < |MenuCategories| ==> MenuCategories[i] != MenuCategories[j]
  {
    assert MenuCategories[0][0] == 'E' && MenuCategories[1][0] == 'F';
    assert MenuCategories[2][0] == 'B' && MenuCategories[3][0] == 'S';
  }

  /**
   * switch (category[0]): the first character of the typed word picks one
   * of the four categories; anything else is an invalid choice. An empty
   * word has '\0' at index 0 and so is invalid too.
   */
  function CategoryForChoice(input: string): (chosen: Option<string>)
    ensures chosen.Some? <==> |input| > 0 && '1' <= input[0] <= '4'
    ensures chosen.Some? ==> chosen.value == MenuCategories[input[0] as int - '1' as int]
  {
    if |input| == 0 then None
    else match input[0]
      case '1' => Some("Electronics")
      case '2' => Some("Food & Beverages")
      case '3' => Some("Beauty Products")
      case '4' => Some("Stationeries")
      case _ => None
  }

  /** Only the first character of the word is looked at. */
  lemma ChoiceByFirstCharacter(input: string, rest: string)
    requires |input| > 0
    ensures CategoryForChoice(input + rest) == CategoryForChoice(input[..1])
  {
  }

  /** Different codes pick different categories. */
  lemma ChoiceInjective(a: string, b: string)
    requires CategoryForChoice(a).Some? && CategoryForChoice(a) == CategoryForChoice(b)
    ensures a[0] == b[0]
  {
  }

  /**
   * viewInventoryByCategory (Customer) and displayInventoryByCategory
   * (Manager): list the chosen category, or report an invalid choice and
   * list nothing.
   */
  method ViewInventoryByCategory(inventory: Inventory, input: string) returns (lines: seq<Line>)
    ensures CategoryForChoice(input).None? ==> lines == [InvalidCategory]
    ensures CategoryForChoice(input).Some? ==> lines == Listing(inventory.items, CategoryForChoice(input).value)
  {
    match CategoryForChoice(input)
    case None =>
      lines := [InvalidCategory];
    case Some(category) =>
      lines := inventory.DisplayByCategory(category);
  }

  /**
   * viewItemDetails and giveReview: look the name up; on a hit show the
   * item and append the customer's review to the item findItem returned,
   * which with duplicate names is the first one inserted; on a miss report
   * it and change nothing.
   */
  method ViewItemDetails(inventory: Inventory, itemName: string, review: Review) returns (lines: seq<Line>)
    modifies inventory.items
    ensures inventory.items == old(inventory.items)
    ensures
      var k := FirstIndex(inventory.items, itemName);
      if k == |inventory.items| then
        && lines == [ItemNotFound]
        && forall x :: x in inventory.items ==> x.reviews == old(x.reviews)
      else
        var target := inventory.items[k];
        && target.reviews == old(target.reviews) + [review]
        && lines == [ItemDetailsHeading] + old(target.Render()) + [ReviewAdded]
        && forall x :: x in inventory.items && x != target ==> x.reviews == old(x.reviews)
  {
    var item := inventory.FindItem(itemName);
    if item != null {
      lines := [ItemDetailsHeading] + item.Render();
      item.AddReview(review);
      lines := lines + [ReviewAdded];
    } else {
      lines := [ItemNotFound];
    }
  }
}
