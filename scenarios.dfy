/**
 * Client code that uses only the contracts of the catalog: duplicate names,
 * a review landing on the first duplicate, removal of all of them, and an
 * out-of-range rating kept as given.
 */
module Scenarios {
  import opened Items
  import opened Inventories
  import opened Shell

  method DuplicateNames(review: Review)
  {
    var inventory := new Inventory();
    var first := new StoreItem("Pen", "1.50", "Stationeries");
    var second := new StoreItem("Pen", "2.00", "Stationeries");
    var other := new StoreItem("Lamp", "20", "Electronics");
    inventory.AddItem(first);
    inventory.AddItem(other);
    inventory.AddItem(second);
    assert inventory.items == [first, other, second];

    // The review goes onto the first "Pen", never the later duplicate.
    assert FirstIndex(inventory.items, "Pen") == 0;
    var shown := ViewItemDetails(inventory, "Pen", review);
    assert first.reviews == [review] && second.reviews == [] && other.reviews == [];
    assert shown == [ItemDetailsHeading, ItemLine("Pen", "1.50", "Stationeries"), NoReviewsYet, ReviewAdded];

    // Removal takes both "Pen" items and keeps the rest.
    inventory.RemoveItem("Pen");
    assert inventory.items == [other] by {
      assert [first, other, second] == [first] + [other] + [second];
      WithoutAppend([first] + [other], [second], "Pen");
      WithoutAppend([first], [other], "Pen");
    }
    var found := inventory.FindItem("Pen");
    assert found == null;
    var kept := inventory.FindItem("Lamp");
    assert kept == other;
  }

  method OutOfRangeRating()
  {
    var item := new StoreItem("Soap", "3", "Beauty Products");
    item.AddReview(Review("Ann", "great", -7));
    item.AddReview(Review("Bo", "fine", 12));
    assert item.reviews == [Review("Ann", "great", -7), Review("Bo", "fine", 12)];
    var lines := item.Render();
    assert lines[2] == ReviewLine("Ann", -7, "great") && lines[3] == ReviewLine("Bo", 12, "fine");
  }

  method EmptyInventoryListing()
  {
    var inventory := new Inventory();
    var empty := ViewInventoryByCategory(inventory, "1");
    assert empty == [CategoryHeading("Electronics"), NoItemsFound];
  }

  method UnmatchedCategoryListing()
  {
    var inventory := new Inventory();
    var pen := new StoreItem("Pen", "1.50", "Stationeries");
    inventory.AddItem(pen);
    // A category with no match prints the heading and nothing else.
    assert pen.category != "Electronics" by {
      assert pen.category[0] == 'S';
    }
    ListedSingle(pen, "Electronics");
    var unmatched := inventory.DisplayByCategory("Electronics");
    assert inventory.items == [pen];
    assert Listing([pen], "Electronics") == [CategoryHeading("Electronics")] + [] + [];
    assert unmatched == [CategoryHeading("Electronics")];
  }

  method MatchedCategoryListing()
  {
    var inventory := new Inventory();
    var pen := new StoreItem("Pen", "1.50", "Stationeries");
    inventory.AddItem(pen);
    ListedSingle(pen, "Stationeries");
    var matched := ViewInventoryByCategory(inventory, "4");
    assert inventory.items == [pen];
    assert Listing([pen], "Stationeries") == [CategoryHeading("Stationeries")] + pen.Render() + [Separator] + [];
    assert matched == [CategoryHeading("Stationeries"), ItemLine("Pen", "1.50", "Stationeries"), NoReviewsYet, Separator];
    var invalid := ViewInventoryByCategory(inventory, "9");
    assert invalid == [InvalidCategory];
  }
}
