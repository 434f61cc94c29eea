# Store inventory catalog, modelled in Dafny

This project models the in-memory catalog of a small text-menu store
program written in C++ (`project.cpp`). A store item has a name, a price and
a category, all kept as opaque strings. Each item carries a list of customer
reviews that only grows. The inventory is an ordered vector of item pointers
with four operations:

- add appends, with no duplicate-name check;
- remove-by-name deletes every item with that name (stable `remove_if`, then `erase`);
- find-by-name returns the first match or null (`find_if`);
- list-by-category shows the items whose category matches exactly.

Around the catalog, the menu code does two things that matter here. It maps a
typed category code (`1`..`4`) to one of four fixed category names. Viewing an
item appends a customer's review to the item that find returned.

The model follows the C++ closely:

- `Items.StoreItem` is a class. `name`, `price` and `category` are `const`
  fields, because the C++ has no setter for them. `getName`, `getPrice` and
  `getCategory` only return those members, so the model reads the fields
  directly. `reviews` is a `var seq<Review>` that `AddReview` extends.
- `Inventories.Inventory` is a class whose `items: seq<StoreItem>` holds
  object references, as the vector holds pointers. A review added through
  the item that `FindItem` returned is therefore seen through the
  inventory. If one object were stored twice, both entries would see it.
- `RemoveItem` is the `remove_if` compaction: a read index and a write index
  run over a copy of the vector, and the copy is then cut to the write index.
  `FindItem` is the first-match scan, and `DisplayByCategory` is the printing
  loop. Each is a `while`/`for` loop proved against a specification function:
  `Without`, `FirstIndex` or `Listing`.
- Console output is a sequence of structured `Items.Line` values, one per
  message or formatted record. `Display`, `Listed` and `Listing` give the
  lines that `display`, `displayReviews` and `displayInventoryByCategory`
  print.
- A `Review` is a value. Its rating is the C++ `int`, a 32-bit `int32`
  newtype, and is stored and shown without any range check.
- The menu's `switch (category[0])` is `Shell.CategoryForChoice`. On an empty
  word, `category[0]` is the terminating `'\0'`, so that case is an invalid
  choice too. The Customer copy (lines 151-168) and the Manager copy
  (lines 303-320) are the same code and are modelled once.
- The `inventory.txt` format is a pure pair in `CatalogFile`. `Record` and
  `Save` give the appended lines. `Tokens`, `Group` and `Load` give what the
  `>> name >> price >> category` loop reads back.

The C++ keeps insertion order and accepts duplicate names, and the model
does the same.

`scenarios.dfy` holds client methods. They show what callers can prove from
the contracts alone: a review landing on the first of two items with the same
name, removal of both, and listings of an empty inventory, of a category with
no match and of an invalid code.

## Model

| member | source | states |
|---|---|---|
| `Items.RenderReview` | project.cpp:17-20 | a review's line carries its reviewer, rating and comment unchanged: the review can be read back from it, any 32-bit rating included |
| `Items.RenderReviews` | project.cpp:68-71 | one rendered line per review, in insertion order, each carrying the stored reviewer, rating and comment |
| `Items.Display` | project.cpp:36-77 | `display` (lines 36-40) with `displayReviews` (lines 63-77): an item displays its item line first; "No reviews yet." appears if and only if the item has no reviews; otherwise the "Reviews:" heading is followed by every review in insertion order; the item line appears only at the head |
| `Items.DisplayAfterAddReview` | project.cpp:57-77 | after appending a review, the display is the old display plus the new review's line at the end; an item with no reviews switches from "No reviews yet." to the heading and the single review |
| `Items.StoreItem.constructor` | project.cpp:31-55 | a new item holds exactly the given name, price and category (what the getters return) and no reviews |
| `Items.StoreItem.Render` | project.cpp:36-40 | an item's display starts with the line of its current name, price and category; "No reviews yet." appears if and only if it has no reviews; otherwise the "Reviews:" heading and every review follow in insertion order |
| `Items.StoreItem.AddReview` | project.cpp:57-60 | the review becomes the last one and earlier reviews are kept; name, price and category are constants, so nothing else can change; any 32-bit rating is accepted |
| `Inventories.Without` | project.cpp:94-103 | the survivors of a removal: no survivor has the removed name, every item with another name survives, and there are never more items than before |
| `Inventories.WithoutAppend` | project.cpp:94-103 | removal distributes over concatenation, so the survivors keep their original relative order |
| `Inventories.WithoutNoMatch` | project.cpp:94-103 | removing a name that no item has leaves the sequence unchanged |
| `Inventories.WithoutIdempotent` | project.cpp:94-103 | removing a name twice equals removing it once |
| `Inventories.WithoutLength` | project.cpp:94-103 | removal deletes all items with that name, not just the first: the size drops by their number |
| `Inventories.FirstIndex` | project.cpp:121-130 | the position where the search stops is the smallest index whose item has the name, or the length when no item has it |
| `Inventories.FirstIndexAppend` | project.cpp:121-130 | the first match wins: items appended after a match are never found, and without a match in the prefix the search continues into the suffix |
| `Inventories.FindAfterAdd` | project.cpp:89-92 | after adding an item, a search for its name finds that item unless an earlier item has the same name, in which case the earlier one is still found |
| `Inventories.FindAfterRemove` | project.cpp:94-130 | after removing a name, a search for that name finds nothing |
| `Inventories.Listed` | project.cpp:108-115 | the item part of a category listing never contains the whole-inventory-empty message |
| `Inventories.Listing` | project.cpp:105-119 | the listing starts with the category heading, and "No items found in the inventory." appears if and only if the whole inventory is empty, however many items matched |
| `Inventories.ListedAppend` | project.cpp:108-115 | the listing walks items in insertion order: the listing of a concatenation is the concatenation of the listings |
| `Inventories.ListedItemLine` | project.cpp:108-115 | an item line appears in the listing if and only if the requested category is that line's category and some item has exactly those three fields |
| `Inventories.ListingShowsExactlyCategory` | project.cpp:105-119 | an inventory item's line is shown if and only if its category equals the requested one (exact, case-sensitive string equality) |
| `Inventories.Inventory.constructor` | project.cpp:132-133 | a new inventory is empty |
| `Inventories.Inventory.AddItem` | project.cpp:89-92 | the items become the old items followed by the new one, with no duplicate check and no other change |
| `Inventories.Inventory.RemoveItem` | project.cpp:94-103 | the items become exactly the survivors `Without(old items, name)` of the `remove_if` and `erase` compaction |
| `Inventories.Inventory.FindItem` | project.cpp:121-130 | the result is null if and only if no item has the name; otherwise it is the item at the first index with that name |
| `Inventories.Inventory.DisplayByCategory` | project.cpp:105-119 | the printed lines are exactly `Listing(items, category)` |
| `Shell.MenuCategoriesDistinct` | project.cpp:142-146 | the menu offers exactly four category names, all different |
| `Shell.CategoryForChoice` | project.cpp:151-168 | a category is chosen if and only if the word is non-empty and starts with '1'..'4'; the chosen name is the one the menu lists under that number (lines 142-146); any other word is an invalid choice |
| `Shell.ChoiceByFirstCharacter` | project.cpp:151 | only the first character of the typed word decides the choice |
| `Shell.ChoiceInjective` | project.cpp:151-168 | two words that choose the same category start with the same code |
| `Shell.ViewInventoryByCategory` | project.cpp:303-320 | an invalid code prints only "Invalid category choice." and lists nothing; a valid code prints the listing of the chosen category (same code at 151-168) |
| `Shell.ViewItemDetails` | project.cpp:177-206 | on a miss, prints "Item not found." and changes no item; on a hit, prints the item as it was before, appends the review to the item at the first index with that name and changes no other item's reviews |
| `CatalogFile.Record` | project.cpp:273 | an appended record ends with a newline and, when no field holds a line break, is exactly one line |
| `CatalogFile.RecordTokens` | project.cpp:273 | a record whose fields are non-empty and free of white space is read back by `>>` as exactly its three fields |
| `CatalogFile.Save` | project.cpp:266-273 | the file after the first k additions is a prefix of the file after all of them: nothing written is ever rewritten |
| `CatalogFile.SaveAppend` | project.cpp:266-273 | adding an item only appends its record to the end of the file text |
| `CatalogFile.Tokens` | project.cpp:337 | every word `>>` extracts is non-empty and holds no white space |
| `CatalogFile.Group` | project.cpp:337-342 | the load loop makes one entry per complete triple of words, entry i holding words 3i, 3i+1 and 3i+2 as name, price and category, and drops an incomplete last triple |
| `CatalogFile.Load` | project.cpp:337-342 | every loaded entry has three non-empty fields free of white space |
| `CatalogFile.ResaveIsStable` | project.cpp:337-342 | whatever a file holds, saving the loaded entries and loading again gives the same entries |
| `CatalogFile.LoadSave` | project.cpp:337-342 | round trip: entries whose three fields are non-empty and free of white space load back exactly as saved, without reviews |
| `CatalogFile.SpaceInNameShiftsFields` | project.cpp:256 | in a one-record file, a name read with `getline` that contains a space loads back as two fields, the price takes the category's place, and the category, left as an incomplete triple, is lost |

## Left out

- All prompting and reading (`cin`, `getline`) and the menu loops of `Manager::manageInventory`, `Store::run`, `loggedInMenu` and `customerView`. These are interactive glue. What the user types (item name, category word, review fields) is a parameter of the modelled operation instead.
- A rating that `cin >> rating` cannot parse, or one outside 32 bits (stream failure). This is input handling, not catalog behaviour.
- Opening, reading and writing `inventory.txt`, and the error paths when it cannot be opened (lines 266-271, 329-334). Only the text format is modelled, as a pure pair.
- The load loop of `Store::run` that creates and adds an item per entry (lines 337-342). It is file I/O glue; `CatalogFile.Load` gives the entries it adds, in order.
- The `isLoggedIn` flag. It is written and never read.
- Memory ownership: `new` without `delete`, the objects `removeItem` leaks, and the `const_cast` at line 206. Items are object references, and memory is not modelled.
- The exact label text of each output line ("Name: ", ", Rating: ", "/5", the dashed separator). Each message or record is one structured `Line`.
- Review::display prints two physical lines (rating line and comment line). The model renders them as one `ReviewLine`.
