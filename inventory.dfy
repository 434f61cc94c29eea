/**
 * The in-memory catalog (project.cpp, class Inventory): an ordered vector of
 * item pointers, here a sequence of StoreItem references. The functions
 * before the class say what its operations compute; the lemmas after them
 * state the catalog's rules.
 */
module Inventories {
  import opened Items

  /** The items removeItem keeps: those not named itemName, in their order. */
  function Without(s: seq<StoreItem>, itemName: string): (r: seq<StoreItem>)
    ensures |r| <= |s|
    ensures forall i :: 0 <= i < |r| ==> r[i] in s && r[i].name != itemName
    ensures forall i :: 0 <= i < |s| && s[i].name != itemName ==> s[i] in r
  {
    if s == [] then []
    else (if s[0].name != itemName then [s[0]] else []) + Without(s[1..], itemName)
  }

  /** The number of items named itemName. */
  function CountNamed(s: seq<StoreItem>, itemName: string): nat
  {
    if s == [] then 0 else (if s[0].name == itemName then 1 else 0) + CountNamed(s[1..], itemName)
  }

  /**
   * The index find_if stops at: the first item named itemName, or |s| when
   * there is none.
   */
  function FirstIndex(s: seq<StoreItem>, itemName: string): (k: nat)
    ensures k <= |s|
    ensures k < |s| ==> s[k].name == itemName
    ensures forall j :: 0 <= j < k ==> s[j].name != itemName
  {
    if s == [] then 0
    else if s[0].name == itemName then 0
    else 1 + FirstIndex(s[1..], itemName)
  }

  /**
   * The loop of displayInventoryByCategory: for each item in order whose
   * category is exactly the requested one, its display() and a separator.
   */
  function Listed(s: seq<StoreItem>, category: string): (lines: seq<Line>)
    reads s
    ensures NoItemsFound !in lines
  {
    if s == [] then []
    else (if s[0].category == category then s[0].Render() + [Separator] else []) + Listed(s[1..], category)
  }

  /**
   * What displayInventoryByCategory prints: the heading, the listed items,
   * and "No items found in the inventory." exactly when the whole inventory
   * is empty, however many items the category matched.
   */
  function Listing(s: seq<StoreItem>, category: string): (lines: seq<Line>)
    reads s
    ensures |lines| >= 1 && lines[0] == CategoryHeading(category)
    ensures NoItemsFound in lines <==> s == []
  {
    [CategoryHeading(category)] + Listed(s, category) + (if s == [] then [NoItemsFound] else [])
  }

  // ---- removeItem ----

  /** Removal distributes over concatenation: survivors keep their relative order. */
  lemma {:induction false} WithoutAppend(a: seq<StoreItem>, b: seq<StoreItem>, itemName: string)
    ensures Without(a + b, itemName) == Without(a, itemName) + Without(b, itemName)
  {
    if a == [] {
      assert a + b == b;
    } else {
      assert (a + b)[1..] == a[1..] + b;
      WithoutAppend(a[1..], b, itemName);
    }
  }

  /** The remove_if step over a prefix of the items. */
  lemma WithoutPrefix(s: seq<StoreItem>, i: nat, itemName: string)
    requires i < |s|
    ensures Without(s[..i + 1], itemName) ==
      Without(s[..i], itemName) + (if s[i].name != itemName then [s[i]] else [])
  {
    assert s[..i + 1] == s[..i] + [s[i]];
    WithoutAppend(s[..i], [s[i]], itemName);
    assert Without([s[i]], itemName) == (if s[i].name != itemName then [s[i]] else []) + Without([], itemName);
  }

  /** Without a matching item, removal leaves the sequence as it was. */
  lemma {:induction false} WithoutNoMatch(s: seq<StoreItem>, itemName: string)
    requires forall x :: x in s ==> x.name != itemName
    ensures Without(s, itemName) == s
  {
    if s != [] {
      WithoutNoMatch(s[1..], itemName);
    }
  }

  /** Removing twice is removing once. */
  lemma WithoutIdempotent(s: seq<StoreItem>, itemName: string)
    ensures Without(Without(s, itemName), itemName) == Without(s, itemName)
  {
    WithoutNoMatch(Without(s, itemName), itemName);
  }

  /** Removal deletes every item with that name: the size drops by their number. */
  lemma {:induction false} WithoutLength(s: seq<StoreItem>, itemName: string)
    ensures |Without(s, itemName)| == |s| - CountNamed(s, itemName)
  {
    if s != [] {
      WithoutLength(s[1..], itemName);
    }
  }

  /** After removal a search for that name finds nothing. */
  lemma FindAfterRemove(s: seq<StoreItem>, itemName: string)
    ensures FirstIndex(Without(s, itemName), itemName) == |Without(s, itemName)|
  {
  }


  // ---- findItem ----

  /**
   * The first match wins: items appended after a match are never returned,
   * and without a match in s the search goes on into t.
   */
  lemma FirstIndexAppend(s: seq<StoreItem>, t: seq<StoreItem>, itemName: string)
    ensures FirstIndex(s + t, itemName) ==
      if FirstIndex(s, itemName) < |s| then FirstIndex(s, itemName) else |s| + FirstIndex(t, itemName)
  {
    if FirstIndex(s, itemName) < |s| {
      assert (s + t)[FirstIndex(s, itemName)] == s[FirstIndex(s, itemName)];
    } else {
      assert forall j :: 0 <= j < |t| ==> (s + t)[|s| + j] == t[j];
    }
  }


  /** addItem then findItem: the new item is found unless an earlier item has its name. */
  lemma FindAfterAdd(s: seq<StoreItem>, x: StoreItem)
    ensures FirstIndex(s, x.name) < |s| ==> FirstIndex(s + [x], x.name) == FirstIndex(s, x.name)
    ensures FirstIndex(s, x.name) == |s| ==> FirstIndex(s + [x], x.name) == |s|
  {
    FirstIndexAppend(s, [x], x.name);
  }

  // ---- displayInventoryByCategory ----

  /** The listing walks the items in insertion order. */
  lemma {:induction false} ListedAppend(a: seq<StoreItem>, b: seq<StoreItem>, category: string)
    ensures Listed(a + b, category) == Listed(a, category) + Listed(b, category)
  {
    if a == [] {
      assert a + b == b;
    } else {
      assert (a + b)[1..] == a[1..] + b;
      ListedAppend(a[1..], b, category);
    }
  }

  /** A single item is listed with its display and a separator exactly when its category matches. */
  lemma ListedSingle(x: StoreItem, category: string)
    ensures Listed([x], category) == if x.category == category then x.Render() + [Separator] else []
  {
  }

  /** The loop step over a prefix of the items. */
  lemma ListedPrefix(s: seq<StoreItem>, i: nat, category: string)
    requires i < |s|
    ensures Listed(s[..i + 1], category) ==
      Listed(s[..i], category) + (if s[i].category == category then s[i].Render() + [Separator] else [])
  {
    assert s[..i + 1] == s[..i] + [s[i]];
    ListedAppend(s[..i], [s[i]], category);
    ListedSingle(s[i], category);
  }

  /** The item has exactly these three fields. */
  predicate HasFields(x: StoreItem, n: string, p: string, c: string)
  {
    x.name == n && x.price == p && x.category == c
  }

  /** The lines one item adds to the listing hold its item line and no other. */
  lemma ListedSingleItemLine(x: StoreItem, category: string, n: string, p: string, c: string)
    ensures ItemLine(n, p, c) in Listed([x], category) <==> x.category == category && HasFields(x, n, p, c)
  {
  }

  /**
   * An item line appears in the listing exactly for the items of s whose
   * category is the requested one.
   */
  lemma {:induction false} ListedItemLine(s: seq<StoreItem>, category: string, n: string, p: string, c: string)
    ensures ItemLine(n, p, c) in Listed(s, category) <==>
      c == category && exists i :: 0 <= i < |s| && HasFields(s[i], n, p, c)
  {
    if s != [] {
      var rest := s[1..];
      ListedItemLine(rest, category, n, p, c);
      ListedSingleItemLine(s[0], category, n, p, c);
      assert s == [s[0]] + rest;
      ListedAppend([s[0]], rest, category);
      assert (exists i :: 0 <= i < |s| && HasFields(s[i], n, p, c)) <==>
        HasFields(s[0], n, p, c) || exists j :: 0 <= j < |rest| && HasFields(rest[j], n, p, c)
      by {
        forall j | 0 <= j < |rest| ensures rest[j] == s[j + 1] { }
      }
    }
  }

  /**
   * The listing shows exactly the items of that category: an item's line
   * appears if and only if its category equals the requested one.
   */
  lemma ListingShowsExactlyCategory(s: seq<StoreItem>, category: string, k: nat)
    requires k < |s|
    ensures ItemLine(s[k].name, s[k].price, s[k].category) in Listing(s, category) <==> s[k].category == category
  {
    var x := s[k];
    ListedItemLine(s, category, x.name, x.price, x.category);
    var lines := Listing(s, category);
    assert lines == [CategoryHeading(category)] + Listed(s, category) + [];
  }

  /**
   * An ordered catalog of items. Items are shared references: a review
   * added to an item that findItem returned is seen through the inventory.
   */
  class Inventory {
    var items: seq<StoreItem>

    constructor ()
      ensures items == []
    {
      items := [];
    }

    /** Appends the item, without any duplicate-name check. */
    method AddItem(item: StoreItem)
      modifies this
      ensures items == old(items) + [item]
    {
      items := items + [item];
    }

    /**
     * Deletes every item named itemName and keeps the others in order:
     * remove_if compacts the survivors to the front, erase drops the tail.
     */
    method RemoveItem(itemName: string)
      modifies this
      ensures items == Without(old(items), itemName)
    {
      var kept := items;
      var w, i := 0, 0;
      while i < |kept|
        invariant |kept| == |old(items)|
        invariant 0 <= w <= i <= |kept|
        invariant kept[..w] == Without(old(items)[..i], itemName)
        invariant forall j :: i <= j < |kept| ==> kept[j] == old(items)[j]
      {
        WithoutPrefix(old(items), i, itemName);
        if kept[i].name != itemName {
          ghost var prefix := kept[..w];
          kept := kept[w := kept[i]];
          assert kept[..w + 1] == prefix + [old(items)[i]];
          w := w + 1;
        }
        i := i + 1;
      }
      assert old(items)[..i] == old(items);
      items := kept[..w];
    }

    /** find_if: the first item with that name, or null when there is none. */
    method FindItem(itemName: string) returns (item: StoreItem?)
      ensures item == null <==> forall j :: 0 <= j < |items| ==> items[j].name != itemName
      ensures item != null ==> item == items[FirstIndex(items, itemName)]
    {
      var i := 0;
      while i < |items| && items[i].name != itemName
        invariant 0 <= i <= |items|
        invariant forall j :: 0 <= j < i ==> items[j].name != itemName
      {
        i := i + 1;
      }
      if i < |items| {
        item := items[i];
        assert FirstIndex(items, itemName) == i;
      } else {
        item := null;
      }
    }

    /** displayInventoryByCategory, with the printed lines returned. */
    method DisplayByCategory(category: string) returns (lines: seq<Line>)
      ensures lines == Listing(items, category)
    {
      var listed: seq<Line> := [];
      for i := 0 to |items|
        invariant listed == Listed(items[..i], category)
      {
        ListedPrefix(items, i, category);
        if items[i].category == category {
          listed := listed + (items[i].Render() + [Separator]);
        }
      }
      assert items[..|items|] == items;
      lines := [CategoryHeading(category)] + listed + if |items| == 0 then [NoItemsFound] else [];
    }
  }
}
