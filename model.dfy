/** The `model` object of script.js: the ordered to-do list it owns and
    changes in place, and the snapshot it writes to local storage after every
    change. Storage is a field holding the last snapshot written (None when
    nothing was ever stored). */
module TodoModel {
  import opened TodoItems

  class Model {
    /** The items in display order; a position is an item's identity. */
    var items: seq<Item>
    /** The snapshot in local storage under the key 'todoItems'. */
    var persisted: Option<seq<Item>>

    /** A fresh start would read back exactly the list in memory. */
    predicate Mirrored()
      reads this
    {
      Loaded(persisted) == items
    }

    /** Page start: the object starts with an empty list, then loads. The
        default seed is installed in memory but not written to storage. */
    constructor (stored: Option<seq<Item>>)
      ensures persisted == stored
      ensures items == Loaded(stored)
      ensures Mirrored()
    {
      items := [];
      persisted := stored;
      new;
      LoadFromLocalStorage();
    }

    method SaveToLocalStorage()
      modifies this`persisted
      ensures persisted == Some(items)
      ensures Mirrored()
    {
      persisted := Some(items);
    }

    method LoadFromLocalStorage()
      modifies this`items
      ensures items == Loaded(persisted)
      ensures Mirrored()
    {
      match persisted
      case Some(s) =>
        items := s;
      case None =>
        items := DefaultItems;
    }

    /** Counts all items and the done ones, one item at a time. */
    method CountItems() returns (c: Counts)
      ensures c.numItems == |items|
      ensures c.numDoneItems == DoneCount(items)
      ensures c.numDoneItems == c.numItems <==> AllDone(items)
    {
      var numItems := |items|;
      var numDoneItems: nat := 0;
      var i := 0;
      while i < |items|
        invariant 0 <= i <= |items|
        invariant numDoneItems == DoneCount(items[..i])
      {
        if items[i].done {
          numDoneItems := numDoneItems + 1;
        }
        assert items[..i + 1][..i] == items[..i];
        i := i + 1;
      }
      assert items[..i] == items;
      AllDoneIffFullCount(items);
      c := Counts(numItems, numDoneItems);
    }

    /** Appends an undone item when the name is a non-empty string, then
        saves; any other argument changes nothing and saves nothing. */
    method CreateItem(name: Option<string>)
      modifies this
      ensures AcceptsName(name) ==>
        items == old(items) + [Item(name.value, false)] && persisted == Some(items)
      ensures !AcceptsName(name) ==>
        items == old(items) && persisted == old(persisted)
      ensures old(Mirrored()) ==> Mirrored()
    {
      if AcceptsName(name) {
        items := items + [Item(name.value, false)];
        SaveToLocalStorage();
      }
    }

    method ChangeItemName(index: nat, name: string)
      requires index < |items|
      modifies this
      ensures items == Renamed(old(items), index, name)
      ensures persisted == Some(items) && Mirrored()
    {
      items := items[index := items[index].(name := name)];
      SaveToLocalStorage();
    }

    method DeleteItem(index: nat)
      requires index < |items|
      modifies this
      ensures items == Removed(old(items), index)
      ensures persisted == Some(items) && Mirrored()
    {
      items := items[..index] + items[index + 1..];
      SaveToLocalStorage();
    }

    method DeleteAllItems()
      modifies this
      ensures items == [] && persisted == Some([]) && Mirrored()
    {
      items := [];
      SaveToLocalStorage();
    }

    method ToggleItem(index: nat)
      requires index < |items|
      modifies this
      ensures items == Toggled(old(items), index)
      ensures persisted == Some(items) && Mirrored()
    {
      var item := items[index];
      items := items[index := item.(done := !item.done)];
      SaveToLocalStorage();
    }

    /** Whether every item is done, stopping at the first that is not. */
    method AllItemsDone() returns (all: bool)
      ensures all == AllDone(items)
    {
      var i := 0;
      while i < |items|
        invariant 0 <= i <= |items|
        invariant forall j :: 0 <= j < i ==> items[j].done
      {
        if !items[i].done {
          return false;
        }
        i := i + 1;
      }
      return true;
    }

    /** Sets every flag to the negation of "all were done", then saves. */
    method ToggleAllItems()
      modifies this
      ensures items == ToggledAll(old(items))
      ensures persisted == Some(items) && Mirrored()
    {
      var allItemsDone := AllItemsDone();
      var i := 0;
      while i < |items|
        invariant 0 <= i <= |items| == |old(items)|
        invariant forall j :: 0 <= j < i ==> items[j] == Item(old(items)[j].name, !allItemsDone)
        invariant forall j :: i <= j < |items| ==> items[j] == old(items)[j]
      {
        items := items[i := items[i].(done := !allItemsDone)];
        i := i + 1;
      }
      SaveToLocalStorage();
    }
  }
}
