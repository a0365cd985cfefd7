/** Sessions of the to-do list built from the model's operations, showing what
    a caller of the model can rely on. */
module TodoScenarios {
  import opened TodoItems
  import opened TodoModel

  /** A first start with empty storage reports two items, one done. */
  method FirstStartCounts() returns (c: Counts)
    ensures c == Counts(2, 1)
  {
    var m := new Model(None);
    c := m.CountItems();
    DefaultCount();
  }

  /** On the default list, adding "Buy milk" and toggling position 2 gives a
      done item named "Buy milk" there. */
  method BuyMilk() returns (item: Item, c: Counts)
    ensures item == Item("Buy milk", true)
    ensures c == Counts(3, 2)
  {
    var m := new Model(None);
    m.CreateItem(Some("Buy milk"));
    m.ToggleItem(2);
    item := m.items[2];
    DefaultCount();
    AppendKeepsDoneCount(DefaultItems, "Buy milk");
    ToggledDoneCount(DefaultItems + [Item("Buy milk", false)], 2);
    c := m.CountItems();
  }

  /** After deleteAllItems the counts are zero and storage holds the empty
      list, whatever was stored before. */
  method ClearAll(stored: Option<seq<Item>>) returns (c: Counts, snapshot: Option<seq<Item>>)
    ensures c == Counts(0, 0)
    ensures snapshot == Some([])
  {
    var m := new Model(stored);
    m.DeleteAllItems();
    c := m.CountItems();
    snapshot := m.persisted;
  }

  /** A restart reads back the list in memory, as long as the list is
      mirrored, which every operation of the model keeps. */
  method Restart(m: Model) returns (reloaded: seq<Item>)
    requires m.Mirrored()
    ensures reloaded == m.items
  {
    var next := new Model(m.persisted);
    reloaded := next.items;
  }
}
