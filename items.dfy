/** Values of the to-do list: items, the counts the model reports, the
    default seed list, and the list transformations each mutation of the
    model performs, with the facts about them that the model relies on. */
module TodoItems {

  datatype Option<T> = None | Some(value: T)

  /** One to-do entry: a text label and a completion flag. */
  datatype Item = Item(name: string, done: bool)

  /** What countItems reports: how many items, and how many are done. */
  datatype Counts = Counts(numItems: nat, numDoneItems: nat)

  /** The list installed at startup when nothing is stored (script.js:2-13). */
  const DefaultItems: seq<Item> :=
    [Item("This item is done", true), Item("This item is not done", false)]

  /** What createItem accepts: a value that is a string (None stands for any
      value of another JavaScript type: null, undefined, a number, ...) and
      that is not the empty string. */
  predicate AcceptsName(name: Option<string>) {
    name.Some? && |name.value| > 0
  }

  /** The number of items whose flag is set; never more than the items. */
  function DoneCount(s: seq<Item>): (n: nat)
    ensures n <= |s|
  {
    if s == [] then 0
    else DoneCount(s[..|s| - 1]) + (if s[|s| - 1].done then 1 else 0)
  }

  /** Every item is done (true of the empty list, as Array.prototype.every is). */
  predicate AllDone(s: seq<Item>) {
    forall i :: 0 <= i < |s| ==> s[i].done
  }

  /** The list after the name at position i is replaced. */
  function Renamed(s: seq<Item>, i: nat, name: string): (r: seq<Item>)
    requires i < |s|
    ensures |r| == |s|
    ensures r[i].name == name && r[i].done == s[i].done
    ensures forall j :: 0 <= j < |s| && j != i ==> r[j] == s[j]
  {
    s[i := s[i].(name := name)]
  }

  /** The list after the item at position i is removed; later items move one
      position to the left. */
  function Removed(s: seq<Item>, i: nat): (r: seq<Item>)
    requires i < |s|
    ensures |r| == |s| - 1
    ensures forall j :: 0 <= j < i ==> r[j] == s[j]
    ensures forall j :: i <= j < |r| ==> r[j] == s[j + 1]
  {
    s[..i] + s[i + 1..]
  }

  /** The list after the flag at position i is flipped. */
  function Toggled(s: seq<Item>, i: nat): (r: seq<Item>)
    requires i < |s|
    ensures |r| == |s|
    ensures r[i].name == s[i].name && r[i].done == !s[i].done
    ensures forall j :: 0 <= j < |s| && j != i ==> r[j] == s[j]
  {
    s[i := s[i].(done := !s[i].done)]
  }

  /** The list with every flag set to b and every name kept. */
  function WithAllDone(s: seq<Item>, b: bool): (r: seq<Item>)
    ensures |r| == |s|
    ensures forall j :: 0 <= j < |s| ==> r[j].name == s[j].name && r[j].done == b
  {
    seq(|s|, j requires 0 <= j < |s| => Item(s[j].name, b))
  }

  /** The list after toggleAllItems: all undone if all were done, else all done. */
  function ToggledAll(s: seq<Item>): (r: seq<Item>) {
    WithAllDone(s, !AllDone(s))
  }

  /** The list a fresh start reads from storage: the stored snapshot if there
      is one, otherwise the default seed. */
  function Loaded(stored: Option<seq<Item>>): (r: seq<Item>) {
    match stored
    case Some(s) => s
    case None => DefaultItems
  }

  // ---------------------------------------------------------------------------
  // Counting

  lemma {:induction false} DoneCountConcat(a: seq<Item>, b: seq<Item>)
    ensures DoneCount(a + b) == DoneCount(a) + DoneCount(b)
  {
    if b == [] {
      assert a + b == a;
    } else {
      var b' := b[..|b| - 1];
      assert (a + b)[..|a + b| - 1] == a + b';
      DoneCountConcat(a, b');
    }
  }

  /** The count of one item is its flag. */
  lemma DoneCountSingle(x: Item)
    ensures DoneCount([x]) == if x.done then 1 else 0
  {
    assert [x][..0] == [];
  }

  /** The done count reaches the length exactly when every item is done. */
  lemma {:induction false} AllDoneIffFullCount(s: seq<Item>)
    ensures AllDone(s) <==> DoneCount(s) == |s|
  {
    if s != [] {
      var init := s[..|s| - 1];
      AllDoneIffFullCount(init);
      if AllDone(s) {
        assert AllDone(init) by {
          forall i | 0 <= i < |init| ensures init[i].done { assert init[i] == s[i]; }
        }
      } else if DoneCount(s) == |s| {
        assert DoneCount(init) <= |init|;
        assert s[|s| - 1].done && DoneCount(init) == |init|;
        forall i | 0 <= i < |s| ensures s[i].done {
          if i < |s| - 1 { assert s[i] == init[i]; }
        }
        assert false;
      }
    }
  }

  /** Appending an accepted name adds one item and no done item. */
  lemma AppendKeepsDoneCount(s: seq<Item>, name: string)
    ensures DoneCount(s + [Item(name, false)]) == DoneCount(s)
    ensures |s + [Item(name, false)]| == |s| + 1
  {
    DoneCountConcat(s, [Item(name, false)]);
    DoneCountSingle(Item(name, false));
  }

  /** Splitting a list around position i. */
  lemma DoneCountSplit(s: seq<Item>, i: nat)
    requires i < |s|
    ensures DoneCount(s) == DoneCount(s[..i]) + (if s[i].done then 1 else 0) + DoneCount(s[i + 1..])
  {
    assert s == s[..i] + [s[i]] + s[i + 1..];
    DoneCountConcat(s[..i] + [s[i]], s[i + 1..]);
    DoneCountConcat(s[..i], [s[i]]);
    DoneCountSingle(s[i]);
  }

  /** Toggling one item moves the done count by exactly one. */
  lemma ToggledDoneCount(s: seq<Item>, i: nat)
    requires i < |s|
    ensures DoneCount(Toggled(s, i)) == if s[i].done then DoneCount(s) - 1 else DoneCount(s) + 1
  {
    var t := Toggled(s, i);
    DoneCountSplit(s, i);
    DoneCountSplit(t, i);
    assert t[..i] == s[..i];
    assert t[i + 1..] == s[i + 1..];
  }

  /** Renaming never changes the done count. */
  lemma RenamedDoneCount(s: seq<Item>, i: nat, name: string)
    requires i < |s|
    ensures DoneCount(Renamed(s, i, name)) == DoneCount(s)
  {
    var t := Renamed(s, i, name);
    DoneCountSplit(s, i);
    DoneCountSplit(t, i);
    assert t[..i] == s[..i];
    assert t[i + 1..] == s[i + 1..];
  }

  /** Deleting an item removes its flag from the done count. */
  lemma RemovedDoneCount(s: seq<Item>, i: nat)
    requires i < |s|
    ensures DoneCount(Removed(s, i)) == DoneCount(s) - (if s[i].done then 1 else 0)
  {
    DoneCountSplit(s, i);
    DoneCountConcat(s[..i], s[i + 1..]);
  }

  /** Setting every flag to b gives a count of all or nothing. */
  lemma {:induction false} WithAllDoneCount(s: seq<Item>, b: bool)
    ensures DoneCount(WithAllDone(s, b)) == if b then |s| else 0
  {
    if s != [] {
      var init := s[..|s| - 1];
      WithAllDoneCount(init, b);
      assert WithAllDone(s, b)[..|s| - 1] == WithAllDone(init, b);
    }
  }

  // ---------------------------------------------------------------------------
  // Toggling

  /** Toggling the same position twice restores the list. */
  lemma ToggleTwice(s: seq<Item>, i: nat)
    requires i < |s|
    ensures Toggled(Toggled(s, i), i) == s
  {
  }

  /** toggleAllItems clears every flag when all were set, and otherwise sets
      them all; in both cases the done count is 0 or the length. */
  lemma ToggledAllCount(s: seq<Item>)
    ensures AllDone(s) ==> DoneCount(ToggledAll(s)) == 0
    ensures !AllDone(s) ==> AllDone(ToggledAll(s)) && DoneCount(ToggledAll(s)) == |s|
  {
    WithAllDoneCount(s, !AllDone(s));
  }

  /** From a list that is not all done, two calls of toggleAllItems give an
      all-done list and then an all-undone list with the same names. */
  lemma ToggleAllTwiceFromMixed(s: seq<Item>)
    requires !AllDone(s)
    ensures AllDone(ToggledAll(s))
    ensures ToggledAll(ToggledAll(s)) == WithAllDone(s, false)
    ensures DoneCount(ToggledAll(ToggledAll(s))) == 0
  {
    var once := ToggledAll(s);
    assert AllDone(once);
    WithAllDoneCount(s, false);
  }

  /** On a non-empty list, toggleAllItems always changes something. */
  lemma ToggledAllChanges(s: seq<Item>)
    requires s != []
    ensures ToggledAll(s) != s
  {
    if AllDone(s) {
      assert ToggledAll(s)[0].done != s[0].done;
    } else {
      var k :| 0 <= k < |s| && !s[k].done;
      assert ToggledAll(s)[k].done != s[k].done;
    }
  }

  /** The default seed holds two items, one of them done. */
  lemma DefaultCount()
    ensures |DefaultItems| == 2 && DoneCount(DefaultItems) == 1
    ensures !AllDone(DefaultItems)
  {
    DoneCountConcat([DefaultItems[0]], [DefaultItems[1]]);
    DoneCountSingle(DefaultItems[0]);
    DoneCountSingle(DefaultItems[1]);
    assert DefaultItems == [DefaultItems[0]] + [DefaultItems[1]];
  }
}
