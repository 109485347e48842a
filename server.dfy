/**
  The in-memory to-do store of the demo HTTP service.

  The service keeps one process-wide, ordered list of to-do items. Items carry
  no identifier: they are addressed by their position in the list. Four
  operations act on the list: seeding at startup, add (append), remove (clear
  everything) and toggle (invert the `complete` flag of the item at a position).
 */
module Server {

  import opened Wrappers

  /** A to-do item: a description and a completion flag. */
  datatype Todo = Todo(text: string, complete: bool)
  {
    /** The same item with its completion flag inverted. */
    function Toggled(): Todo {
      this.(complete := !complete)
    }
  }

  /** The two items pushed at startup, in this order. */
  const Milk := Todo("Go and get some milk", false)
  const DemoCode := Todo("Write some demo code", true)

  /**
    The route parameter of a toggle request, after the comparison `i == index`
    has coerced it to a number: `Some(n)` when it denotes the integer `n`
    ("2", "02"), `None` when it denotes no integer at all (NaN and the like),
    so that it can equal no position.
   */
  type Index = Option<int>

  /** True when `index` names one of the positions `0 .. n-1`. */
  predicate Addresses(index: Index, n: int) {
    index.Some? && 0 <= index.value < n
  }

  /** The callback of the toggle map: the item at position `i` flips exactly when `i == index`. */
  function Visit(t: Todo, i: int, index: Index): Todo {
    if index == Some(i) then t.Toggled() else t
  }

  /**
    The list toggling builds: a map over `s` whose callback also receives each
    item's position, the first item of `s` standing at position `from`.
   */
  function ToggleFrom(s: seq<Todo>, index: Index, from: int): (r: seq<Todo>)
    ensures |r| == |s|
    decreases |s|
  {
    if s == [] then [] else [Visit(s[0], from, index)] + ToggleFrom(s[1..], index, from + 1)
  }

  /** The list a toggle request at `index` produces from the list `s`. */
  function ToggleAt(s: seq<Todo>, index: Index): seq<Todo> {
    ToggleFrom(s, index, 0)
  }

  /** Each element of the mapped list is the callback applied to the element and its position. */
  lemma {:induction false} ToggleFromAt(s: seq<Todo>, index: Index, from: int, j: int)
    requires 0 <= j < |s|
    ensures ToggleFrom(s, index, from)[j] == Visit(s[j], from + j, index)
  {
    if j > 0 {
      ToggleFromAt(s[1..], index, from + 1, j - 1);
    }
  }

  /**
    Toggling at a position of the list inverts `complete` of that item only,
    keeping its text and every other item; toggling at anything else (a negative
    position, one at or beyond the length, a non-number) leaves the list as it was.
   */
  lemma ToggleAtSpec(s: seq<Todo>, index: Index)
    ensures Addresses(index, |s|) ==> ToggleAt(s, index) == s[index.value := s[index.value].Toggled()]
    ensures !Addresses(index, |s|) ==> ToggleAt(s, index) == s
  {
    var r := ToggleAt(s, index);
    var expected := if Addresses(index, |s|) then s[index.value := s[index.value].Toggled()] else s;
    forall j | 0 <= j < |s|
      ensures r[j] == expected[j]
    {
      ToggleFromAt(s, index, 0, j);
    }
  }

  /** A toggle request changes the list if and only if its index names a position of the list. */
  lemma ToggleChangesIff(s: seq<Todo>, index: Index)
    ensures ToggleAt(s, index) != s <==> Addresses(index, |s|)
  {
    ToggleAtSpec(s, index);
    if Addresses(index, |s|) {
      var k := index.value;
      assert ToggleAt(s, index)[k].complete != s[k].complete;
    }
  }

  /** Toggling twice at the same index restores the original list, whatever the index. */
  lemma ToggleInvolution(s: seq<Todo>, index: Index)
    ensures ToggleAt(ToggleAt(s, index), index) == s
  {
    ToggleAtSpec(s, index);
    ToggleAtSpec(ToggleAt(s, index), index);
  }

  /** Two toggle requests give the same list in either order. */
  lemma ToggleCommutes(s: seq<Todo>, a: Index, b: Index)
    ensures ToggleAt(ToggleAt(s, a), b) == ToggleAt(ToggleAt(s, b), a)
  {
    ToggleAtSpec(s, a);
    ToggleAtSpec(s, b);
    ToggleAtSpec(ToggleAt(s, a), b);
    ToggleAtSpec(ToggleAt(s, b), a);
  }

  /**
    Appending an item and then toggling at the old length (the new item's
    position) leaves the earlier items alone and stores the item with its
    completion flag negated.
   */
  lemma AddThenToggle(s: seq<Todo>, t: Todo)
    ensures ToggleAt(s + [t], Some(|s|)) == s + [Todo(t.text, !t.complete)]
  {
    ToggleAtSpec(s + [t], Some(|s|));
  }

  /** The process-wide list of to-do items. */
  class TodoStore {
    var items: seq<Todo>

    /** Startup: the list begins empty and the two seed items are appended. */
    constructor ()
      ensures items == [Milk, DemoCode]
    {
      items := [];
      new;
      Add(Milk);
      Add(DemoCode);
    }

    /** Appends `t` at the end of the list; every earlier item keeps its position and value. */
    method Add(t: Todo)
      modifies this
      ensures items == old(items) + [t]
      ensures |items| == |old(items)| + 1 && items[|items| - 1] == t
      ensures forall j :: 0 <= j < |old(items)| ==> items[j] == old(items)[j]
    {
      items := items + [t];
    }

    /** Replaces the list by an empty one, whatever it held. */
    method Remove()
      modifies this
      ensures items == []
    {
      items := [];
    }

    /** Replaces the list by the result of toggling it at `index`. */
    method Toggle(index: Index)
      modifies this
      ensures items == ToggleAt(old(items), index)
      ensures |items| == |old(items)|
      ensures Addresses(index, |old(items)|) ==> items == old(items)[index.value := old(items)[index.value].Toggled()]
      ensures !Addresses(index, |old(items)|) ==> items == old(items)
    {
      ToggleAtSpec(items, index);
      items := ToggleAt(items, index);
    }
  }

  /** Remove is idempotent: a second clear still leaves the list empty. */
  method RemoveTwice(store: TodoStore)
    modifies store
    ensures store.items == []
  {
    store.Remove();
    store.Remove();
  }

  /**
    Adding an item and toggling at its position, as two consecutive requests,
    stores the item with its flag negated after the unchanged earlier items.
   */
  method AddThenToggleNew(store: TodoStore, t: Todo)
    modifies store
    ensures store.items == old(store.items) + [Todo(t.text, !t.complete)]
  {
    var n := |store.items|;
    store.Add(t);
    store.Toggle(Some(n));
    AddThenToggle(old(store.items), t);
  }

  /**
    A session from a fresh start: add "Buy eggs", toggle position 2, then clear
    twice; the list after each step.
   */
  method EggsSession() returns (added: seq<Todo>, toggled: seq<Todo>, cleared: seq<Todo>, clearedAgain: seq<Todo>)
    ensures added == [Milk, DemoCode, Todo("Buy eggs", false)]
    ensures toggled == [Milk, DemoCode, Todo("Buy eggs", true)]
    ensures cleared == [] && clearedAgain == []
  {
    var store := new TodoStore();
    store.Add(Todo("Buy eggs", false));
    added := store.items;
    store.Toggle(Some(2));
    toggled := store.items;
    store.Remove();
    cleared := store.items;
    store.Remove();
    clearedAgain := store.items;
  }
}
