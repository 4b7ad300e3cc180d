/** The functions tutorial: greeting strings built by f-strings, argument
    packing into a sum, and the behaviour of lists passed to and kept by
    functions (a mutable default list shared by all calls, the `None`
    default that avoids it, and in-place mutation seen by the caller). */
module Functions {

  /** A Python list: a heap object, so every name bound to it sees the same
      elements. Only `append` is used by the tutorial. */
  class PyList<T> {
    var elems: seq<T>

    constructor (s: seq<T>)
      ensures elems == s
    {
      elems := s;
    }

    method Append(x: T)
      modifies this
      ensures elems == old(elems) + [x]
    {
      elems := elems + [x];
    }
  }

  /** `greet_user(name, greeting="Hello")`: the f-string
      `"{greeting}, {name}!"`. Omitting `greeting` gives "Hello". */
  function GreetUser(name: string, greeting: string := "Hello"): (r: string)
    ensures |r| == |greeting| + |name| + 3
    ensures r[..|greeting|] == greeting
    ensures r[|greeting|..|greeting| + 2] == ", "
    ensures r[|greeting| + 2..|r| - 1] == name
    ensures r[|r| - 1] == '!'
  {
    greeting + ", " + name + "!"
  }

  /** `greet_user(name, /, greeting, *, punctuation)`: the f-string
      `"{greeting}, {name}{punctuation}"`. */
  function GreetPunctuated(name: string, greeting: string, punctuation: string): (r: string)
    ensures |r| == |greeting| + |name| + |punctuation| + 2
    ensures r[..|greeting|] == greeting
    ensures r[|greeting|..|greeting| + 2] == ", "
    ensures r[|greeting| + 2..|greeting| + 2 + |name|] == name
    ensures r[|greeting| + 2 + |name|..] == punctuation
  {
    greeting + ", " + name + punctuation
  }

  /** The punctuated variant with `punctuation="!"` greets exactly as the
      plain one does. */
  lemma GreetPunctuatedWithBang(name: string, greeting: string)
    ensures GreetPunctuated(name, greeting, "!") == GreetUser(name, greeting)
  {
  }

  /** Within one greeting the name can be read back, so different names
      give different greetings. */
  lemma GreetUserInjective(name1: string, name2: string, greeting: string)
    requires GreetUser(name1, greeting) == GreetUser(name2, greeting)
    ensures name1 == name2
  {
    var r := GreetUser(name1, greeting);
    assert name1 == r[|greeting| + 2..|r| - 1];
  }

  /** The outputs printed by the tutorial. */
  lemma GreetingOutputs()
    ensures GreetUser("Alice", "Hello") == "Hello, Alice!"
    ensures GreetUser("Bob", "Hi") == "Hi, Bob!"
    ensures GreetUser("Alice") == "Hello, Alice!"
    ensures GreetPunctuated("Alice", "Hello", "!") == "Hello, Alice!"
  {
  }

  /** `sum_values(*args)`: Python's `sum`, folding `+` from the left
      starting at 0. */
  function SumValues(args: seq<int>): (r: int)
    ensures |args| == 1 ==> r == args[0]
    ensures (forall i :: 0 <= i < |args| ==> 0 <= args[i]) ==> 0 <= r
    ensures (forall i :: 0 <= i < |args| ==> 0 <= args[i]) ==>
              forall i :: 0 <= i < |args| ==> args[i] <= r
  {
    if args == [] then 0 else SumValues(args[..|args| - 1]) + args[|args| - 1]
  }

  /** The sum of a concatenation is the sum of the sums, so it does not
      depend on how the arguments are grouped. */
  lemma {:induction false} SumValuesAppend(a: seq<int>, b: seq<int>)
    decreases |b|
    ensures SumValues(a + b) == SumValues(a) + SumValues(b)
  {
    if b == [] {
      assert a + b == a;
    } else {
      var ab := a + b;
      assert ab[..|ab| - 1] == a + b[..|b| - 1];
      SumValuesAppend(a, b[..|b| - 1]);
    }
  }

  /** The sum is also the first argument plus the sum of the rest. */
  lemma {:induction false} SumValuesCons(x: int, rest: seq<int>)
    ensures SumValues([x] + rest) == x + SumValues(rest)
  {
    SumValuesAppend([x], rest);
    assert [x][..0] == [];
  }

  lemma SumValuesOutputs()
    ensures SumValues([1, 2, 3]) == 6
    ensures SumValues([4, 5, 6, 7]) == 22
  {
    assert [1, 2, 3][..2] == [1, 2];
    assert [1, 2][..1] == [1];
    assert [1][..0] == [];
    assert [4, 5, 6, 7][..3] == [4, 5, 6];
    assert [4, 5, 6][..2] == [4, 5];
    assert [4, 5][..1] == [4];
    assert [4][..0] == [];
  }

  /** `add_numbers(a: int, b: int) -> int`: the same as summing the
      two-element argument pack. */
  function AddNumbers(a: int, b: int): (r: int)
    ensures r == SumValues([a, b])
  {
    assert [a, b][..1] == [a];
    a + b
  }

  /** `add_item(item, items=[])`: the function object owns one default list,
      created once when the function is defined; every call that omits
      `items` (modelled by `null`) appends to that same list. */
  class AddItemSharedDefault<T> {
    const defaultItems: PyList<T>

    /** The `def` statement: evaluates the default `[]` once. */
    constructor ()
      ensures fresh(defaultItems)
      ensures defaultItems.elems == []
    {
      defaultItems := new PyList([]);
    }

    method Call(item: T, items: PyList?<T>) returns (r: PyList<T>)
      modifies defaultItems, items
      ensures r == if items == null then defaultItems else items
      ensures r.elems == old(r.elems) + [item]
      ensures items != null && items != defaultItems ==>
                defaultItems.elems == old(defaultItems.elems)
    {
      r := if items == null then defaultItems else items;
      r.Append(item);
    }
  }

  /** `add_item(item, items=None)`: an omitted or `None` list is replaced by
      a new empty list on every call; a given list is appended to in place
      and returned. */
  method AddItem<T>(item: T, items: PyList?<T>) returns (r: PyList<T>)
    modifies items
    ensures items != null ==> r == items && r.elems == old(items.elems) + [item]
    ensures items == null ==> fresh(r) && r.elems == [item]
  {
    if items == null {
      r := new PyList([]);
    } else {
      r := items;
    }
    r.Append(item);
  }

  /** `modify_list(items)`: appends 4 to the caller's list in place and
      returns that same list. */
  method ModifyList(items: PyList<int>) returns (r: PyList<int>)
    modifies items
    ensures r == items
    ensures items.elems == old(items.elems) + [4]
  {
    items.Append(4);
    r := items;
  }

  /** Two calls of the shared-default `add_item` without a list return the
      same list, which accumulates: first `['apple']`, then
      `['apple', 'banana']`. */
  method SharedDefaultAccumulates() returns (first: seq<string>, second: seq<string>, same: bool)
    ensures first == ["apple"]
    ensures second == ["apple", "banana"]
    ensures same
  {
    var addItem := new AddItemSharedDefault<string>();
    var r1 := addItem.Call("apple", null);
    first := r1.elems;
    var r2 := addItem.Call("banana", null);
    second := r2.elems;
    same := r1 == r2;
  }

  /** Two calls of the `None`-default `add_item` without a list return two
      distinct one-element lists: `['apple']`, then `['banana']`, and the
      first is left as it was. */
  method NoneDefaultStartsFresh() returns (first: seq<string>, second: seq<string>, firstAfter: seq<string>, same: bool)
    ensures first == ["apple"]
    ensures second == ["banana"]
    ensures firstAfter == ["apple"]
    ensures !same
  {
    var r1 := AddItem("apple", null);
    first := r1.elems;
    var r2 := AddItem("banana", null);
    second := r2.elems;
    firstAfter := r1.elems;
    same := r1 == r2;
  }

  /** The caller's `my_list = [1, 2, 3]` and the list `modify_list` returns
      are one object: both show `[1, 2, 3, 4]`. */
  method CallerSeesModification() returns (returned: seq<int>, caller: seq<int>)
    ensures returned == [1, 2, 3, 4]
    ensures caller == [1, 2, 3, 4]
  {
    var myList := new PyList([1, 2, 3]);
    var r := ModifyList(myList);
    returned := r.elems;
    caller := myList.elems;
  }
}
