# Iterators and functions tutorials, modelled in Dafny

This project models the two Python lessons of a programming-tutorial
repository that contain behaviour worth stating precisely.

- **The iterator protocol** (`Python/Iterators/iterators.py`). `MyIterator`
  is a cursor over a sequence whose `__next__` returns the element at
  `_index` and advances, or raises `StopIteration` once the sequence is
  used up. `MyIterable` hands out a fresh `MyIterator` on every `__iter__`
  call. Alongside them are `square_list` (a loop appending into a new list),
  the generators `square_iterator`, `filter_odd` and `square`, and the
  pipeline `square(filter_odd(xs))`.
- **Functions and lists** (`Python/Functions/Functions.py`). The
  `greet_user` f-strings, `sum_values` and `add_numbers`, the two versions of
  `add_item` (the mutable default list shared by every call, and the `None`
  default that builds a new list per call) and `modify_list`, whose
  in-place `append` is seen by the caller.

`iterators.dfy` (module `Iterators`) and `functions.dfy` (module
`Functions`) follow the two source files.

How the source is represented:

- `MyIterator` is a class with a `sequence` and a `nat` field `index`.
  `Valid()` is the invariant `index <= |sequence|`. `Next` returns a `Step`:
  `Yield(v)`, or `StopIteration` for the exception. `Advance` is the same
  transition as a pure function, and `Run` gives the outcomes of `n`
  successive calls.
- A `for` loop over an iterator is `Drain`. It calls `__iter__`, then
  `__next__` until `StopIteration`. It returns what the loop body would have
  printed.
- Generators are functions from the input sequence to the sequence they
  yield. `square_iterator` and `square` have the same body, so one
  function, `Squares`, models both.
- A Python list that is mutated or shared is a `PyList` object with a `seq`
  field. Its `Append` models `list.append`. Because it is a heap object,
  aliasing is modelled exactly.
- The function object of the mutable-default `add_item` is a class
  `AddItemSharedDefault`. Its `defaultItems` is created once, by the
  constructor (the `def` statement), and survives between calls. An omitted
  `items` argument is `null`.
- Python integers are unbounded, as Dafny's `int` is. For the divisor 2,
  Python's floored `%` and Dafny's Euclidean `%` agree. So `filter_odd`
  keeps negative odd numbers too (`-3 % 2 == 1`).

The loops at `Python/Iterators/iterators.py:124-134` use Python's built-in
list iterator `iter(sequence)`. `MyIterator` stands in for it there: on a
list that is not mutated, the two behave the same.

The comment at `Python/Iterators/iterators.py:118` says that `filter_odd`
"filters out odd numbers". The code at line 105 keeps the items with
`item % 2 == 1`, and the expected output `1 9 25` agrees with the code. The
model follows the code.

## Model

| member | source | states |
|---|---|---|
| `Iterators.MyIterator.constructor` | Python/Iterators/iterators.py:13-15 | a new iterator holds the given sequence at index 0, and everything is still to come |
| `Iterators.MyIterator.Iter` | Python/Iterators/iterators.py:17-18 | `__iter__` returns the iterator itself and changes nothing |
| `Iterators.Advance` | Python/Iterators/iterators.py:20-26 | `__next__` as a pure transition: the index stays within `0..len`; a value is returned exactly when the index is below the end, and it is the element at the index with the index advanced by one; `StopIteration` leaves the index unchanged |
| `Iterators.MyIterator.Next` | Python/Iterators/iterators.py:20-26 | below the end: returns the element at the index and increases the index by exactly one. At the end: `StopIteration`, state unchanged. `0 <= index <= len` is kept |
| `Iterators.RunYieldsRemainingThenStops` | Python/Iterators/iterators.py:20-31 | any number of successive `__next__` calls returns the remaining elements in index order, each once, then only `StopIteration` |
| `Iterators.ExhaustedRunStops` | Python/Iterators/iterators.py:124-134 | an exhausted iterator answers every later `__next__` with `StopIteration` |
| `Iterators.Drain` | Python/Iterators/iterators.py:28-31 | a `for` loop over an iterator receives exactly its remaining elements in order, and leaves it exhausted |
| `Iterators.TraverseIteratorTwice` | Python/Iterators/iterators.py:124-134 | a first loop over an iterator gets the whole sequence; a second loop over the same iterator gets nothing |
| `Iterators.MyIterable.constructor` | Python/Iterators/iterators.py:153-154 | the iterable keeps the given sequence |
| `Iterators.MyIterable.Iter` | Python/Iterators/iterators.py:156-157 | every `__iter__` call returns a newly allocated iterator over the same sequence at index 0 |
| `Iterators.TraverseIterableTwice` | Python/Iterators/iterators.py:175-179 | two loops over one iterable both receive the whole sequence |
| `Iterators.Squares` | Python/Iterators/iterators.py:89-91 | the generator yields as many items as the input has, and item i is the square of input item i |
| `Iterators.SquareList` | Python/Iterators/iterators.py:75-79 | the new list has the input's length, element i is the square of input element i, and it equals what `square_iterator` yields |
| `Iterators.FilterOdd` | Python/Iterators/iterators.py:103-106 | a value is yielded if and only if it occurs in the input and is odd (`x % 2 == 1`); nothing is added |
| `Iterators.FilterOddCount` | Python/Iterators/iterators.py:103-106 | every odd value occurs in the output exactly as often as in the input, and every even value not at all |
| `Iterators.FilterOddAppend` | Python/Iterators/iterators.py:103-106 | filtering a concatenation is concatenating the filtered parts, so kept items stay in input order |
| `Iterators.PipelineSquaresOdd` | Python/Iterators/iterators.py:108-113 | `square(filter_odd(xs))` equals a single-pass reference: the squares of exactly the odd items, in input order |
| `Iterators.TutorialOutputs` | Python/Iterators/iterators.py:93-117 | for `[1, 2, 3, 4, 5]` the squares are `[1, 4, 9, 16, 25]` and the pipeline yields `1 9 25` |
| `Functions.GreetUser` | Python/Functions/Functions.py:60-61 | the greeting, then ", ", then the name, then "!", with the greeting defaulting to "Hello" |
| `Functions.GreetUserInjective` | Python/Functions/Functions.py:35-36 | for a fixed greeting, different names give different greetings |
| `Functions.GreetingOutputs` | Python/Functions/Functions.py:35-64 | `("Alice", "Hello")` gives "Hello, Alice!", `("Bob", "Hi")` gives "Hi, Bob!", and `("Alice")` gives "Hello, Alice!" |
| `Functions.GreetPunctuated` | Python/Functions/Functions.py:191-192 | the greeting, then ", ", then the name, then the punctuation, each recoverable at its position |
| `Functions.GreetPunctuatedWithBang` | Python/Functions/Functions.py:191-194 | with punctuation "!" the punctuated greeting equals the plain `greet_user` greeting |
| `Functions.SumValues` | Python/Functions/Functions.py:107-108 | a single argument sums to itself; with non-negative arguments the sum is non-negative and at least every argument. The defining left fold is characterised further by SumValuesAppend, SumValuesCons and SumValuesOutputs |
| `Functions.SumValuesAppend` | Python/Functions/Functions.py:107-108 | the sum of a concatenated argument pack is the sum of the two parts' sums |
| `Functions.SumValuesCons` | Python/Functions/Functions.py:107-108 | the sum is the first argument plus the sum of the rest |
| `Functions.SumValuesOutputs` | Python/Functions/Functions.py:110-111 | `(1, 2, 3)` sums to 6 and `(4, 5, 6, 7)` to 22 |
| `Functions.AddNumbers` | Python/Functions/Functions.py:180-181 | `add_numbers(a, b)` equals `sum_values(a, b)` |
| `Functions.AddItemSharedDefault.constructor` | Python/Functions/Functions.py:70 | defining the function creates its one default list, empty |
| `Functions.AddItemSharedDefault.Call` | Python/Functions/Functions.py:70-72 | appends the item to the given list, or to the shared default list when none is given, and returns that same list; a given list leaves the default untouched |
| `Functions.SharedDefaultAccumulates` | Python/Functions/Functions.py:74-75 | two calls without a list return the same list, showing `['apple']` and then `['apple', 'banana']` |
| `Functions.AddItem` | Python/Functions/Functions.py:79-83 | a given list gets the item appended in place and is returned; with `None` a new list holding only the item is returned |
| `Functions.NoneDefaultStartsFresh` | Python/Functions/Functions.py:85-86 | two calls without a list return two distinct lists, `['apple']` and `['banana']`, and the first is left unchanged |
| `Functions.ModifyList` | Python/Functions/Functions.py:94-96 | appends 4 to the caller's list in place and returns that same list |
| `Functions.CallerSeesModification` | Python/Functions/Functions.py:98-100 | the returned list and the caller's `my_list` both show `[1, 2, 3, 4]` |

## Left out

- `buy_item` and `add_tax_to_item` (Python/Functions/Functions.py:19-29): floating-point arithmetic with the rate `.03`.
- `print_values` and `get_user_info`. The first only writes `key: value` lines to the console. The second returns a constant tuple.
- The calling conventions: keyword arguments, positional-only `/`, keyword-only `*`, and `*`/`**` packing and unpacking. `greet_user` is redefined with the same body at Functions.py:35, 44, 52, 127, 136, 164 and 172. `GreetUser` models all of them, with Dafny's default-parameter value standing for `greeting="Hello"`. How the arguments are passed is not modelled.
- Functions.AddItemSharedDefault.Call: an explicit `None` for `items` would fail with an `AttributeError` in Python. In the model, `null` means "argument omitted".
- `SumValues`, `AddNumbers`, `Squares`, `SquareList` and `FilterOdd` take integers only. Python would also accept floats there (`2.5 ** 2` is 6.25, and `3.0 % 2 == 1` keeps 3.0), or raise `TypeError` for values that cannot be added, squared or divided.
- `my_generator` and the generator expression (Python/Iterators/iterators.py:46-64) only re-yield their input. They are the identity on sequences, so they are not modelled separately.
- Laziness and memory use of generators. Generators are modelled by the whole sequence they yield, so the interleaving of producer and consumer is not captured.
- Iterators.MyIterator and Iterators.MyIterable: both keep their sequence as a value. A Python list mutated during iteration, or between two traversals of one iterable, would change what later `__next__` calls return; this is not modelled, and the identical results of `TraverseIterableTwice` rest on that value copy.
- Console output: every `print` in a `for` loop is modelled by the sequence of values the loop receives.
