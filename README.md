# Collection helpers of the code converter, in Dafny

This project models `CodeConverter/Util/EnumerableExtensions.cs`, the static
class of extension methods that the VB/C# code converter uses over
`IEnumerable<T>` and `ICollection<T>`: `Do`, `ToReadOnlyCollection`,
`Concat` (with its iterator `ConcatWorker`), both `IsEmpty` overloads,
`Yield`, `Contains` and `AddRange`.

- `Runtime.dfy` (module `Runtime`) holds what these helpers touch in .NET. An
  `Enumerable<T>` is a reference of static type `IEnumerable<T>`. It is either
  `Null` or an `Object` that enumerates `items` and implements a set of
  collection interfaces (`IList<T>`, `IReadOnlyCollection<T>`,
  `ICollection<T>`, `ICollection`, `string`). A runtime type test
  `source as I` is membership in that set. It also holds the two exceptions
  the helpers raise (`ArgumentNullException` with its parameter name, and
  `NullReferenceException`), `Result`/`Outcome` for returning or throwing, a
  list-like `Collection<T>` class whose `Add` appends to a `seq`, and an `Action<T>`
  class whose calls are recorded in a `trace`.
- `EnumerableExtensions.dfy` (module `EnumerableExtensions`) holds the
  helpers. `Do` and `AddRange` change objects in loops, so they are methods.
  `Do`'s two traversals are separate methods. The remaining helpers only
  compute values, so they are functions, with lemmas that relate them.

## Model

| member | source | states |
|---|---|---|
| `EnumerableExtensions.Do` | CodeConverter/Util/EnumerableExtensions.cs:11-34 | a null source throws ArgumentNullException("source") and a null action throws ArgumentNullException("action"), in that order, before the action is invoked; otherwise the action is invoked once per element in order (its trace grows by exactly the source's items) and the source itself is returned |
| `EnumerableExtensions.VisitByIndex` | CodeConverter/Util/EnumerableExtensions.cs:22-26 | the IList<T> path (Count read once, then the indexer) invokes the action on exactly the list's elements, in index order |
| `EnumerableExtensions.VisitByEnumerator` | CodeConverter/Util/EnumerableExtensions.cs:27-31 | the enumerator path invokes the action on exactly the elements, in enumeration order, the same trace as the IList<T> path |
| `EnumerableExtensions.ToReadOnlyCollection` | CodeConverter/Util/EnumerableExtensions.cs:36-43 | throws ArgumentNullException("source") exactly when the source is null; otherwise returns a read-only collection holding the same elements in the same order |
| `EnumerableExtensions.Concat` | CodeConverter/Util/EnumerableExtensions.cs:45-52 | throws ArgumentNullException("source") exactly when the source is null; otherwise the result is an iterator (no collection interface) yielding the source's elements in order followed by the value |
| `EnumerableExtensions.ConcatWorker` | CodeConverter/Util/EnumerableExtensions.cs:54-61 | the iterator yields every element of the source and then the value: its output is source + [value] |
| `EnumerableExtensions.ConcatNeverEmpty` | CodeConverter/Util/EnumerableExtensions.cs:45-61 | IsEmpty of Concat of a non-null source is false, answered by the enumeration branch |
| `EnumerableExtensions.ContainsAfterConcat` | CodeConverter/Util/EnumerableExtensions.cs:45-61 | some element of Concat(source, value) satisfies a condition exactly when some element of the source does or the value does |
| `EnumerableExtensions.IsEmpty` | CodeConverter/Util/EnumerableExtensions.cs:63-90 | every branch (IReadOnlyCollection<T>.Count, ICollection<T>.Count, ICollection.Count, string Length, first enumerated element) answers true exactly when the object has no elements; a null source throws NullReferenceException |
| `EnumerableExtensions.IsEmptyIgnoresInterfaces` | CodeConverter/Util/EnumerableExtensions.cs:63-90 | two objects with the same elements get the same IsEmpty answer whichever interfaces they implement |
| `EnumerableExtensions.IsEmptyReadOnly` | CodeConverter/Util/EnumerableExtensions.cs:92-95 | the IReadOnlyCollection<T> overload answers Count == 0, the same as the general overload on the same object, and throws NullReferenceException on null |
| `EnumerableExtensions.Yield` | CodeConverter/Util/EnumerableExtensions.cs:97-100 | the result has exactly one element, the given one |
| `EnumerableExtensions.YieldIsConcatOntoEmpty` | CodeConverter/Util/EnumerableExtensions.cs:45-61 | Yield(x) is what Concat yields for an empty source and x; it is never empty |
| `EnumerableExtensions.Contains` | CodeConverter/Util/EnumerableExtensions.cs:102-105 | a null sequence throws ArgumentNullException("source"), then a null predicate throws ArgumentNullException("predicate"); otherwise the answer is true exactly when some element satisfies the predicate |
| `EnumerableExtensions.Any` | CodeConverter/Util/EnumerableExtensions.cs:104 | the early-exit enumeration finds a match exactly when some index holds an element satisfying the condition |
| `EnumerableExtensions.ReadOnlyCopyAgrees` | CodeConverter/Util/EnumerableExtensions.cs:36-43 | the read-only copy gives the same IsEmpty answer (through its own overload) and the same Contains answer, for every predicate, as its source |
| `EnumerableExtensions.AddRange` | CodeConverter/Util/EnumerableExtensions.cs:107-112 | a null items throws NullReferenceException and adds nothing; a null collection throws NullReferenceException only when there is an item to add; otherwise a list-like collection becomes its old elements followed by the items in enumeration order, so its count grows by exactly the number of items and the existing elements are untouched |

## Left out

- Deferred execution: `ConcatWorker` and `Yield` are `yield return` iterators. They are modelled by the finite sequence they produce, so the model does not say when elements are produced, and an infinite source is not represented.
- `Enumerable.Any`, which `Contains` calls, is a framework method outside this repository. It is modelled by the function `Any`, which enumerates until the first match, as the framework documents.
- `Do`: the action is arbitrary code in .NET; here its only effect is appending its argument to a trace. An action that mutates the list during the IList<T> path (Count is read once) or the enumeration is not modelled.
- `Contains`: the predicate is treated as a pure function; side effects and exceptions thrown by the predicate are not modelled.
- `AddRange`: `items` is a value snapshot, so passing a collection as its own `items` (where .NET's enumerator would throw InvalidOperationException after the first `Add`) is not modelled; nor is a collection whose `Add` throws (a read-only collection's NotSupportedException). Only collections whose `Add` appends (such as `List<T>`) are represented; set-like or keyed collections (a `HashSet<T>` ignores a duplicate, so its count grows by less than the number of items) are not.
- `IsEmpty`: `Count` and `Length` are taken to equal the number of enumerated elements, as they do for the framework's collections; a user collection whose `Count` disagrees with its enumeration is not represented.
- `ToReadOnlyCollection`: the `ToList` copy is represented by its elements only; object identity and later mutation of the source are not modelled.
