/** The parts of the .NET runtime that the collection helpers touch: a
    reference of static type IEnumerable<T> that may be null, the collection
    interfaces a runtime type test can find on the object behind it, the two
    exceptions the helpers raise, and the two mutable objects they change (a
    collection that grows, and an action whose calls are observed). */
module Runtime {

  /** A collection interface that a runtime type test (`source as I`) can find. */
  datatype Interface =
    | GenericList            // IList<T>: Count and an indexer
    | ReadOnlyCollection     // IReadOnlyCollection<T>: Count
    | GenericCollection      // ICollection<T>: Count
    | NonGenericCollection   // ICollection: Count
    | SystemString           // System.String: Length

  /** A reference of static type IEnumerable<T>: null, or an object whose
      enumeration yields `items` and which implements `interfaces`. */
  datatype Enumerable<T> = Null | Object(items: seq<T>, interfaces: set<Interface>)

  /** The interfaces implemented by System.Collections.ObjectModel.ReadOnlyCollection<T>. */
  const ReadOnlyCollectionInterfaces: set<Interface> :=
    {GenericList, ReadOnlyCollection, GenericCollection, NonGenericCollection}

  /** What `Count` reports on a collection interface: the number of elements
      its enumeration yields. */
  function Count<T>(source: Enumerable<T>): (n: nat)
    requires source.Object?
  {
    |source.items|
  }

  /** What `Length` reports on a string: the number of characters it enumerates. */
  function Length<T>(source: Enumerable<T>): (n: nat)
    requires source.Object?
  {
    |source.items|
  }

  datatype Exception =
    | ArgumentNullException(paramName: string)
    | NullReferenceException

  /** A value-returning call: it returns a value or throws. */
  datatype Result<T> = Return(value: T) | Throw(error: Exception)

  /** A void call: it completes or throws. */
  datatype Outcome = Completed | Threw(error: Exception)

  /** A value that may be absent. */
  datatype Option<T> = None | Some(value: T)

  /** A list-like ICollection<T> (such as List<T>) whose `Add` appends;
      set-like and keyed collections are not represented. */
  class Collection<T> {
    var elements: seq<T>

    constructor (initial: seq<T>)
      ensures elements == initial
    {
      elements := initial;
    }

    method Add(item: T)
      modifies this
      ensures elements == old(elements) + [item]
    {
      elements := elements + [item];
    }
  }

  /** An Action<T> whose only observable effect is the record of the
      arguments it was invoked with, in order. */
  class Action<T> {
    var trace: seq<T>

    constructor ()
      ensures trace == []
    {
      trace := [];
    }

    method Invoke(argument: T)
      modifies this
      ensures trace == old(trace) + [argument]
    {
      trace := trace + [argument];
    }
  }
}
