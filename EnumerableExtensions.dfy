/** The collection helpers of the converter's utility layer: extension
    methods over IEnumerable<T> and ICollection<T>. Lazily produced
    sequences (`yield return` iterators) are modelled by the finite sequence
    they yield; an iterator object implements none of the collection
    interfaces. */
module EnumerableExtensions {
  import opened Runtime

  /*** Do ***/

  /** Invokes `action` on every element of `source`, in order, and returns
      `source` itself. Both null checks happen before any invocation. */
  method Do<T>(source: Enumerable<T>, action: Action?<T>) returns (r: Result<Enumerable<T>>)
    modifies action
    ensures source.Null? ==> r == Throw(ArgumentNullException("source"))
    ensures source.Object? && action == null ==> r == Throw(ArgumentNullException("action"))
    ensures source.Object? && action != null ==> r == Return(source)
    ensures action != null && r.Throw? ==> action.trace == old(action.trace)
    ensures action != null && r.Return? ==> action.trace == old(action.trace) + source.items
  {
    if source.Null? {
      return Throw(ArgumentNullException("source"));
    }
    if action == null {
      return Throw(ArgumentNullException("action"));
    }
    if GenericList in source.interfaces {
      VisitByIndex(source.items, action);
    } else {
      VisitByEnumerator(source.items, action);
    }
    return Return(source);
  }

  /** The IList<T> path of `Do`: Count is read once, then the indexer is
      used for each position. */
  method VisitByIndex<T>(list: seq<T>, action: Action<T>)
    modifies action
    ensures action.trace == old(action.trace) + list
  {
    var count := |list|;
    for i := 0 to count
      invariant action.trace == old(action.trace) + list[..i]
    {
      action.Invoke(list[i]);
    }
    assert list[..count] == list;
  }

  /** The enumerator path of `Do`: each step takes the current element and
      moves on to the rest. */
  method VisitByEnumerator<T>(source: seq<T>, action: Action<T>)
    modifies action
    ensures action.trace == old(action.trace) + source
  {
    var rest := source;
    while rest != []
      invariant action.trace + rest == old(action.trace) + source
      decreases |rest|
    {
      var current := rest[0];
      action.Invoke(current);
      assert rest == [current] + rest[1..];
      rest := rest[1..];
    }
  }

  /*** ToReadOnlyCollection ***/

  /** A read-only copy of `source`'s elements. */
  function ToReadOnlyCollection<T>(source: Enumerable<T>): (r: Result<Enumerable<T>>)
    ensures source.Null? <==> r == Throw(ArgumentNullException("source"))
    ensures source.Object? ==>
      r.Return? && r.value.Object? && r.value.items == source.items
      && ReadOnlyCollection in r.value.interfaces
  {
    if source.Null? then Throw(ArgumentNullException("source"))
    else Return(Object(source.items, ReadOnlyCollectionInterfaces))
  }

  /*** Concat ***/

  /** `source` followed by `value`. The null check is eager; the elements are
      produced by the iterator `ConcatWorker`. */
  function Concat<T>(source: Enumerable<T>, value: T): (r: Result<Enumerable<T>>)
    ensures source.Null? <==> r == Throw(ArgumentNullException("source"))
    ensures source.Object? ==>
      r.Return? && r.value.Object? && r.value.interfaces == {}
      && r.value.items == source.items + [value]
  {
    if source.Null? then Throw(ArgumentNullException("source"))
    else Return(Object(ConcatWorker(source.items, value), {}))
  }

  /** What the iterator yields: every element of `source`, then `value`. */
  function ConcatWorker<T>(source: seq<T>, value: T): (yielded: seq<T>)
    ensures yielded == source + [value]
  {
    if source == [] then [value]
    else [source[0]] + ConcatWorker(source[1..], value)
  }

  /*** IsEmpty ***/

  /** Whether `source` has no elements, decided by the first collection
      interface found, or else by asking the enumerator for a first element.
      A null `source` passes every type test as null and is then enumerated. */
  function IsEmpty<T>(source: Enumerable<T>): (r: Result<bool>)
    ensures source.Null? <==> r == Throw(NullReferenceException)
    ensures source.Object? ==> r == Return(|source.items| == 0)
  {
    if source.Null? then Throw(NullReferenceException)
    else if ReadOnlyCollection in source.interfaces then Return(Count(source) == 0)
    else if GenericCollection in source.interfaces then Return(Count(source) == 0)
    else if NonGenericCollection in source.interfaces then Return(Count(source) == 0)
    else if SystemString in source.interfaces then Return(Length(source) == 0)
    else if source.items != [] then Return(false)  // the enumerator produced a first element
    else Return(true)
  }

  /** Which interfaces the object implements decides only which branch
      answers, never the answer: a corollary of IsEmpty's contract, stated
      on its own because it is the agreement the dispatch relies on. */
  lemma IsEmptyIgnoresInterfaces<T>(items: seq<T>, these: set<Interface>, those: set<Interface>)
    ensures IsEmpty(Object(items, these)) == IsEmpty(Object(items, those))
  {
  }

  /** The overload for a static type of IReadOnlyCollection<T>. */
  function IsEmptyReadOnly<T>(source: Enumerable<T>): (r: Result<bool>)
    requires source.Object? ==> ReadOnlyCollection in source.interfaces
    ensures r == IsEmpty(source)
    ensures source.Object? ==> r == Return(|source.items| == 0)
  {
    if source.Null? then Throw(NullReferenceException)
    else Return(Count(source) == 0)
  }

  /*** Yield ***/

  /** A one-element sequence holding `singleElement`. */
  function Yield<T>(singleElement: T): (r: Enumerable<T>)
    ensures r.Object? && |r.items| == 1 && r.items[0] == singleElement
    ensures r.interfaces == {}
  {
    Object([singleElement], {})
  }

  /*** Contains ***/

  /** Whether some element of `sequence` satisfies `condition`
      (Enumerable.Any, which checks its arguments first). `condition` is the
      Func<T, bool> reference: None when it is null, otherwise a pure function. */
  function Contains<T>(sequence: Enumerable<T>, condition: Option<T -> bool>): (r: Result<bool>)
    ensures sequence.Null? ==> r == Throw(ArgumentNullException("source"))
    ensures sequence.Object? && condition.None? ==> r == Throw(ArgumentNullException("predicate"))
    ensures sequence.Object? && condition.Some? ==>
      r.Return? &&
      (r.value <==> exists i :: 0 <= i < |sequence.items| && condition.value(sequence.items[i]))
  {
    if sequence.Null? then Throw(ArgumentNullException("source"))
    else if condition.None? then Throw(ArgumentNullException("predicate"))
    else Return(Any(sequence.items, condition.value))
  }

  /** Enumerates `source` and stops at the first element that satisfies `condition`. */
  function Any<T>(source: seq<T>, condition: T -> bool): (found: bool)
    ensures found <==> exists i :: 0 <= i < |source| && condition(source[i])
  {
    if source == [] then false
    else if condition(source[0]) then true
    else Any(source[1..], condition)
  }

  /*** AddRange ***/

  /** Adds each item to `collection`, in enumeration order. Enumerating a
      null `items` throws before anything is added; a null `collection`
      throws at the first `Add`, so it goes unnoticed when `items` is empty. */
  method AddRange<T>(collection: Collection?<T>, items: Enumerable<T>) returns (outcome: Outcome)
    modifies collection
    ensures items.Null? ==> outcome == Threw(NullReferenceException)
    ensures items.Object? && collection == null ==>
      outcome == if items.items == [] then Completed else Threw(NullReferenceException)
    ensures items.Object? && collection != null ==> outcome == Completed
    ensures collection != null && items.Null? ==> collection.elements == old(collection.elements)
    ensures collection != null && items.Object? ==>
      collection.elements == old(collection.elements) + items.items
  {
    if items.Null? {
      return Threw(NullReferenceException);
    }
    var source := items.items;
    for i := 0 to |source|
      invariant collection == null ==> i == 0
      invariant collection != null ==> collection.elements == old(collection.elements) + source[..i]
    {
      if collection == null {
        return Threw(NullReferenceException);
      }
      collection.Add(source[i]);
    }
    assert source[..|source|] == source;
    return Completed;
  }

  /*** Properties relating the helpers ***/

  /** Concat's result is never empty, although it implements no collection
      interface and so IsEmpty must enumerate it: a corollary of the
      contracts of Concat and IsEmpty. */
  lemma ConcatNeverEmpty<T>(source: Enumerable<T>, value: T)
    requires source.Object?
    ensures IsEmpty(Concat(source, value).value) == Return(false)
  {
  }

  /** An element satisfying the condition exists in `source` + [value]
      exactly when one exists in `source` or `value` satisfies it. */
  lemma ContainsAfterConcat<T>(source: Enumerable<T>, value: T, condition: T -> bool)
    requires source.Object?
    ensures Contains(Concat(source, value).value, Some(condition))
      == Return(Contains(source, Some(condition)).value || condition(value))
  {
    var s := source.items;
    var t := Concat(source, value).value.items;
    if Contains(source, Some(condition)).value {
      var i :| 0 <= i < |s| && condition(s[i]);
      assert t[i] == s[i];
    } else if condition(value) {
      assert t[|s|] == value;
    } else {
      forall i | 0 <= i < |t| ensures !condition(t[i]) {
        if i < |s| {
          assert t[i] == s[i];
        }
      }
    }
  }

  /** Yield(x) yields what appending x to an empty sequence yields. */
  lemma YieldIsConcatOntoEmpty<T>(x: T)
    ensures Concat(Object([], {}), x) == Return(Yield(x))
    ensures IsEmpty(Yield(x)) == Return(false)
  {
  }

  /** The read-only copy answers IsEmpty (through either overload) and
      Contains exactly as its source does. */
  lemma ReadOnlyCopyAgrees<T>(source: Enumerable<T>, condition: Option<T -> bool>)
    requires source.Object?
    ensures IsEmptyReadOnly(ToReadOnlyCollection(source).value) == IsEmpty(source)
    ensures Contains(ToReadOnlyCollection(source).value, condition) == Contains(source, condition)
  {
  }
}
