/**
 * A change that replaces the element at an index of a state node's list. The index and the
 * new value belong to the parent change kind (a list change); the replace change adds the
 * value the slot held before.
 */
module ListReplace {
  import opened JavaInts

  /** A Java object reference of any class: `Null` or a non-null object. */
  datatype Nullable<T> = Null | NonNull(obj: T)

  datatype ListReplaceChange<T> = ListReplaceChange(index: int, value: Nullable<T>, oldValue: Nullable<T>)

  /** The constructor takes the index, then the OLD value, then the new value. */
  function Create<T>(index: int, oldValue: Nullable<T>, newValue: Nullable<T>): (c: ListReplaceChange<T>)
    ensures c.index == index && c.value == newValue && c.oldValue == oldValue
  {
    ListReplaceChange(index, newValue, oldValue)
  }

  /** `getOldValue`: with the index and the new value it rebuilds the change. */
  function GetOldValue<T>(c: ListReplaceChange<T>): (r: Nullable<T>)
    ensures Create(c.index, r, c.value) == c
  {
    c.oldValue
  }

  /** `getOldValue` gives back what was passed to the constructor as the old value. */
  lemma {:induction false} OldValueRoundTrip<T>(index: int, oldValue: Nullable<T>, newValue: Nullable<T>)
    ensures GetOldValue(Create(index, oldValue, newValue)) == oldValue
    ensures Create(index, oldValue, newValue).value == newValue
  {
  }

  /** `Objects.equals`: null-safe, and a null equals only null. */
  predicate ObjectsEquals<T(==)>(a: Nullable<T>, b: Nullable<T>)
  {
    match a
    case Null => b.Null?
    case NonNull(x) => b.NonNull? && x == b.obj
  }

  /** `Objects.hashCode`: 0 for null, otherwise the object's own hash. */
  function ObjectsHashCode<T>(a: Nullable<T>, hash: T -> Int32): (h: Int32)
    ensures a.Null? ==> h == 0
    ensures a.NonNull? ==> h == hash(a.obj)
  {
    match a
    case Null => 0
    case NonNull(x) => hash(x)
  }

  /** The parent list change's equality: same index and equal new values. */
  predicate ParentEquals<T(==)>(a: ListReplaceChange<T>, b: ListReplaceChange<T>)
  {
    a.index == b.index && ObjectsEquals(a.value, b.value)
  }

  /** `equals`: the parent's equality and null-safe equality of the old values. */
  predicate Equals<T(==)>(a: ListReplaceChange<T>, b: ListReplaceChange<T>)
  {
    ParentEquals(a, b) && ObjectsEquals(a.oldValue, b.oldValue)
  }

  /**
   * `hashCode`: the parent's hash times 37 plus the old value's hash, in 32-bit arithmetic.
   * The parent's hash is any function of the parent's fields.
   */
  function HashCode<T>(c: ListReplaceChange<T>, parentHash: (int, Nullable<T>) -> Int32, hash: T -> Int32): (h: Int32)
    ensures (h - (parentHash(c.index, c.value) * 37 + ObjectsHashCode(c.oldValue, hash))) % TWO_32 == 0
  {
    Wrap32(parentHash(c.index, c.value) * 37 + ObjectsHashCode(c.oldValue, hash))
  }

  /** `Objects.equals` over objects compared by value is equality of the references. */
  lemma {:induction false} ObjectsEqualsIsEquality<T>(a: Nullable<T>, b: Nullable<T>)
    ensures ObjectsEquals(a, b) <==> a == b
  {
    match a
    case Null =>
    case NonNull(x) =>
  }

  /**
   * `equals` holds exactly when index, new value and old value agree, so the Java
   * equality of replace changes is the model's equality of values.
   */
  lemma {:induction false} EqualsIsEquality<T>(a: ListReplaceChange<T>, b: ListReplaceChange<T>)
    ensures Equals(a, b) <==> a == b
  {
    ObjectsEqualsIsEquality(a.value, b.value);
    ObjectsEqualsIsEquality(a.oldValue, b.oldValue);
  }

  /** Two changes that differ only in the old value are not equal. */
  lemma {:induction false} OldValueDistinguishes<T>(index: int, value: Nullable<T>, old1: Nullable<T>, old2: Nullable<T>)
    requires old1 != old2
    ensures !Equals(ListReplaceChange(index, value, old1), ListReplaceChange(index, value, old2))
  {
    ObjectsEqualsIsEquality(old1, old2);
  }

  /** `equals` is symmetric, as the `Object.equals` contract demands. */
  lemma {:induction false} EqualsSymmetric<T>(a: ListReplaceChange<T>, b: ListReplaceChange<T>)
    ensures Equals(a, b) <==> Equals(b, a)
  {
    EqualsIsEquality(a, b);
    EqualsIsEquality(b, a);
  }

  /** Equal changes have equal hashes, whatever hash functions the parent and the values use. */
  lemma {:induction false} EqualChangesHashEqually<T>(a: ListReplaceChange<T>, b: ListReplaceChange<T>,
                                                      parentHash: (int, Nullable<T>) -> Int32, hash: T -> Int32)
    requires Equals(a, b)
    ensures HashCode(a, parentHash, hash) == HashCode(b, parentHash, hash)
  {
    EqualsIsEquality(a, b);
  }

  /** A null old value contributes nothing beyond the parent's hash times 37. */
  lemma {:induction false} HashOfNullOldValue<T>(index: int, value: Nullable<T>,
                                                 parentHash: (int, Nullable<T>) -> Int32, hash: T -> Int32)
    ensures HashCode(ListReplaceChange(index, value, Null), parentHash, hash) == Wrap32(parentHash(index, value) * 37)
  {
  }

  /** One call of the visitor: `visitListReplaceChange(node, change)`. */
  datatype Visit<N, T> = VisitListReplaceChange(node: N, change: ListReplaceChange<T>)

  /** A visitor that records the calls it receives. */
  class RecordingVisitor<N, T> {
    var visits: seq<Visit<N, T>>

    constructor ()
      ensures visits == []
    {
      visits := [];
    }
  }

  /** `accept`: passes the node and this change to the visitor's replace-change callback, once. */
  method Accept<N, T>(c: ListReplaceChange<T>, node: N, visitor: RecordingVisitor<N, T>)
    modifies visitor
    ensures visitor.visits == old(visitor.visits) + [VisitListReplaceChange(node, c)]
  {
    visitor.visits := visitor.visits + [VisitListReplaceChange(node, c)];
  }
}
