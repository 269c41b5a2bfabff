/** Failure-carrying datatypes and the byte vocabulary shared by every module. */
module Prelude {

  datatype Option<+T> = None | Some(value: T)

  datatype Result<+T, +E> = Ok(value: T) | Err(error: E)

  newtype Byte = b: int | 0 <= b < 256

  type Bytes = seq<Byte>

  /** Python's `data[offset : offset + length]`, which clamps instead of failing. */
  function Slice<T>(data: seq<T>, offset: nat, length: nat): seq<T> {
    var lo := if offset <= |data| then offset else |data|;
    var hi := if offset + length <= |data| then offset + length else |data|;
    data[lo..hi]
  }

  /** The slice has the requested elements, as far as there are any. */
  lemma SliceIs<T>(data: seq<T>, offset: nat, length: nat)
    ensures |Slice(data, offset, length)|
         == if offset >= |data| then 0 else if length <= |data| - offset then length else |data| - offset
    ensures forall i :: 0 <= i < |Slice(data, offset, length)| ==> Slice(data, offset, length)[i] == data[offset + i]
  {
  }

  lemma NoneMeansEmpty(s: set<int>)
    requires forall x :: x !in s
    ensures s == {}
  {
    assert forall x :: x !in s;
  }

  /** A non-empty set of integers has an element. */
  lemma SomeElement(s: set<int>)
    requires s != {}
    ensures exists x :: x in s
  {
    if forall x :: x !in s {
      NoneMeansEmpty(s);
    }
  }
}
