/** What every part of the model shares. */
module Wrappers {

  datatype Option<+T> = None | Some(value: T)

  /** Where `key` first stands in `keys`. */
  function Position<T(==)>(keys: seq<T>, key: T): (r: Option<nat>)
    ensures r.None? <==> key !in keys
    ensures r.Some? ==> r.value < |keys| && keys[r.value] == key && key !in keys[..r.value]
  {
    if keys == [] then None
    else if keys[0] == key then Some(0)
    else
      var rest := Position(keys[1..], key);
      if rest.None? then None else Some(rest.value + 1)
  }

  /** A key that stands in the front is found there, whatever comes after it. */
  lemma {:induction false} PositionInFront<T>(front: seq<T>, rest: seq<T>, key: T)
    requires key in front
    ensures Position(front + rest, key) == Position(front, key)
  {
    assert (front + rest)[1..] == front[1..] + rest;
    if front[0] != key { PositionInFront(front[1..], rest, key); }
  }

  lemma Associates<T>(a: seq<T>, b: seq<T>, c: seq<T>)
    ensures a + (b + c) == (a + b) + c
  {
  }
}
