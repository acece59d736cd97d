/** Option and Result values shared by the models. */
module Basics {

  /** A value that may be absent (`null` or `undefined` in the source). */
  datatype Option<+T> = None | Some(value: T) {

    /** The value, or the given default (the source's `??`). */
    function GetOr(default: T): T {
      match this
      case Some(v) => v
      case None => default
    }

    /** This value when present, else the alternative (a chained `??`). */
    function OrElse(other: Option<T>): Option<T> {
      if Some? then this else other
    }
  }

  /** The outcome of an operation that may throw. */
  datatype Result<+T, +E> = Ok(value: T) | Err(error: E)

  /** A set that is not empty has an element to pick. */
  lemma SomeString(strings: set<string>)
    requires strings != {}
    ensures exists x :: x in strings
  {
    if forall x :: x !in strings {
      assert false;
    }
  }

  /** The list without one id. */
  function Others(ids: seq<string>, id: string): (others: seq<string>)
    ensures forall x :: x in others <==> x in ids && x != id
    ensures id !in ids ==> others == ids
  {
    if ids == [] then []
    else
      assert ids == [ids[0]] + ids[1..];
      (if ids[0] == id then [] else [ids[0]]) + Others(ids[1..], id)
  }

  /** The ids of the list that are in the set, in order. */
  function OnlyIn(ids: seq<string>, live: set<string>): (kept: seq<string>)
    ensures forall x :: x in kept <==> x in ids && x in live
  {
    if ids == [] then []
    else OnlyIn(ids[..|ids| - 1], live) + (if ids[|ids| - 1] in live then [ids[|ids| - 1]] else [])
  }

  /** The keys of a map in the order they were first set, after one more is set. */
  function WithKey(order: seq<string>, id: string): (more: seq<string>)
    ensures forall x :: x in more <==> x in order || x == id
  {
    if id in order then order else order + [id]
  }
}
