/** Failure-carrying results shared by the other modules. */
module Wrappers {

  datatype Option<+T> = None | Some(value: T)

  /** What a loop over a sequence has done, in front of what is left to do. */
  ghost function Prepend<T>(front: seq<T>, back: Option<seq<T>>): Option<seq<T>> {
    match back case None => None case Some(more) => Some(front + more)
  }

  lemma PrependNone<T>(back: Option<seq<T>>)
    ensures Prepend([], back) == back
  {
    if back.Some? { assert [] + back.value == back.value; }
  }

  lemma PrependOne<T>(front: seq<T>, one: T, back: Option<seq<T>>)
    ensures Prepend(front, Prepend([one], back)) == Prepend(front + [one], back)
  {
    if back.Some? { assert front + ([one] + back.value) == front + [one] + back.value; }
  }

  lemma Regroup<T>(a: seq<T>, b: seq<T>, c: seq<T>)
    ensures (a + b) + c == a + (b + c)
  {
  }
}
