/** Sequences of anything. */
module Sequences {
  /** iptables -D takes the first rule that is equal. */
  function RemoveFirst<T(==)>(s: seq<T>, r: T): seq<T> {
    if s == [] then [] else if s[0] == r then s[1..] else [s[0]] + RemoveFirst(s[1..], r)
  }

  lemma {:induction false} RemoveThere<T>(front: seq<T>, r: T, rest: seq<T>)
    requires r !in front
    ensures RemoveFirst(front + [r] + rest, r) == front + rest
  {
    if front == [] {
      assert (front + [r] + rest)[1..] == rest && front + rest == rest;
    } else {
      assert (front + [r] + rest)[1..] == front[1..] + [r] + rest;
      RemoveThere(front[1..], r, rest);
    }
  }

  lemma {:induction false} RemoveSome<T>(s: seq<T>, r: T)
    ensures forall q | q in RemoveFirst(s, r) :: q in s
  {
    if s != [] { RemoveSome(s[1..], r); }
  }

  /** How many of the coming calls fail. */
  function Failures(faults: seq<bool>): nat {
    if faults == [] then 0 else (if faults[0] then 1 else 0) + Failures(faults[1..])
  }

  function Flatten<T>(ss: seq<seq<T>>): seq<T> {
    if ss == [] then [] else Flatten(ss[..|ss| - 1]) + ss[|ss| - 1]
  }

  lemma FlattenSnoc<T>(ss: seq<seq<T>>, s: seq<T>)
    ensures Flatten(ss + [s]) == Flatten(ss) + s
  {
    assert (ss + [s])[..|ss|] == ss;
  }
}
