/** Counting the elements of a sequence that satisfy a predicate: the
    specification of every counter the audit and clean passes keep. */
module Counting {

  /** How many elements of `s` satisfy `p`; defined on the last element so that a
      loop over `s[..i]` extends it one step at a time. */
  function Count<T>(s: seq<T>, p: T -> bool): (n: nat)
    ensures n <= |s|
  {
    if s == [] then 0
    else Count(s[..|s| - 1], p) + (if p(s[|s| - 1]) then 1 else 0)
  }

  /** Extending a prefix by one element adds one exactly when that element satisfies `p`. */
  lemma CountStep<T>(s: seq<T>, i: nat, p: T -> bool)
    requires i < |s|
    ensures Count(s[..i + 1], p) == Count(s[..i], p) + (if p(s[i]) then 1 else 0)
  {
    assert s[..i + 1][..i] == s[..i];
  }

  /** Appending one element adds one exactly when that element satisfies `p`. */
  lemma CountSnoc<T>(s: seq<T>, x: T, p: T -> bool)
    ensures Count(s + [x], p) == Count(s, p) + (if p(x) then 1 else 0)
  {
    assert (s + [x])[..|s|] == s;
  }

  /** If `q` holds of `u[k]` wherever `p` holds of `s[k]`, `q` counts at least as
      many elements of `u` as `p` counts of `s`. */
  lemma {:induction false} CountPointwise<A, B>(s: seq<A>, u: seq<B>, p: A -> bool, q: B -> bool)
    requires |s| == |u|
    requires forall k :: 0 <= k < |s| && p(s[k]) ==> q(u[k])
    ensures Count(s, p) <= Count(u, q)
  {
    if s != [] {
      CountPointwise(s[..|s| - 1], u[..|u| - 1], p, q);
    }
  }

  /** Two predicates that never hold together of an element count at most `|s|`
      between them. */
  lemma {:induction false} CountDisjoint<T>(s: seq<T>, p: T -> bool, q: T -> bool)
    requires forall k :: 0 <= k < |s| ==> !(p(s[k]) && q(s[k]))
    ensures Count(s, p) + Count(s, q) <= |s|
  {
    if s != [] {
      CountDisjoint(s[..|s| - 1], p, q);
    }
  }

  /** Three predicates of which exactly one holds of every element partition `s`. */
  lemma {:induction false} CountPartition<T>(s: seq<T>, p: T -> bool, q: T -> bool, r: T -> bool)
    requires forall k :: 0 <= k < |s| ==>
      (p(s[k]) && !q(s[k]) && !r(s[k])) || (!p(s[k]) && q(s[k]) && !r(s[k])) || (!p(s[k]) && !q(s[k]) && r(s[k]))
    ensures Count(s, p) + Count(s, q) + Count(s, r) == |s|
  {
    if s != [] {
      CountPartition(s[..|s| - 1], p, q, r);
    }
  }
}
