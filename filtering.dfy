/** `Array.prototype.filter` over sequences: the order-preserving selection
    that the import merge, the category filter and deletion are all built on. */
module Filtering {

  /** The elements of `s` that satisfy `keep`, in their order in `s`. */
  function Keep<T(!new)>(s: seq<T>, keep: T -> bool): (r: seq<T>)
    ensures |r| <= |s|
    ensures forall x :: x in r <==> x in s && keep(x)
  {
    if s == [] then []
    else (if keep(s[0]) then [s[0]] else []) + Keep(s[1..], keep)
  }

  /** Selection distributes over concatenation, so relative order is kept:
      whatever survives from a prefix comes before whatever survives from the rest. */
  lemma {:induction false} KeepConcat<T(!new)>(s: seq<T>, t: seq<T>, keep: T -> bool)
    ensures Keep(s + t, keep) == Keep(s, keep) + Keep(t, keep)
  {
    if s == [] {
      assert s + t == t;
    } else {
      assert (s + t)[1..] == s[1..] + t;
      KeepConcat(s[1..], t, keep);
    }
  }

  /** When every element passes, nothing is dropped. */
  lemma {:induction false} KeepAll<T(!new)>(s: seq<T>, keep: T -> bool)
    requires forall x :: x in s ==> keep(x)
    ensures Keep(s, keep) == s
  {
    if s != [] {
      KeepAll(s[1..], keep);
    }
  }

  /** When no element passes, nothing is kept. */
  lemma {:induction false} KeepNone<T(!new)>(s: seq<T>, keep: T -> bool)
    requires forall x :: x in s ==> !keep(x)
    ensures Keep(s, keep) == []
  {
    if s != [] {
      KeepNone(s[1..], keep);
    }
  }

  /** Filtering twice with the same test is filtering once. */
  lemma KeepTwice<T(!new)>(s: seq<T>, keep: T -> bool)
    ensures Keep(Keep(s, keep), keep) == Keep(s, keep)
  {
    KeepAll(Keep(s, keep), keep);
  }
}
