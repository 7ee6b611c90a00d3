/** Values and sequence facts shared by every component of the model. */
module Prelude {

  datatype Option<+T> = None | Some(value: T)

  const TCP := "tcp"
  const UDP := "udp"
  const ICMP := "icmp"
  const INGRESS := "ingress"
  const EGRESS := "egress"

  predicate IsProtocol(p: string) { p == TCP || p == UDP || p == ICMP }

  predicate IsDirection(d: string) { d == INGRESS || d == EGRESS }

  function ValueOr(value: string, fallback: string): string { if value == "" then fallback else value }

  function Max(a: int, b: int): int { if a < b then b else a }

  function Min(a: int, b: int): int { if b < a then b else a }

  function Last<T>(xs: seq<T>): T
    requires xs != []
  {
    xs[|xs| - 1]
  }

  function Init<T>(xs: seq<T>): seq<T>
    requires xs != []
  {
    xs[..|xs| - 1]
  }

  function Flatten<T>(xss: seq<seq<T>>): seq<T> {
    if xss == [] then [] else Flatten(Init(xss)) + Last(xss)
  }

  lemma {:induction false} FlattenCons<T>(xs: seq<T>, rest: seq<seq<T>>)
    ensures Flatten([xs] + rest) == xs + Flatten(rest)
  {
    if rest == [] {
      assert [xs] + rest == [xs];
      assert Flatten([xs]) == Flatten(Init([xs])) + Last([xs]);
    } else {
      FlattenCons(xs, Init(rest));
      assert Init([xs] + rest) == [xs] + Init(rest);
    }
  }

  /** Splitting the last element off a concatenation. */
  lemma InitOfConcat<T>(xs: seq<T>, ys: seq<T>)
    requires ys != []
    ensures xs + ys != [] && Init(xs + ys) == xs + Init(ys) && Last(xs + ys) == Last(ys)
  {
    assert Init(xs + ys) == xs + Init(ys);
  }

  /** One-to-one means no value occurs at two positions. */
  ghost predicate Distinct<T>(xs: seq<T>) {
    forall i, j :: 0 <= i < j < |xs| ==> xs[i] != xs[j]
  }

  lemma MultisetRemove<T>(xs: seq<T>, i: nat)
    requires i < |xs|
    ensures multiset(xs) == multiset(xs[..i] + xs[i + 1..]) + multiset{xs[i]}
  {
    assert xs == xs[..i] + [xs[i]] + xs[i + 1..];
  }

  /** Two permutations of each other stay so when one element is taken from both. */
  lemma MultisetRemoveBoth<T>(xs: seq<T>, ys: seq<T>, i: nat)
    requires xs != [] && i < |ys| && ys[i] == Last(xs) && multiset(xs) == multiset(ys)
    ensures multiset(Init(xs)) == multiset(ys[..i] + ys[i + 1..])
  {
    MultisetRemove(ys, i);
    MultisetRemove(xs, |xs| - 1);
    assert xs[..|xs| - 1] + xs[|xs|..] == Init(xs);
    assert multiset(Init(xs)) == multiset(xs) - multiset{Last(xs)};
    assert multiset(ys[..i] + ys[i + 1..]) == multiset(ys) - multiset{Last(xs)};
  }

  lemma MultisetHasLast<T>(xs: seq<T>, ys: seq<T>)
    requires multiset(xs) == multiset(ys)
    ensures |xs| == |ys| && (xs != [] ==> Last(xs) in ys)
  {
    assert |multiset(xs)| == |xs| && |multiset(ys)| == |ys|;
    if xs != [] { assert Last(xs) in multiset(xs); }
  }
}
