/** Several lists over the same numbers, and how often each number occurs in them. */
module Bags {

  type Lists = seq<seq<nat>>

  /** All members of all lists, each as often as it occurs. */
  ghost function All(ls: Lists): multiset<nat> {
    if ls == [] then multiset{} else multiset(ls[0]) + All(ls[1..])
  }

  lemma {:induction false} AllSet(ls: Lists, a: nat, s: seq<nat>)
    requires a < |ls|
    ensures multiset(ls[a]) <= All(ls)
    ensures All(ls[a := s]) == All(ls) - multiset(ls[a]) + multiset(s)
    decreases |ls|
  {
    if a > 0 {
      assert ls[a := s][1..] == ls[1..][a - 1 := s];
      AllSet(ls[1..], a - 1, s);
    }
  }

  lemma {:induction false} TwoLists(ls: Lists, a: nat, b: nat, x: nat)
    requires a < b < |ls|
    ensures All(ls)[x] >= multiset(ls[a])[x] + multiset(ls[b])[x]
    decreases |ls|
  {
    if a == 0 {
      AllSet(ls[1..], b - 1, []);
    } else {
      TwoLists(ls[1..], a - 1, b - 1, x);
    }
  }

  lemma TwicePlaced(s: seq<nat>, i: nat, j: nat)
    requires i < j < |s|
    ensures s[i] == s[j] ==> multiset(s)[s[i]] >= 2
  {
    assert s == s[..j] + [s[j]] + s[j + 1..];
    assert s[..j][i] == s[i];
  }

  lemma Occurs(s: seq<nat>, x: nat)
    ensures x in s <==> multiset(s)[x] >= 1
  {
    assert x in s <==> x in multiset(s);
  }
}
