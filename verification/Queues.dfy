/** Linked lists as sequences, and lists that partition things by where they are. */
module Queues {

  ghost predicate NoDup<A>(q: seq<A>) { forall i, j :: 0 <= i < j < |q| ==> q[i] != q[j] }

  ghost predicate Member<A, L>(q: seq<A>, loc: map<A, L>, l: L, a: A) { a in q <==> a in loc && loc[a] == l }

  /** A list holds exactly the things located there, once each. */
  ghost predicate Queued<A(!new), L>(q: seq<A>, loc: map<A, L>, l: L)
  {
    NoDup(q) && forall a {:trigger Member(q, loc, l, a)} :: Member(q, loc, l, a)
  }

  /** list_del of `a` */
  function Without<A(==)>(q: seq<A>, a: A): seq<A>
  {
    if q == [] then [] else if q[0] == a then q[1..] else [q[0]] + Without(q[1..], a)
  }

  lemma {:induction false} PushNoDup<A>(a: A, q: seq<A>)
    requires NoDup(q) && a !in q
    ensures NoDup([a] + q)
  {
  }

  /** Unlinking takes exactly `a` off the list. */
  lemma {:induction false} Unlinked<A(!new)>(q: seq<A>, a: A)
    requires NoDup(q)
    ensures NoDup(Without(q, a)) && forall x :: x in Without(q, a) <==> x in q && x != a
    ensures |Without(q, a)| == if a in q then |q| - 1 else |q|
  {
    if q != [] {
      assert q == [q[0]] + q[1..];
      if q[0] != a {
        Unlinked(q[1..], a);
        PushNoDup(q[0], Without(q[1..], a));
      }
    }
  }

  lemma {:induction false} WithoutAbsent<A>(q: seq<A>, a: A)
    requires a !in q
    ensures Without(q, a) == q
  {
    if q != [] { WithoutAbsent(q[1..], a); }
  }

  lemma {:induction false} WithoutAt<A>(q: seq<A>, k: nat)
    requires NoDup(q) && k < |q|
    ensures Without(q, q[k]) == q[..k] + q[k + 1..]
  {
    if k > 0 {
      WithoutAt(q[1..], k - 1);
      assert q[1..][..k - 1] == q[1..k] && q[..k] == [q[0]] + q[1..k];
      assert q[1..][k..] == q[k + 1..];
    }
  }

  lemma {:induction false} SubsetSize<A>(a: set<A>, b: set<A>)
    requires a <= b
    ensures |a| <= |b|
  {
    assert b == a + (b - a);
  }

  /** list_add_head of something that was elsewhere */
  lemma {:induction false} QueuedFront<A(!new), L>(q: seq<A>, loc: map<A, L>, l: L, a: A)
    requires Queued(q, loc, l) && (a in loc ==> loc[a] != l)
    ensures Queued([a] + q, loc[a := l], l)
  {
    assert Member(q, loc, l, a);
    var q', loc' := [a] + q, loc[a := l];
    forall b ensures Member(q', loc', l, b) { assert Member(q, loc, l, b); }
  }

  /** list_add_tail */
  lemma {:induction false} QueuedPush<A(!new), L>(q: seq<A>, loc: map<A, L>, l: L, a: A)
    requires Queued(q, loc, l) && (a in loc ==> loc[a] != l)
    ensures Queued(q + [a], loc[a := l], l)
  {
    assert Member(q, loc, l, a);
    var q', loc' := q + [a], loc[a := l];
    forall b ensures Member(q', loc', l, b) { assert Member(q, loc, l, b); }
  }

  /** Taking the first element off. */
  lemma {:induction false} QueuedPop<A(!new), L>(q: seq<A>, loc: map<A, L>, l: L, l': L)
    requires Queued(q, loc, l) && q != [] && l' != l
    ensures q[0] in loc && loc[q[0]] == l && Queued(q[1..], loc[q[0] := l'], l)
  {
    assert q == [q[0]] + q[1..];
    assert Member(q, loc, l, q[0]);
    var q', loc' := q[1..], loc[q[0] := l'];
    forall b ensures Member(q', loc', l, b) { assert Member(q, loc, l, b); }
  }

  lemma {:induction false} QueuedRemove<A(!new), L>(q: seq<A>, loc: map<A, L>, l: L, a: A, l': L)
    requires Queued(q, loc, l) && a in q && l' != l
    ensures Queued(Without(q, a), loc[a := l'], l)
  {
    var q', loc' := Without(q, a), loc[a := l'];
    Unlinked(q, a);
    forall b ensures Member(q', loc', l, b) { assert Member(q, loc, l, b); }
  }

  lemma {:induction false} QueuedElse<A(!new), L>(q: seq<A>, loc: map<A, L>, l: L, a: A, l': L)
    requires Queued(q, loc, l) && (a in loc ==> loc[a] != l) && l' != l
    ensures Queued(q, loc[a := l'], l)
  {
    var loc' := loc[a := l'];
    forall b ensures Member(q, loc', l, b) { assert Member(q, loc, l, b); }
  }
}
