/** Expanding predicates that require other predicates into one flat list per clause. */
module Predicates {
  import opened Collections

  /** What evaluating a predicate may come to; `Raises` stands for any exception. */
  datatype Outcome = Truthy | Falsy | Raises

  /** `requires` never leads back to where it started. */
  ghost predicate Acyclic<N(!new)>(parents: N -> seq<N>, rank: N -> nat) {
    forall n: N, p: N :: p in parents(n) ==> rank(p) < rank(n)
  }

  ghost predicate Below<N(!new)>(clause: seq<N>, rank: N -> nat, bound: nat) {
    forall n: N :: n in clause ==> rank(n) < bound
  }

  // ----- The expansion -----

  /** What one predicate adds to a list whose elements so far are `seen`. */
  function ExpandPredicate<N(==,!new)>(n: N, parents: N -> seq<N>, seen: set<N>, ghost rank: N -> nat): seq<N>
    requires Acyclic(parents, rank)
    decreases rank(n)
  {
    var above := ExpandAll(parents(n), parents, seen, rank, rank(n));
    above + if n in seen + Elements(above) then [] else [n]
  }

  function ExpandAll<N(==,!new)>(clause: seq<N>, parents: N -> seq<N>, seen: set<N>, ghost rank: N -> nat,
      ghost bound: nat): seq<N>
    requires Acyclic(parents, rank) && Below(clause, rank, bound)
    decreases bound, |clause|
  {
    if clause == [] then
      []
    else
      var last := |clause| - 1;
      var before := ExpandAll(clause[..last], parents, seen, rank, bound);
      assert clause[last] in clause;
      before + ExpandPredicate(clause[last], parents, seen + Elements(before), rank)
  }

  /** The expansion of a whole clause, which starts with nothing seen. */
  function Expand<N(==,!new)>(clause: seq<N>, parents: N -> seq<N>, ghost rank: N -> nat, ghost bound: nat): seq<N>
    requires Acyclic(parents, rank) && Below(clause, rank, bound)
  {
    ExpandAll(clause, parents, {}, rank, bound)
  }

  // ----- Its shape -----

  ghost predicate Closed<N(!new)>(s: set<N>, parents: N -> seq<N>) {
    forall n: N, p: N :: n in s && p in parents(n) ==> p in s
  }

  predicate NoDuplicates<N(==)>(r: seq<N>, seen: set<N>) {
    && (forall i :: 0 <= i < |r| ==> r[i] !in seen)
    && (forall i, j :: 0 <= i < j < |r| ==> r[i] != r[j])
  }

  /** Every prefix is closed: an element comes after all of its ancestors. */
  ghost predicate AncestorsFirst<N(!new)>(r: seq<N>, seen: set<N>, parents: N -> seq<N>) {
    forall i :: 0 <= i <= |r| ==> Closed(seen + Elements(r[..i]), parents)
  }

  ghost predicate WellFormed<N(!new)>(r: seq<N>, seen: set<N>, parents: N -> seq<N>) {
    NoDuplicates(r, seen) && AncestorsFirst(r, seen, parents)
  }

  lemma WellFormedSum<N(!new)>(a: seq<N>, b: seq<N>, seen: set<N>, parents: N -> seq<N>)
    requires WellFormed(a, seen, parents) && WellFormed(b, seen + Elements(a), parents)
    ensures WellFormed(a + b, seen, parents)
  {
    var r := a + b;
    forall i, j | 0 <= i < j < |r|
      ensures r[i] != r[j]
    {
      if i < |a| <= j {
        assert r[j] == b[j - |a|] && r[i] in Elements(a);
      } else if |a| <= i {
        assert r[i] == b[i - |a|] && r[j] == b[j - |a|];
      }
    }
    forall i | 0 <= i < |r|
      ensures r[i] !in seen
    {
      assert i >= |a| ==> r[i] == b[i - |a|];
    }
    forall i | 0 <= i <= |r|
      ensures Closed(seen + Elements(r[..i]), parents)
    {
      if i <= |a| {
        assert r[..i] == a[..i];
      } else {
        assert r[..i] == a + b[..i - |a|];
        assert seen + Elements(r[..i]) == seen + Elements(a) + Elements(b[..i - |a|]);
      }
    }
  }

  lemma WholeIsClosed<N(!new)>(r: seq<N>, seen: set<N>, parents: N -> seq<N>)
    requires AncestorsFirst(r, seen, parents)
    ensures Closed(seen + Elements(r), parents)
  {
    assert r[..|r|] == r;
  }

  lemma OneMore<N(!new)>(n: N, seen: set<N>, parents: N -> seq<N>)
    requires Closed(seen, parents) && Elements(parents(n)) <= seen && n !in seen
    ensures WellFormed([n], seen, parents)
  {
    forall i | 0 <= i <= 1
      ensures Closed(seen + Elements([n][..i]), parents)
    {
      if i == 0 {
        assert [n][..0] == [] && seen + Elements([]) == seen;
      } else {
        assert [n][..1] == [n] && Elements([n]) == {n};
      }
    }
  }

  lemma {:induction false} ExpandPredicateShape<N(!new)>(n: N, parents: N -> seq<N>, seen: set<N>, rank: N -> nat)
    requires Acyclic(parents, rank) && Closed(seen, parents)
    ensures var r := ExpandPredicate(n, parents, seen, rank);
            WellFormed(r, seen, parents) && n in seen + Elements(r)
    decreases rank(n)
  {
    var above := ExpandAll(parents(n), parents, seen, rank, rank(n));
    ExpandAllShape(parents(n), parents, seen, rank, rank(n));
    WholeIsClosed(above, seen, parents);
    if n in seen + Elements(above) {
      assert above + [] == above;
    } else {
      OneMore(n, seen + Elements(above), parents);
      WellFormedSum(above, [n], seen, parents);
    }
  }

  lemma {:induction false} ExpandAllShape<N(!new)>(clause: seq<N>, parents: N -> seq<N>, seen: set<N>, rank: N -> nat, bound: nat)
    requires Acyclic(parents, rank) && Below(clause, rank, bound) && Closed(seen, parents)
    ensures var r := ExpandAll(clause, parents, seen, rank, bound);
            WellFormed(r, seen, parents) && Elements(clause) <= seen + Elements(r)
    decreases bound, |clause|
  {
    if clause == [] {
      assert seen + Elements([]) == seen;
    } else {
      var last := |clause| - 1;
      var before := ExpandAll(clause[..last], parents, seen, rank, bound);
      assert clause[last] in clause;
      ExpandAllShape(clause[..last], parents, seen, rank, bound);
      WholeIsClosed(before, seen, parents);
      ExpandPredicateShape(clause[last], parents, seen + Elements(before), rank);
      var own := ExpandPredicate(clause[last], parents, seen + Elements(before), rank);
      WellFormedSum(before, own, seen, parents);
      assert clause == clause[..last] + [clause[last]];
      assert Elements(before + own) == Elements(before) + Elements(own);
    }
  }

  lemma {:induction false} ExpandPredicateIsLeast<N(!new)>(n: N, parents: N -> seq<N>, seen: set<N>, rank: N -> nat, s: set<N>)
    requires Acyclic(parents, rank) && Closed(s, parents) && n in s
    ensures Elements(ExpandPredicate(n, parents, seen, rank)) <= s
    decreases rank(n)
  {
    ExpandAllIsLeast(parents(n), parents, seen, rank, rank(n), s);
  }

  lemma {:induction false} ExpandAllIsLeast<N(!new)>(clause: seq<N>, parents: N -> seq<N>, seen: set<N>, rank: N -> nat,
      bound: nat, s: set<N>)
    requires Acyclic(parents, rank) && Below(clause, rank, bound) && Closed(s, parents) && Elements(clause) <= s
    ensures Elements(ExpandAll(clause, parents, seen, rank, bound)) <= s
    decreases bound, |clause|
  {
    if clause != [] {
      var last := |clause| - 1;
      assert clause[last] in Elements(clause);
      ExpandAllIsLeast(clause[..last], parents, seen, rank, bound, s);
      var before := ExpandAll(clause[..last], parents, seen, rank, bound);
      ExpandPredicateIsLeast(clause[last], parents, seen + Elements(before), rank, s);
    }
  }

  /** The expansion lists the ancestor closure of the clause (the least closed set around it),
      without duplicates and with every element after all of its ancestors. */
  lemma ExpansionIsTheOrderedClosure<N(!new)>(clause: seq<N>, parents: N -> seq<N>, rank: N -> nat, bound: nat)
    requires Acyclic(parents, rank) && Below(clause, rank, bound)
    ensures var r := Expand(clause, parents, rank, bound);
            && NoDuplicates(r, {}) && AncestorsFirst(r, {}, parents)
            && Elements(clause) <= Elements(r) && Closed(Elements(r), parents)
            && (forall s :: Closed(s, parents) && Elements(clause) <= s ==> Elements(r) <= s)
  {
    var r := Expand(clause, parents, rank, bound);
    ExpandAllShape(clause, parents, {}, rank, bound);
    WholeIsClosed(r, {}, parents);
    assert {} + Elements(r) == Elements(r);
    forall s | Closed(s, parents) && Elements(clause) <= s
      ensures Elements(r) <= s
    {
      ExpandAllIsLeast(clause, parents, {}, rank, bound, s);
    }
  }

  // ----- Its meaning -----

  /** Short-circuit evaluation from left to right. */
  function All<N>(r: seq<N>, body: N -> Outcome): Outcome {
    if r == [] then Truthy else
    match body(r[0])
    case Truthy => All(r[1..], body)
    case other => other
  }

  /** The recursive reading of `requires`: first everything that is required, then the body. */
  function Naive<N(!new)>(n: N, parents: N -> seq<N>, body: N -> Outcome, ghost rank: N -> nat): Outcome
    requires Acyclic(parents, rank)
    decreases rank(n)
  {
    match NaiveAll(parents(n), parents, body, rank, rank(n))
    case Truthy => body(n)
    case other => other
  }

  function NaiveAll<N(!new)>(clause: seq<N>, parents: N -> seq<N>, body: N -> Outcome, ghost rank: N -> nat,
      ghost bound: nat): Outcome
    requires Acyclic(parents, rank) && Below(clause, rank, bound)
    decreases bound, |clause|
  {
    if clause == [] then Truthy else
    var last := |clause| - 1;
    assert clause[last] in clause;
    match NaiveAll(clause[..last], parents, body, rank, bound)
    case Truthy => Naive(clause[last], parents, body, rank)
    case other => other
  }

  ghost predicate AllTruthy<N(!new)>(s: set<N>, body: N -> Outcome) {
    forall n: N :: n in s ==> body(n) == Truthy
  }

  lemma {:induction false} AllSplits<N(!new)>(a: seq<N>, b: seq<N>, body: N -> Outcome)
    ensures All(a + b, body) == if All(a, body) == Truthy then All(b, body) else All(a, body)
    ensures All(a, body) == Truthy <==> AllTruthy(Elements(a), body)
  {
    if a == [] {
      assert a + b == b;
    } else {
      assert (a + b)[1..] == a[1..] + b;
      AllSplits(a[1..], b, body);
      assert Elements(a) == {a[0]} + Elements(a[1..]);
    }
  }

  lemma {:induction false} PredicateMeaning<N(!new)>(n: N, parents: N -> seq<N>, body: N -> Outcome, seen: set<N>, rank: N -> nat)
    requires Acyclic(parents, rank) && Closed(seen, parents) && AllTruthy(seen, body)
    ensures All(ExpandPredicate(n, parents, seen, rank), body) == Naive(n, parents, body, rank)
    decreases rank(n)
  {
    var above := ExpandAll(parents(n), parents, seen, rank, rank(n));
    ClauseMeaning(parents(n), parents, body, seen, rank, rank(n));
    AllSplits(above, [n], body);
    AllSplits(above, [], body);
  }

  lemma {:induction false} ClauseMeaning<N(!new)>(clause: seq<N>, parents: N -> seq<N>, body: N -> Outcome, seen: set<N>,
      rank: N -> nat, bound: nat)
    requires Acyclic(parents, rank) && Below(clause, rank, bound) && Closed(seen, parents) && AllTruthy(seen, body)
    ensures All(ExpandAll(clause, parents, seen, rank, bound), body) == NaiveAll(clause, parents, body, rank, bound)
    decreases bound, |clause|
  {
    if clause != [] {
      var last := |clause| - 1;
      var before := ExpandAll(clause[..last], parents, seen, rank, bound);
      assert clause[last] in clause;
      ClauseMeaning(clause[..last], parents, body, seen, rank, bound);
      var own := ExpandPredicate(clause[last], parents, seen + Elements(before), rank);
      AllSplits(before, own, body);
      if All(before, body) == Truthy {
        ExpandAllShape(clause[..last], parents, seen, rank, bound);
        WholeIsClosed(before, seen, parents);
        PredicateMeaning(clause[last], parents, body, seen + Elements(before), rank);
      }
    }
  }

  /** Flattening changes nothing: not which clauses hold, and not which of them raise. */
  lemma ExpansionKeepsTheMeaning<N(!new)>(clause: seq<N>, parents: N -> seq<N>, body: N -> Outcome, rank: N -> nat, bound: nat)
    requires Acyclic(parents, rank) && Below(clause, rank, bound)
    ensures All(Expand(clause, parents, rank, bound), body) == NaiveAll(clause, parents, body, rank, bound)
  {
    ClauseMeaning(clause, parents, body, {}, rank, bound);
  }

  /** A body that never raises once all it requires is true. */
  ghost predicate Guarded<N(!new)>(n: N, parents: N -> seq<N>, body: N -> Outcome) {
    AllTruthy(Elements(parents(n)), body) ==> body(n) != Raises
  }

  /** A chain of requirements that leads from `chain[0]` up to its last element. */
  ghost predicate Requires<N(!new)>(chain: seq<N>, parents: N -> seq<N>) {
    |chain| >= 1 && forall k :: 0 <= k < |chain| - 1 ==> chain[k + 1] in parents(chain[k])
  }

  lemma ParentsEarlier<N(!new)>(r: seq<N>, i: nat, parents: N -> seq<N>, rank: N -> nat)
    requires Acyclic(parents, rank) && AncestorsFirst(r, {}, parents) && i < |r|
    ensures Elements(parents(r[i])) <= Elements(r[..i])
  {
    assert r[i] == r[..i + 1][i];
    assert r[i] in {} + Elements(r[..i + 1]);
    assert Elements(r[..i + 1]) == Elements(r[..i]) + {r[i]};
    forall p: N | p in parents(r[i])
      ensures p in Elements(r[..i])
    {
      assert p in {} + Elements(r[..i + 1]) && rank(p) < rank(r[i]);
    }
  }

  lemma {:induction false} ChainStaysInside<N(!new)>(chain: seq<N>, parents: N -> seq<N>, s: set<N>)
    requires Requires(chain, parents) && Closed(s, parents) && chain[0] in s
    ensures chain[|chain| - 1] in s
    decreases |chain|
  {
    if |chain| > 1 {
      assert chain[1] in parents(chain[0]);
      ChainStaysInside(chain[1..], parents, s);
    }
  }

  /** When evaluation reaches an element, every ancestor of it has been asked and was true. */
  lemma ReachedMeansAncestorsHold<N(!new)>(r: seq<N>, i: nat, chain: seq<N>, parents: N -> seq<N>, body: N -> Outcome,
      rank: N -> nat)
    requires Acyclic(parents, rank) && AncestorsFirst(r, {}, parents)
    requires i < |r| && All(r[..i], body) == Truthy
    requires |chain| > 1 && Requires(chain, parents) && chain[0] == r[i]
    ensures chain[|chain| - 1] in r[..i] && body(chain[|chain| - 1]) == Truthy
  {
    AllSplits(r[..i], [], body);
    ParentsEarlier(r, i, parents, rank);
    assert chain[1] in parents(chain[0]);
    assert {} + Elements(r[..i]) == Elements(r[..i]);
    ChainStaysInside(chain[1..], parents, Elements(r[..i]));
  }

  /** Guarded bodies never raise in an expanded clause. */
  lemma {:induction false} GuardedNeverRaises<N(!new)>(r: seq<N>, k: nat, parents: N -> seq<N>, body: N -> Outcome,
      rank: N -> nat)
    requires Acyclic(parents, rank) && AncestorsFirst(r, {}, parents) && k <= |r|
    requires forall n: N :: n in r ==> Guarded(n, parents, body)
    ensures All(r[..k], body) != Raises
    decreases k
  {
    if k > 0 {
      GuardedNeverRaises(r, k - 1, parents, body, rank);
      assert r[..k] == r[..k - 1] + [r[k - 1]];
      AllSplits(r[..k - 1], [r[k - 1]], body);
      if All(r[..k - 1], body) == Truthy {
        ParentsEarlier(r, k - 1, parents, rank);
        assert Guarded(r[k - 1], parents, body);
      }
    }
  }

  // ----- The generators, which share one mutable set -----

  class SeenBefore<N(==)> {
    var elements: set<N>

    constructor ()
      ensures elements == {}
    {
      elements := {};
    }
  }

  method YieldPredicate<N(==,!new)>(n: N, parents: N -> seq<N>, seenBefore: SeenBefore<N>, ghost rank: N -> nat)
    returns (yielded: seq<N>)
    requires Acyclic(parents, rank)
    modifies seenBefore
    ensures yielded == ExpandPredicate(n, parents, old(seenBefore.elements), rank)
    ensures seenBefore.elements == old(seenBefore.elements) + Elements(yielded)
    decreases rank(n)
  {
    yielded := [];
    var required := parents(n);
    for i := 0 to |required|
      invariant Below(required, rank, rank(n)) && Below(required[..i], rank, rank(n))
      invariant yielded == ExpandAll(required[..i], parents, old(seenBefore.elements), rank, rank(n))
      invariant seenBefore.elements == old(seenBefore.elements) + Elements(yielded)
    {
      var more := YieldPredicate(required[i], parents, seenBefore, rank);
      assert required[..i + 1][..i] == required[..i];
      assert Elements(yielded + more) == Elements(yielded) + Elements(more);
      yielded := yielded + more;
    }
    assert required[..|required|] == required;
    if n !in seenBefore.elements {
      seenBefore.elements := seenBefore.elements + {n};
      assert Elements(yielded + [n]) == Elements(yielded) + {n};
      yielded := yielded + [n];
    }
  }

  method ExpandClause<N(==,!new)>(clause: seq<N>, parents: N -> seq<N>, ghost rank: N -> nat, ghost bound: nat)
    returns (expanded: seq<N>)
    requires Acyclic(parents, rank) && Below(clause, rank, bound)
    ensures expanded == Expand(clause, parents, rank, bound)
  {
    var seenBefore := new SeenBefore<N>();
    expanded := [];
    for i := 0 to |clause|
      invariant Below(clause[..i], rank, bound)
      invariant expanded == ExpandAll(clause[..i], parents, {}, rank, bound)
      invariant seenBefore.elements == Elements(expanded)
    {
      var more := YieldPredicate(clause[i], parents, seenBefore, rank);
      assert clause[..i + 1][..i] == clause[..i] && {} + Elements(expanded) == Elements(expanded);
      assert Elements(expanded + more) == Elements(expanded) + Elements(more);
      expanded := expanded + more;
    }
    assert clause[..|clause|] == clause;
  }
}
