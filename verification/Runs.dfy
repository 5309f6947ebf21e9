// Runs of a machine that is given by what one step does to a state.
module Runs {

  /** The state after the steps, in their order. */
  function After<S, A>(next: (S, A) -> S, s: S, steps: seq<A>): S
    decreases |steps|
  {
    if steps == [] then s else After(next, next(s, steps[0]), steps[1..])
  }

  /** Some run leads from one state to the other. */
  ghost predicate Leads<S, A(!new)>(next: (S, A) -> S, s: S, t: S) {
    exists steps: seq<A> :: After(next, s, steps) == t
  }

  lemma {:induction false} AfterConcatenation<S, A>(next: (S, A) -> S, s: S, a: seq<A>, b: seq<A>)
    ensures After(next, s, a + b) == After(next, After(next, s, a), b)
    decreases |a|
  {
    if a == [] {
      assert a + b == b;
    } else {
      assert (a + b)[1..] == a[1..] + b;
      AfterConcatenation(next, next(s, a[0]), a[1..], b);
    }
  }

  lemma LeadsByRun<S, A(!new)>(next: (S, A) -> S, s: S, t: S, steps: seq<A>)
    requires Leads(next, s, t)
    ensures Leads(next, s, After(next, t, steps))
  {
    var before :| After(next, s, before) == t;
    AfterConcatenation(next, s, before, steps);
  }

  lemma LeadsByStep<S, A(!new)>(next: (S, A) -> S, s: S, t: S, step: A)
    requires Leads(next, s, t)
    ensures Leads(next, s, next(t, step))
  {
    LeadsByRun(next, s, t, [step]);
    assert After(next, t, [step]) == After(next, next(t, step), []);
  }

  lemma LeadsToSelf<S, A(!new)>(next: (S, A) -> S, s: S)
    ensures Leads(next, s, s)
  {
    assert After(next, s, []) == s;
  }

  lemma LeadsOn<S, A(!new)>(next: (S, A) -> S, s: S, t: S, u: S)
    requires Leads(next, s, t) && Leads(next, t, u)
    ensures Leads(next, s, u)
  {
    var steps :| After(next, t, steps) == u;
    LeadsByRun(next, s, t, steps);
  }

  /** On the way no step is made in a state where it is of the given kind. */
  ghost predicate Never<S, A>(next: (S, A) -> S, kind: (S, A) -> bool, s: S, steps: seq<A>)
    decreases |steps|
  {
    steps == [] || (!kind(s, steps[0]) && Never(next, kind, next(s, steps[0]), steps[1..]))
  }

  /** A run with a step of some kind has a last one. */
  lemma {:induction false} LastOfKind<S, A(!new)>(next: (S, A) -> S, kind: (S, A) -> bool, s: S, steps: seq<A>)
    ensures Never(next, kind, s, steps) || exists a: seq<A>, x: A, b: seq<A> ::
      steps == a + [x] + b && kind(After(next, s, a), x) && Never(next, kind, next(After(next, s, a), x), b)
    decreases |steps|
  {
    if steps != [] {
      var t, rest := next(s, steps[0]), steps[1..];
      LastOfKind(next, kind, t, rest);
      if !Never(next, kind, t, rest) {
        var a, x, b :|
          rest == a + [x] + b && kind(After(next, t, a), x) && Never(next, kind, next(After(next, t, a), x), b);
        assert ([steps[0]] + a)[1..] == a;
        assert After(next, s, [steps[0]] + a) == After(next, t, a);
        assert steps == [steps[0]] + a + [x] + b;
      } else if kind(s, steps[0]) {
        assert steps == [] + [steps[0]] + rest;
        assert After(next, s, []) == s;
      }
    }
  }

  /** After the last step of the first kind, or if there is none from the start, the run has
      no step of the second kind. */
  ghost predicate QuietSince<S, A(!new)>(next: (S, A) -> S, kind: (S, A) -> bool, other: (S, A) -> bool,
                                         s: S, steps: seq<A>) {
    || (Never(next, kind, s, steps) && Never(next, other, s, steps))
    || exists a: seq<A>, x: A, b: seq<A> ::
      && steps == a + [x] + b && kind(After(next, s, a), x)
      && Never(next, kind, next(After(next, s, a), x), b) && Never(next, other, next(After(next, s, a), x), b)
  }

  /** Splitting a run at one of its steps. */
  lemma SplitRun<S, A>(next: (S, A) -> S, s: S, a: seq<A>, x: A, b: seq<A>)
    ensures After(next, s, a + [x] + b) == After(next, next(After(next, s, a), x), b)
  {
    AfterConcatenation(next, s, a + [x], b);
    AfterConcatenation(next, s, a, [x]);
    assert After(next, After(next, s, a), [x]) == After(next, next(After(next, s, a), x), []);
  }

  /** The steps of some kind, in their order. */
  function OfKind<A>(kind: A -> bool, steps: seq<A>): seq<A> {
    if steps == [] then []
    else (if kind(steps[0]) then [steps[0]] else []) + OfKind(kind, steps[1..])
  }

  lemma {:induction false} OfKindConcatenation<A>(kind: A -> bool, a: seq<A>, b: seq<A>)
    ensures OfKind(kind, a + b) == OfKind(kind, a) + OfKind(kind, b)
    decreases |a|
  {
    if a == [] {
      assert a + b == b;
    } else {
      assert (a + b)[1..] == a[1..] + b;
      OfKindConcatenation(kind, a[1..], b);
      var first := if kind(a[0]) then [a[0]] else [];
      assert OfKind(kind, a + b) == first + OfKind(kind, (a + b)[1..]);
      hide OfKind;
      assert first + (OfKind(kind, a[1..]) + OfKind(kind, b)) == first + OfKind(kind, a[1..]) + OfKind(kind, b);
    }
  }

  /** Some run leads from one state to the other whose steps of that kind are those made. */
  ghost predicate LeadsWith<S, A(!new)>(next: (S, A) -> S, kind: A -> bool, s: S, t: S, made: seq<A>) {
    exists steps: seq<A> :: After(next, s, steps) == t && OfKind(kind, steps) == made
  }

  lemma LeadsWithNothing<S, A(!new)>(next: (S, A) -> S, kind: A -> bool, s: S)
    ensures LeadsWith(next, kind, s, s, [])
  {
    var none: seq<A> := [];
    assert After(next, s, none) == s && OfKind(kind, none) == [];
  }

  lemma LeadsWithRun<S, A(!new)>(next: (S, A) -> S, kind: A -> bool, s: S, t: S, made: seq<A>, steps: seq<A>)
    requires LeadsWith(next, kind, s, t, made)
    ensures LeadsWith(next, kind, s, After(next, t, steps), made + OfKind(kind, steps))
  {
    var before :| After(next, s, before) == t && OfKind(kind, before) == made;
    AfterConcatenation(next, s, before, steps);
    OfKindConcatenation(kind, before, steps);
  }

  lemma LeadsWithStep<S, A(!new)>(next: (S, A) -> S, kind: A -> bool, s: S, t: S, made: seq<A>, step: A)
    requires LeadsWith(next, kind, s, t, made) && !kind(step)
    ensures LeadsWith(next, kind, s, next(t, step), made)
  {
    LeadsWithRun(next, kind, s, t, made, [step]);
    assert After(next, t, [step]) == After(next, next(t, step), []);
    assert OfKind(kind, [step]) == [] && made + [] == made;
  }

  lemma LeadsWithOn<S, A(!new)>(next: (S, A) -> S, kind: A -> bool, s: S, t: S, u: S, made: seq<A>, more: seq<A>)
    requires LeadsWith(next, kind, s, t, made) && LeadsWith(next, kind, t, u, more)
    ensures LeadsWith(next, kind, s, u, made + more)
  {
    var steps :| After(next, t, steps) == u && OfKind(kind, steps) == more;
    LeadsWithRun(next, kind, s, t, made, steps);
  }

  lemma LeadsWithLeads<S, A(!new)>(next: (S, A) -> S, kind: A -> bool, s: S, t: S, made: seq<A>)
    requires LeadsWith(next, kind, s, t, made)
    ensures Leads(next, s, t)
  {
    var steps :| After(next, s, steps) == t && OfKind(kind, steps) == made;
  }

  /** The first n of the scripts, one after another; a missing one is empty. */
  function Joined<A>(scripts: seq<seq<A>>, n: nat): seq<A> {
    if n == 0 then []
    else Joined(scripts, n - 1) + if n <= |scripts| then scripts[n - 1] else []
  }

  lemma OfKindInNext<A>(kind: A -> bool, scripts: seq<seq<A>>, n: nat)
    ensures OfKind(kind, Joined(scripts, n + 1))
         == OfKind(kind, Joined(scripts, n)) + OfKind(kind, if n < |scripts| then scripts[n] else [])
  {
    OfKindConcatenation(kind, Joined(scripts, n), if n < |scripts| then scripts[n] else []);
  }
}
