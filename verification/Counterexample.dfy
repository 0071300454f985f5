/** Breadth-first counterexample search and the per-formula verdict. */
module Counterexample {
  import opened Prelude
  import opened Syntax
  import opened Expressions
  import opened Kripke
  import opened ModelChecker
  import opened LtlTranslation
  import opened StateSpace
  import StateIds

  // ---- Finite walks ---------------------------------------------------------------

  /** Non-empty, and every state is followed by one of its successors. */
  ghost predicate Walk(k: Structure, xs: seq<Id>) {
    xs != [] && forall i :: 0 <= i < |xs| - 1 ==> Step(k, xs[i], xs[i + 1])
  }

  function Last(xs: seq<Id>): Id
    requires xs != []
  {
    xs[|xs| - 1]
  }

  /** Truth of a propositional formula in one state, short-circuiting; temporal operators raise. */
  function AtomCore(f: Temporal, v: Valuation, literals: set<string>): Result<bool, EvalError> {
    match f
    case Atom(e) => AtomTruth(e, v, literals)
    case Not(g) => var b :- AtomCore(g, v, literals); Ok(!b)
    case Bin(Conj, l, r) => var b :- AtomCore(l, v, literals); if !b then Ok(false) else AtomCore(r, v, literals)
    case Bin(Disj, l, r) => var b :- AtomCore(l, v, literals); if b then Ok(true) else AtomCore(r, v, literals)
    case Bin(Impl, l, r) => var b :- AtomCore(l, v, literals); if !b then Ok(true) else AtomCore(r, v, literals)
    case Bin(Equiv, l, r) => var a :- AtomCore(l, v, literals); var b :- AtomCore(r, v, literals); Ok(a == b)
    case _ => Err(EvalError)
  }

  /** A state that refutes `AG g` or `l -> r` propositionally; an exception counts as no. */
  predicate Refutes(literals: set<string>, f: Temporal, v: Valuation) {
    match f
    case Prefix(AG, g) => AtomCore(g, v, literals) == Ok(false)
    case Bin(Impl, l, r) => AtomCore(l, v, literals) == Ok(true) && AtomCore(r, v, literals) == Ok(false)
    case _ => false
  }

  ghost predicate ReachesRefutation(k: Structure, literals: set<string>, f: Temporal, s: Id, xs: seq<Id>) {
    Walk(k, xs) && xs[0] == s && Last(xs) in k.states && Refutes(literals, f, k.states[Last(xs)])
  }

  /**
   * What the search returns: a shortest walk from the first failing initial state to a refuting state, or
   * that initial state alone when none can be reached.
   */
  ghost predicate IsTrace(k: Structure, literals: set<string>, f: Temporal, satisfying: set<Id>, trace: seq<Id>) {
    && Walk(k, trace)
    && (exists i :: 0 <= i < |k.initial| && k.initial[i] == trace[0] && trace[0] !in satisfying
                    && forall j :: 0 <= j < i ==> k.initial[j] in satisfying)
    && (ReachesRefutation(k, literals, f, trace[0], trace) || |trace| == 1)
    && (forall xs :: ReachesRefutation(k, literals, f, trace[0], xs) ==>
          |trace| <= |xs| && ReachesRefutation(k, literals, f, trace[0], trace))
  }

  // ---- Breadth-first search ----------------------------------------------------------

  /** The breadth-first tree: `depth` counts the edges from the root along `parents`. */
  ghost predicate Tree(k: Structure, s0: Id, parents: map<Id, Id>, depth: map<Id, nat>) {
    && s0 in depth && depth[s0] == 0
    && depth.Keys == parents.Keys + {s0} && s0 !in parents
    && (forall t :: t in depth ==> t in k.states)
    && (forall t :: t in parents ==>
          parents[t] in depth && Step(k, parents[t], t) && depth[t] == depth[parents[t]] + 1)
  }

  /** Queued states are known, distinct and in order of depth. */
  ghost predicate Ordered(depth: map<Id, nat>, queue: seq<Id>) {
    && (forall i :: 0 <= i < |queue| ==> queue[i] in depth)
    && (forall i, j :: 0 <= i < j < |queue| ==> queue[i] != queue[j] && depth[queue[i]] <= depth[queue[j]])
  }

  /** No known state is deeper than `limit`. */
  ghost predicate Within(depth: map<Id, nat>, limit: nat) {
    forall t :: t in depth ==> depth[t] <= limit
  }

  /** The search frontier: nothing known lies more than one level below the head of the queue. */
  ghost predicate Layered(depth: map<Id, nat>, queue: seq<Id>) {
    Ordered(depth, queue) && (queue != [] ==> Within(depth, depth[queue[0]] + 1))
  }

  /** States that left the queue do not refute, and all their successors are known at the next depth or above. */
  ghost predicate Settled(k: Structure, literals: set<string>, f: Temporal, depth: map<Id, nat>, queue: seq<Id>) {
    forall s :: s in depth && s !in queue ==>
      && s in k.states && !Refutes(literals, f, k.states[s])
      && (forall t :: Step(k, s, t) ==> t in depth && depth[t] <= depth[s] + 1)
  }

  /** Walks shorter than the depth of the queue's head end in settled states. */
  lemma {:induction false} ShortWalksSettled(
      k: Structure, literals: set<string>, f: Temporal, s0: Id, depth: map<Id, nat>, queue: seq<Id>, xs: seq<Id>)
    requires Settled(k, literals, f, depth, queue) && Layered(depth, queue)
    requires s0 in depth && depth[s0] == 0 && Walk(k, xs) && xs[0] == s0
    requires queue == [] || |xs| <= depth[queue[0]]
    ensures Last(xs) in depth && depth[Last(xs)] < |xs| && Last(xs) !in queue
  {
    if |xs| > 1 {
      var init := xs[..|xs| - 1];
      ShortWalksSettled(k, literals, f, s0, depth, queue, init);
      assert Step(k, Last(init), Last(xs));
    }
  }

  /** The frontier after `s` was taken from the front of the queue. */
  ghost predicate Left(depth: map<Id, nat>, s: Id, queue: seq<Id>) {
    && Ordered(depth, queue) && s in depth && Within(depth, depth[s] + 1)
    && forall i :: 0 <= i < |queue| ==> queue[i] != s && depth[s] <= depth[queue[i]]
  }

  lemma TakeHead(depth: map<Id, nat>, s: Id, queue: seq<Id>)
    requires Layered(depth, [s] + queue)
    ensures Left(depth, s, queue)
  {
    var whole := [s] + queue;
    assert whole[0] == s;
    forall i | 0 <= i < |queue|
      ensures queue[i] in depth && queue[i] != s && depth[s] <= depth[queue[i]]
    {
      assert whole[i + 1] == queue[i];
    }
    forall i, j | 0 <= i < j < |queue|
      ensures queue[i] != queue[j] && depth[queue[i]] <= depth[queue[j]]
    {
      assert whole[i + 1] == queue[i] && whole[j + 1] == queue[j];
    }
  }

  /** Known states keep their depth; newly known ones are queued behind the old queue. */
  ghost predicate Grown(depth0: map<Id, nat>, queue0: seq<Id>, depth: map<Id, nat>, queue: seq<Id>) {
    && (forall t :: t in depth0 ==> t in depth && depth[t] == depth0[t])
    && (forall t :: t in depth && t !in depth0 ==> t in queue)
    && (forall t :: t in queue0 ==> t in queue)
    && (depth.Keys == depth0.Keys ==> queue == queue0)
  }

  lemma GrownMore(depth0: map<Id, nat>, queue0: seq<Id>, depth: map<Id, nat>, queue: seq<Id>, t: Id, d: nat)
    requires Grown(depth0, queue0, depth, queue) && t !in depth
    ensures Grown(depth0, queue0, depth[t := d], queue + [t])
  {
    assert t in depth[t := d].Keys && t !in depth0.Keys;
  }

  /** What holds between two edges of `s`. */
  ghost predicate Visiting(k: Structure, s0: Id, s: Id, parents: map<Id, Id>, depth0: map<Id, nat>, queue0: seq<Id>,
                           depth: map<Id, nat>, queue: seq<Id>)
  {
    Tree(k, s0, parents, depth) && Left(depth, s, queue) && Grown(depth0, queue0, depth, queue)
  }

  /** Records `t`, an edge away from `s`, unless it is known already. */
  method Discover(k: Structure, s0: Id, s: Id, t: Id, ghost depth0: map<Id, nat>, ghost queue0: seq<Id>,
                  parents1: map<Id, Id>, ghost depth1: map<Id, nat>, queue1: seq<Id>)
    returns (parents: map<Id, Id>, ghost depth: map<Id, nat>, queue: seq<Id>)
    requires Visiting(k, s0, s, parents1, depth0, queue0, depth1, queue1) && Step(k, s, t) && t in k.states
    ensures Visiting(k, s0, s, parents, depth0, queue0, depth, queue)
    ensures depth.Keys == depth1.Keys + {t}
  {
    parents, depth, queue := parents1, depth1, queue1;
    if t != s0 && t !in parents {
      GrownMore(depth0, queue0, depth, queue, t, depth[s] + 1);
      parents := parents[t := s];
      depth := depth[t := depth[s] + 1];
      queue := queue + [t];
    }
  }

  /** One breadth-first expansion of `s`, which has just left the front of the queue. */
  method Visit(k: Structure, s0: Id, s: Id, parents0: map<Id, Id>, ghost depth0: map<Id, nat>, queue0: seq<Id>)
    returns (parents: map<Id, Id>, ghost depth: map<Id, nat>, queue: seq<Id>)
    requires Total(k) && Visiting(k, s0, s, parents0, depth0, queue0, depth0, queue0)
    ensures Visiting(k, s0, s, parents, depth0, queue0, depth, queue)
    ensures forall t :: Step(k, s, t) ==> t in depth
  {
    parents, depth, queue := parents0, depth0, queue0;
    assert s in k.transitions;
    var targets := k.transitions[s];
    var i := 0;
    while i < |targets|
      invariant i <= |targets|
      invariant Visiting(k, s0, s, parents, depth0, queue0, depth, queue)
      invariant forall j :: 0 <= j < i ==> targets[j] in depth.Keys
    {
      assert Step(k, s, targets[i]);
      parents, depth, queue := Discover(k, s0, s, targets[i], depth0, queue0, parents, depth, queue);
      i := i + 1;
    }
  }

  lemma SettledAfter(k: Structure, literals: set<string>, f: Temporal, s: Id,
                     depth0: map<Id, nat>, queue0: seq<Id>, depth: map<Id, nat>, queue: seq<Id>)
    requires Settled(k, literals, f, depth0, [s] + queue0) && Left(depth, s, queue)
    requires s in k.states && !Refutes(literals, f, k.states[s])
    requires Grown(depth0, queue0, depth, queue)
    requires forall t :: Step(k, s, t) ==> t in depth
    ensures Settled(k, literals, f, depth, queue) && Layered(depth, queue)
  {
    forall x | x in depth && x !in queue
      ensures x in k.states && !Refutes(literals, f, k.states[x])
      ensures forall t :: Step(k, x, t) ==> t in depth && depth[t] <= depth[x] + 1
    {
      if x != s {
        assert x !in [s] + queue0;
      }
    }
  }

  /** Follows parents from `target` back to the root. */
  method PathTo(k: Structure, s0: Id, parents: map<Id, Id>, ghost depth: map<Id, nat>, target: Id) returns (path: seq<Id>)
    requires Tree(k, s0, parents, depth) && target in depth
    ensures Walk(k, path) && path[0] == s0 && Last(path) == target && |path| == depth[target] + 1
  {
    path := [target];
    var cursor := target;
    while cursor != s0
      invariant cursor in depth && Walk(k, path) && path[0] == cursor && Last(path) == target
      invariant |path| == depth[target] - depth[cursor] + 1
      decreases depth[cursor]
    {
      var parent := parents[cursor];
      path := [parent] + path;
      cursor := parent;
    }
  }

  /** A refuting state at the head of the queue is a nearest one. */
  lemma HeadIsNearest(k: Structure, literals: set<string>, f: Temporal, s0: Id, depth: map<Id, nat>, queue: seq<Id>)
    requires Settled(k, literals, f, depth, queue) && Layered(depth, queue) && queue != []
    requires s0 in depth && depth[s0] == 0
    ensures forall xs :: ReachesRefutation(k, literals, f, s0, xs) ==> depth[queue[0]] < |xs|
  {
    forall xs | ReachesRefutation(k, literals, f, s0, xs)
      ensures depth[queue[0]] < |xs|
    {
      if |xs| <= depth[queue[0]] {
        ShortWalksSettled(k, literals, f, s0, depth, queue, xs);
      }
    }
  }

  lemma NothingRefutes(k: Structure, literals: set<string>, f: Temporal, s0: Id, depth: map<Id, nat>)
    requires Settled(k, literals, f, depth, []) && s0 in depth && depth[s0] == 0
    ensures forall xs :: !ReachesRefutation(k, literals, f, s0, xs)
  {
    forall xs | ReachesRefutation(k, literals, f, s0, xs)
      ensures false
    {
      ShortWalksSettled(k, literals, f, s0, depth, [], xs);
    }
  }

  ghost predicate Searched(
      k: Structure, literals: set<string>, f: Temporal, s0: Id, parents: map<Id, Id>, depth: map<Id, nat>, queue: seq<Id>)
  {
    Tree(k, s0, parents, depth) && Layered(depth, queue) && Settled(k, literals, f, depth, queue)
  }

  method Advance(k: Structure, ghost literals: set<string>, ghost f: Temporal, s0: Id,
                 parents0: map<Id, Id>, ghost depth0: map<Id, nat>, queue0: seq<Id>)
    returns (parents: map<Id, Id>, ghost depth: map<Id, nat>, queue: seq<Id>)
    requires Total(k) && queue0 != [] && Searched(k, literals, f, s0, parents0, depth0, queue0)
    requires queue0[0] in k.states && !Refutes(literals, f, k.states[queue0[0]])
    ensures Searched(k, literals, f, s0, parents, depth, queue)
    ensures depth0.Keys <= depth.Keys <= k.states.Keys
    ensures depth.Keys == depth0.Keys ==> |queue| < |queue0|
  {
    var s, rest := queue0[0], queue0[1..];
    assert queue0 == [s] + rest;
    TakeHead(depth0, s, rest);
    parents, depth, queue := Visit(k, s0, s, parents0, depth0, rest);
    SettledAfter(k, literals, f, s, depth0, rest, depth, queue);
  }

  lemma FewerLeft(all: set<Id>, before: set<Id>, now: set<Id>)
    requires before <= now <= all && now != before
    ensures all - now < all - before
  {
    var t :| t in now && t !in before;
    assert t in all - before && t !in all - now;
  }

  method FindWitness(k: Structure, literals: set<string>, f: Temporal, s0: Id) returns (trace: seq<Id>)
    requires Total(k) && s0 in k.states
    ensures Walk(k, trace) && trace[0] == s0
    ensures ReachesRefutation(k, literals, f, s0, trace) || |trace| == 1
    ensures forall xs :: ReachesRefutation(k, literals, f, s0, xs) ==>
              |trace| <= |xs| && ReachesRefutation(k, literals, f, s0, trace)
  {
    var parents: map<Id, Id> := map[];
    ghost var depth: map<Id, nat> := map[s0 := 0];
    var queue := [s0];
    while queue != []
      invariant Searched(k, literals, f, s0, parents, depth, queue)
      decreases k.states.Keys - depth.Keys, |queue|
    {
      assert queue[0] in depth && queue[0] in k.states;
      if Refutes(literals, f, k.states[queue[0]]) {
        HeadIsNearest(k, literals, f, s0, depth, queue);
        trace := PathTo(k, s0, parents, depth, queue[0]);
        return;
      }
      ghost var before := depth.Keys;
      parents, depth, queue := Advance(k, literals, f, s0, parents, depth, queue);
      if depth.Keys != before {
        FewerLeft(k.states.Keys, before, depth.Keys);
      }
    }
    NothingRefutes(k, literals, f, s0, depth);
    trace := [s0];
  }

  method FindCounterexample(k: Structure, literals: set<string>, f: Temporal, satisfying: set<Id>)
    returns (r: Option<seq<Id>>)
    requires Total(k)
    ensures r.None? <==> forall id :: id in k.initial ==> id in satisfying
    ensures r.Some? ==> IsTrace(k, literals, f, satisfying, r.value)
  {
    var i := 0;
    while i < |k.initial|
      invariant i <= |k.initial| && forall j :: 0 <= j < i ==> k.initial[j] in satisfying
    {
      if k.initial[i] !in satisfying {
        var trace := FindWitness(k, literals, f, k.initial[i]);
        return Some(trace);
      }
      i := i + 1;
    }
    return None;
  }

  // ---- What a trace proves --------------------------------------------------------------

  /** When propositional evaluation succeeds it agrees with the checker's semantics. */
  lemma {:induction false} AtomCoreAgrees(k: Structure, literals: set<string>, f: Temporal, s: Id)
    requires s in k.states && AtomCore(f, k.states[s], literals).Ok?
    ensures AtomCore(f, k.states[s], literals).value <==> s in Sat(k, literals, f)
  {
    match f
    case Atom(_) =>
    case Not(g) => AtomCoreAgrees(k, literals, g, s);
    case Bin(_, l, r) =>
      AtomCoreAgrees(k, literals, l, s);
      if AtomCore(r, k.states[s], literals).Ok? {
        AtomCoreAgrees(k, literals, r, s);
      }
    case _ =>
  }

  lemma {:induction false} AtomCoreSucceeds(k: Structure, literals: set<string>, f: Temporal, s: Id)
    requires s in k.states && Propositional(f) && Evaluable(k, literals, f)
    ensures AtomCore(f, k.states[s], literals).Ok?
  {
    match f
    case Atom(_) =>
    case Not(g) => AtomCoreSucceeds(k, literals, g, s);
    case Bin(_, l, r) => AtomCoreSucceeds(k, literals, l, s); AtomCoreSucceeds(k, literals, r, s);
  }

  function Prefixed(p: Path, n: nat): seq<Id> {
    seq(n + 1, i requires 0 <= i => p(i))
  }

  lemma PrefixIsWalk(k: Structure, p: Path, s: Id, n: nat)
    requires From(k, p, s)
    ensures Walk(k, Prefixed(p, n)) && Prefixed(p, n)[0] == s && Last(Prefixed(p, n)) == p(n)
  {
    forall i | 0 <= i < n
      ensures Step(k, p(i), p(i + 1))
    {
      assert StepAt(k, p, i);
    }
  }

  lemma {:induction false} WalkStays(k: Structure, xs: seq<Id>)
    requires Total(k) && Walk(k, xs) && xs[0] in k.states
    ensures Last(xs) in k.states
  {
    if |xs| > 1 {
      WalkStays(k, xs[..|xs| - 1]);
      assert Step(k, xs[|xs| - 2], xs[|xs| - 1]);
    }
  }

  /**
   * The trace of a failing `AG g` with propositional `g` is a real refutation: a walk from the first failing
   * initial state to a state violating `g`, and no shorter walk from there reaches a violation.
   */
  lemma FailingInvariantTrace(k: Structure, literals: set<string>, g: Temporal, trace: seq<Id>)
    requires Total(k) && Propositional(g) && Evaluable(k, literals, g)
    requires IsTrace(k, literals, Prefix(AG, g), Sat(k, literals, Prefix(AG, g)), trace)
    ensures trace[0] in k.initial && Walk(k, trace) && Last(trace) !in Sat(k, literals, g)
    ensures forall xs :: Walk(k, xs) && xs[0] == trace[0] && Last(xs) !in Sat(k, literals, g) ==> |trace| <= |xs|
  {
    var f, s, good := Prefix(AG, g), trace[0], Sat(k, literals, g);
    forall xs | Walk(k, xs) && xs[0] == s && Last(xs) !in good
      ensures ReachesRefutation(k, literals, f, s, xs)
    {
      WalkStays(k, xs);
      AtomCoreSucceeds(k, literals, g, Last(xs));
      AtomCoreAgrees(k, literals, g, Last(xs));
    }
    assert s !in AGlobally(k, good);
    var p: Path :| From(k, p, s) && !Globally(p, good);
    var n: nat :| p(n) !in good;
    PrefixIsWalk(k, p, s, n);
    assert ReachesRefutation(k, literals, f, s, Prefixed(p, n));
    AtomCoreAgrees(k, literals, g, Last(trace));
  }

  /** Whatever the operand of a failing AG is, a trace of two or more states ends in a violation of it. */
  lemma LongTraceViolates(k: Structure, literals: set<string>, g: Temporal, satisfying: set<Id>, trace: seq<Id>)
    requires IsTrace(k, literals, Prefix(AG, g), satisfying, trace) && |trace| > 1
    ensures Last(trace) !in Sat(k, literals, g)
  {
    AtomCoreAgrees(k, literals, g, Last(trace));
  }

  /** If the operand is itself temporal the trace never leaves the failing initial state. */
  lemma TemporalOperandTrace(k: Structure, literals: set<string>, g: Temporal, satisfying: set<Id>, trace: seq<Id>)
    requires g.Prefix? || g.Until?
    requires IsTrace(k, literals, Prefix(AG, g), satisfying, trace)
    ensures |trace| == 1
  {
    assert forall s :: s in k.states ==> !Refutes(literals, Prefix(AG, g), k.states[s]);
  }

  /**
   * Exactly when the trace of a failing `AG g` ends in a violation of `g`, whatever `g` is: if its first state
   * already violates `g`, or some reachable state refutes `g` by propositional evaluation.
   */
  lemma WitnessIff(k: Structure, literals: set<string>, g: Temporal, satisfying: set<Id>, trace: seq<Id>)
    requires IsTrace(k, literals, Prefix(AG, g), satisfying, trace)
    ensures Last(trace) !in Sat(k, literals, g) <==>
            trace[0] !in Sat(k, literals, g) || exists xs :: ReachesRefutation(k, literals, Prefix(AG, g), trace[0], xs)
  {
    if ReachesRefutation(k, literals, Prefix(AG, g), trace[0], trace) {
      AtomCoreAgrees(k, literals, g, Last(trace));
    }
  }

  /** Propositional evaluation of `f` cannot give `b`: it gives the other truth value or raises, in every state. */
  predicate Avoids(f: Temporal, b: bool) {
    match f
    case Atom(_) => false
    case Not(g) => Avoids(g, !b)
    case Bin(Conj, l, r) =>
      if b then Avoids(l, true) || Avoids(r, true)
      else Avoids(l, false) && (Avoids(l, true) || Avoids(r, false))
    case Bin(Disj, l, r) =>
      if b then Avoids(l, true) && (Avoids(l, false) || Avoids(r, true))
      else Avoids(l, false) || Avoids(r, false)
    case Bin(Impl, l, r) =>
      if b then Avoids(l, false) && (Avoids(l, true) || Avoids(r, true))
      else Avoids(l, true) || Avoids(r, false)
    case Bin(Equiv, l, r) => (Avoids(l, true) && Avoids(l, false)) || (Avoids(r, true) && Avoids(r, false))
    case _ => true
  }

  lemma {:induction false} AvoidsIsAvoided(f: Temporal, b: bool, v: Valuation, literals: set<string>)
    requires Avoids(f, b)
    ensures AtomCore(f, v, literals) != Ok(b)
  {
    match f
    case Atom(_) =>
    case Not(g) => AvoidsIsAvoided(g, !b, v, literals);
    case Bin(c, l, r) =>
      forall c: bool | Avoids(l, c) ensures AtomCore(l, v, literals) != Ok(c) {
        AvoidsIsAvoided(l, c, v, literals);
      }
      forall c: bool | Avoids(r, c) ensures AtomCore(r, v, literals) != Ok(c) {
        AvoidsIsAvoided(r, c, v, literals);
      }
    case _ =>
  }

  /**
   * An operand that propositional evaluation cannot refute, such as a temporal one or `p -> AF q`, never gives a
   * longer trace: it is a witness exactly if the failing initial state itself violates the operand.
   */
  lemma UnrefutableOperandTrace(k: Structure, literals: set<string>, g: Temporal, satisfying: set<Id>, trace: seq<Id>)
    requires Avoids(g, false) && IsTrace(k, literals, Prefix(AG, g), satisfying, trace)
    ensures |trace| == 1
    ensures Last(trace) !in Sat(k, literals, g) <==> trace[0] !in Sat(k, literals, g)
  {
    forall s | s in k.states ensures !Refutes(literals, Prefix(AG, g), k.states[s]) {
      AvoidsIsAvoided(g, false, k.states[s], literals);
    }
  }

  /** The documented response pattern is such an operand, for every trigger and response. */
  lemma ResponseIsUnrefutable(a: Temporal, op: PrefixOp, b: Temporal)
    ensures Avoids(Bin(Impl, a, Prefix(op, b)), false)
    ensures Translate(Prefix(G, Bin(Impl, a, Prefix(F, b)))) == Prefix(AG, Bin(Impl, Translate(a), Prefix(AF, Translate(b))))
  {
    assert Translate(Prefix(F, b)) == Prefix(AF, Translate(b));
    assert Translate(Bin(Impl, a, Prefix(F, b))) == Bin(Impl, Translate(a), Prefix(AF, Translate(b)));
  }

  /** For a failing implication the last state always violates the implication itself. */
  lemma ImplicationTraceViolates(k: Structure, literals: set<string>, l: Temporal, r: Temporal, trace: seq<Id>)
    requires IsTrace(k, literals, Bin(Impl, l, r), Sat(k, literals, Bin(Impl, l, r)), trace)
    ensures Last(trace) !in Sat(k, literals, Bin(Impl, l, r))
  {
    if ReachesRefutation(k, literals, Bin(Impl, l, r), trace[0], trace) {
      AtomCoreAgrees(k, literals, l, Last(trace));
      AtomCoreAgrees(k, literals, r, Last(trace));
    }
  }

  /** `p` is false first and true from then on. */
  const TRIGGERED := Structure(map["a" := Here(false), "b" := Here(true)], ["a"], map["a" := ["b"], "b" := ["b"]])

  /** `G(p -> F !p)` fails on that structure, but its trace is `a` alone, which satisfies the operand. */
  lemma ResponseWithoutWitness(trace: seq<Id>)
    requires var g := Bin(Impl, P, Prefix(AF, Not(P)));
             IsTrace(TRIGGERED, {}, Prefix(AG, g), Sat(TRIGGERED, {}, Prefix(AG, g)), trace)
    ensures trace == ["a"] && Last(trace) in Sat(TRIGGERED, {}, Bin(Impl, P, Prefix(AF, Not(P))))
  {
    var g := Bin(Impl, P, Prefix(AF, Not(P)));
    ResponseIsUnrefutable(P, AF, Not(P));
    UnrefutableOperandTrace(TRIGGERED, {}, g, Sat(TRIGGERED, {}, Prefix(AG, g)), trace);
    PAtB();
    SatInStates(TRIGGERED, {}, P);
    assert "a" !in Sat(TRIGGERED, {}, P);
  }

  lemma PAtB()
    ensures AtomStates(TRIGGERED, {}, Ident("p")) == {"b"}
  {
    TruthOfP(true);
    TruthOfP(false);
  }

  lemma StayingAtB()
    ensures "b" !in AFinally(TRIGGERED, {"a"})
  {
    var stay: Path := (i: nat) => "b";
    assert From(TRIGGERED, stay, "b") by {
      assert forall i: nat :: StepAt(TRIGGERED, stay, i);
    }
    assert !Finally(stay, {"a"});
  }

  lemma ResponseFailsAtB()
    ensures "b" !in Sat(TRIGGERED, {}, Bin(Impl, P, Prefix(AF, Not(P))))
  {
    PAtB();
    StayingAtB();
    assert Sat(TRIGGERED, {}, Not(P)) == {"a"};
  }

  /** And it does fail there, so such a trace is returned. */
  lemma ResponseFails()
    ensures Total(TRIGGERED) && "a" !in Sat(TRIGGERED, {}, Prefix(AG, Bin(Impl, P, Prefix(AF, Not(P)))))
  {
    ResponseFailsAtB();
    AlwaysNeedsB(Sat(TRIGGERED, {}, Bin(Impl, P, Prefix(AF, Not(P)))));
  }

  lemma AlwaysNeedsB(x: set<Id>)
    requires "b" !in x
    ensures Total(TRIGGERED) && "a" !in AGlobally(TRIGGERED, x)
  {
    var leave: Path := (i: nat) => if i == 0 then "a" else "b";
    assert From(TRIGGERED, leave, "a") by {
      assert forall i: nat :: StepAt(TRIGGERED, leave, i);
    }
    assert leave(1) !in x;
  }

  /**
   * So a trace need not witness anything: `AG EX p` fails from `a`, the trace is `a` alone, and `a` satisfies
   * the operand.
   */
  lemma TraceWithoutWitness(trace: seq<Id>)
    requires IsTrace(LEAVING, {}, Prefix(AG, Prefix(EX, P)), Sat(LEAVING, {}, Prefix(AG, Prefix(EX, P))), trace)
    ensures trace == ["a"] && Last(trace) in Sat(LEAVING, {}, Prefix(EX, P))
  {
    TemporalOperandTrace(LEAVING, {}, Prefix(EX, P), Sat(LEAVING, {}, Prefix(AG, Prefix(EX, P))), trace);
    PHolds();
    SatOfNext();
  }

  lemma SatOfNext()
    requires AtomStates(LEAVING, {}, Ident("p")) == {"a"}
    ensures "a" in Sat(LEAVING, {}, Prefix(EX, P))
  {
    assert "a" in LEAVING.transitions["a"];
    ENextIsSomeSuccessor(LEAVING, {"a"}, "a");
    assert Sat(LEAVING, {}, P) == {"a"};
  }

  // ---- Verdicts ---------------------------------------------------------------------------

  datatype FormulaResult = Pass | Fail(trace: seq<Id>)

  datatype VerifyError = ModelError(build: BuildError) | FormulaError(check: CheckError)

  function Checked(logic: Logic, f: Temporal): Temporal {
    if logic == LTL then Translate(f) else f
  }

  ghost predicate CorrectVerdict(k: Structure, literals: set<string>, f: Temporal, r: FormulaResult) {
    match r
    case Pass => forall id :: id in k.initial ==> id in Sat(k, literals, f)
    case Fail(trace) => IsTrace(k, literals, f, Sat(k, literals, f), trace)
  }

  /** A CTL formula passes exactly when every initial state satisfies it; otherwise a trace is returned. */
  method CheckOne(k: Structure, preds: map<Id, seq<Id>>, literals: set<string>, f: Temporal)
    returns (r: Result<FormulaResult, CheckError>)
    requires Total(k) && PredecessorMap(k, preds)
    ensures r.Ok? <==> Decidable(k, literals, f)
    ensures r.Ok? ==> CorrectVerdict(k, literals, f, r.value)
    ensures r.Ok? ==> (r.value.Pass? <==> forall id :: id in k.initial ==> id in Sat(k, literals, f))
  {
    var satisfying :- CheckCtl(k, preds, literals, f);
    var failing := FindCounterexample(k, literals, f, satisfying);
    r := Ok(if failing.None? then Pass else Fail(failing.value));
  }

  method CheckAll(k: Structure, literals: set<string>, formulas: seq<(Logic, Temporal)>)
    returns (r: Result<seq<FormulaResult>, CheckError>)
    requires Total(k)
    ensures r.Ok? ==> |r.value| == |formulas| && forall i :: 0 <= i < |formulas| ==>
      CorrectVerdict(k, literals, Checked(formulas[i].0, formulas[i].1), r.value[i])
    ensures r.Ok? <==> forall i :: 0 <= i < |formulas| ==>
      Decidable(k, literals, Checked(formulas[i].0, formulas[i].1))
  {
    var preds := Predecessors(k);
    var results: seq<FormulaResult> := [];
    var i := 0;
    while i < |formulas|
      invariant i <= |formulas| && |results| == i
      invariant forall j :: 0 <= j < i ==>
        CorrectVerdict(k, literals, Checked(formulas[j].0, formulas[j].1), results[j])
      invariant forall j :: 0 <= j < i ==> Decidable(k, literals, Checked(formulas[j].0, formulas[j].1))
    {
      var f := Checked(formulas[i].0, formulas[i].1);
      var result :- CheckOne(k, preds, literals, f);
      results := results + [result];
      i := i + 1;
    }
    return Ok(results);
  }

  /** Whether every initial state satisfies every checked formula. */
  ghost predicate AllHold(k: Structure, literals: set<string>, formulas: seq<(Logic, Temporal)>) {
    forall i, id :: 0 <= i < |formulas| && id in k.initial ==> id in Sat(k, literals, Checked(formulas[i].0, formulas[i].1))
  }

  /** Some formula cannot be decided on a structure that represents the spec. */
  ghost predicate Undecidable(idOf: Valuation -> Id, spec: Spec, formulas: seq<(Logic, Temporal)>) {
    exists k :: Represents(idOf, SystemOf(spec), k) && UndecidableOn(k, Literals(spec), formulas)
  }

  ghost predicate UndecidableOn(k: Structure, literals: set<string>, formulas: seq<(Logic, Temporal)>)
    requires Total(k)
  {
    exists i :: 0 <= i < |formulas| && !Decidable(k, literals, Checked(formulas[i].0, formulas[i].1))
  }

  /** What a verdict says about an LTL formula: a pass is sound on the sound fragment and exact on the exact one. */
  lemma LtlVerdictMeans(k: Structure, literals: set<string>, f: Temporal, r: FormulaResult)
    requires Total(k) && CorrectVerdict(k, literals, Checked(LTL, f), r)
    ensures Sound(f) && r.Pass? ==> forall id :: id in k.initial ==> LtlHolds(k, literals, f, id)
    ensures Exact(f) ==> (r.Pass? <==> forall id :: id in k.initial ==> LtlHolds(k, literals, f, id))
  {
    VerdictMeans(k, literals, Translate(f), r);
    if Sound(f) && r.Pass? {
      forall id | id in k.initial ensures LtlHolds(k, literals, f, id) {
        TranslationSound(k, literals, f, id);
      }
    }
    if Exact(f) {
      forall id | id in k.initial ensures id in Sat(k, literals, Translate(f)) <==> LtlHolds(k, literals, f, id) {
        TranslationExact(k, literals, f, id);
      }
    }
  }

  datatype SpecResult = SpecResult(model: Structure, results: seq<FormulaResult>, pass: bool)

  /** The verdicts on a spec, or what made the run fail. */
  ghost predicate Verified(idOf: Valuation -> Id, spec: Spec, formulas: seq<(Logic, Temporal)>, r: Result<SpecResult, VerifyError>) {
    match r
    case Ok(v) =>
      && Represents(idOf, SystemOf(spec), v.model)
      && |v.results| == |formulas|
      && (forall i :: 0 <= i < |formulas| ==>
            CorrectVerdict(v.model, Literals(spec), Checked(formulas[i].0, formulas[i].1), v.results[i]))
      && (v.pass <==> AllHold(v.model, Literals(spec), formulas))
    case Err(ModelError(EvaluationFailed)) => EvaluationFails(SystemOf(spec))
    case Err(ModelError(TooManyStates)) => TooMany(SystemOf(spec))
    case Err(FormulaError(_)) => Undecidable(idOf, spec, formulas)
  }

  method VerifyWith(idOf: Valuation -> Id, spec: Spec, formulas: seq<(Logic, Temporal)>) returns (r: Result<SpecResult, VerifyError>)
    requires Identifies(idOf)
    ensures Verified(idOf, spec, formulas, r)
  {
    var built := BuildKripke(idOf, spec);
    if built.Err? {
      return Err(ModelError(built.error));
    }
    var results := CheckAll(built.value, Literals(spec), formulas);
    if results.Err? {
      assert UndecidableOn(built.value, Literals(spec), formulas);
      return Err(FormulaError(results.error));
    }
    var pass := AllPass(results.value);
    AllPassIffAllHold(built.value, Literals(spec), formulas, results.value);
    return Ok(SpecResult(built.value, results.value, pass));
  }

  method AllPass(results: seq<FormulaResult>) returns (pass: bool)
    ensures pass <==> forall j :: 0 <= j < |results| ==> results[j].Pass?
  {
    pass := true;
    var i := 0;
    while i < |results|
      invariant i <= |results|
      invariant pass <==> forall j :: 0 <= j < i ==> results[j].Pass?
    {
      pass := pass && results[i].Pass?;
      i := i + 1;
    }
  }

  /**
   * Verifies every formula of a spec against its reachable valuations. The spec passes exactly when all initial
   * states satisfy all checked formulas. Any evaluation failure, in the model or in one of the formulas, and any
   * LTL operator inside a CTL formula makes the whole run fail.
   */
  method VerifySpec(spec: Spec, formulas: seq<(Logic, Temporal)>) returns (r: Result<SpecResult, VerifyError>)
    ensures Verified(StateIds.StateId, spec, formulas, r)
  {
    StateIdsIdentify();
    r := VerifyWith(StateIds.StateId, spec, formulas);
  }

  lemma AllPassIffAllHold(k: Structure, literals: set<string>, formulas: seq<(Logic, Temporal)>, results: seq<FormulaResult>)
    requires |results| == |formulas|
    requires forall i :: 0 <= i < |formulas| ==>
               CorrectVerdict(k, literals, Checked(formulas[i].0, formulas[i].1), results[i])
    ensures (forall i :: 0 <= i < |results| ==> results[i].Pass?) <==> AllHold(k, literals, formulas)
  {
    forall i | 0 <= i < |results|
      ensures results[i].Pass? <==> forall id :: id in k.initial ==> id in Sat(k, literals, Checked(formulas[i].0, formulas[i].1))
    {
      VerdictMeans(k, literals, Checked(formulas[i].0, formulas[i].1), results[i]);
    }
  }

  lemma VerdictMeans(k: Structure, literals: set<string>, f: Temporal, r: FormulaResult)
    requires CorrectVerdict(k, literals, f, r)
    ensures r.Pass? <==> forall id :: id in k.initial ==> id in Sat(k, literals, f)
  {
    if r.Fail? {
      var satisfying, trace := Sat(k, literals, f), r.trace;
      assert IsTrace(k, literals, f, satisfying, trace);
      var i :| 0 <= i < |k.initial| && k.initial[i] == trace[0] && trace[0] !in satisfying;
      assert k.initial[i] in k.initial;
    }
  }

  lemma StateIdsIdentify()
    ensures Identifies(StateIds.StateId)
  {
    forall v: Valuation, w: Valuation | v.Keys == w.Keys && StateIds.StateId(v) == StateIds.StateId(w)
      ensures v == w
    {
      StateIds.StateIdInjective(v, w);
    }
  }
}
