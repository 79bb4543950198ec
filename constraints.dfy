/** The constraint language of the encoder: the Boolean unknowns that the
    Solver constructor allocates (src/Solver.cpp:15-41) and the part of the
    z3 expression language the encoder uses (atmost, atleast, mk_and, mk_or,
    not, implies, &&, the constant false), with its meaning under a truth
    assignment. */
module Constraints {

  /** One Boolean unknown: `c[x][y][node][t]`, `dispenser[p][node]` or
      `sink[p]`.  The indices are kept exactly as the encoder computes them. */
  datatype Var =
    | Occupancy(x: int, y: int, node: int, t: int)
    | Dispenser(p: int, node: int)
    | Sink(p: int)

  /** A truth value for every unknown (what a z3 model assigns). */
  type Assignment = Var -> bool

  datatype Expr =
    | Lit(v: Var)
    | False
    | Not(e: Expr)
    | And(es: seq<Expr>)
    | Or(es: seq<Expr>)
    | Implies(lhs: Expr, rhs: Expr)
    | AtMost(vs: seq<Var>, k: int)
    | AtLeast(vs: seq<Var>, k: int)

  /** Number of unknowns of `vs` that `a` makes true, counting repeats. */
  function CountTrue(a: Assignment, vs: seq<Var>): nat {
    if vs == [] then 0
    else CountTrue(a, vs[..|vs| - 1]) + (if a(vs[|vs| - 1]) then 1 else 0)
  }

  /** Truth of an expression: an empty conjunction is true and an empty
      disjunction false, as for z3's mk_and and mk_or. */
  function Eval(a: Assignment, e: Expr): bool
    decreases e
  {
    match e
    case Lit(v) => a(v)
    case False => false
    case Not(e') => !Eval(a, e')
    case And(es) => forall i | 0 <= i < |es| :: Eval(a, es[i])
    case Or(es) => exists i | 0 <= i < |es| :: Eval(a, es[i])
    case Implies(l, r) => Eval(a, l) ==> Eval(a, r)
    case AtMost(vs, k) => CountTrue(a, vs) <= k
    case AtLeast(vs, k) => CountTrue(a, vs) >= k
  }

  /** The unknowns of `vs`, each as an expression (a vector of `c` entries). */
  function Lits(vs: seq<Var>): (es: seq<Expr>)
    ensures |es| == |vs|
    ensures forall i | 0 <= i < |vs| :: es[i] == Lit(vs[i])
  {
    seq(|vs|, i requires 0 <= i < |vs| => Lit(vs[i]))
  }

  /** mk_or of a vector of unknowns. */
  function AnyOf(vs: seq<Var>): Expr {
    Or(Lits(vs))
  }

  /** Some unknown of `vs` is true. */
  predicate SomeTrue(a: Assignment, vs: seq<Var>) {
    exists i | 0 <= i < |vs| :: a(vs[i])
  }

  lemma EvalAnyOf(a: Assignment, vs: seq<Var>)
    ensures Eval(a, AnyOf(vs)) <==> SomeTrue(a, vs)
  {
    var es := Lits(vs);
    if Eval(a, AnyOf(vs)) {
      var i :| 0 <= i < |es| && Eval(a, es[i]);
      assert a(vs[i]);
    }
    if SomeTrue(a, vs) {
      var i :| 0 <= i < |vs| && a(vs[i]);
      assert Eval(a, es[i]);
    }
  }

  // ------------------------------------------------------------------
  // Growing a vector by push_back

  lemma AndSnoc(a: Assignment, es: seq<Expr>, e: Expr)
    ensures Eval(a, And(es + [e])) <==> Eval(a, And(es)) && Eval(a, e)
  {
    var es' := es + [e];
    assert es'[|es|] == e;
    assert forall i | 0 <= i < |es| :: es'[i] == es[i];
  }

  lemma AndConcat(a: Assignment, es: seq<Expr>, fs: seq<Expr>)
    ensures Eval(a, And(es + fs)) <==> Eval(a, And(es)) && Eval(a, And(fs))
  {
    var g := es + fs;
    assert forall i | 0 <= i < |es| :: g[i] == es[i];
    assert forall i | 0 <= i < |fs| :: g[|es| + i] == fs[i];
    if Eval(a, And(es)) && Eval(a, And(fs)) {
      forall i | 0 <= i < |g| ensures Eval(a, g[i]) {
        if i >= |es| {
          assert g[i] == fs[i - |es|];
        }
      }
    }
  }

  lemma OrSnoc(a: Assignment, es: seq<Expr>, e: Expr)
    ensures Eval(a, Or(es + [e])) <==> Eval(a, Or(es)) || Eval(a, e)
  {
    var es' := es + [e];
    assert es'[|es|] == e;
    assert forall i | 0 <= i < |es| :: es'[i] == es[i];
  }

  lemma OrConcat(a: Assignment, es: seq<Expr>, fs: seq<Expr>)
    ensures Eval(a, Or(es + fs)) <==> Eval(a, Or(es)) || Eval(a, Or(fs))
  {
    var g := es + fs;
    assert forall i | 0 <= i < |es| :: g[i] == es[i];
    assert forall i | 0 <= i < |fs| :: g[|es| + i] == fs[i];
    if Eval(a, Or(g)) {
      var i :| 0 <= i < |g| && Eval(a, g[i]);
      if i >= |es| {
        assert Eval(a, fs[i - |es|]);
      }
    }
  }

  lemma SomeTrueSnoc(a: Assignment, vs: seq<Var>, v: Var)
    ensures SomeTrue(a, vs + [v]) <==> SomeTrue(a, vs) || a(v)
  {
    var vs' := vs + [v];
    assert vs'[|vs|] == v;
    assert forall i | 0 <= i < |vs| :: vs'[i] == vs[i];
  }

  lemma SomeTrueConcat(a: Assignment, vs: seq<Var>, ws: seq<Var>)
    ensures SomeTrue(a, vs + ws) <==> SomeTrue(a, vs) || SomeTrue(a, ws)
  {
    var g := vs + ws;
    assert forall i | 0 <= i < |vs| :: g[i] == vs[i];
    assert forall i | 0 <= i < |ws| :: g[|vs| + i] == ws[i];
    if SomeTrue(a, g) {
      var i :| 0 <= i < |g| && a(g[i]);
      if i >= |vs| {
        assert a(ws[i - |vs|]);
      }
    }
  }

  // ------------------------------------------------------------------
  // Counting true unknowns

  lemma CountTrueSnoc(a: Assignment, vs: seq<Var>, v: Var)
    ensures CountTrue(a, vs + [v]) == CountTrue(a, vs) + (if a(v) then 1 else 0)
  {
    assert (vs + [v])[..|vs|] == vs;
  }

  lemma {:induction false} CountTrueConcat(a: Assignment, vs: seq<Var>, ws: seq<Var>)
    ensures CountTrue(a, vs + ws) == CountTrue(a, vs) + CountTrue(a, ws)
    decreases |ws|
  {
    if ws == [] {
      assert vs + ws == vs;
    } else {
      var w := ws[|ws| - 1];
      var ws' := ws[..|ws| - 1];
      assert vs + ws == (vs + ws') + [w];
      CountTrueSnoc(a, vs + ws', w);
      CountTrueConcat(a, vs, ws');
    }
  }

  /** No unknown is counted when none is true, and conversely. */
  lemma {:induction false} CountTrueZero(a: Assignment, vs: seq<Var>)
    ensures CountTrue(a, vs) == 0 <==> !SomeTrue(a, vs)
    decreases |vs|
  {
    if vs != [] {
      var vs' := vs[..|vs| - 1];
      assert vs == vs' + [vs[|vs| - 1]];
      CountTrueZero(a, vs');
      SomeTrueSnoc(a, vs', vs[|vs| - 1]);
    }
  }

  /** At most one true entry, position by position (an unknown listed twice
      and true counts twice). */
  predicate AtMostOneTrue(a: Assignment, vs: seq<Var>) {
    forall i, j | 0 <= i < j < |vs| :: !(a(vs[i]) && a(vs[j]))
  }

  lemma {:induction false} CountTrueAtMostOne(a: Assignment, vs: seq<Var>)
    ensures CountTrue(a, vs) <= 1 <==> AtMostOneTrue(a, vs)
    decreases |vs|
  {
    if vs != [] {
      var n := |vs| - 1;
      var vs' := vs[..n];
      assert forall i | 0 <= i < n :: vs'[i] == vs[i];
      CountTrueAtMostOne(a, vs');
      CountTrueZero(a, vs');
      if CountTrue(a, vs) <= 1 {
        forall i, j | 0 <= i < j < |vs| ensures !(a(vs[i]) && a(vs[j])) {
          if j == n && a(vs[j]) {
            assert !a(vs'[i]);
          } else if j < n {
            assert !(a(vs'[i]) && a(vs'[j]));
          }
        }
      }
      if AtMostOneTrue(a, vs) && a(vs[n]) {
        assert forall i | 0 <= i < n :: !a(vs'[i]);
      }
    }
  }
}
