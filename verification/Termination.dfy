/** Fuel is only a bound on the number of loop iterations, and a function whose exception labels
    all lie ahead of the jumps to them terminates whenever its statements do. */
module Termination {
  import opened Options
  import opened CLang
  import opened Expansion
  import opened Builds
  import opened Functions

  // ----- More fuel never changes a finished run -----

  lemma {:induction false} ExecMonotone(env: Env, b: Build, n: nat, m: nat, s: Stmt, st: State)
    requires n <= m && Exec(env, b, n, s, st).Done?
    ensures Exec(env, b, m, s, st) == Exec(env, b, n, s, st)
    decreases n, s
  {
    match s
    case Block(items) => ExecItemsMonotone(env, b, n, m, items, st);
    case IfThen(c, thn) =>
      if Eval(env, c, st).0 != 0 {
        ExecMonotone(env, b, n, m, thn, Eval(env, c, st).1);
      }
    case IfElse(c, thn, els) =>
      ExecMonotone(env, b, n, m, if Eval(env, c, st).0 != 0 then thn else els, Eval(env, c, st).1);
    case While(c, body) =>
      var (v, st1) := Eval(env, c, st);
      if v != 0 {
        ExecMonotone(env, b, n, m, body, st1);
        var r := Exec(env, b, n, body, st1);
        if r.out.Normal? || r.out.Continued? {
          ExecMonotone(env, b, n - 1, m - 1, s, r.st);
        }
      }
    case DoWhile(body, c) =>
      ExecMonotone(env, b, n, m, body, st);
      var r := Exec(env, b, n, body, st);
      if r.out.Normal? || r.out.Continued? {
        var (v, st2) := Eval(env, c, r.st);
        if v != 0 {
          ExecMonotone(env, b, n - 1, m - 1, s, st2);
        }
      }
    case Invoke(macro) =>
      if ActionOf(macro).Some? {
        var (v, st1) := Eval(env, macro.operand, st);
        if Fails(env, b, macro, v) {
          ExecItemsMonotone(env, b, n, m, ActionOf(macro).value, Visit(env, b, macro, v, st1));
        }
      }
    case _ =>
  }

  lemma {:induction false} ExecItemsMonotone(env: Env, b: Build, n: nat, m: nat, ss: Items, st: State)
    requires n <= m && ExecItems(env, b, n, ss, st).Done?
    ensures ExecItems(env, b, m, ss, st) == ExecItems(env, b, n, ss, st)
    decreases n, ss
  {
    match ss
    case Nil =>
    case Cons(s, rest) =>
      ExecMonotone(env, b, n, m, s, st);
      var r := Exec(env, b, n, s, st);
      if r.out.Normal? {
        ExecItemsMonotone(env, b, n, m, rest, r.st);
      }
    case Decl(x, init, rest) =>
      var (v, st1) := Eval(env, init, Set(st, x, env.junk));
      ExecItemsMonotone(env, b, n, m, rest, Set(st1, x, ToLong(env, v)));
  }

  lemma {:induction false} RunFromMonotone(env: Env, b: Build, n: nat, m: nat, f: Body, i: nat, st: State)
    requires n <= m && i <= |f| && RunFrom(env, b, n, f, i, st).Done?
    ensures RunFrom(env, b, m, f, i, st) == RunFrom(env, b, n, f, i, st)
    decreases n, |f| - i
  {
    if i < |f| {
      ExecMonotone(env, b, n, m, f[i].s, st);
      var r := Exec(env, b, n, f[i].s, st);
      var next := Next(f, i, r.out);
      if next.Some? {
        if next.value > i {
          RunFromMonotone(env, b, n, m, f, next.value, r.st);
        } else {
          RunFromMonotone(env, b, n - 1, m - 1, f, next.value, r.st);
        }
      }
    }
  }

  /** Build `b` of `f`, started in `store`, terminates with result `r`. */
  ghost predicate Terminates(env: Env, b: Build, f: Body, store: Store, r: Result) {
    r.Done? && exists fuel: nat :: Compiled(env, b, fuel, f, store) == r
  }

  lemma TerminatesOnce(env: Env, b: Build, f: Body, store: Store, r1: Result, r2: Result)
    requires Terminates(env, b, f, store, r1) && Terminates(env, b, f, store, r2)
    ensures r1 == r2
  {
    var n: nat :| Compiled(env, b, n, f, store) == r1;
    var m: nat :| Compiled(env, b, m, f, store) == r2;
    if n <= m {
      RunFromMonotone(env, b, n, m, ExpandBody(b, f), 0, State(store, Empty));
    } else {
      RunFromMonotone(env, b, m, n, ExpandBody(b, f), 0, State(store, Empty));
    }
  }

  /** Every macro that the production run of `f` from `store` comes to, however long it runs, meets
      its condition there. */
  ghost predicate RunSafe(env: Env, f: Body, store: Store) {
    forall fuel: nat :: BodySafe(env, fuel, f, 0, State(store, Empty))
  }

  lemma PortableRunIsSafe(env: Env, f: Body, store: Store)
    requires BodyPortable(env.longWidth, f)
    ensures RunSafe(env, f, store)
  {
    forall fuel: nat ensures BodySafe(env, fuel, f, 0, State(store, Empty)) {
      PortableBodyIsSafe(env, fuel, f, 0, State(store, Empty));
    }
  }

  /** Build equivalence without fuel: if every macro that the production run of a function comes to
      meets its condition, one build terminates exactly when the other does, and then no caller can
      tell them apart. */
  lemma BuildsTerminateAlike(env: Env, f: Body, store: Store)
    requires BodyAvoids({EVAL_ONCE}, f) && RunSafe(env, f, store)
    ensures forall d :: Terminates(env, Debug, f, store, d) ==> exists p :: Terminates(env, Production, f, store, p)
    ensures forall p :: Terminates(env, Production, f, store, p) ==> exists d :: Terminates(env, Debug, f, store, d)
    ensures forall d, p :: Terminates(env, Debug, f, store, d) && Terminates(env, Production, f, store, p) ==> SameBehaviour(d, p)
  {
    forall d | Terminates(env, Debug, f, store, d)
      ensures exists p :: Terminates(env, Production, f, store, p) && SameBehaviour(d, p)
    {
      var n: nat :| Compiled(env, Debug, n, f, store) == d;
      RunEquivalence(env, n, f, store);
      assert Terminates(env, Production, f, store, Compiled(env, Production, n, f, store));
    }
    forall p | Terminates(env, Production, f, store, p) ensures exists d :: Terminates(env, Debug, f, store, d) {
      var n: nat :| Compiled(env, Production, n, f, store) == p;
      RunEquivalence(env, n, f, store);
      assert Terminates(env, Debug, f, store, Compiled(env, Debug, n, f, store));
    }
    forall d, p | Terminates(env, Debug, f, store, d) && Terminates(env, Production, f, store, p)
      ensures SameBehaviour(d, p)
    {
      var p' :| Terminates(env, Production, f, store, p') && SameBehaviour(d, p');
      TerminatesOnce(env, Production, f, store, p, p');
    }
  }

  // ----- Forward jumps -----

  /** The labels that `s` may jump to. */
  function Jumps(s: Stmt): set<Name>
    decreases s
  {
    match s
    case Goto(l) => {l}
    case Block(items) => JumpsItems(items)
    case IfThen(_, thn) => Jumps(thn)
    case IfElse(_, thn, els) => Jumps(thn) + Jumps(els)
    case While(_, body) => Jumps(body)
    case DoWhile(body, _) => Jumps(body)
    case Invoke(m) =>
      (if IsRequire(m) then {m.dest} else {}) + if ActionOf(m).Some? then JumpsItems(ActionOf(m).value) else {}
    case _ => {}
  }

  function JumpsItems(ss: Items): set<Name>
    decreases ss
  {
    match ss
    case Nil => {}
    case Cons(s, rest) => Jumps(s) + JumpsItems(rest)
    case Decl(_, _, rest) => JumpsItems(rest)
  }

  predicate JumpsWithin(r: Result, ls: set<Name>) { r.Done? && r.out.Jumped? ==> r.out.dest in ls }

  lemma {:induction false} ExecJumps(env: Env, b: Build, fuel: nat, s: Stmt, st: State)
    ensures JumpsWithin(Exec(env, b, fuel, s, st), Jumps(s))
    decreases fuel, s
  {
    match s
    case Block(items) => ExecItemsJumps(env, b, fuel, items, st);
    case IfThen(c, thn) => ExecJumps(env, b, fuel, thn, Eval(env, c, st).1);
    case IfElse(c, thn, els) =>
      ExecJumps(env, b, fuel, thn, Eval(env, c, st).1);
      ExecJumps(env, b, fuel, els, Eval(env, c, st).1);
    case While(c, body) =>
      var st1 := Eval(env, c, st).1;
      ExecJumps(env, b, fuel, body, st1);
      var r := Exec(env, b, fuel, body, st1);
      if r.Done? && fuel > 0 {
        ExecJumps(env, b, fuel - 1, s, r.st);
      }
    case DoWhile(body, c) =>
      ExecJumps(env, b, fuel, body, st);
      var r := Exec(env, b, fuel, body, st);
      if r.Done? && fuel > 0 {
        ExecJumps(env, b, fuel - 1, s, Eval(env, c, r.st).1);
      }
    case Invoke(m) =>
      if ActionOf(m).Some? {
        var (v, st1) := Eval(env, m.operand, st);
        ExecItemsJumps(env, b, fuel, ActionOf(m).value, Visit(env, b, m, v, st1));
      }
    case _ =>
  }

  lemma {:induction false} ExecItemsJumps(env: Env, b: Build, fuel: nat, ss: Items, st: State)
    ensures JumpsWithin(ExecItems(env, b, fuel, ss, st), JumpsItems(ss))
    decreases fuel, ss
  {
    match ss
    case Nil =>
    case Cons(s, rest) =>
      ExecJumps(env, b, fuel, s, st);
      var r := Exec(env, b, fuel, s, st);
      if r.Done? {
        ExecItemsJumps(env, b, fuel, rest, r.st);
      }
    case Decl(x, init, rest) =>
      var (v, st1) := Eval(env, init, Set(st, x, env.junk));
      ExecItemsJumps(env, b, fuel, rest, Set(st1, x, ToLong(env, v)));
  }

  /** Every label lies after the statements that jump to it. */
  ghost predicate Forward(f: Body) {
    forall i: nat, l: Name, j: nat :: i < |f| && l in Jumps(f[i].s) && Carries(f, j, l) ==> i < j
  }

  ghost predicate StmtTerminates(env: Env, b: Build, s: Stmt, st: State) {
    exists fuel: nat :: Exec(env, b, fuel, s, st).Done?
  }

  ghost predicate PartsTerminate(env: Env, b: Build, f: Body) {
    forall i: nat, st: State :: i < |f| ==> StmtTerminates(env, b, f[i].s, st)
  }

  lemma ForwardNext(env: Env, b: Build, fuel: nat, f: Body, i: nat, st: State)
    requires Forward(f) && i < |f| && Exec(env, b, fuel, f[i].s, st).Done?
    ensures
      var next := Next(f, i, Exec(env, b, fuel, f[i].s, st).out);
      next.Some? ==> i < next.value
  {
    ExecJumps(env, b, fuel, f[i].s, st);
    var out := Exec(env, b, fuel, f[i].s, st).out;
    if out.Jumped? {
      FindLabelExact(f, out.dest, 0);
    }
  }

  /** Forward-jump termination: with every label ahead of its jumps, a body terminates from every
      segment and state as soon as each of its statements does. */
  lemma {:induction false} ForwardTerminates(env: Env, b: Build, f: Body, i: nat, st: State) returns (fuel: nat)
    requires i <= |f| && Forward(f) && PartsTerminate(env, b, f)
    ensures RunFrom(env, b, fuel, f, i, st).Done?
    decreases |f| - i
  {
    fuel := 0;
    if i < |f| {
      assert StmtTerminates(env, b, f[i].s, st);
      var n: nat :| Exec(env, b, n, f[i].s, st).Done?;
      var r := Exec(env, b, n, f[i].s, st);
      ForwardNext(env, b, n, f, i, st);
      var next := Next(f, i, r.out);
      fuel := n;
      if next.Some? {
        var k := ForwardTerminates(env, b, f, next.value, r.st);
        fuel := if n >= k then n else k;
        RunFromMonotone(env, b, k, fuel, f, next.value, r.st);
      }
      ExecMonotone(env, b, n, fuel, f[i].s, st);
    }
  }

  lemma {:induction false} SuffixDecides(env: Env, b: Build, fuel: nat, f: Body, g: Body, j: nat, k: nat, st: State)
    requires SameLabels(f, g) && Forward(f) && j <= k <= |f|
    requires forall i | j <= i < |f| :: f[i] == g[i]
    ensures RunFrom(env, b, fuel, f, k, st) == RunFrom(env, b, fuel, g, k, st)
    decreases |f| - k
  {
    if k < |f| {
      var r := Exec(env, b, fuel, f[k].s, st);
      if r.Done? {
        ForwardNext(env, b, fuel, f, k, st);
        var next := Next(f, k, r.out);
        NextSame(f, g, k, r.out);
        if next.Some? {
          SuffixDecides(env, b, fuel, f, g, j, next.value, r.st);
        }
      }
    }
  }

  /** No statement between a failing Require and its label runs: whatever stands there instead, the
      run is the same. */
  lemma SkippedStatementsDoNotRun(env: Env, b: Build, fuel: nat, f: Body, g: Body, i: nat, j: nat, l: Name, st: State)
    requires SameLabels(f, g) && Forward(f) && i < |f| && f[i] == g[i]
    requires
      var r := Exec(env, b, fuel, f[i].s, st);
      r.Done? && r.out == Jumped(l)
    requires Carries(f, j, l) && forall k | j <= k < |f| :: f[k] == g[k]
    ensures RunFrom(env, b, fuel, f, i, st) == RunFrom(env, b, fuel, g, i, st)
  {
    var r := Exec(env, b, fuel, f[i].s, st);
    FindLabelExact(f, l, 0);
    ForwardNext(env, b, fuel, f, i, st);
    NextSame(f, g, i, r.out);
    SuffixDecides(env, b, fuel, f, g, j, j, r.st);
  }

  // ----- Statements that terminate without fuel -----

  /** No loops other than `do S while (0)`. */
  predicate LoopFree(s: Stmt)
    decreases s
  {
    match s
    case Block(items) => LoopFreeItems(items)
    case IfThen(_, thn) => LoopFree(thn)
    case IfElse(_, thn, els) => LoopFree(thn) && LoopFree(els)
    case While(_, _) => false
    case DoWhile(body, c) => c == Lit(0) && LoopFree(body)
    case Invoke(m) => ActionOf(m).Some? ==> LoopFreeItems(ActionOf(m).value)
    case _ => true
  }

  predicate LoopFreeItems(ss: Items)
    decreases ss
  {
    match ss
    case Nil => true
    case Cons(s, rest) => LoopFree(s) && LoopFreeItems(rest)
    case Decl(_, _, rest) => LoopFreeItems(rest)
  }

  lemma {:induction false} LoopFreeTerminates(env: Env, b: Build, s: Stmt, st: State)
    requires LoopFree(s)
    ensures Exec(env, b, 0, s, st).Done?
    decreases s
  {
    match s
    case Block(items) => LoopFreeItemsTerminate(env, b, items, st);
    case IfThen(c, thn) => LoopFreeTerminates(env, b, thn, Eval(env, c, st).1);
    case IfElse(c, thn, els) =>
      LoopFreeTerminates(env, b, thn, Eval(env, c, st).1);
      LoopFreeTerminates(env, b, els, Eval(env, c, st).1);
    case DoWhile(body, c) => LoopFreeTerminates(env, b, body, st);
    case Invoke(m) =>
      if ActionOf(m).Some? {
        var (v, st1) := Eval(env, m.operand, st);
        LoopFreeItemsTerminate(env, b, ActionOf(m).value, Visit(env, b, m, v, st1));
      }
    case _ =>
  }

  lemma {:induction false} LoopFreeItemsTerminate(env: Env, b: Build, ss: Items, st: State)
    requires LoopFreeItems(ss)
    ensures ExecItems(env, b, 0, ss, st).Done?
    decreases ss
  {
    match ss
    case Nil =>
    case Cons(s, rest) =>
      LoopFreeTerminates(env, b, s, st);
      LoopFreeItemsTerminate(env, b, rest, Exec(env, b, 0, s, st).st);
    case Decl(x, init, rest) =>
      var (v, st1) := Eval(env, init, Set(st, x, env.junk));
      LoopFreeItemsTerminate(env, b, rest, Set(st1, x, ToLong(env, v)));
  }

  // ----- Expansion adds no loops and no jumps -----

  /** The expansion has only loops of the form `do S while (0)` if the program has, and the same jumps. */
  lemma {:induction false} ExpandKeepsShape(b: Build, s: Stmt)
    ensures LoopFree(s) ==> LoopFree(Expand(b, s))
    ensures Jumps(Expand(b, s)) <= Jumps(s)
    decreases s
  {
    match s
    case Block(items) => ExpandItemsKeepsShape(b, items);
    case IfThen(_, thn) => ExpandKeepsShape(b, thn);
    case IfElse(_, thn, els) => ExpandKeepsShape(b, thn); ExpandKeepsShape(b, els);
    case While(_, body) => ExpandKeepsShape(b, body);
    case DoWhile(body, _) => ExpandKeepsShape(b, body);
    case Invoke(m) => ReplaceKeepsShape(b, m);
    case _ =>
  }

  lemma {:induction false} ExpandItemsKeepsShape(b: Build, ss: Items)
    ensures LoopFreeItems(ss) ==> LoopFreeItems(ExpandItems(b, ss))
    ensures JumpsItems(ExpandItems(b, ss)) <= JumpsItems(ss)
    decreases ss
  {
    match ss
    case Nil =>
    case Cons(s, rest) => ExpandKeepsShape(b, s); ExpandItemsKeepsShape(b, rest);
    case Decl(_, _, rest) => ExpandItemsKeepsShape(b, rest);
  }

  lemma OneShape(s: Stmt)
    ensures LoopFreeItems(One(s)) == LoopFree(s) && JumpsItems(One(s)) == Jumps(s)
  {
    assert JumpsItems(Nil) == {};
    assert JumpsItems(Cons(s, Nil)) == Jumps(s) + JumpsItems(Nil);
  }

  lemma TailShape(m: Macro<Items>)
    ensures (ActionOf(m).Some? ==> LoopFreeItems(ActionOf(m).value)) ==> LoopFreeItems(Tail(m))
    ensures JumpsItems(Tail(m)) <= Jumps(Invoke(m))
  {
    if IsRequire(m) {
      OneShape(Goto(m.dest));
      assert Jumps(Goto(m.dest)) == {m.dest};
      if ActionOf(m).Some? {
        var block := Block(ActionOf(m).value);
        assert Jumps(block) == JumpsItems(ActionOf(m).value);
        assert LoopFree(block) == LoopFreeItems(ActionOf(m).value);
      }
    }
  }

  lemma SayShape(r: Report, body: Items)
    ensures LoopFreeItems(Say(r, body)) == LoopFreeItems(body) && JumpsItems(Say(r, body)) == JumpsItems(body)
  {
    var rest := Cons(Null, body);
    assert LoopFreeItems(rest) == LoopFreeItems(body);
    assert Jumps(Null) == {} && Jumps(Emit(r)) == {};
    assert JumpsItems(rest) == Jumps(Null) + JumpsItems(body);
    assert JumpsItems(Say(r, body)) == Jumps(Emit(r)) + JumpsItems(rest);
  }

  lemma OnceShape(body: Items)
    ensures LoopFree(Once(body)) == LoopFreeItems(body) && Jumps(Once(body)) == JumpsItems(body)
  {
    assert LoopFree(Block(body)) == LoopFreeItems(body) && Jumps(Block(body)) == JumpsItems(body);
  }

  /** `if (c) { body }`, alone, in a declaration or with an empty `else`, has the shape of `body`. */
  lemma GuardedShape(c: Expr, e: Expr, body: Items)
    ensures LoopFree(Once(One(IfThen(c, Block(body))))) == LoopFreeItems(body)
    ensures Jumps(Once(One(IfThen(c, Block(body))))) == JumpsItems(body)
    ensures LoopFree(OnceCode(e, body)) == LoopFreeItems(body) && Jumps(OnceCode(e, body)) == JumpsItems(body)
    ensures LoopFree(IfElse(c, Block(body), Once(Nil))) == LoopFreeItems(body)
    ensures Jumps(IfElse(c, Block(body), Once(Nil))) == JumpsItems(body)
  {
    var s, t := IfThen(c, Block(body)), IfThen(NonZero(Var(EVAL_ONCE)), Block(body));
    assert LoopFree(Block(body)) == LoopFreeItems(body) && Jumps(Block(body)) == JumpsItems(body);
    OneShape(s);
    OneShape(t);
    OnceShape(One(s));
    OnceShape(Decl(EVAL_ONCE, e, One(t)));
    OnceShape(Nil);
  }

  /** A definition has the shape of what it runs when the assertion has failed. */
  lemma DefinitionShape(b: Build, m: Macro<Items>)
    ensures LoopFreeItems(Tail(m)) ==> LoopFree(Replace(b, m))
    ensures Jumps(Replace(b, m)) <= JumpsItems(Tail(m))
  {
    var body, r := Tail(m), ReportOf(m);
    SayShape(r, body);
    if m.DebugString? {
      OnceShape(Say(r, Nil));
    } else {
      GuardedShape(TestOf(m), m.operand, body);
      GuardedShape(TestOf(m), m.operand, Say(r, body));
    }
  }

  lemma {:induction false} ReplaceKeepsShape(b: Build, m: Macro<Items>)
    ensures LoopFree(Invoke(m)) ==> LoopFree(Replace(b, ExpandAction(b, m)))
    ensures Jumps(Replace(b, ExpandAction(b, m))) <= Jumps(Invoke(m))
    decreases m
  {
    var m' := ExpandAction(b, m);
    if ActionOf(m).Some? {
      ExpandItemsKeepsShape(b, ActionOf(m).value);
    }
    TailShape(m');
    DefinitionShape(b, m');
    assert Jumps(Invoke(m')) <= Jumps(Invoke(m));
  }

  lemma ForwardExpands(b: Build, f: Body)
    requires Forward(f)
    ensures Forward(ExpandBody(b, f))
  {
    var g := ExpandBody(b, f);
    forall i: nat, l: Name, j: nat | i < |g| && l in Jumps(g[i].s) && Carries(g, j, l) ensures i < j {
      ExpandKeepsShape(b, f[i].s);
      assert Carries(f, j, l) by {
        forall k | 0 <= k < j ensures f[k].dest != Some(l) {
          assert g[k].dest != Some(l);
        }
      }
    }
  }

  /** Both builds of a loop-free function whose labels lie ahead of their jumps terminate, from
      every store: the usual shape of code written with the Require macros. */
  lemma RequireCodeTerminates(env: Env, b: Build, f: Body, store: Store)
    requires Forward(f) && forall i | 0 <= i < |f| :: LoopFree(f[i].s)
    ensures exists r :: Terminates(env, b, f, store, r)
  {
    var g := ExpandBody(b, f);
    ForwardExpands(b, f);
    forall i: nat, st: State | i < |g| ensures StmtTerminates(env, b, g[i].s, st) {
      ExpandKeepsShape(b, f[i].s);
      LoopFreeTerminates(env, b, g[i].s, st);
    }
    var fuel := ForwardTerminates(env, b, g, 0, State(store, Empty));
    assert Terminates(env, b, f, store, Compiled(env, b, fuel, f, store));
  }
}
