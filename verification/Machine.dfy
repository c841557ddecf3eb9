/** A second semantics of the C fragment: an abstract machine that works in small steps, evaluates with
    explicit continuations and needs no fuel.  It halts with a result exactly when the interpreter gives
    that result for some fuel. */
module Machine {
  import opened Options
  import opened Integers
  import opened CLang
  import opened Refinement
  import opened Builds
  import opened Functions
  import opened Termination

  // ----- The machine -----

  /** What remains to be done. */
  datatype Kont =
    | Stop
    | AtSegment(i: nat)                                    // the rest of a function, behind segment i
    // an expression waits for the value of a part of it
    | Assigning(x: Name, k: Kont)
    | Calling(f: Name, k: Kont)
    | Casting(ty: CType, k: Kont)
    | Negating(k: Kont)
    | Conjoining(e: Expr, k: Kont)
    | Deciding(k: Kont)
    | Operating(op: BinOp, e: Expr, k: Kont)
    | Applying(op: BinOp, l: int, k: Kont)
    // a statement waits for a value
    | Discarding(k: Kont)
    | Choosing(thn: Stmt, els: Stmt, k: Kont)
    | Testing(e: Expr, body: Stmt, k: Kont)
    | Returning(k: Kont)
    | Showing(report: Report, k: Kont)
    | ShowingAgain(report: Report, k: Kont)
    | Printing(report: Report, shown: Option<int>, k: Kont)
    | Initializing(x: Name, outer: Store, rest: Items, k: Kont)
    // a statement waits for a part of it to end
    | Following(rest: Items, k: Kont)
    | Looping(e: Expr, body: Stmt, k: Kont)
    | Leaving(x: Name, outer: Store, k: Kont)

  datatype Config =
    | Evaluating(e: Expr, k: Kont, st: State)
    | Value(v: int, k: Kont, st: State)
    | Running(s: Stmt, k: Kont, st: State)
    | RunningItems(ss: Items, k: Kont, st: State)
    | Ended(out: Outcome, k: Kont, st: State)

  function Enter(f: Body, i: nat, st: State): Config {
    if i < |f| then Running(f[i].s, AtSegment(i), st) else Ended(Normal, Stop, st)
  }

  function StepExpr(e: Expr, k: Kont, st: State): Config {
    match e
    case Lit(n) => Value(n, k, st)
    case Var(x) => Value(Get(st.store, x), k, st)
    case Assign(x, e1) => Evaluating(e1, Assigning(x, k), st)
    case Call(f, e1) => Evaluating(e1, Calling(f, k), st)
    case Cast(ty, e1) => Evaluating(e1, Casting(ty, k), st)
    case Not(e1) => Evaluating(e1, Negating(k), st)
    case And(l, r) => Evaluating(l, Conjoining(r, k), st)
    case Bin(op, l, r) => Evaluating(l, Operating(op, r, k), st)
  }

  function StepValue(env: Env, v: int, k: Kont, st: State): Config {
    match k
    case Assigning(x, k1) => Value(v, k1, Set(st, x, v))
    case Calling(f, k1) =>
      var ret := env.world(CallsOf(st.trace), f, v);
      Value(ret, k1, Log(st, Called(f, v, ret)))
    case Casting(ty, k1) => Value(Convert(ty, v), k1, st)
    case Negating(k1) => Value(if v == 0 then 1 else 0, k1, st)
    case Conjoining(e, k1) => if v == 0 then Value(0, k1, st) else Evaluating(e, Deciding(k1), st)
    case Deciding(k1) => Value(if v == 0 then 0 else 1, k1, st)
    case Operating(op, e, k1) => Evaluating(e, Applying(op, v, k1), st)
    case Applying(op, l, k1) => Value(Apply(op, l, v), k1, st)
    case Discarding(k1) => Ended(Normal, k1, st)
    case Choosing(thn, els, k1) => Running(if v != 0 then thn else els, k1, st)
    case Testing(e, body, k1) => if v != 0 then Running(body, Looping(e, body, k1), st) else Ended(Normal, k1, st)
    case Returning(k1) => Ended(Returned(v), k1, st)
    case Showing(r, k1) =>
      if v == 0 then Evaluating(r.value, Printing(r, None, k1), st) else Evaluating(r.message, ShowingAgain(r, k1), st)
    case ShowingAgain(r, k1) => Evaluating(r.value, Printing(r, Some(v), k1), st)
    case Printing(r, shown, k1) => Ended(Normal, k1, Log(st, Printed(Message(r.text, r.dest, shown, ToLong(env, v)))))
    case Initializing(x, outer, rest, k1) => RunningItems(rest, Leaving(x, outer, k1), Set(st, x, ToLong(env, v)))
    case _ => Value(v, k, st)
  }

  function StepStmt(s: Stmt, k: Kont, st: State): Config {
    match s
    case Null => Ended(Normal, k, st)
    case Do(e) => Evaluating(e, Discarding(k), st)
    case Block(items) => RunningItems(items, k, st)
    case IfThen(c, thn) => Evaluating(c, Choosing(thn, Null, k), st)
    case IfElse(c, thn, els) => Evaluating(c, Choosing(thn, els, k), st)
    case While(c, body) => Evaluating(c, Testing(c, body, k), st)
    case DoWhile(body, c) => Running(body, Looping(c, body, k), st)
    case Break => Ended(Broke, k, st)
    case Continue => Ended(Continued, k, st)
    case Goto(l) => Ended(Jumped(l), k, st)
    case Return(e) => Evaluating(e, Returning(k), st)
    case Emit(r) => Evaluating(r.message, Showing(r, k), st)
    case Invoke(_) => Running(s, k, st)                    // no rule: the machine runs plain C
  }

  function StepItems(env: Env, ss: Items, k: Kont, st: State): Config {
    match ss
    case Nil => Ended(Normal, k, st)
    case Cons(s, rest) => Running(s, Following(rest, k), st)
    case Decl(x, init, rest) => Evaluating(init, Initializing(x, st.store, rest, k), Set(st, x, env.junk))
  }

  function StepEnd(f: Body, out: Outcome, k: Kont, st: State): Config {
    match k
    case Following(rest, k1) => if out.Normal? then RunningItems(rest, k1, st) else Ended(out, k1, st)
    case Looping(e, body, k1) =>
      if out.Normal? || out.Continued? then Evaluating(e, Testing(e, body, k1), st)
      else Ended(if out.Broke? then Normal else out, k1, st)
    case Leaving(x, outer, k1) => Ended(out, k1, Restore(outer, x, st))
    case AtSegment(i) =>
      if out.Normal? then Enter(f, i + 1, st)
      else if out.Jumped? && FindLabel(f, out.dest, 0).Some? then Enter(f, FindLabel(f, out.dest, 0).value, st)
      else Ended(out, Stop, st)
    case _ => Ended(out, k, st)
  }

  /** One step of function `f`; a configuration without a rule stays as it is. */
  function Step(env: Env, f: Body, c: Config): Config {
    match c
    case Evaluating(e, k, st) => StepExpr(e, k, st)
    case Value(v, k, st) => StepValue(env, v, k, st)
    case Running(s, k, st) => StepStmt(s, k, st)
    case RunningItems(ss, k, st) => StepItems(env, ss, k, st)
    case Ended(out, k, st) => StepEnd(f, out, k, st)
  }

  function Steps(env: Env, f: Body, n: nat, c: Config): Config {
    if n == 0 then c else Steps(env, f, n - 1, Step(env, f, c))
  }

  predicate Halted(c: Config) { c.Ended? && c.k.Stop? }

  // ----- Runs of the machine -----

  lemma {:induction false} StepsAdd(env: Env, f: Body, m: nat, n: nat, c: Config)
    ensures Steps(env, f, m + n, c) == Steps(env, f, n, Steps(env, f, m, c))
    decreases m
  {
    if m > 0 {
      StepsAdd(env, f, m - 1, n, Step(env, f, c));
    }
  }

  /** The machine goes from `c` to `d` in at least `n` steps. */
  ghost predicate Goes(env: Env, f: Body, n: nat, c: Config, d: Config) {
    exists m: nat :: m >= n && Steps(env, f, m, c) == d
  }

  lemma GoesStep(env: Env, f: Body, c: Config)
    ensures Goes(env, f, 1, c, Step(env, f, c))
  {
    assert Steps(env, f, 0, Step(env, f, c)) == Step(env, f, c);
    assert Steps(env, f, 1, c) == Step(env, f, c);
  }

  lemma GoesOn(env: Env, f: Body, m: nat, n: nat, c: Config, d: Config, e: Config)
    requires Goes(env, f, m, c, d) && Goes(env, f, n, d, e)
    ensures Goes(env, f, m + n, c, e)
  {
    var i: nat :| i >= m && Steps(env, f, i, c) == d;
    var j: nat :| j >= n && Steps(env, f, j, d) == e;
    StepsAdd(env, f, i, j, c);
    assert Steps(env, f, i + j, c) == e;
  }

  /** One step, a run to `d` and one step more. */
  lemma GoesAround(env: Env, f: Body, c: Config, d: Config)
    requires Goes(env, f, 1, Step(env, f, c), d)
    ensures Goes(env, f, 3, c, Step(env, f, d))
  {
    GoesStep(env, f, c);
    GoesOn(env, f, 1, 1, c, Step(env, f, c), d);
    GoesOnStep(env, f, 2, c, d);
  }

  lemma GoesOnStep(env: Env, f: Body, n: nat, c: Config, d: Config)
    requires Goes(env, f, n, c, d)
    ensures Goes(env, f, n + 1, c, Step(env, f, d))
  {
    GoesStep(env, f, d);
    GoesOn(env, f, n, 1, c, d, Step(env, f, d));
  }

  /** A run to `d` passes through the first step. */
  lemma GoesPast(env: Env, f: Body, c: Config, d: Config)
    requires Goes(env, f, 1, c, d) && Step(env, f, c) != d
    ensures Goes(env, f, 1, Step(env, f, c), d)
  {
    var m: nat :| m >= 1 && Steps(env, f, m, c) == d;
    assert Steps(env, f, m - 1, Step(env, f, c)) == d;
    assert m - 1 >= 1;
  }

  // ----- The machine follows the interpreter -----

  lemma {:induction false} EvalGoes(env: Env, f: Body, e: Expr, k: Kont, st: State)
    ensures Goes(env, f, 1, Evaluating(e, k, st), Value(Eval(env, e, st).0, k, Eval(env, e, st).1))
    decreases e, 0
  {
    var c := Evaluating(e, k, st);
    match e
    case Lit(_) => GoesStep(env, f, c);
    case Var(_) => GoesStep(env, f, c);
    case Assign(x, e1) => PartGoes(env, f, c, e1, Assigning(x, k), st);
    case Call(g, e1) => PartGoes(env, f, c, e1, Calling(g, k), st);
    case Cast(ty, e1) => PartGoes(env, f, c, e1, Casting(ty, k), st);
    case Not(e1) => PartGoes(env, f, c, e1, Negating(k), st);
    case And(l, r) =>
      PartGoes(env, f, c, l, Conjoining(r, k), st);
      var (v, st1) := Eval(env, l, st);
      if v != 0 {
        SecondPartGoes(env, f, c, r, Deciding(k), st1);
      }
    case Bin(op, l, r) =>
      PartGoes(env, f, c, l, Operating(op, r, k), st);
      var (v, st1) := Eval(env, l, st);
      SecondPartGoes(env, f, c, r, Applying(op, v, k), st1);
  }

  /** The machine evaluates a part of an expression or a statement and takes up its value. */
  lemma {:induction false} PartGoes(env: Env, f: Body, c: Config, e: Expr, k: Kont, st: State)
    requires Step(env, f, c) == Evaluating(e, k, st)
    ensures
      var (v, st1) := Eval(env, e, st);
      Goes(env, f, 3, c, StepValue(env, v, k, st1))
    decreases e, 1
  {
    EvalGoes(env, f, e, k, st);
    GoesAround(env, f, c, Value(Eval(env, e, st).0, k, Eval(env, e, st).1));
  }

  lemma {:induction false} SecondPartGoes(env: Env, f: Body, c: Config, e: Expr, k: Kont, st: State)
    requires Goes(env, f, 1, c, Evaluating(e, k, st))
    ensures
      var (v, st1) := Eval(env, e, st);
      Goes(env, f, 3, c, StepValue(env, v, k, st1))
    decreases e, 1
  {
    var (v, st1) := Eval(env, e, st);
    EvalGoes(env, f, e, k, st);
    GoesOn(env, f, 1, 1, c, Evaluating(e, k, st), Value(v, k, st1));
    GoesOnStep(env, f, 2, c, Value(v, k, st1));
  }

  lemma EmitGoes(env: Env, f: Body, r: Report, k: Kont, st: State)
    ensures Goes(env, f, 1, Running(Emit(r), k, st), Ended(Normal, k, Tell(env, r, st)))
  {
    var c := Running(Emit(r), k, st);
    PartGoes(env, f, c, r.message, Showing(r, k), st);
    var (v, st1) := Eval(env, r.message, st);
    if v != 0 {
      SecondPartGoes(env, f, c, r.message, ShowingAgain(r, k), st1);
    }
    var (shown, st2) := Show(env, r.message, st);
    SecondPartGoes(env, f, c, r.value, Printing(r, shown, k), st2);
  }

  lemma {:induction false} HaltedStays(env: Env, f: Body, n: nat, c: Config)
    requires Halted(c)
    ensures Steps(env, f, n, c) == c
    decreases n
  {
    if n > 0 {
      HaltedStays(env, f, n - 1, c);
    }
  }

  /** A machine that passes through `d` and has not halted `n` steps later has not halted earlier. */
  lemma RunsOn(env: Env, f: Body, m: nat, c: Config, d: Config, n: nat, early: nat)
    requires Goes(env, f, m, c, d) && !Halted(Steps(env, f, n, d)) && early <= m + n
    ensures !Halted(Steps(env, f, early, c))
  {
    var i: nat :| i >= m && Steps(env, f, i, c) == d;
    StepsAdd(env, f, i, n, c);
    StepsAdd(env, f, early, i + n - early, c);
    if Halted(Steps(env, f, early, c)) {
      HaltedStays(env, f, i + n - early, Steps(env, f, early, c));
    }
  }

  /** From `c` the machine ends with the result of the interpreter, in continuation `k`; where the
      interpreter runs out of fuel, the machine makes at least as many steps as there was fuel. */
  ghost predicate Follows(env: Env, f: Body, fuel: nat, c: Config, k: Kont, r: Result) {
    if r.Done? then Goes(env, f, 1, c, Ended(r.out, k, r.st)) else !Halted(Steps(env, f, fuel, c))
  }

  lemma FollowsOn(env: Env, f: Body, n: nat, c: Config, d: Config, left: nat, fuel: nat, k: Kont, r: Result)
    requires Goes(env, f, n, c, d) && Follows(env, f, left, d, k, r) && fuel <= left + n
    ensures Follows(env, f, fuel, c, k, r)
  {
    if r.Done? {
      GoesOn(env, f, n, 1, c, d, Ended(r.out, k, r.st));
    } else {
      RunsOn(env, f, n, c, d, left, fuel);
    }
  }

  /** What follows from `c` follows from its first step. */
  lemma FollowsPast(env: Env, f: Body, fuel: nat, c: Config, k: Kont, r: Result)
    requires Follows(env, f, fuel, c, k, r) && !Step(env, f, c).Ended?
    ensures Follows(env, f, if fuel > 0 then fuel - 1 else 0, Step(env, f, c), k, r)
  {
    if r.Done? {
      GoesPast(env, f, c, Ended(r.out, k, r.st));
    }
  }

  /** The machine runs a part of a statement and takes up its outcome. */
  lemma PartEnds(env: Env, f: Body, n: nat, c: Config, d: Config, fuel: nat, k: Kont, r: Result)
    requires Goes(env, f, n, c, d) && Follows(env, f, fuel, d, k, r)
    ensures if r.Done? then Goes(env, f, n + 2, c, StepEnd(f, r.out, k, r.st)) else !Halted(Steps(env, f, fuel, c))
  {
    if r.Done? {
      var e := Ended(r.out, k, r.st);
      GoesOn(env, f, n, 1, c, d, e);
      GoesOnStep(env, f, n + 1, c, e);
    } else {
      RunsOn(env, f, n, c, d, fuel, fuel);
    }
  }

  lemma {:induction false} ExecGoes(env: Env, b: Build, fuel: nat, f: Body, s: Stmt, k: Kont, st: State)
    requires MacroFree(s)
    ensures Follows(env, f, fuel, Running(s, k, st), k, Exec(env, b, fuel, s, st))
    decreases fuel, s, 1
  {
    var c := Running(s, k, st);
    GoesStep(env, f, c);
    match s
    case Do(e) => PartGoes(env, f, c, e, Discarding(k), st);
    case Block(items) =>
      ItemsGo(env, b, fuel, f, items, k, st);
      FollowsOn(env, f, 1, c, RunningItems(items, k, st), fuel, fuel, k, Exec(env, b, fuel, s, st));
    case IfThen(e, thn) =>
      PartGoes(env, f, c, e, Choosing(thn, Null, k), st);
      var (v, st1) := Eval(env, e, st);
      if v != 0 {
        ExecGoes(env, b, fuel, f, thn, k, st1);
        FollowsOn(env, f, 3, c, Running(thn, k, st1), fuel, fuel, k, Exec(env, b, fuel, thn, st1));
      } else {
        GoesOnStep(env, f, 3, c, Running(Null, k, st1));
      }
    case IfElse(e, thn, els) =>
      PartGoes(env, f, c, e, Choosing(thn, els, k), st);
      var (v, st1) := Eval(env, e, st);
      var branch := if v != 0 then thn else els;
      ExecGoes(env, b, fuel, f, branch, k, st1);
      FollowsOn(env, f, 3, c, Running(branch, k, st1), fuel, fuel, k, Exec(env, b, fuel, branch, st1));
    case While(_, _) => WhileGoes(env, b, fuel, f, s, k, st);
    case DoWhile(_, _) => DoWhileGoes(env, b, fuel, f, s, k, st);
    case Return(e) => PartGoes(env, f, c, e, Returning(k), st);
    case Emit(r) => EmitGoes(env, f, r, k, st);
    case _ =>
  }

  lemma {:induction false} WhileGoes(env: Env, b: Build, fuel: nat, f: Body, s: Stmt, k: Kont, st: State)
    requires s.While? && MacroFree(s)
    ensures Follows(env, f, fuel, Running(s, k, st), k, Exec(env, b, fuel, s, st))
    decreases fuel, s, 0
  {
    var c, loop := Running(s, k, st), Looping(s.c, s.body, k);
    PartGoes(env, f, c, s.c, Testing(s.c, s.body, k), st);
    var (v, st1) := Eval(env, s.c, st);
    if v != 0 {
      ExecGoes(env, b, fuel, f, s.body, loop, st1);
      var r := Exec(env, b, fuel, s.body, st1);
      PartEnds(env, f, 3, c, Running(s.body, loop, st1), fuel, loop, r);
      if fuel > 0 && Repeats(r) {
        var again := Running(s, k, r.st);
        ExecGoes(env, b, fuel - 1, f, s, k, r.st);
        FollowsPast(env, f, fuel - 1, again, k, Exec(env, b, fuel - 1, s, r.st));
        FollowsOn(env, f, 5, c, Step(env, f, again), if fuel > 1 then fuel - 2 else 0, fuel, k, Exec(env, b, fuel - 1, s, r.st));
      }
    }
  }

  lemma {:induction false} DoWhileGoes(env: Env, b: Build, fuel: nat, f: Body, s: Stmt, k: Kont, st: State)
    requires s.DoWhile? && MacroFree(s)
    ensures Follows(env, f, fuel, Running(s, k, st), k, Exec(env, b, fuel, s, st))
    decreases fuel, s, 0
  {
    var c, loop := Running(s, k, st), Looping(s.c, s.body, k);
    GoesStep(env, f, c);
    ExecGoes(env, b, fuel, f, s.body, loop, st);
    var r := Exec(env, b, fuel, s.body, st);
    PartEnds(env, f, 1, c, Running(s.body, loop, st), fuel, loop, r);
    if Repeats(r) {
      SecondPartGoes(env, f, c, s.c, Testing(s.c, s.body, k), r.st);
      var (v, st1) := Eval(env, s.c, r.st);
      if v != 0 && fuel > 0 {
        var again := Running(s, k, st1);
        ExecGoes(env, b, fuel - 1, f, s, k, st1);
        FollowsPast(env, f, fuel - 1, again, k, Exec(env, b, fuel - 1, s, st1));
        FollowsOn(env, f, 3, c, Step(env, f, again), if fuel > 1 then fuel - 2 else 0, fuel, k, Exec(env, b, fuel - 1, s, st1));
      }
    }
  }

  lemma {:induction false} ItemsGo(env: Env, b: Build, fuel: nat, f: Body, ss: Items, k: Kont, st: State)
    requires MacroFreeItems(ss)
    ensures Follows(env, f, fuel, RunningItems(ss, k, st), k, ExecItems(env, b, fuel, ss, st))
    decreases fuel, ss, 1
  {
    var c := RunningItems(ss, k, st);
    GoesStep(env, f, c);
    match ss
    case Nil =>
    case Cons(s, rest) =>
      ExecGoes(env, b, fuel, f, s, Following(rest, k), st);
      var r := Exec(env, b, fuel, s, st);
      PartEnds(env, f, 1, c, Running(s, Following(rest, k), st), fuel, Following(rest, k), r);
      if r.Done? && r.out.Normal? {
        ItemsGo(env, b, fuel, f, rest, k, r.st);
        FollowsOn(env, f, 3, c, RunningItems(rest, k, r.st), fuel, fuel, k, ExecItems(env, b, fuel, rest, r.st));
      }
    case Decl(_, _, _) => DeclGoes(env, b, fuel, f, ss, k, st);
  }

  lemma {:induction false} DeclGoes(env: Env, b: Build, fuel: nat, f: Body, ss: Items, k: Kont, st: State)
    requires ss.Decl? && MacroFreeItems(ss)
    ensures Follows(env, f, fuel, RunningItems(ss, k, st), k, ExecItems(env, b, fuel, ss, st))
    decreases fuel, ss, 0
  {
    var c, scope, st0 := RunningItems(ss, k, st), Leaving(ss.x, st.store, k), Set(st, ss.x, env.junk);
    PartGoes(env, f, c, ss.init, Initializing(ss.x, st.store, ss.rest, k), st0);
    var (v, st1) := Eval(env, ss.init, st0);
    var st2 := Set(st1, ss.x, ToLong(env, v));
    ItemsGo(env, b, fuel, f, ss.rest, scope, st2);
    PartEnds(env, f, 3, c, RunningItems(ss.rest, scope, st2), fuel, scope, ExecItems(env, b, fuel, ss.rest, st2));
  }

  predicate BodyMacroFree(f: Body) {
    forall i | 0 <= i < |f| :: MacroFree(f[i].s)
  }

  lemma {:induction false} RunFromGoes(env: Env, b: Build, fuel: nat, f: Body, i: nat, st: State)
    requires i <= |f| && BodyMacroFree(f)
    ensures
      var r := RunFrom(env, b, fuel, f, i, st);
      if r.Done? then Goes(env, f, 0, Enter(f, i, st), Ended(r.out, Stop, r.st))
      else !Halted(Steps(env, f, fuel, Enter(f, i, st)))
    decreases fuel, |f| - i
  {
    var c := Enter(f, i, st);
    if i == |f| {
      assert Steps(env, f, 0, c) == c;
    } else {
      ExecGoes(env, b, fuel, f, f[i].s, AtSegment(i), st);
      assert Goes(env, f, 0, c, c) by {
        assert Steps(env, f, 0, c) == c;
      }
      var r := Exec(env, b, fuel, f[i].s, st);
      PartEnds(env, f, 0, c, c, fuel, AtSegment(i), r);
      if r.Done? {
        var next := Next(f, i, r.out);
        if next.Some? && (next.value > i || fuel > 0) {
          var left, d := if next.value > i then fuel else fuel - 1, Enter(f, next.value, r.st);
          RunFromGoes(env, b, left, f, next.value, r.st);
          var r1 := RunFrom(env, b, left, f, next.value, r.st);
          if r1.Done? {
            GoesOn(env, f, 2, 0, c, d, Ended(r1.out, Stop, r1.st));
          } else {
            RunsOn(env, f, 2, c, d, left, fuel);
          }
        }
      }
    }
  }

  // ----- Adequacy -----

  /** The machine, started on function `f` in `store`, halts with result `r`. */
  ghost predicate Halts(env: Env, f: Body, store: Store, r: Result) {
    r.Done? && Goes(env, f, 0, Enter(f, 0, State(store, Empty)), Ended(r.out, Stop, r.st))
  }

  /** The machine halts with one result only. */
  lemma HaltsOnce(env: Env, f: Body, c: Config, d: Config, e: Config)
    requires Goes(env, f, 0, c, d) && Goes(env, f, 0, c, e) && Halted(d) && Halted(e)
    ensures d == e
  {
    var m: nat :| Steps(env, f, m, c) == d;
    var n: nat :| Steps(env, f, n, c) == e;
    StepsAdd(env, f, m, n, c);
    StepsAdd(env, f, n, m, c);
    HaltedStays(env, f, n, d);
    HaltedStays(env, f, m, e);
  }

  lemma FinishedRunHalts(env: Env, b: Build, fuel: nat, f: Body, store: Store)
    requires BodyMacroFree(f) && RunFrom(env, b, fuel, f, 0, State(store, Empty)).Done?
    ensures Halts(env, f, store, RunFrom(env, b, fuel, f, 0, State(store, Empty)))
  {
    RunFromGoes(env, b, fuel, f, 0, State(store, Empty));
  }

  /** As much fuel as the machine makes steps is enough. */
  lemma HaltedRunFinishes(env: Env, b: Build, f: Body, store: Store, r: Result) returns (fuel: nat)
    requires BodyMacroFree(f) && Halts(env, f, store, r)
    ensures RunFrom(env, b, fuel, f, 0, State(store, Empty)) == r
  {
    var st := State(store, Empty);
    var c, d := Enter(f, 0, st), Ended(r.out, Stop, r.st);
    fuel :| Steps(env, f, fuel, c) == d;
    RunFromGoes(env, b, fuel, f, 0, st);
    var r1 := RunFrom(env, b, fuel, f, 0, st);
    HaltsOnce(env, f, c, d, Ended(r1.out, Stop, r1.st));
  }

  /** The machine halts with a result if and only if the interpreter gives that result for some fuel, so
      the interpreter runs out of every fuel exactly where the machine runs for ever. */
  lemma MachineAdequate(env: Env, b: Build, f: Body, store: Store, r: Result)
    requires BodyMacroFree(f)
    ensures Halts(env, f, store, r) <==> r.Done? && exists fuel: nat :: RunFrom(env, b, fuel, f, 0, State(store, Empty)) == r
  {
    if Halts(env, f, store, r) {
      var fuel := HaltedRunFinishes(env, b, f, store, r);
    }
    if r.Done? && exists fuel: nat :: RunFrom(env, b, fuel, f, 0, State(store, Empty)) == r {
      var fuel: nat :| RunFrom(env, b, fuel, f, 0, State(store, Empty)) == r;
      FinishedRunHalts(env, b, fuel, f, store);
    }
  }

  lemma ExpandBodyIsMacroFree(b: Build, f: Body)
    ensures BodyMacroFree(ExpandBody(b, f))
  {
    forall i | 0 <= i < |f| ensures MacroFree(ExpandBody(b, f)[i].s) {
      ExpandIsMacroFree(b, f[i].s);
    }
  }

  /** The machine halts on an expanded function exactly as that build terminates. */
  lemma HaltsExact(env: Env, b: Build, f: Body, store: Store, r: Result)
    ensures Halts(env, ExpandBody(b, f), store, r) <==> Terminates(env, b, f, store, r)
  {
    ExpandBodyIsMacroFree(b, f);
    if Halts(env, ExpandBody(b, f), store, r) {
      var fuel := HaltedRunFinishes(env, b, ExpandBody(b, f), store, r);
      assert Compiled(env, b, fuel, f, store) == r;
    }
    if Terminates(env, b, f, store, r) {
      var fuel: nat :| Compiled(env, b, fuel, f, store) == r;
      FinishedRunHalts(env, b, fuel, ExpandBody(b, f), store);
    }
  }

  /** On the machine one build of a function halts exactly when the other does, with the same outcome,
      store and calls, if every macro that the production run comes to meets its condition. */
  lemma BuildsHaltAlike(env: Env, f: Body, store: Store)
    requires BodyAvoids({EVAL_ONCE}, f) && RunSafe(env, f, store)
    ensures (exists d :: Halts(env, ExpandBody(Debug, f), store, d)) <==> (exists p :: Halts(env, ExpandBody(Production, f), store, p))
    ensures forall d, p :: Halts(env, ExpandBody(Debug, f), store, d) && Halts(env, ExpandBody(Production, f), store, p) ==> SameBehaviour(d, p)
  {
    forall b: Build, r: Result ensures Halts(env, ExpandBody(b, f), store, r) <==> Terminates(env, b, f, store, r) {
      HaltsExact(env, b, f, store, r);
    }
    BuildsTerminateAlike(env, f, store);
  }
}
