/** How often the expansions evaluate an operand.  A macro is marked by wrapping its operand in a call
    of a probe, a function that the program calls nowhere else; then the probe calls of an expanded
    function are the evaluations of marked operands. */
module Probes {
  import opened CLang
  import opened Refinement
  import opened Functions

  // ----- Probed programs -----

  predicate NeverCalls(q: Name, e: Expr) {
    match e
    case Lit(_) => true
    case Var(_) => true
    case Assign(_, e1) => NeverCalls(q, e1)
    case Call(f, e1) => f != q && NeverCalls(q, e1)
    case Cast(_, e1) => NeverCalls(q, e1)
    case Not(e1) => NeverCalls(q, e1)
    case And(l, r) => NeverCalls(q, l) && NeverCalls(q, r)
    case Bin(_, l, r) => NeverCalls(q, l) && NeverCalls(q, r)
  }

  /** The operand of `m` is a call of the probe. */
  predicate Marked<A>(q: Name, m: Macro<A>) {
    !m.DebugString? && m.operand.Call? && m.operand.f == q
  }

  /** The probe is called by the operands of marked macros only. */
  predicate Probed(q: Name, s: Stmt)
    decreases s
  {
    match s
    case Do(e) => NeverCalls(q, e)
    case Block(items) => ProbedItems(q, items)
    case IfThen(c, thn) => NeverCalls(q, c) && Probed(q, thn)
    case IfElse(c, thn, els) => NeverCalls(q, c) && Probed(q, thn) && Probed(q, els)
    case While(c, body) => NeverCalls(q, c) && Probed(q, body)
    case DoWhile(body, c) => NeverCalls(q, c) && Probed(q, body)
    case Return(e) => NeverCalls(q, e)
    case Emit(r) => NeverCalls(q, r.message) && NeverCalls(q, r.value)
    case Invoke(m) => ProbedMacro(q, m)
    case _ => true
  }

  predicate ProbedItems(q: Name, ss: Items)
    decreases ss
  {
    match ss
    case Nil => true
    case Cons(s, rest) => Probed(q, s) && ProbedItems(q, rest)
    case Decl(_, init, rest) => NeverCalls(q, init) && ProbedItems(q, rest)
  }

  predicate ProbedMacro(q: Name, m: Macro<Items>)
    decreases m
  {
    && (m.DebugString? || NeverCalls(q, if Marked(q, m) then m.operand.e else m.operand))
    && NeverCalls(q, MessageArg(m))
    && (ActionOf(m).Some? ==> ProbedItems(q, ActionOf(m).value))
  }

  predicate BodyProbed(q: Name, f: Body) {
    forall i | 0 <= i < |f| :: Probed(q, f[i].s)
  }

  // ----- Probe calls and visits -----

  /** The values that the probe returned. */
  function ProbesOf(q: Name, t: Trace): seq<int> {
    match t
    case Empty => []
    case Then(past, e) => ProbesOf(q, past) + if e.Called? && e.f == q then [e.ret] else []
  }

  /** The operand values of the marked macros reached. */
  function VisitsOf(q: Name, t: Trace): seq<int> {
    match t
    case Empty => []
    case Then(past, e) => VisitsOf(q, past) + if e.Reached? && Marked(q, e.m) then [e.v] else []
  }

  /** Each visit to a marked macro made one probe call, which returned the value of the operand. */
  predicate Counted(q: Name, st: State) { ProbesOf(q, st.trace) == VisitsOf(q, st.trace) }

  lemma {:induction false} EvalCounts(env: Env, q: Name, e: Expr, st: State)
    requires NeverCalls(q, e)
    ensures
      var t := Eval(env, e, st).1.trace;
      ProbesOf(q, t) == ProbesOf(q, st.trace) && VisitsOf(q, t) == VisitsOf(q, st.trace)
    decreases e
  {
    match e
    case Assign(_, e1) => EvalCounts(env, q, e1, st);
    case Call(_, e1) => EvalCounts(env, q, e1, st);
    case Cast(_, e1) => EvalCounts(env, q, e1, st);
    case Not(e1) => EvalCounts(env, q, e1, st);
    case And(l, r) => EvalCounts(env, q, l, st); EvalCounts(env, q, r, Eval(env, l, st).1);
    case Bin(_, l, r) => EvalCounts(env, q, l, st); EvalCounts(env, q, r, Eval(env, l, st).1);
    case _ =>
  }

  lemma ShowCounts(env: Env, q: Name, e: Expr, st: State)
    requires NeverCalls(q, e)
    ensures
      var t := Show(env, e, st).1.trace;
      ProbesOf(q, t) == ProbesOf(q, st.trace) && VisitsOf(q, t) == VisitsOf(q, st.trace)
  {
    EvalCounts(env, q, e, st);
    EvalCounts(env, q, e, Eval(env, e, st).1);
  }

  lemma OperandCounts(env: Env, q: Name, m: Macro<Items>, st: State)
    requires ProbedMacro(q, m)
    ensures
      var (v, st1) := EvalOperand(env, m, st);
      && ProbesOf(q, st1.trace) == ProbesOf(q, st.trace) + (if Marked(q, m) then [v] else [])
      && VisitsOf(q, st1.trace) == VisitsOf(q, st.trace)
  {
    if !m.DebugString? {
      EvalCounts(env, q, if Marked(q, m) then m.operand.e else m.operand, st);
    }
  }

  lemma VisitCounts(env: Env, b: Build, q: Name, m: Macro<Items>, st: State)
    requires ProbedMacro(q, m) && Counted(q, st)
    ensures
      var (v, st1) := EvalOperand(env, m, st);
      Counted(q, Visit(env, b, m, v, st1))
  {
    OperandCounts(env, q, m, st);
    ShowCounts(env, q, MessageArg(m), EvalOperand(env, m, st).1);
  }

  predicate CountedResult(q: Name, r: Result) { r.Done? ==> Counted(q, r.st) }

  lemma {:induction false} ExecCounts(env: Env, b: Build, fuel: nat, q: Name, s: Stmt, st: State)
    requires Probed(q, s) && Counted(q, st)
    ensures CountedResult(q, Exec(env, b, fuel, s, st))
    decreases fuel, s
  {
    match s
    case Do(e) => EvalCounts(env, q, e, st);
    case Block(items) => ExecItemsCounts(env, b, fuel, q, items, st);
    case IfThen(c, thn) =>
      EvalCounts(env, q, c, st);
      ExecCounts(env, b, fuel, q, thn, Eval(env, c, st).1);
    case IfElse(c, thn, els) =>
      EvalCounts(env, q, c, st);
      ExecCounts(env, b, fuel, q, thn, Eval(env, c, st).1);
      ExecCounts(env, b, fuel, q, els, Eval(env, c, st).1);
    case While(c, body) =>
      EvalCounts(env, q, c, st);
      var st1 := Eval(env, c, st).1;
      ExecCounts(env, b, fuel, q, body, st1);
      var r := Exec(env, b, fuel, body, st1);
      if r.Done? && fuel > 0 {
        ExecCounts(env, b, fuel - 1, q, s, r.st);
      }
    case DoWhile(body, c) =>
      ExecCounts(env, b, fuel, q, body, st);
      var r := Exec(env, b, fuel, body, st);
      if r.Done? {
        EvalCounts(env, q, c, r.st);
        if fuel > 0 {
          ExecCounts(env, b, fuel - 1, q, s, Eval(env, c, r.st).1);
        }
      }
    case Return(e) => EvalCounts(env, q, e, st);
    case Emit(r) =>
      ShowCounts(env, q, r.message, st);
      EvalCounts(env, q, r.value, Show(env, r.message, st).1);
    case Invoke(m) =>
      VisitCounts(env, b, q, m, st);
      if ActionOf(m).Some? {
        var (v, st1) := EvalOperand(env, m, st);
        ExecItemsCounts(env, b, fuel, q, ActionOf(m).value, Visit(env, b, m, v, st1));
      }
    case _ =>
  }

  lemma {:induction false} ExecItemsCounts(env: Env, b: Build, fuel: nat, q: Name, ss: Items, st: State)
    requires ProbedItems(q, ss) && Counted(q, st)
    ensures CountedResult(q, ExecItems(env, b, fuel, ss, st))
    decreases fuel, ss
  {
    match ss
    case Nil =>
    case Cons(s, rest) =>
      ExecCounts(env, b, fuel, q, s, st);
      var r := Exec(env, b, fuel, s, st);
      if r.Done? {
        ExecItemsCounts(env, b, fuel, q, rest, r.st);
      }
    case Decl(x, init, rest) =>
      EvalCounts(env, q, init, Set(st, x, env.junk));
      var (v, st1) := Eval(env, init, Set(st, x, env.junk));
      ExecItemsCounts(env, b, fuel, q, rest, Set(st1, x, ToLong(env, v)));
  }

  lemma {:induction false} RunFromCounts(env: Env, b: Build, fuel: nat, q: Name, f: Body, i: nat, st: State)
    requires i <= |f| && BodyProbed(q, f) && Counted(q, st)
    ensures CountedResult(q, RunFrom(env, b, fuel, f, i, st))
    decreases fuel, |f| - i
  {
    if i < |f| {
      ExecCounts(env, b, fuel, q, f[i].s, st);
      var r := Exec(env, b, fuel, f[i].s, st);
      if r.Done? {
        var next := Next(f, i, r.out);
        if next.Some? && (next.value > i || fuel > 0) {
          RunFromCounts(env, b, if next.value > i then fuel else fuel - 1, q, f, next.value, r.st);
        }
      }
    }
  }

  lemma {:induction false} RenderKeepsProbes(env: Env, b: Build, q: Name, t: Trace)
    ensures ProbesOf(q, Render(env, b, t)) == ProbesOf(q, t)
  {
    if t.Then? {
      RenderKeepsProbes(env, b, q, t.past);
    }
  }

  /** Each build of a function evaluates the operand of a marked macro exactly once a visit: the probe
      calls of the expanded function return, in order, the operand values of the visits of its
      reference run. */
  lemma ProbesCountVisits(env: Env, b: Build, fuel: nat, q: Name, f: Body, store: Store)
    requires BodyAvoids(Hidden(b), f) && BodyProbed(q, f)
    ensures
      var x, r := Compiled(env, b, fuel, f, store), Reference(env, b, fuel, f, store);
      x.Done? == r.Done? && (x.Done? ==> ProbesOf(q, x.st.trace) == VisitsOf(q, r.st.trace))
  {
    FunctionRefines(env, b, fuel, f, store);
    RunFromCounts(env, b, fuel, q, f, 0, State(store, Empty));
    var r := Reference(env, b, fuel, f, store);
    if r.Done? {
      RenderKeepsProbes(env, b, q, r.st.trace);
    }
  }
}
