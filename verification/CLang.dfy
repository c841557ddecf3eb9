/** The C fragment into which the assertion macros expand, the macros themselves, and a
    definitional interpreter for both.

    A statement may contain macro invocations.  The interpreter gives every invocation one
    parametric reference rule (`RunMacro`); the text of the header is transcribed separately,
    in module Expansion, and proved to refine that rule. */
module CLang {
  import opened Options
  import opened Integers

  type Name = string

  /** The local variable that the debug expansions of the noErr macros declare. */
  const EVAL_ONCE: Name := "evalOnceErrorCode"

  /** DEBUG_ASSERT_PRODUCTION_CODE is nonzero (Production) or zero (Debug). */
  datatype Build = Production | Debug

  // ----- Syntax -----

  datatype BinOp = Add | Sub | Eq | Ne | Lt

  datatype Expr =
    | Lit(n: int)
    | Var(x: Name)
    | Assign(x: Name, e: Expr)
    | Call(f: Name, e: Expr)              // an external function with observable effects
    | Cast(ty: CType, e: Expr)
    | Not(e: Expr)
    | And(l: Expr, r: Expr)               // short-circuit
    | Bin(op: BinOp, l: Expr, r: Expr)

  /** The strings that the preprocessor builds from a macro operand. */
  datatype Text =
    | NoText                              // ""
    | Stringized(e: Expr)                 // #assertion
    | StringizedNoErr(e: Expr)            // #errorCode " == 0 "

  /** The arguments of DEBUG_ASSERT_MESSAGE, without component name, file and line.  A message is an
      expression for a pointer, which is 0 where a macro has no message. */
  datatype Report = Report(text: Text, dest: Option<Name>, message: Expr, value: Expr)

  /** How a Require macro reports: its plain, _Quiet or _String form. */
  datatype Diagnostic = Plain | Quiet | WithString(message: Expr)

  /** The macros of AssertMacros.h.  `neg` marks the __n* form; `A` is the type of an action. */
  datatype Macro<A> =
    | DebugString(note: Expr)
    | Check(neg: bool, operand: Expr, message: Option<Expr>)
    | CheckNoErr(operand: Expr, message: Option<Expr>)
    | Verify(neg: bool, operand: Expr, message: Option<Expr>)
    | VerifyNoErr(operand: Expr, message: Option<Expr>)
    | VerifyAction(operand: Expr, action: A)
    | VerifyNoErrAction(operand: Expr, action: A)
    | Require(neg: bool, operand: Expr, dest: Name, diag: Diagnostic)
    | RequireAction(neg: bool, operand: Expr, dest: Name, action: A, diag: Diagnostic)
    | RequireNoErr(operand: Expr, dest: Name, diag: Diagnostic)
    | RequireNoErrAction(operand: Expr, dest: Name, action: A, diag: Diagnostic)

  datatype Stmt =
    | Null
    | Do(e: Expr)
    | Block(items: Items)
    | IfThen(c: Expr, thn: Stmt)
    | IfElse(c: Expr, thn: Stmt, els: Stmt)
    | While(c: Expr, body: Stmt)
    | DoWhile(body: Stmt, c: Expr)
    | Break
    | Continue
    | Goto(dest: Name)
    | Return(e: Expr)
    | Emit(report: Report)
    | Invoke(m: Macro<Items>)

  /** The items of a block.  `Decl` is `long x = init;`, whose scope is `rest` (and `init`). */
  datatype Items = Nil | Cons(head: Stmt, tail: Items) | Decl(x: Name, init: Expr, rest: Items)

  // ----- States -----

  type Store = map<Name, int>

  /** A printed message; `shown` is the message pointer, if it is not null. */
  datatype Message = Message(text: Text, dest: Option<Name>, shown: Option<int>, value: int)

  /** What a run leaves behind, in order: external calls, printed messages and, for the reference
      rule, each macro reached together with the value of its operand and the message shown. */
  datatype Event =
    | Called(f: Name, arg: int, ret: int)
    | Printed(msg: Message)
    | Reached(m: Macro<Items>, v: int, shown: Option<int>)

  datatype Trace = Empty | Then(past: Trace, last: Event)

  datatype State = State(store: Store, trace: Trace)

  /** The surroundings of a run: the width of `long`, the value an external call returns after a
      given history of calls, and the indeterminate value of an uninitialised local. */
  datatype Env = Env(longWidth: nat, world: (Trace, Name, int) -> int, junk: int)

  function Log(st: State, e: Event): State { st.(trace := Then(st.trace, e)) }

  function Get(s: Store, x: Name): int { if x in s then s[x] else 0 }

  function Set(st: State, x: Name, v: int): State { st.(store := st.store[x := v]) }

  /** `st` with the binding that `x` has in `outer`, or without one if it has none there. */
  function Restore(outer: Store, x: Name, st: State): State {
    st.(store := if x in outer then st.store[x := outer[x]] else st.store - {x})
  }

  /** The external calls of a trace. */
  function CallsOf(t: Trace): Trace {
    match t
    case Empty => Empty
    case Then(past, e) => if e.Called? then Then(CallsOf(past), e) else CallsOf(past)
  }

  // ----- Expressions -----

  function Apply(op: BinOp, l: int, r: int): int {
    match op
    case Add => l + r
    case Sub => l - r
    case Eq => if l == r then 1 else 0
    case Ne => if l != r then 1 else 0
    case Lt => if l < r then 1 else 0
  }

  /** The operators agree with each other. */
  lemma OperatorLaws(l: int, r: int)
    ensures Apply(Add, Apply(Sub, l, r), r) == l
    ensures Apply(Eq, l, r) == 1 <==> Apply(Sub, l, r) == 0
    ensures Apply(Lt, l, r) == 1 <==> Apply(Sub, l, r) < 0
    ensures Apply(Ne, l, r) == 1 - Apply(Eq, l, r)
  {
  }

  function Eval(env: Env, e: Expr, st: State): (int, State)
    decreases e
  {
    match e
    case Lit(n) => (n, st)
    case Var(x) => (Get(st.store, x), st)
    case Assign(x, e1) =>
      var (v, st1) := Eval(env, e1, st);
      (v, Set(st1, x, v))
    case Call(f, e1) =>
      var (v, st1) := Eval(env, e1, st);
      var ret := env.world(CallsOf(st1.trace), f, v);
      (ret, Log(st1, Called(f, v, ret)))
    case Cast(ty, e1) =>
      var (v, st1) := Eval(env, e1, st);
      (Convert(ty, v), st1)
    case Not(e1) =>
      var (v, st1) := Eval(env, e1, st);
      (if v == 0 then 1 else 0, st1)
    case And(l, r) =>
      var (v, st1) := Eval(env, l, st);
      if v == 0 then (0, st1) else
      var (w, st2) := Eval(env, r, st1);
      (if w == 0 then 0 else 1, st2)
    case Bin(op, l, r) =>
      var (v, st1) := Eval(env, l, st);
      var (w, st2) := Eval(env, r, st1);
      (Apply(op, v, w), st2)
  }

  /** A variable that has no value yet reads as zero, like a C object with static storage. */
  lemma AbsentReadsZero(env: Env, x: Name, st: State)
    requires x !in st.store
    ensures Eval(env, Var(x), st).0 == Eval(env, Var(x), Set(st, x, 0)).0
  {
  }

  function ToLong(env: Env, v: int): int { Convert(Long(env.longWidth), v) }

  /** `(e != 0) ? e : ""`, as DEBUG_ASSERT_MESSAGE does with its message. */
  function Show(env: Env, e: Expr, st: State): (Option<int>, State) {
    var (v, st1) := Eval(env, e, st);
    if v == 0 then (None, st1) else
    var (w, st2) := Eval(env, e, st1);
    (Some(w), st2)
  }

  /** The call of DEBUG_ASSERT_MESSAGE. */
  function Tell(env: Env, r: Report, st: State): State {
    var (shown, st1) := Show(env, r.message, st);
    var (v, st2) := Eval(env, r.value, st1);
    Log(st2, Printed(Message(r.text, r.dest, shown, ToLong(env, v))))
  }

  // ----- The reference rule for macros -----

  /** The action a macro carries, if any. */
  function ActionOf(m: Macro<Items>): (a: Option<Items>)
    ensures a.Some? ==> (m decreases to a.value)
  {
    match m
    case VerifyAction(_, a) => Some(a)
    case VerifyNoErrAction(_, a) => Some(a)
    case RequireAction(_, _, _, a, _) => Some(a)
    case RequireNoErrAction(_, _, a, _) => Some(a)
    case _ => None
  }

  /** `m` with `a` in place of its action, if it has one. */
  function WithAction<A, B>(m: Macro<A>, a: B): Macro<B> {
    match m
    case DebugString(note) => DebugString(note)
    case Check(neg, e, msg) => Check(neg, e, msg)
    case CheckNoErr(e, msg) => CheckNoErr(e, msg)
    case Verify(neg, e, msg) => Verify(neg, e, msg)
    case VerifyNoErr(e, msg) => VerifyNoErr(e, msg)
    case VerifyAction(e, _) => VerifyAction(e, a)
    case VerifyNoErrAction(e, _) => VerifyNoErrAction(e, a)
    case Require(neg, e, l, d) => Require(neg, e, l, d)
    case RequireAction(neg, e, l, _, d) => RequireAction(neg, e, l, a, d)
    case RequireNoErr(e, l, d) => RequireNoErr(e, l, d)
    case RequireNoErrAction(e, l, _, d) => RequireNoErrAction(e, l, a, d)
  }

  predicate IsCheck<A>(m: Macro<A>) { m.DebugString? || m.Check? || m.CheckNoErr? }

  predicate IsNoErr<A>(m: Macro<A>) {
    m.CheckNoErr? || m.VerifyNoErr? || m.VerifyNoErrAction? || m.RequireNoErr? || m.RequireNoErrAction?
  }

  predicate IsRequire<A>(m: Macro<A>) {
    m.Require? || m.RequireAction? || m.RequireNoErr? || m.RequireNoErrAction?
  }

  /** Quiet forms have one definition for both builds and never report. */
  predicate IsQuiet<A>(m: Macro<A>) { IsRequire(m) && m.diag.Quiet? }

  predicate IsNegated<A>(m: Macro<A>) {
    (m.Check? || m.Verify? || m.Require? || m.RequireAction?) && m.neg
  }

  /** The message argument of `m`. */
  function MessageArg<A>(m: Macro<A>): Expr {
    if m.DebugString? then m.note
    else if IsRequire(m) then (if m.diag.WithString? then m.diag.message else Lit(0))
    else if m.VerifyAction? || m.VerifyNoErrAction? || m.message.None? then Lit(0)
    else m.message.value
  }

  /** Whether an operand value `v` makes the assertion of `m` fail. */
  predicate Fails<A>(env: Env, b: Build, m: Macro<A>, v: int) {
    if m.DebugString? then true
    else if IsNoErr(m) then (if b.Debug? && !IsQuiet(m) then ToLong(env, v) else v) != 0
    else if IsNegated(m) then v != 0
    else v == 0
  }

  /** `m` prints a message when it is reached with operand value `v`. */
  predicate Reports<A>(env: Env, b: Build, m: Macro<A>, v: int) {
    b.Debug? && !IsQuiet(m) && Fails(env, b, m, v)
  }

  /** The operand of `m`; a debug string has none. */
  function EvalOperand<A>(env: Env, m: Macro<A>, st: State): (int, State) {
    if m.DebugString? then (0, st) else Eval(env, m.operand, st)
  }

  /** Records that `m` was reached with operand value `v`, after evaluating the message it prints. */
  function Visit(env: Env, b: Build, m: Macro<Items>, v: int, st: State): State {
    if Reports(env, b, m, v) then
      var (shown, st1) := Show(env, MessageArg(m), st);
      Log(st1, Reached(m, v, shown))
    else Log(st, Reached(m, v, None))
  }

  datatype Outcome = Normal | Broke | Continued | Jumped(dest: Name) | Returned(v: int)

  /** What a loop makes of the outcome of its last iteration. */
  function Absorb(out: Outcome): Outcome {
    if out.Broke? || out.Continued? then Normal else out
  }

  /** How a failed assertion leaves `m`, given the outcome of its action. */
  function After<A>(b: Build, m: Macro<A>, out: Outcome): Outcome {
    if IsRequire(m) then (if out.Normal? then Jumped(m.dest) else Absorb(out))
    else if m.VerifyNoErrAction? && b.Debug? then Absorb(out)
    else out
  }

  // ----- Statements -----

  datatype Result = Done(st: State, out: Outcome) | OutOfFuel

  /** Runs `s`.  Fuel is spent only when a loop starts another iteration. */
  function Exec(env: Env, b: Build, fuel: nat, s: Stmt, st: State): Result
    decreases fuel, s
  {
    match s
    case Null => Done(st, Normal)
    case Do(e) => Done(Eval(env, e, st).1, Normal)
    case Block(items) => ExecItems(env, b, fuel, items, st)
    case IfThen(c, thn) =>
      var (v, st1) := Eval(env, c, st);
      if v != 0 then Exec(env, b, fuel, thn, st1) else Done(st1, Normal)
    case IfElse(c, thn, els) =>
      var (v, st1) := Eval(env, c, st);
      if v != 0 then Exec(env, b, fuel, thn, st1) else Exec(env, b, fuel, els, st1)
    case While(c, body) =>
      var (v, st1) := Eval(env, c, st);
      if v == 0 then Done(st1, Normal) else
      (match Exec(env, b, fuel, body, st1)
       case OutOfFuel => OutOfFuel
       case Done(st2, out) =>
         if !out.Normal? && !out.Continued? then Done(st2, Absorb(out))
         else if fuel == 0 then OutOfFuel
         else Exec(env, b, fuel - 1, s, st2))
    case DoWhile(body, c) =>
      (match Exec(env, b, fuel, body, st)
       case OutOfFuel => OutOfFuel
       case Done(st1, out) =>
         if !out.Normal? && !out.Continued? then Done(st1, Absorb(out)) else
         var (v, st2) := Eval(env, c, st1);
         if v == 0 then Done(st2, Normal)
         else if fuel == 0 then OutOfFuel
         else Exec(env, b, fuel - 1, s, st2))
    case Break => Done(st, Broke)
    case Continue => Done(st, Continued)
    case Goto(l) => Done(st, Jumped(l))
    case Return(e) =>
      var (v, st1) := Eval(env, e, st);
      Done(st1, Returned(v))
    case Emit(r) => Done(Tell(env, r, st), Normal)
    case Invoke(m) => RunMacro(env, b, fuel, m, st)
  }

  function ExecItems(env: Env, b: Build, fuel: nat, ss: Items, st: State): Result
    decreases fuel, ss
  {
    match ss
    case Nil => Done(st, Normal)
    case Cons(s, rest) =>
      (match Exec(env, b, fuel, s, st)
       case OutOfFuel => OutOfFuel
       case Done(st1, out) =>
         if out.Normal? then ExecItems(env, b, fuel, rest, st1) else Done(st1, out))
    case Decl(x, init, rest) =>
      var (v, st1) := Eval(env, init, Set(st, x, env.junk));
      (match ExecItems(env, b, fuel, rest, Set(st1, x, ToLong(env, v)))
       case OutOfFuel => OutOfFuel
       case Done(st2, out) => Done(Restore(st.store, x, st2), out))
  }

  /** The operand is evaluated once and, if the assertion fails, the message is printed in debug and
      the action runs once. */
  function RunMacro(env: Env, b: Build, fuel: nat, m: Macro<Items>, st: State): Result
    decreases fuel, m
  {
    if b.Production? && IsCheck(m) then Done(st, Normal) else
    var (v, st1) := EvalOperand(env, m, st);
    var st2 := Visit(env, b, m, v, st1);
    if !Fails(env, b, m, v) then Done(st2, Normal) else
    match ActionOf(m)
    case None => Done(st2, After(b, m, Normal))
    case Some(a) =>
      match ExecItems(env, b, fuel, a, st2)
      case OutOfFuel => OutOfFuel
      case Done(st3, out) => Done(st3, After(b, m, out))
  }
}
