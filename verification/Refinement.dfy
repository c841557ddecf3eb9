/** Each macro expansion refines the reference rule, in any surrounding program: the expanded
    program computes the same store and control outcome, and its trace is the reference trace
    with every macro reached replaced by the message that the build prints for it. */
module Refinement {
  import opened Options
  import opened Integers
  import opened CLang
  import opened Expansion

  // ----- Messages owed for the macros reached -----

  function MessageOf(env: Env, m: Macro<Items>, v: int, shown: Option<int>): Message {
    var r := ReportOf(m);
    Message(r.text, r.dest, shown, if IsNoErr(m) then ToLong(env, v) else 0)
  }

  /** The trace that the expanded program owes for a reference trace. */
  function Render(env: Env, b: Build, t: Trace): Trace {
    match t
    case Empty => Empty
    case Then(past, Reached(m, v, shown)) =>
      if Reports(env, b, m, v) then Then(Render(env, b, past), Printed(MessageOf(env, m, v, shown)))
      else Render(env, b, past)
    case Then(past, e) => Then(Render(env, b, past), e)
  }

  lemma {:induction false} RenderKeepsCalls(env: Env, b: Build, t: Trace)
    ensures CallsOf(Render(env, b, t)) == CallsOf(t)
  {
    if t.Then? {
      RenderKeepsCalls(env, b, t.past);
    }
  }

  // ----- Programs that do not name the hidden variables -----

  predicate AvoidsExpr(h: set<Name>, e: Expr) {
    match e
    case Lit(_) => true
    case Var(x) => x !in h
    case Assign(x, e1) => x !in h && AvoidsExpr(h, e1)
    case Call(_, e1) => AvoidsExpr(h, e1)
    case Cast(_, e1) => AvoidsExpr(h, e1)
    case Not(e1) => AvoidsExpr(h, e1)
    case And(l, r) => AvoidsExpr(h, l) && AvoidsExpr(h, r)
    case Bin(_, l, r) => AvoidsExpr(h, l) && AvoidsExpr(h, r)
  }

  predicate Avoids(h: set<Name>, s: Stmt)
    decreases s
  {
    match s
    case Do(e) => AvoidsExpr(h, e)
    case Block(items) => AvoidsItems(h, items)
    case IfThen(c, thn) => AvoidsExpr(h, c) && Avoids(h, thn)
    case IfElse(c, thn, els) => AvoidsExpr(h, c) && Avoids(h, thn) && Avoids(h, els)
    case While(c, body) => AvoidsExpr(h, c) && Avoids(h, body)
    case DoWhile(body, c) => AvoidsExpr(h, c) && Avoids(h, body)
    case Return(e) => AvoidsExpr(h, e)
    case Emit(r) => AvoidsExpr(h, r.message) && AvoidsExpr(h, r.value)
    case Invoke(m) => AvoidsMacro(h, m)
    case _ => true
  }

  predicate AvoidsItems(h: set<Name>, ss: Items)
    decreases ss
  {
    match ss
    case Nil => true
    case Cons(s, rest) => Avoids(h, s) && AvoidsItems(h, rest)
    case Decl(x, init, rest) => x !in h && AvoidsExpr(h, init) && AvoidsItems(h, rest)
  }

  predicate AvoidsMacro(h: set<Name>, m: Macro<Items>)
    decreases m
  {
    && (m.DebugString? || AvoidsExpr(h, m.operand)) && AvoidsExpr(h, MessageArg(m))
    && (ActionOf(m).None? || AvoidsItems(h, ActionOf(m).value))
  }

  // ----- The simulation relation -----

  predicate SameAt(s1: Store, s2: Store, x: Name) {
    && (x in s1 <==> x in s2)
    && (x in s1 ==> s1[x] == s2[x])
  }

  /** The two stores agree on every name outside `h`. */
  ghost predicate AgreeOff(h: set<Name>, s1: Store, s2: Store) {
    forall x: Name :: x !in h ==> SameAt(s1, s2, x)
  }

  /** The two stores agree on every name in `h`. */
  ghost predicate AgreeOn(h: set<Name>, s1: Store, s2: Store) {
    forall x: Name :: x in h ==> SameAt(s1, s2, x)
  }

  /** State `x` of the expanded program simulates state `r` of the reference run. */
  ghost predicate Simulates(env: Env, b: Build, h: set<Name>, x: State, r: State) {
    && AgreeOff(h, x.store, r.store)
    && x.trace == Render(env, b, r.trace)
  }

  /** Results related by simulation, neither of which changed a hidden variable. */
  ghost predicate Matches(env: Env, b: Build, h: set<Name>, x0: State, r0: State, x: Result, r: Result) {
    if r.OutOfFuel? then x.OutOfFuel? else
    && x.Done?
    && x.out == r.out
    && Simulates(env, b, h, x.st, r.st)
    && AgreeOn(h, x0.store, x.st.store)
    && AgreeOn(h, r0.store, r.st.store)
  }

  lemma {:induction false} EvalSimulates(env: Env, b: Build, h: set<Name>, e: Expr, x: State, r: State)
    requires AvoidsExpr(h, e) && Simulates(env, b, h, x, r)
    ensures
      var (v, x1) := Eval(env, e, x);
      var (w, r1) := Eval(env, e, r);
      && v == w && Simulates(env, b, h, x1, r1)
      && AgreeOn(h, x.store, x1.store) && AgreeOn(h, r.store, r1.store)
    decreases e
  {
    match e
    case Lit(_) =>
    case Var(y) => assert SameAt(x.store, r.store, y);
    case Assign(y, e1) =>
      EvalSimulates(env, b, h, e1, x, r);
    case Call(_, e1) =>
      EvalSimulates(env, b, h, e1, x, r);
      RenderKeepsCalls(env, b, Eval(env, e1, r).1.trace);
    case Cast(_, e1) => EvalSimulates(env, b, h, e1, x, r);
    case Not(e1) => EvalSimulates(env, b, h, e1, x, r);
    case And(e1, e2) =>
      EvalSimulates(env, b, h, e1, x, r);
      EvalSimulates(env, b, h, e2, Eval(env, e1, x).1, Eval(env, e1, r).1);
    case Bin(_, e1, e2) =>
      EvalSimulates(env, b, h, e1, x, r);
      EvalSimulates(env, b, h, e2, Eval(env, e1, x).1, Eval(env, e1, r).1);
  }

  lemma ShowSimulates(env: Env, b: Build, h: set<Name>, e: Expr, x: State, r: State)
    requires AvoidsExpr(h, e) && Simulates(env, b, h, x, r)
    ensures
      var (v, x1) := Show(env, e, x);
      var (w, r1) := Show(env, e, r);
      && v == w && Simulates(env, b, h, x1, r1)
      && AgreeOn(h, x.store, x1.store) && AgreeOn(h, r.store, r1.store)
  {
    EvalSimulates(env, b, h, e, x, r);
    EvalSimulates(env, b, h, e, Eval(env, e, x).1, Eval(env, e, r).1);
  }

  /** The names a build hides from the program: the debug expansions use one local variable. */
  function Hidden(b: Build): set<Name> {
    if b.Debug? then {EVAL_ONCE} else {}
  }

  // ----- How the expanded shapes run -----

  function AbsorbResult(r: Result): Result {
    if r.Done? then Done(r.st, Absorb(r.out)) else r
  }

  lemma OnceRuns(env: Env, b: Build, fuel: nat, body: Items, x: State)
    ensures Exec(env, b, fuel, Once(body), x) == AbsorbResult(ExecItems(env, b, fuel, body, x))
  {
    assert Exec(env, b, fuel, Block(body), x) == ExecItems(env, b, fuel, body, x);
  }

  lemma OneRuns(env: Env, b: Build, fuel: nat, s: Stmt, x: State)
    ensures ExecItems(env, b, fuel, One(s), x) == Exec(env, b, fuel, s, x)
  {
  }

  /** `if ( c ) { body }` */
  function IfRuns(env: Env, b: Build, fuel: nat, c: Expr, body: Items, x: State): Result {
    var (v, x1) := Eval(env, c, x);
    if v != 0 then ExecItems(env, b, fuel, body, x1) else Done(x1, Normal)
  }

  lemma OnceIfRuns(env: Env, b: Build, fuel: nat, c: Expr, body: Items, x: State)
    ensures Exec(env, b, fuel, Once(One(IfThen(c, Block(body)))), x) == AbsorbResult(IfRuns(env, b, fuel, c, body, x))
  {
    var s := IfThen(c, Block(body));
    OnceRuns(env, b, fuel, One(s), x);
    OneRuns(env, b, fuel, s, x);
    assert Exec(env, b, fuel, Block(body), Eval(env, c, x).1) == ExecItems(env, b, fuel, body, Eval(env, c, x).1);
  }

  lemma IfElseRuns(env: Env, b: Build, fuel: nat, c: Expr, body: Items, x: State)
    ensures Exec(env, b, fuel, IfElse(c, Block(body), Once(Nil)), x) == IfRuns(env, b, fuel, c, body, x)
  {
    var x1 := Eval(env, c, x).1;
    OnceRuns(env, b, fuel, Nil, x1);
    assert Exec(env, b, fuel, Block(body), x1) == ExecItems(env, b, fuel, body, x1);
  }

  /** The state in which the debug expansion of a noErr macro runs its body. */
  function BindCode(env: Env, e: Expr, x: State): (int, State) {
    var (v, x1) := Eval(env, e, Set(x, EVAL_ONCE, env.junk));
    (v, Set(x1, EVAL_ONCE, ToLong(env, v)))
  }

  lemma OnceCodeRuns(env: Env, b: Build, fuel: nat, e: Expr, body: Items, x: State)
    ensures
      var (v, x2) := BindCode(env, e, x);
      Exec(env, b, fuel, OnceCode(e, body), x) ==
      match (if ToLong(env, v) != 0 then ExecItems(env, b, fuel, body, x2) else Done(x2, Normal))
      case OutOfFuel => OutOfFuel
      case Done(x3, out) => Done(Restore(x.store, EVAL_ONCE, x3), Absorb(out))
  {
    var (v, x2) := BindCode(env, e, x);
    var s := IfThen(NonZero(Var(EVAL_ONCE)), Block(body));
    OnceRuns(env, b, fuel, Decl(EVAL_ONCE, e, One(s)), x);
    OneRuns(env, b, fuel, s, x2);
    assert Get(x2.store, EVAL_ONCE) == ToLong(env, v);
    assert Eval(env, NonZero(Var(EVAL_ONCE)), x2).1 == x2;
    assert Exec(env, b, fuel, Block(body), x2) == ExecItems(env, b, fuel, body, x2);
  }

  lemma SayRuns(env: Env, b: Build, fuel: nat, r: Report, rest: Items, x: State)
    ensures ExecItems(env, b, fuel, Say(r, rest), x) == ExecItems(env, b, fuel, rest, Tell(env, r, x))
  {
    var x1 := Tell(env, r, x);
    assert ExecItems(env, b, fuel, Cons(Null, rest), x1) == ExecItems(env, b, fuel, rest, x1);
  }

  // ----- How the definition of a macro runs -----

  function RunAction(env: Env, b: Build, fuel: nat, m: Macro<Items>, x: State): Result {
    match ActionOf(m)
    case None => Done(x, Normal)
    case Some(a) => ExecItems(env, b, fuel, a, x)
  }

  /** The reference rule, once the operand and the message have been evaluated. */
  function Finish(env: Env, b: Build, fuel: nat, m: Macro<Items>, v: int, x: State): Result {
    if !Fails(env, b, m, v) then Done(x, Normal) else
    match RunAction(env, b, fuel, m, x)
    case OutOfFuel => OutOfFuel
    case Done(x1, out) => Done(x1, After(b, m, out))
  }

  lemma RunMacroFinishes(env: Env, b: Build, fuel: nat, m: Macro<Items>, r: State)
    requires !(b.Production? && IsCheck(m))
    ensures
      var (v, r1) := EvalOperand(env, m, r);
      RunMacro(env, b, fuel, m, r) == Finish(env, b, fuel, m, v, Visit(env, b, m, v, r1))
  {
  }

  /** Whether the expansion of `m` in build `b` is wrapped in `do { } while ( 0 )`. */
  predicate Wrapped(b: Build, m: Macro<Items>) {
    !m.VerifyAction? && !(m.VerifyNoErrAction? && b.Production?)
  }

  function Wrap(b: Build, m: Macro<Items>, r: Result): Result {
    if Wrapped(b, m) then AbsorbResult(r) else r
  }

  /** What stands in a definition behind the message finishes a failed assertion. */
  lemma TailFinishes(env: Env, b: Build, fuel: nat, m: Macro<Items>, v: int, x: State)
    requires Fails(env, b, m, v)
    ensures Wrap(b, m, ExecItems(env, b, fuel, Tail(m), x)) == Finish(env, b, fuel, m, v, x)
  {
    if IsRequire(m) {
      match ActionOf(m)
      case None => OneRuns(env, b, fuel, Goto(m.dest), x);
      case Some(a) =>
        var r := ExecItems(env, b, fuel, a, x);
        assert Exec(env, b, fuel, Block(a), x) == r;
        if r.Done? {
          OneRuns(env, b, fuel, Goto(m.dest), r.st);
        }
    }
  }

  lemma TestRuns(env: Env, m: Macro<Items>, x: State)
    requires !m.DebugString?
    ensures
      var (v, x1) := Eval(env, m.operand, x);
      && Eval(env, TestOf(m), x).1 == x1
      && (Eval(env, TestOf(m), x).0 != 0 <==> (if IsNoErr(m) || IsNegated(m) then v != 0 else v == 0))
  {
    if IsNegated(m) {
      assert Eval(env, Not(m.operand), x).1 == Eval(env, m.operand, x).1;
    }
  }

  /** The definitions without a message, run from `x`. */
  lemma ProductionRuns(env: Env, b: Build, fuel: nat, m: Macro<Items>, x: State)
    requires (b.Production? && !IsCheck(m)) || IsQuiet(m)
    ensures
      var (v, x1) := Eval(env, m.operand, x);
      Exec(env, b, fuel, ProductionBody(m), x) == Finish(env, b, fuel, m, v, x1)
  {
    var (v, x1) := Eval(env, m.operand, x);
    if m.VerifyAction? || m.VerifyNoErrAction? {
      IfElseRuns(env, b, fuel, TestOf(m), Tail(m), x);
    } else {
      OnceIfRuns(env, b, fuel, TestOf(m), Tail(m), x);
    }
    TestRuns(env, m, x);
    if Fails(env, b, m, v) {
      TailFinishes(env, b, fuel, m, v, x1);
    }
  }

  /** The definition of `m` in build `b` declares `evalOnceErrorCode`. */
  predicate Declares(b: Build, m: Macro<Items>) { b.Debug? && IsNoErr(m) && !IsQuiet(m) }

  /** The value of the operand, and the state in which a definition has evaluated it. */
  function Entered(env: Env, b: Build, m: Macro<Items>, x: State): (int, State) {
    if Declares(b, m) then BindCode(env, m.operand, x) else EvalOperand(env, m, x)
  }

  /** The state of a definition after its message, if it prints one. */
  function Informed(env: Env, b: Build, m: Macro<Items>, v: int, x: State): State {
    if Reports(env, b, m, v) then Tell(env, ReportOf(m), x) else x
  }

  /** A result within a definition entered from `x`, once the scope of its local is left. */
  function Unbind(b: Build, m: Macro<Items>, x: State, r: Result): Result {
    if Declares(b, m) && r.Done? then Done(Restore(x.store, EVAL_ONCE, r.st), r.out) else r
  }

  /** The debug definitions on an assertion, run from `x`. */
  lemma DebugRuns(env: Env, fuel: nat, m: Macro<Items>, x: State)
    requires !m.DebugString? && !IsNoErr(m) && !IsQuiet(m)
    ensures
      var (v, x1) := Eval(env, m.operand, x);
      Exec(env, Debug, fuel, DebugBody(m), x) == Finish(env, Debug, fuel, m, v, Informed(env, Debug, m, v, x1))
  {
    var (v, x1) := Eval(env, m.operand, x);
    var body := Say(ReportOf(m), Tail(m));
    if m.VerifyAction? {
      IfElseRuns(env, Debug, fuel, TestOf(m), body, x);
    } else {
      OnceIfRuns(env, Debug, fuel, TestOf(m), body, x);
    }
    TestRuns(env, m, x);
    SayRuns(env, Debug, fuel, ReportOf(m), Tail(m), x1);
    if Fails(env, Debug, m, v) {
      TailFinishes(env, Debug, fuel, m, v, Informed(env, Debug, m, v, x1));
    }
  }

  /** The debug definitions on an error code, run from `x`. */
  lemma DebugCodeRuns(env: Env, fuel: nat, m: Macro<Items>, x: State)
    requires IsNoErr(m) && !IsQuiet(m)
    ensures
      var (v, x1) := BindCode(env, m.operand, x);
      Exec(env, Debug, fuel, DebugBody(m), x) ==
      Unbind(Debug, m, x, Finish(env, Debug, fuel, m, v, Informed(env, Debug, m, v, x1)))
  {
    var (v, x1) := BindCode(env, m.operand, x);
    var body := Say(ReportOf(m), Tail(m));
    assert DebugBody(m) == OnceCode(m.operand, body);
    OnceCodeRuns(env, Debug, fuel, m.operand, body, x);
    SayRuns(env, Debug, fuel, ReportOf(m), Tail(m), x1);
    if Fails(env, Debug, m, v) {
      TailFinishes(env, Debug, fuel, m, v, Informed(env, Debug, m, v, x1));
    }
  }

  /** How the text of every definition runs: the operand is evaluated, in the scope of the local if
      there is one, then the message is printed if one is due, then the rule takes over. */
  lemma ReplaceRuns(env: Env, b: Build, fuel: nat, m: Macro<Items>, x: State)
    requires !(b.Production? && IsCheck(m))
    ensures
      var (v, x1) := Entered(env, b, m, x);
      Exec(env, b, fuel, Replace(b, m), x) == Unbind(b, m, x, Finish(env, b, fuel, m, v, Informed(env, b, m, v, x1)))
  {
    if b.Production? || IsQuiet(m) {
      ProductionRuns(env, b, fuel, m, x);
    } else if m.DebugString? {
      OnceRuns(env, b, fuel, Say(ReportOf(m), Nil), x);
      SayRuns(env, b, fuel, ReportOf(m), Nil, x);
    } else if IsNoErr(m) {
      DebugCodeRuns(env, fuel, m, x);
    } else {
      DebugRuns(env, fuel, m, x);
    }
  }

  // ----- Simulation of a single macro -----

  /** Running the (expanded) action of `m'` simulates running the action of `m`. */
  ghost predicate ActionSimulates(env: Env, b: Build, fuel: nat, m': Macro<Items>, m: Macro<Items>) {
    forall x: State, r: State {:trigger RunAction(env, b, fuel, m', x), RunAction(env, b, fuel, m, r)} ::
      Simulates(env, b, Hidden(b), x, r) ==>
      Matches(env, b, Hidden(b), x, r, RunAction(env, b, fuel, m', x), RunAction(env, b, fuel, m, r))
  }

  /** `m'` is `m` with another action. */
  predicate SameHead(m': Macro<Items>, m: Macro<Items>) { WithAction(m', Nil) == WithAction(m, Nil) }

  lemma ExpandActionKeepsHead(b: Build, m: Macro<Items>)
    ensures SameHead(ExpandAction(b, m), m)
  {
  }

  /** Up to its action, the definition of `m` depends on the head of `m` only. */
  lemma HeadDecides(env: Env, b: Build, m': Macro<Items>, m: Macro<Items>)
    requires SameHead(m', m)
    ensures IsCheck(m') == IsCheck(m) && IsQuiet(m') == IsQuiet(m) && Declares(b, m') == Declares(b, m)
    ensures ReportOf(m') == ReportOf(m)
    ensures forall x: State :: Entered(env, b, m', x) == Entered(env, b, m, x)
    ensures forall v: int :: Fails(env, b, m', v) == Fails(env, b, m, v)
    ensures forall out: Outcome :: After(b, m', out) == After(b, m, out)
  {
  }

  /** A match from an intermediate pair of states is a match from the initial pair, as long as no
      hidden variable changed on the way. */
  lemma MatchesFrom(env: Env, b: Build, x0: State, r0: State, x1: State, r1: State, x: Result, r: Result)
    requires Matches(env, b, Hidden(b), x1, r1, x, r)
    requires AgreeOn(Hidden(b), x0.store, x1.store) && AgreeOn(Hidden(b), r0.store, r1.store)
    ensures Matches(env, b, Hidden(b), x0, r0, x, r)
  {
  }

  lemma FinishMatches(env: Env, b: Build, fuel: nat, m': Macro<Items>, m: Macro<Items>, v: int, x: State, r: State)
    requires SameHead(m', m) && ActionSimulates(env, b, fuel, m', m)
    requires Simulates(env, b, Hidden(b), x, r)
    ensures Matches(env, b, Hidden(b), x, r, Finish(env, b, fuel, m', v, x), Finish(env, b, fuel, m, v, r))
  {
    HeadDecides(env, b, m', m);
    assert Matches(env, b, Hidden(b), x, r, RunAction(env, b, fuel, m', x), RunAction(env, b, fuel, m, r));
  }

  /** Capture freedom, operand: binding the local error code changes no evaluation of an operand
      that does not name it. */
  lemma BindCodeSimulates(env: Env, e: Expr, x: State, r: State)
    requires AvoidsExpr(Hidden(Debug), e) && Simulates(env, Debug, Hidden(Debug), x, r)
    ensures
      var (v, x1) := BindCode(env, e, x);
      var (w, r1) := Eval(env, e, r);
      && v == w && Simulates(env, Debug, Hidden(Debug), x1, r1)
      && AgreeOn(Hidden(Debug), r.store, r1.store)
      && Get(x1.store, EVAL_ONCE) == ToLong(env, v)
  {
    var x0 := Set(x, EVAL_ONCE, env.junk);
    assert Simulates(env, Debug, Hidden(Debug), x0, r);
    EvalSimulates(env, Debug, Hidden(Debug), e, x0, r);
  }

  lemma EnteredSimulates(env: Env, b: Build, m: Macro<Items>, x: State, r: State)
    requires AvoidsMacro(Hidden(b), m) && Simulates(env, b, Hidden(b), x, r)
    ensures
      var (v, x1) := Entered(env, b, m, x);
      var (w, r1) := EvalOperand(env, m, r);
      && v == w && Simulates(env, b, Hidden(b), x1, r1) && AgreeOn(Hidden(b), r.store, r1.store)
      && if Declares(b, m) then Get(x1.store, EVAL_ONCE) == ToLong(env, v) else AgreeOn(Hidden(b), x.store, x1.store)
  {
    if Declares(b, m) {
      BindCodeSimulates(env, m.operand, x, r);
    } else if !m.DebugString? {
      EvalSimulates(env, b, Hidden(b), m.operand, x, r);
    }
  }

  /** The message printed by the expansion is the one owed for reaching `m`, and its argument is
      evaluated as in the reference rule. */
  lemma TellSimulates(env: Env, m: Macro<Items>, v: int, x: State, r: State)
    requires Reports(env, Debug, m, v) && (IsNoErr(m) ==> Get(x.store, EVAL_ONCE) == ToLong(env, v))
    requires AvoidsExpr(Hidden(Debug), MessageArg(m)) && Simulates(env, Debug, Hidden(Debug), x, r)
    ensures
      var x1, r1 := Tell(env, ReportOf(m), x), Visit(env, Debug, m, v, r);
      && Simulates(env, Debug, Hidden(Debug), x1, r1)
      && AgreeOn(Hidden(Debug), x.store, x1.store) && AgreeOn(Hidden(Debug), r.store, r1.store)
  {
    ShowSimulates(env, Debug, Hidden(Debug), MessageArg(m), x, r);
    var x1 := Show(env, MessageArg(m), x).1;
    assert SameAt(x.store, x1.store, EVAL_ONCE);
    var w := Eval(env, ReportOf(m).value, x1).0;
    assert w == if IsNoErr(m) then ToLong(env, v) else 0;
    ConvertInRange(Long(env.longWidth), w);
  }

  lemma InformedSimulates(env: Env, b: Build, m: Macro<Items>, v: int, x: State, r: State)
    requires Declares(b, m) ==> Get(x.store, EVAL_ONCE) == ToLong(env, v)
    requires AvoidsMacro(Hidden(b), m) && Simulates(env, b, Hidden(b), x, r)
    ensures
      var x1, r1 := Informed(env, b, m, v, x), Visit(env, b, m, v, r);
      && Simulates(env, b, Hidden(b), x1, r1)
      && AgreeOn(Hidden(b), x.store, x1.store) && AgreeOn(Hidden(b), r.store, r1.store)
  {
    if Reports(env, b, m, v) {
      TellSimulates(env, m, v, x, r);
    }
  }

  /** Up to its action, the definition of `m` simulates the reference rule. */
  lemma HeadSimulates(env: Env, b: Build, m: Macro<Items>, x: State, r: State)
    requires AvoidsMacro(Hidden(b), m) && Simulates(env, b, Hidden(b), x, r)
    ensures
      var (v, x1) := Entered(env, b, m, x);
      var (w, r1) := EvalOperand(env, m, r);
      var x2, r2 := Informed(env, b, m, v, x1), Visit(env, b, m, v, r1);
      && v == w && Simulates(env, b, Hidden(b), x2, r2) && AgreeOn(Hidden(b), r.store, r2.store)
      && (Declares(b, m) || AgreeOn(Hidden(b), x.store, x2.store))
  {
    EnteredSimulates(env, b, m, x, r);
    var (v, x1) := Entered(env, b, m, x);
    InformedSimulates(env, b, m, v, x1, EvalOperand(env, m, r).1);
  }

  /** Capture freedom, scope: restoring the outer binding hides the local error code again. */
  lemma UnbindMatches(env: Env, b: Build, m: Macro<Items>, x0: State, r0: State, x1: State, r1: State, x: Result, r: Result)
    requires Matches(env, b, Hidden(b), x1, r1, x, r)
    requires Declares(b, m) || AgreeOn(Hidden(b), x0.store, x1.store)
    requires AgreeOn(Hidden(b), r0.store, r1.store)
    ensures Matches(env, b, Hidden(b), x0, r0, Unbind(b, m, x0, x), r)
  {
  }

  /** One parametric rule: the expansion of every macro, in either build, refines `RunMacro`. */
  lemma ReplaceSimulates(env: Env, b: Build, fuel: nat, m': Macro<Items>, m: Macro<Items>, x: State, r: State)
    requires SameHead(m', m) && ActionSimulates(env, b, fuel, m', m)
    requires AvoidsMacro(Hidden(b), m) && Simulates(env, b, Hidden(b), x, r)
    ensures Matches(env, b, Hidden(b), x, r, Exec(env, b, fuel, Replace(b, m'), x), RunMacro(env, b, fuel, m, r))
  {
    HeadDecides(env, b, m', m);
    if b.Production? && IsCheck(m) {
      assert Replace(b, m') == Null;
    } else {
      ReplaceRuns(env, b, fuel, m', x);
      RunMacroFinishes(env, b, fuel, m, r);
      HeadSimulates(env, b, m, x, r);
      var (v, x1) := Entered(env, b, m, x);
      var x2, r2 := Informed(env, b, m, v, x1), Visit(env, b, m, v, EvalOperand(env, m, r).1);
      FinishMatches(env, b, fuel, m', m, v, x2, r2);
      UnbindMatches(env, b, m, x, r, x2, r2, Finish(env, b, fuel, m', v, x2), Finish(env, b, fuel, m, v, r2));
    }
  }

  // ----- Simulation of whole programs -----

  /** The expansion of every program simulates its reference run, step for step. */
  lemma {:induction false} ExpandSimulates(env: Env, b: Build, fuel: nat, s: Stmt, x: State, r: State)
    requires Avoids(Hidden(b), s) && Simulates(env, b, Hidden(b), x, r)
    ensures Matches(env, b, Hidden(b), x, r, Exec(env, b, fuel, Expand(b, s), x), Exec(env, b, fuel, s, r))
    decreases fuel, s, 1
  {
    match s
    case Do(e) => EvalSimulates(env, b, Hidden(b), e, x, r);
    case Block(items) => ItemsSimulate(env, b, fuel, items, x, r);
    case IfThen(c, thn) =>
      EvalSimulates(env, b, Hidden(b), c, x, r);
      ExpandSimulatesFrom(env, b, fuel, thn, x, r, Eval(env, c, x).1, Eval(env, c, r).1);
    case IfElse(c, thn, els) =>
      EvalSimulates(env, b, Hidden(b), c, x, r);
      ExpandSimulatesFrom(env, b, fuel, thn, x, r, Eval(env, c, x).1, Eval(env, c, r).1);
      ExpandSimulatesFrom(env, b, fuel, els, x, r, Eval(env, c, x).1, Eval(env, c, r).1);
    case While(c, body) => WhileSimulates(env, b, fuel, s, x, r);
    case DoWhile(body, c) => DoWhileSimulates(env, b, fuel, s, x, r);
    case Return(e) => EvalSimulates(env, b, Hidden(b), e, x, r);
    case Emit(report) => EmitSimulates(env, b, report, x, r);
    case Invoke(m) => InvokeSimulates(env, b, fuel, m, x, r);
    case _ =>
  }

  /** A part of a statement, run once the states `x1` and `r1` are reached. */
  lemma {:induction false} ExpandSimulatesFrom(env: Env, b: Build, fuel: nat, s: Stmt, x: State, r: State, x1: State, r1: State)
    requires Avoids(Hidden(b), s) && Simulates(env, b, Hidden(b), x1, r1)
    requires AgreeOn(Hidden(b), x.store, x1.store) && AgreeOn(Hidden(b), r.store, r1.store)
    ensures Matches(env, b, Hidden(b), x, r, Exec(env, b, fuel, Expand(b, s), x1), Exec(env, b, fuel, s, r1))
    decreases fuel, s, 2
  {
    ExpandSimulates(env, b, fuel, s, x1, r1);
    MatchesFrom(env, b, x, r, x1, r1, Exec(env, b, fuel, Expand(b, s), x1), Exec(env, b, fuel, s, r1));
  }

  /** A message call of the program itself. */
  lemma EmitSimulates(env: Env, b: Build, report: Report, x: State, r: State)
    requires Avoids(Hidden(b), Emit(report)) && Simulates(env, b, Hidden(b), x, r)
    ensures
      var x1, r1 := Tell(env, report, x), Tell(env, report, r);
      && Simulates(env, b, Hidden(b), x1, r1)
      && AgreeOn(Hidden(b), x.store, x1.store) && AgreeOn(Hidden(b), r.store, r1.store)
  {
    ShowSimulates(env, b, Hidden(b), report.message, x, r);
    EvalSimulates(env, b, Hidden(b), report.value, Show(env, report.message, x).1, Show(env, report.message, r).1);
  }

  lemma {:induction false} InvokeSimulates(env: Env, b: Build, fuel: nat, m: Macro<Items>, x: State, r: State)
    requires AvoidsMacro(Hidden(b), m) && Simulates(env, b, Hidden(b), x, r)
    ensures Matches(env, b, Hidden(b), x, r, Exec(env, b, fuel, Expand(b, Invoke(m)), x), RunMacro(env, b, fuel, m, r))
    decreases fuel, m, 1
  {
    ExpandActionKeepsHead(b, m);
    ExpandActionSimulates(env, b, fuel, m);
    ReplaceSimulates(env, b, fuel, ExpandAction(b, m), m, x, r);
  }

  lemma {:induction false} WhileSimulates(env: Env, b: Build, fuel: nat, s: Stmt, x: State, r: State)
    requires s.While? && Avoids(Hidden(b), s) && Simulates(env, b, Hidden(b), x, r)
    ensures Matches(env, b, Hidden(b), x, r, Exec(env, b, fuel, Expand(b, s), x), Exec(env, b, fuel, s, r))
    decreases fuel, s, 0
  {
    EvalSimulates(env, b, Hidden(b), s.c, x, r);
    var x1, r1 := Eval(env, s.c, x).1, Eval(env, s.c, r).1;
    ExpandSimulatesFrom(env, b, fuel, s.body, x, r, x1, r1);
    var x2, r2 := Exec(env, b, fuel, Expand(b, s.body), x1), Exec(env, b, fuel, s.body, r1);
    if r2.Done? && fuel > 0 && (r2.out.Normal? || r2.out.Continued?) {
      ExpandSimulatesFrom(env, b, fuel - 1, s, x, r, x2.st, r2.st);
    }
  }

  lemma {:induction false} DoWhileSimulates(env: Env, b: Build, fuel: nat, s: Stmt, x: State, r: State)
    requires s.DoWhile? && Avoids(Hidden(b), s) && Simulates(env, b, Hidden(b), x, r)
    ensures Matches(env, b, Hidden(b), x, r, Exec(env, b, fuel, Expand(b, s), x), Exec(env, b, fuel, s, r))
    decreases fuel, s, 0
  {
    ExpandSimulates(env, b, fuel, s.body, x, r);
    var x1, r1 := Exec(env, b, fuel, Expand(b, s.body), x), Exec(env, b, fuel, s.body, r);
    if r1.Done? && (r1.out.Normal? || r1.out.Continued?) {
      EvalSimulates(env, b, Hidden(b), s.c, x1.st, r1.st);
      var (v, x2) := Eval(env, s.c, x1.st);
      var r2 := Eval(env, s.c, r1.st).1;
      if v != 0 && fuel > 0 {
        ExpandSimulates(env, b, fuel - 1, s, x2, r2);
      }
    }
  }

  /** Storing the same value under a name of the program. */
  lemma SetSimulates(env: Env, b: Build, y: Name, v: int, x: State, r: State)
    requires y !in Hidden(b) && Simulates(env, b, Hidden(b), x, r)
    ensures Simulates(env, b, Hidden(b), Set(x, y, v), Set(r, y, v))
    ensures AgreeOn(Hidden(b), x.store, Set(x, y, v).store) && AgreeOn(Hidden(b), r.store, Set(r, y, v).store)
  {
  }

  lemma AgreeOnTransitive(h: set<Name>, s1: Store, s2: Store, s3: Store)
    requires AgreeOn(h, s1, s2) && AgreeOn(h, s2, s3)
    ensures AgreeOn(h, s1, s3)
  {
  }

  /** Entering the scope of a local of the program itself. */
  lemma InitSimulates(env: Env, b: Build, y: Name, init: Expr, x: State, r: State) returns (x2: State, r2: State)
    requires y !in Hidden(b) && AvoidsExpr(Hidden(b), init) && Simulates(env, b, Hidden(b), x, r)
    ensures
      var (v, x1) := Eval(env, init, Set(x, y, env.junk));
      x2 == Set(x1, y, ToLong(env, v))
    ensures
      var (w, r1) := Eval(env, init, Set(r, y, env.junk));
      r2 == Set(r1, y, ToLong(env, w))
    ensures Simulates(env, b, Hidden(b), x2, r2)
    ensures AgreeOn(Hidden(b), x.store, x2.store) && AgreeOn(Hidden(b), r.store, r2.store)
  {
    var x0, r0 := Set(x, y, env.junk), Set(r, y, env.junk);
    SetSimulates(env, b, y, env.junk, x, r);
    EvalSimulates(env, b, Hidden(b), init, x0, r0);
    var (v, x1) := Eval(env, init, x0);
    var r1 := Eval(env, init, r0).1;
    SetSimulates(env, b, y, ToLong(env, v), x1, r1);
    x2, r2 := Set(x1, y, ToLong(env, v)), Set(r1, y, ToLong(env, v));
    AgreeOnTransitive(Hidden(b), x.store, x0.store, x1.store);
    AgreeOnTransitive(Hidden(b), x.store, x1.store, x2.store);
    AgreeOnTransitive(Hidden(b), r.store, r0.store, r1.store);
    AgreeOnTransitive(Hidden(b), r.store, r1.store, r2.store);
  }

  /** Leaving the scope of a local of the program itself. */
  lemma LeaveScopeMatches(env: Env, b: Build, y: Name, x0: State, r0: State, x1: State, r1: State, x: Result, r: Result)
    requires y !in Hidden(b) && Simulates(env, b, Hidden(b), x0, r0)
    requires Matches(env, b, Hidden(b), x1, r1, x, r)
    requires AgreeOn(Hidden(b), x0.store, x1.store) && AgreeOn(Hidden(b), r0.store, r1.store)
    ensures
      var x' := if x.Done? then Done(Restore(x0.store, y, x.st), x.out) else x;
      var r' := if r.Done? then Done(Restore(r0.store, y, r.st), r.out) else r;
      Matches(env, b, Hidden(b), x0, r0, x', r')
  {
    assert SameAt(x0.store, r0.store, y);
  }

  lemma {:induction false} ItemsSimulate(env: Env, b: Build, fuel: nat, ss: Items, x: State, r: State)
    requires AvoidsItems(Hidden(b), ss) && Simulates(env, b, Hidden(b), x, r)
    ensures Matches(env, b, Hidden(b), x, r, ExecItems(env, b, fuel, ExpandItems(b, ss), x), ExecItems(env, b, fuel, ss, r))
    decreases fuel, ss
  {
    match ss
    case Nil =>
    case Cons(s, rest) =>
      ExpandSimulates(env, b, fuel, s, x, r);
      var x1, r1 := Exec(env, b, fuel, Expand(b, s), x), Exec(env, b, fuel, s, r);
      if r1.Done? && r1.out.Normal? {
        ItemsSimulate(env, b, fuel, rest, x1.st, r1.st);
      }
    case Decl(y, init, rest) =>
      var x2, r2 := InitSimulates(env, b, y, init, x, r);
      ItemsSimulate(env, b, fuel, rest, x2, r2);
      LeaveScopeMatches(env, b, y, x, r, x2, r2,
                        ExecItems(env, b, fuel, ExpandItems(b, rest), x2), ExecItems(env, b, fuel, rest, r2));
  }

  lemma {:induction false} ExpandActionSimulates(env: Env, b: Build, fuel: nat, m: Macro<Items>)
    requires AvoidsMacro(Hidden(b), m)
    ensures ActionSimulates(env, b, fuel, ExpandAction(b, m), m)
    decreases fuel, m, 0
  {
    forall x: State, r: State | Simulates(env, b, Hidden(b), x, r)
      ensures Matches(env, b, Hidden(b), x, r, RunAction(env, b, fuel, ExpandAction(b, m), x), RunAction(env, b, fuel, m, r))
    {
      if ActionOf(m).Some? {
        ItemsSimulate(env, b, fuel, ActionOf(m).value, x, r);
      }
    }
  }

  // ----- The refinement theorem -----

  lemma StoresEqual(b: Build, start: Store, s1: Store, s2: Store)
    requires AgreeOff(Hidden(b), s1, s2)
    requires AgreeOn(Hidden(b), start, s1) && AgreeOn(Hidden(b), start, s2)
    ensures s1 == s2
  {
    forall x: Name ensures SameAt(s1, s2, x) {
      if x in Hidden(b) {
        assert SameAt(start, s1, x) && SameAt(start, s2, x);
      }
    }
    assert forall x: Name :: x in s1 <==> SameAt(s1, s2, x) && x in s1;
    assert s1.Keys == s2.Keys by {
      forall x: Name ensures x in s1.Keys <==> x in s2.Keys { assert SameAt(s1, s2, x); }
    }
    forall x: Name | x in s1 ensures s1[x] == s2[x] { assert SameAt(s1, s2, x); }
  }

  /** Every program that does not name `evalOnceErrorCode` (any program at all, in production) has
      an expansion that ends in the same store with the same outcome as its reference run, and
      whose trace is exactly the calls and messages owed. */
  lemma ExpansionRefines(env: Env, b: Build, fuel: nat, s: Stmt, store: Store)
    requires Avoids(Hidden(b), s)
    ensures
      var x := Exec(env, b, fuel, Expand(b, s), State(store, Empty));
      var r := Exec(env, b, fuel, s, State(store, Empty));
      && x.Done? == r.Done?
      && (x.Done? ==> x.out == r.out && x.st.store == r.st.store && x.st.trace == Render(env, b, r.st.trace))
  {
    var st := State(store, Empty);
    ExpandSimulates(env, b, fuel, s, st, st);
    var x, r := Exec(env, b, fuel, Expand(b, s), st), Exec(env, b, fuel, s, st);
    if x.Done? {
      StoresEqual(b, store, x.st.store, r.st.store);
    }
  }

  /** Capture freedom: a debug expansion of a program that does not name `evalOnceErrorCode`, however
      deeply its actions nest further noErr macros, runs the same whatever the surrounding program
      keeps in a variable of that name, and leaves that variable as it was. */
  lemma CaptureFreedom(env: Env, fuel: nat, s: Stmt, store: Store, v: int)
    requires Avoids({EVAL_ONCE}, s)
    ensures
      var x := Exec(env, Debug, fuel, Expand(Debug, s), State(store, Empty));
      var y := Exec(env, Debug, fuel, Expand(Debug, s), State(store[EVAL_ONCE := v], Empty));
      && x.Done? == y.Done?
      && (x.Done? ==>
            && x.out == y.out && x.st.trace == y.st.trace
            && AgreeOff({EVAL_ONCE}, x.st.store, y.st.store)
            && SameAt(store, x.st.store, EVAL_ONCE)
            && EVAL_ONCE in y.st.store && y.st.store[EVAL_ONCE] == v)
  {
    var st, st' := State(store, Empty), State(store[EVAL_ONCE := v], Empty);
    ExpandSimulates(env, Debug, fuel, s, st, st);
    ExpandSimulates(env, Debug, fuel, s, st', st);
    var x, y := Exec(env, Debug, fuel, Expand(Debug, s), st), Exec(env, Debug, fuel, Expand(Debug, s), st');
    if x.Done? {
      assert SameAt(st'.store, y.st.store, EVAL_ONCE);
      forall z: Name | z !in {EVAL_ONCE} ensures SameAt(x.st.store, y.st.store, z) {
        var r := Exec(env, Debug, fuel, s, st);
        assert SameAt(x.st.store, r.st.store, z) && SameAt(y.st.store, r.st.store, z);
      }
    }
  }

  // ----- The expansion is plain C -----

  predicate MacroFree(s: Stmt)
    decreases s
  {
    match s
    case Block(items) => MacroFreeItems(items)
    case IfThen(_, thn) => MacroFree(thn)
    case IfElse(_, thn, els) => MacroFree(thn) && MacroFree(els)
    case While(_, body) => MacroFree(body)
    case DoWhile(body, _) => MacroFree(body)
    case Invoke(_) => false
    case _ => true
  }

  predicate MacroFreeItems(ss: Items)
    decreases ss
  {
    match ss
    case Nil => true
    case Cons(s, rest) => MacroFree(s) && MacroFreeItems(rest)
    case Decl(_, _, rest) => MacroFreeItems(rest)
  }

  lemma {:induction false} ExpandIsMacroFree(b: Build, s: Stmt)
    ensures MacroFree(Expand(b, s))
    decreases s
  {
    match s
    case Block(items) => ExpandItemsIsMacroFree(b, items);
    case IfThen(_, thn) => ExpandIsMacroFree(b, thn);
    case IfElse(_, thn, els) => ExpandIsMacroFree(b, thn); ExpandIsMacroFree(b, els);
    case While(_, body) => ExpandIsMacroFree(b, body);
    case DoWhile(body, _) => ExpandIsMacroFree(b, body);
    case Invoke(m) => ReplaceIsMacroFree(b, m);
    case _ =>
  }

  lemma ReplaceIsMacroFree(b: Build, m: Macro<Items>)
    ensures MacroFree(Replace(b, ExpandAction(b, m)))
    decreases m
  {
    var m' := ExpandAction(b, m);
    if ActionOf(m).Some? {
      ExpandItemsIsMacroFree(b, ActionOf(m).value);
    }
    assert MacroFreeItems(Nil);
    assert MacroFreeItems(Tail(m')) by {
      if IsRequire(m') {
        assert MacroFreeItems(One(Goto(m'.dest)));
        if ActionOf(m').Some? {
          assert MacroFree(Block(ActionOf(m').value));
        }
      }
    }
    var body := Tail(m');
    assert MacroFree(Block(body)) && MacroFree(Once(Nil));
    SayIsMacroFree(ReportOf(m'), body);
    if !m'.DebugString? {
      OnceIfIsMacroFree(TestOf(m'), body);
      OnceIfIsMacroFree(TestOf(m'), Say(ReportOf(m'), body));
    }
  }

  lemma SayIsMacroFree(r: Report, body: Items)
    requires MacroFreeItems(body)
    ensures MacroFreeItems(Say(r, body)) && MacroFree(Block(Say(r, body))) && MacroFree(Once(Say(r, body)))
  {
    assert MacroFreeItems(Cons(Null, body));
    assert MacroFree(Block(Say(r, body)));
  }

  lemma OnceIfIsMacroFree(c: Expr, body: Items)
    requires MacroFreeItems(body)
    ensures MacroFree(Once(One(IfThen(c, Block(body)))))
    ensures forall e: Expr :: MacroFree(OnceCode(e, body))
  {
    assert MacroFree(IfThen(c, Block(body)));
    assert MacroFreeItems(One(IfThen(c, Block(body))));
    assert MacroFree(Block(One(IfThen(c, Block(body)))));
    var s := IfThen(NonZero(Var(EVAL_ONCE)), Block(body));
    assert MacroFree(s) && MacroFreeItems(One(s));
    forall e: Expr ensures MacroFree(OnceCode(e, body)) {
      assert MacroFreeItems(Decl(EVAL_ONCE, e, One(s)));
      assert MacroFree(Block(Decl(EVAL_ONCE, e, One(s))));
    }
  }

  lemma {:induction false} ExpandItemsIsMacroFree(b: Build, ss: Items)
    ensures MacroFreeItems(ExpandItems(b, ss))
    decreases ss
  {
    match ss
    case Nil =>
    case Cons(s, rest) => ExpandIsMacroFree(b, s); ExpandItemsIsMacroFree(b, rest);
    case Decl(_, _, rest) => ExpandItemsIsMacroFree(b, rest);
  }
}
