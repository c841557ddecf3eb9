/** Where the two builds part: exact conditions for the expansions of single macros, what `break`
    and `continue` in an action do, and for each side condition of build equivalence a program whose
    expansions break it. */
module Boundaries {
  import opened Options
  import opened Integers
  import opened CLang
  import opened Expansion
  import opened Refinement
  import opened Builds
  import opened Functions

  /** The run of the expansion of `m;` in build `b`. */
  function Built(env: Env, b: Build, fuel: nat, m: Macro<Items>, store: Store): Result {
    Exec(env, b, fuel, Expand(b, Invoke(m)), State(store, Empty))
  }

  lemma BuiltBehavesSame(env: Env, b: Build, fuel: nat, m: Macro<Items>, store: Store)
    requires AvoidsMacro(Hidden(b), m)
    ensures SameBehaviour(Built(env, b, fuel, m, store), RunMacro(env, b, fuel, m, State(store, Empty)))
  {
    ExpansionRefines(env, b, fuel, Invoke(m), store);
    var r := RunMacro(env, b, fuel, m, State(store, Empty));
    if r.Done? {
      RenderKeepsCalls(env, b, r.st.trace);
    }
  }

  lemma AvoidsMacroNothing(m: Macro<Items>)
    ensures AvoidsMacro({}, m)
  {
    AvoidsNothing(Invoke(m));
  }

  // ----- Exactly when the builds of a macro agree -----

  /** The expansion of the action of `m` in build `b`, run from `x`. */
  function RunExpandedAction(env: Env, b: Build, fuel: nat, m: Macro<Items>, x: State): Result {
    RunAction(env, b, fuel, ExpandAction(b, m), x)
  }

  /** The state `st` after the message that build `b` prints for `m`, if any. */
  function Told(env: Env, b: Build, m: Macro<Items>, v: int, st: State): State {
    if Reports(env, b, m, v) then
      var (shown, st1) := Show(env, MessageArg(m), st);
      Log(st1, Printed(MessageOf(env, m, v, shown)))
    else st
  }

  /** How `m` ends, given the result of the action of its failed assertion. */
  function Leave(b: Build, m: Macro<Items>, r: Result): Result {
    if r.Done? then Done(r.st, After(b, m, r.out)) else r
  }

  /** The result of an action with which a macro has no effect. */
  predicate Idle(m: Macro<Items>, st: State, a: Result) {
    && a.Done? && SameObserved(st, a.st)
    && if IsRequire(m) then a.out.Broke? || a.out.Continued? else a.out.Normal?
  }

  /** The condition, in terms of the operand, the message and the expansions of the action. */
  predicate AgreementCondition(env: Env, fuel: nat, m: Macro<Items>, store: Store) {
    var st := State(store, Empty);
    var (v, st1) := EvalOperand(env, m, st);
    var told := Told(env, Debug, m, v, st1);
    if IsCheck(m) then SameObserved(told, st)              // neither operand nor message has an effect
    else if !Fails(env, Production, m, v) then true        // no failure in either
    else
      var a := RunExpandedAction(env, Production, fuel, m, st1);
      if Fails(env, Debug, m, v) then                      // a failure in both
        SameBehaviour(Leave(Debug, m, RunExpandedAction(env, Debug, fuel, m, told)), Leave(Production, m, a))
      else Idle(m, st1, a)                                 // a failure in production only
  }

  /** The exact boundary of build equivalence: the two expansions of a macro that does not name
      `evalOnceErrorCode` behave the same, from any store, if and only if `AgreementCondition` holds. */
  lemma MacroBoundary(env: Env, fuel: nat, m: Macro<Items>, store: Store)
    requires AvoidsMacro({EVAL_ONCE}, m)
    ensures SameBehaviour(Built(env, Debug, fuel, m, store), Built(env, Production, fuel, m, store)) <==>
            AgreementCondition(env, fuel, m, store)
  {
    AvoidsMacroNothing(m);
    BuiltBehavesSame(env, Debug, fuel, m, store);
    BuiltBehavesSame(env, Production, fuel, m, store);
    ExpandedActionBehavesSame(env, Debug, fuel, m, store);
    ExpandedActionBehavesSame(env, Production, fuel, m, store);
    ReferenceBoundary(env, fuel, m, store);
  }

  /** The condition for the reference runs, in terms of the reference runs of the action. */
  predicate ReferenceCondition(env: Env, fuel: nat, m: Macro<Items>, store: Store) {
    var st := State(store, Empty);
    var (v, st1) := EvalOperand(env, m, st);
    var d, p := Visit(env, Debug, m, v, st1), Visit(env, Production, m, v, st1);
    if IsCheck(m) then SameObserved(d, st)
    else if !Fails(env, Production, m, v) then true
    else
      var a := RunAction(env, Production, fuel, m, p);
      if Fails(env, Debug, m, v) then
        SameBehaviour(Leave(Debug, m, RunAction(env, Debug, fuel, m, d)), Leave(Production, m, a))
      else Idle(m, st1, a)
  }

  lemma ReferenceBoundary(env: Env, fuel: nat, m: Macro<Items>, store: Store)
    ensures
      var st := State(store, Empty);
      SameBehaviour(RunMacro(env, Debug, fuel, m, st), RunMacro(env, Production, fuel, m, st)) <==>
      ReferenceCondition(env, fuel, m, store)
  {
    var st := State(store, Empty);
    var (v, st1) := EvalOperand(env, m, st);
    RunMacroFinishes(env, Debug, fuel, m, st);
    if !IsCheck(m) {
      RunMacroFinishes(env, Production, fuel, m, st);
      if Fails(env, Debug, m, v) {
        DebugFailureIsShared(env, m, v);
      }
    }
  }

  lemma ToldSimulates(env: Env, b: Build, m: Macro<Items>, v: int, st: State)
    requires AvoidsMacro(Hidden(b), m) && Simulates(env, b, Hidden(b), st, st)
    ensures Simulates(env, b, Hidden(b), Told(env, b, m, v, st), Visit(env, b, m, v, st))
    ensures Told(env, b, m, v, st).store == Visit(env, b, m, v, st).store
  {
    ShowSimulates(env, b, Hidden(b), MessageArg(m), st, st);
  }

  lemma OperandSimulates(env: Env, b: Build, m: Macro<Items>, st: State)
    requires AvoidsMacro(Hidden(b), m) && Simulates(env, b, Hidden(b), st, st)
    ensures
      var st1 := EvalOperand(env, m, st).1;
      Simulates(env, b, Hidden(b), st1, st1)
  {
    if !m.DebugString? {
      EvalSimulates(env, b, Hidden(b), m.operand, st, st);
    }
  }

  /** The expansion of an action behaves like its reference run. */
  lemma ExpandedActionBehavesSame(env: Env, b: Build, fuel: nat, m: Macro<Items>, store: Store)
    requires AvoidsMacro(Hidden(b), m)
    ensures
      var (v, st1) := EvalOperand(env, m, State(store, Empty));
      var x, r := Told(env, b, m, v, st1), Visit(env, b, m, v, st1);
      SameObserved(x, r) && SameBehaviour(RunExpandedAction(env, b, fuel, m, x), RunAction(env, b, fuel, m, r))
  {
    var (v, st1) := EvalOperand(env, m, State(store, Empty));
    OperandSimulates(env, b, m, State(store, Empty));
    ToldSimulates(env, b, m, v, st1);
    ExpandActionSimulates(env, b, fuel, m);
    var x, r := Told(env, b, m, v, st1), Visit(env, b, m, v, st1);
    RenderKeepsCalls(env, b, r.trace);
    var x1, r1 := RunExpandedAction(env, b, fuel, m, x), RunAction(env, b, fuel, m, r);
    assert Matches(env, b, Hidden(b), x, r, x1, r1);
    if r1.Done? {
      RenderKeepsCalls(env, b, r1.st.trace);
      StoresEqual(b, x.store, x1.st.store, r1.st.store);
    }
  }

  /** The same condition for a macro whose action is portable and whose message is pure: in terms of
      the test that debug makes on the narrowed code. */
  predicate PortableCondition(env: Env, fuel: nat, m: Macro<Items>, store: Store) {
    var st := State(store, Empty);
    var (v, st1) := EvalOperand(env, m, st);
    if IsCheck(m) then SameObserved(st1, st)              // the operand has no effect
    else if !Narrows(m) || v == 0 then true               // same test, or no failure in either
    else
      var a := RunExpandedAction(env, Production, fuel, m, st1);
      if v % Pow2(env.longWidth) != 0 then                // a failure in both
        m.VerifyNoErrAction? ==> Stays(a)                 // no break or continue is absorbed
      else Idle(m, st1, a)                                // a failure in production only
  }

  lemma PortableBoundary(env: Env, fuel: nat, m: Macro<Items>, store: Store)
    requires AvoidsMacro({EVAL_ONCE}, m) && Pure(MessageArg(m))
    requires ActionOf(m).Some? ==> PortableItems(env.longWidth, ActionOf(m).value)
    ensures SameBehaviour(Built(env, Debug, fuel, m, store), Built(env, Production, fuel, m, store)) <==>
            PortableCondition(env, fuel, m, store)
  {
    MacroBoundary(env, fuel, m, store);
    var (v, st1) := EvalOperand(env, m, State(store, Empty));
    PureShowKeepsState(env, MessageArg(m), st1);
    if !IsCheck(m) {
      AvoidsMacroNothing(m);
      ExpandedActionBehavesSame(env, Debug, fuel, m, store);
      ExpandedActionBehavesSame(env, Production, fuel, m, store);
      ActionsBehaveSame(env, fuel, m, v, st1);
      SmallRemainder(0, Pow2(env.longWidth));
    }
  }

  lemma ActionsBehaveSame(env: Env, fuel: nat, m: Macro<Items>, v: int, st: State)
    requires !IsCheck(m) && Pure(MessageArg(m))
    requires ActionOf(m).Some? ==> PortableItems(env.longWidth, ActionOf(m).value)
    ensures SameBehaviour(RunAction(env, Debug, fuel, m, Visit(env, Debug, m, v, st)),
                          RunAction(env, Production, fuel, m, Visit(env, Production, m, v, st)))
  {
    var d, p := Visit(env, Debug, m, v, st), Visit(env, Production, m, v, st);
    PureShowKeepsState(env, MessageArg(m), st);
    if ActionOf(m).Some? {
      PortableItemsAreSafe(env, fuel, ActionOf(m).value, p);
      SafeItemsRunAlike(env, fuel, ActionOf(m).value, d, p);
    }
    AlikeBehaveSame(RunAction(env, Debug, fuel, m, d), RunAction(env, Production, fuel, m, p));
  }

  /** The expansions of __Require_noErr behave the same on all operands of type `t` that do not name
      `evalOnceErrorCode`, from every store, if and only if `t` is no wider than `long`, which is the
      condition that a portable program meets. */
  lemma RequireNoErrTypeBoundary(env: Env, fuel: nat, t: CType, l: Name)
    ensures (forall e: Expr, store: Store :: AvoidsExpr({EVAL_ONCE}, e) ==> RequiresSame(env, fuel, Cast(t, e), l, store)) <==>
            t.width <= env.longWidth
    ensures forall e: Expr :: FitsLong(env.longWidth, Cast(t, e)) <==> t.width <= env.longWidth
  {
    if t.width <= env.longWidth {
      forall e: Expr, store: Store | AvoidsExpr({EVAL_ONCE}, e) ensures RequiresSame(env, fuel, Cast(t, e), l, store) {
        PortableBoundary(env, fuel, RequireNoErr(Cast(t, e), l, Plain), store);
        NarrowValueKeepsTruth(t, env.longWidth, Eval(env, Cast(t, e), State(store, Empty)).0);
      }
    } else {
      var v := WideTypeLosesTruth(t, env.longWidth);
      ConvertInRange(t, v);
      PortableBoundary(env, fuel, RequireNoErr(Cast(t, Lit(v)), l, Plain), map[]);
      assert Eval(env, Cast(t, Lit(v)), State(map[], Empty)).0 == v;
      assert AvoidsExpr({EVAL_ONCE}, Lit(v)) && !RequiresSame(env, fuel, Cast(t, Lit(v)), l, map[]);
    }
  }

  /** The expansions of `__Require_noErr(e, l)` behave the same from `store`. */
  predicate RequiresSame(env: Env, fuel: nat, e: Expr, l: Name, store: Store) {
    var m: Macro<Items> := RequireNoErr(e, l, Plain);
    SameBehaviour(Built(env, Debug, fuel, m, store), Built(env, Production, fuel, m, store))
  }

  // ----- Break and continue in actions -----

  /** The state in which a definition starts its action: after the message, if it prints one. */
  function ActionStart(env: Env, b: Build, m: Macro<Items>, x: State): State {
    var (v, x1) := Entered(env, b, m, x);
    Informed(env, b, m, v, x1)
  }

  /** Both definitions of __Verify_Action pass the outcome of a failed assertion's action through,
      whatever the action. */
  lemma VerifyActionEscapeLaw(env: Env, b: Build, fuel: nat, m: Macro<Items>, x: State)
    requires m.VerifyAction?
    ensures
      var (v, x1) := Eval(env, m.operand, x);
      Exec(env, b, fuel, Replace(b, m), x) ==
      if v != 0 then Done(x1, Normal)
      else ExecItems(env, b, fuel, m.action, if b.Debug? then Tell(env, ReportOf(m), x1) else x1)
  {
    ReplaceRuns(env, b, fuel, m, x);
  }

  /** No definition of a Require macro lets `break` or `continue` out, whatever the action, and an
      action that ends in one of them makes it skip its jump. */
  lemma RequireEscapeLaw(env: Env, b: Build, fuel: nat, m: Macro<Items>, x: State)
    requires m.RequireAction? || m.RequireNoErrAction?
    ensures Stays(Exec(env, b, fuel, Replace(b, m), x))
    ensures
      var r := Exec(env, b, fuel, Replace(b, m), x);
      var a := ExecItems(env, b, fuel, m.action, ActionStart(env, b, m, x));
      Fails(env, b, m, Entered(env, b, m, x).0) && a.Done? ==>
        && (a.out.Normal? ==> r == Unbind(b, m, x, Done(a.st, Jumped(m.dest))))
        && (a.out.Broke? || a.out.Continued? ==> r == Unbind(b, m, x, Done(a.st, Normal)))
        && (a.out.Jumped? || a.out.Returned? ==> r == Unbind(b, m, x, a))
  {
    ReplaceRuns(env, b, fuel, m, x);
  }

  /** The production definition of __Verify_noErr_Action passes the outcome of its action through and
      the debug definition absorbs `break` and `continue`, whatever the action. */
  lemma VerifyNoErrEscapeLaw(env: Env, b: Build, fuel: nat, m: Macro<Items>, x: State)
    requires m.VerifyNoErrAction?
    ensures
      var r := Exec(env, b, fuel, Replace(b, m), x);
      var a := ExecItems(env, b, fuel, m.action, ActionStart(env, b, m, x));
      Fails(env, b, m, Entered(env, b, m, x).0) && a.Done? ==>
        && (b.Production? || Stays(a) ==> r == Unbind(b, m, x, a))
        && (b.Debug? && !Stays(a) ==> r == Unbind(b, m, x, Done(a.st, Normal)))
  {
    ReplaceRuns(env, b, fuel, m, x);
  }

  /** So the debug expansion behaves like the production expansion with `break` and `continue` absorbed,
      and the two behave the same if and only if neither escapes. */
  lemma VerifyNoErrBuildsLaw(env: Env, fuel: nat, m: Macro<Items>, store: Store)
    requires m.VerifyNoErrAction? && AvoidsMacro({EVAL_ONCE}, m)
    requires FitsLong(env.longWidth, m.operand) && PortableItems(env.longWidth, m.action)
    ensures
      var d, p := Built(env, Debug, fuel, m, store), Built(env, Production, fuel, m, store);
      SameBehaviour(d, AbsorbResult(p)) && (SameBehaviour(d, p) <==> Stays(p))
  {
    var st := State(store, Empty);
    AvoidsMacroNothing(m);
    BuiltBehavesSame(env, Debug, fuel, m, store);
    BuiltBehavesSame(env, Production, fuel, m, store);
    RunMacroFinishes(env, Debug, fuel, m, st);
    RunMacroFinishes(env, Production, fuel, m, st);
    FitsLongKeepsTruth(env, m.operand, st);
    var (v, st1) := Eval(env, m.operand, st);
    ActionsBehaveSame(env, fuel, m, v, st1);
  }

  // ----- Negated forms -----

  /** The positive form on the negated operand, as the header defines each __n* macro. */
  function Positive(m: Macro<Items>): Macro<Items> {
    match m
    case Check(true, e, msg) => Check(false, Not(e), msg)
    case Verify(true, e, msg) => Verify(false, Not(e), msg)
    case Require(true, e, l, d) => Require(false, Not(e), l, d)
    case RequireAction(true, e, l, a, d) => RequireAction(false, Not(e), l, a, d)
    case _ => m
  }

  /** A negated form expands like the positive form on the negated operand, in both builds. */
  lemma NegatedFormsExpandAlike(b: Build, m: Macro<Items>)
    ensures Replace(b, m) == Replace(b, Positive(m))
  {
  }

  // ----- Each side condition is needed -----

  const ENV: Env := Env(64, (t, f, v) => 0, 1)

  lemma OneStaysOne()
    ensures ToLong(ENV, 1) != 0
  {
    TruthValueKept(64, 1);
  }

  /** `__Verify_noErr_Action(1, jump)` */
  function AlwaysFails(jump: Stmt): Macro<Items> { VerifyNoErrAction(Lit(1), Cons(jump, Nil)) }

  lemma AlwaysFailsExpands(b: Build, jump: Stmt)
    requires jump.Break? || jump.Continue?
    ensures Expand(b, Invoke(AlwaysFails(jump))) == Replace(b, AlwaysFails(jump))
  {
    assert ExpandItems(b, Nil) == Nil;
    assert ExpandItems(b, Cons(jump, Nil)) == Cons(jump, Nil);
  }

  lemma AlwaysFailsKeepsStore(b: Build, jump: Stmt, x: State)
    ensures
      var m := AlwaysFails(jump);
      Entered(ENV, b, m, x).0 == 1 && Unbind(b, m, x, Done(ActionStart(ENV, b, m, x), Normal)).st.store == x.store
  {
  }

  /** Both definitions of a failing __Verify_noErr_Action whose action is one jump. */
  lemma AlwaysFailsRuns(b: Build, fuel: nat, jump: Stmt, x: State)
    requires jump.Break? || jump.Continue?
    ensures
      var r := Exec(ENV, b, fuel, Expand(b, Invoke(AlwaysFails(jump))), x);
      && r.Done? && r.st.store == x.store
      && r.out == if b.Debug? then Normal else if jump.Break? then Broke else Continued
  {
    var m := AlwaysFails(jump);
    var start := ActionStart(ENV, b, m, x);
    OneStaysOne();
    AlwaysFailsExpands(b, jump);
    AlwaysFailsKeepsStore(b, jump, x);
    assert ExecItems(ENV, b, fuel, m.action, start) == Exec(ENV, b, fuel, jump, start);
    VerifyNoErrEscapeLaw(ENV, b, fuel, m, x);
  }

  /** `while (1) __Verify_noErr_Action(1, break);` */
  const BREAK_LOOP: Stmt := While(Lit(1), Invoke(AlwaysFails(Break)))

  /** The production expansion of the loop ends at once, from every state; the debug expansion never
      ends. */
  lemma {:induction false} EscapeConditionIsNeeded(fuel: nat, x: State)
    ensures
      var p := Exec(ENV, Production, fuel, Expand(Production, BREAK_LOOP), x);
      p.Done? && p.out.Normal?
    ensures Exec(ENV, Debug, fuel, Expand(Debug, BREAK_LOOP), x).OutOfFuel?
    decreases fuel
  {
    var s := Invoke(AlwaysFails(Break));
    AlwaysFailsRuns(Production, fuel, Break, x);
    AlwaysFailsRuns(Debug, fuel, Break, x);
    assert Expand(Debug, BREAK_LOOP) == While(Lit(1), Expand(Debug, s));
    assert Expand(Production, BREAK_LOOP) == While(Lit(1), Expand(Production, s));
    if fuel > 0 {
      EscapeConditionIsNeeded(fuel - 1, Exec(ENV, Debug, fuel, Expand(Debug, s), x).st);
    }
  }

  /** `x = x - 1` */
  const DECREMENT: Expr := Assign("x", Bin(Sub, Var("x"), Lit(1)))

  /** `while (x = x - 1) { __Verify_noErr_Action(1, continue); goto l; }` */
  function ContinueLoop(l: Name): Stmt {
    While(DECREMENT, Block(Cons(Invoke(AlwaysFails(Continue)), Cons(Goto(l), Nil))))
  }

  lemma DecrementRuns(n: int, x: State)
    requires x.store == map["x" := n]
    ensures
      var (v, y) := Eval(ENV, DECREMENT, x);
      v == n - 1 && y.store == map["x" := n - 1]
  {
    assert Eval(ENV, Bin(Sub, Var("x"), Lit(1)), x) == (n - 1, x) by {
      assert Eval(ENV, Var("x"), x) == (n, x) && Eval(ENV, Lit(1), x) == (1, x);
    }
  }

  lemma ContinueBodyRuns(b: Build, fuel: nat, l: Name, x: State)
    ensures
      var r := Exec(ENV, b, fuel, Expand(b, ContinueLoop(l).body), x);
      r.Done? && r.st.store == x.store && r.out == if b.Debug? then Jumped(l) else Continued
  {
    var first, rest := Invoke(AlwaysFails(Continue)), Cons(Goto(l), Nil);
    AlwaysFailsRuns(b, fuel, Continue, x);
    assert ExpandItems(b, rest) == rest;
    assert Expand(b, ContinueLoop(l).body) == Block(Cons(Expand(b, first), rest));
    var x1 := Exec(ENV, b, fuel, Expand(b, first), x).st;
    assert ExecItems(ENV, b, fuel, rest, x1) == Done(x1, Jumped(l));
  }

  /** The same for `continue`: from `x == n` the production expansion of the loop repeats until `x` is
      zero, and the debug expansion jumps to `l` in its first iteration, if it has one. */
  lemma {:induction false} ContinueConditionIsNeeded(fuel: nat, n: nat, l: Name, x: State)
    requires 1 <= n <= fuel && x.store == map["x" := n]
    ensures
      var p := Exec(ENV, Production, fuel, Expand(Production, ContinueLoop(l)), x);
      p.Done? && p.out.Normal? && p.st.store == map["x" := 0]
    ensures
      var d := Exec(ENV, Debug, fuel, Expand(Debug, ContinueLoop(l)), x);
      d.Done? && d.out == (if n == 1 then Normal else Jumped(l)) && d.st.store == map["x" := n - 1]
    decreases n
  {
    DecrementRuns(n, x);
    var y := Eval(ENV, DECREMENT, x).1;
    ContinueBodyRuns(Production, fuel, l, y);
    ContinueBodyRuns(Debug, fuel, l, y);
    var body := ContinueLoop(l).body;
    assert Expand(Debug, ContinueLoop(l)) == While(DECREMENT, Expand(Debug, body));
    assert Expand(Production, ContinueLoop(l)) == While(DECREMENT, Expand(Production, body));
    if n > 1 {
      ContinueConditionIsNeeded(fuel - 1, n - 1, l, Exec(ENV, Production, fuel, Expand(Production, body), y).st);
    }
  }

  /** `__Check(x = 1)` */
  const CHECK_ASSIGN: Macro<Items> := Check(false, Assign("x", Lit(1)), None)

  /** An assignment in a Check operand happens in the debug expansion only. */
  lemma PurityConditionIsNeeded(fuel: nat)
    ensures
      var d, p := Built(ENV, Debug, fuel, CHECK_ASSIGN, map[]), Built(ENV, Production, fuel, CHECK_ASSIGN, map[]);
      d.Done? && p.Done? && d.st.store == map["x" := 1] && p.st.store == map[] && !SameBehaviour(d, p)
  {
    var st := State(map[], Empty);
    OnceIfRuns(ENV, Debug, fuel, TestOf(CHECK_ASSIGN), Say(ReportOf(CHECK_ASSIGN), Nil), st);
    assert Eval(ENV, Assign("x", Lit(1)), st) == (1, Set(st, "x", 1));
    assert Eval(ENV, TestOf(CHECK_ASSIGN), st) == (0, Set(st, "x", 1));
    assert "x" in map["x" := 1] && "x" !in st.store;
  }

  /** The expansion of a macro without action ends after its message. */
  lemma BuiltEnds(env: Env, b: Build, fuel: nat, m: Macro<Items>, store: Store)
    requires ActionOf(m).None?
    ensures
      var st := State(store, Empty);
      var (v, st1) := Entered(env, b, m, st);
      var out := if Fails(env, b, m, v) then After(b, m, Normal) else Normal;
      Built(env, b, fuel, m, store) ==
      if b.Production? && IsCheck(m) then Done(st, Normal) else Unbind(b, m, st, Done(Informed(env, b, m, v, st1), out))
  {
    assert Expand(b, Invoke(m)) == Replace(b, m);
    if !(b.Production? && IsCheck(m)) {
      ReplaceRuns(env, b, fuel, m, State(store, Empty));
    }
  }

  /** An operand that names the local variable reads its indeterminate value in the debug expansion. */
  lemma CaptureConditionIsNeeded(fuel: nat, l: Name)
    ensures
      var m: Macro<Items>, store := RequireNoErr(Var("evalOnceErrorCode"), l, Plain), map["evalOnceErrorCode" := 0];
      var d := Built(ENV, Debug, fuel, m, store);
      d.Done? && d.out == Jumped(l) && Built(ENV, Production, fuel, m, store) == Done(State(store, Empty), Normal)
  {
    var m: Macro<Items>, store := RequireNoErr(Var("evalOnceErrorCode"), l, Plain), map["evalOnceErrorCode" := 0];
    OneStaysOne();
    BuiltEnds(ENV, Debug, fuel, m, store);
    BuiltEnds(ENV, Production, fuel, m, store);
  }

  /** `__Debug_String(f(0))` or `__Verify_String(0, f(0))` */
  predicate CallsInMessage(m: Macro<Items>, f: Name) {
    m == DebugString(Call(f, Lit(0))) || m == Verify(false, Lit(0), Some(Call(f, Lit(0))))
  }

  /** The calls that `f(0)` makes as a message, from an empty trace. */
  function MessageCalls(env: Env, f: Name): Trace {
    var ret := env.world(Empty, f, 0);
    var once := Then(Empty, Called(f, 0, ret));
    if ret == 0 then once else Then(once, Called(f, 0, env.world(once, f, 0)))
  }

  lemma MessageIsCalled(env: Env, f: Name, store: Store)
    ensures Show(env, Call(f, Lit(0)), State(store, Empty)).1 == State(store, MessageCalls(env, f))
    ensures CallsOf(MessageCalls(env, f)) == MessageCalls(env, f)
  {
    var ret := env.world(Empty, f, 0);
    var st1 := State(store, Then(Empty, Called(f, 0, ret)));
    assert Eval(env, Lit(0), State(store, Empty)) == (0, State(store, Empty)) && Eval(env, Lit(0), st1) == (0, st1);
  }

  lemma MessageIsPrinted(env: Env, m: Macro<Items>, f: Name, store: Store)
    requires CallsInMessage(m, f)
    ensures CallsOf(Informed(env, Debug, m, 0, State(store, Empty)).trace) == MessageCalls(env, f)
  {
    MessageIsCalled(env, f, store);
    assert MessageArg(m) == Call(f, Lit(0)) && ReportOf(m).value == Lit(0);
  }

  /** A call in a message happens in the debug expansion only, and twice if it returns a message. */
  lemma MessageConditionIsNeeded(env: Env, fuel: nat, m: Macro<Items>, f: Name, store: Store)
    requires CallsInMessage(m, f)
    ensures
      var d, p := Built(env, Debug, fuel, m, store), Built(env, Production, fuel, m, store);
      && d.Done? && p.Done? && !SameBehaviour(d, p)
      && CallsOf(d.st.trace) == MessageCalls(env, f) && CallsOf(p.st.trace) == Empty
  {
    var st := State(store, Empty);
    MessageIsPrinted(env, m, f, store);
    assert EvalOperand(env, m, st) == (0, st);
    BuiltEnds(env, Debug, fuel, m, store);
    BuiltEnds(env, Production, fuel, m, store);
  }

  /** `__Verify_noErr_String(1, evalOnceErrorCode)` */
  const SHOW_CODE: Macro<Items> := VerifyNoErr(Lit(1), Some(Var(EVAL_ONCE)))

  /** A message that names the local variable shows it in place of the null pointer that the caller has
      in a variable of that name. */
  lemma MessageCaptureConditionIsNeeded(fuel: nat)
    ensures
      var d := Built(ENV, Debug, fuel, SHOW_CODE, map[EVAL_ONCE := 0]);
      var r := RunMacro(ENV, Debug, fuel, SHOW_CODE, State(map[EVAL_ONCE := 0], Empty));
      && d.Done? && r.Done? && |MessagesOf(d.st.trace)| == |Owed(ENV, r.st.trace)| == 1
      && MessagesOf(d.st.trace)[0].shown.Some? && Owed(ENV, r.st.trace)[0].shown.None?
  {
    OneStaysOne();
    BuiltEnds(ENV, Debug, fuel, SHOW_CODE, map[EVAL_ONCE := 0]);
  }
}
