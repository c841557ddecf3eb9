/** The two builds of a program mean the same apart from diagnostics. */
module Builds {
  import opened Options
  import opened Integers
  import opened CLang
  import opened Refinement

  // ----- What both builds must share -----

  /** The external calls of a trace and the Verify and Require macros it reached, each with the
      value of its operand.  Check macros and messages are diagnostics and left out. */
  function Visible(t: Trace): Trace {
    match t
    case Empty => Empty
    case Then(past, Called(f, a, v)) => Then(Visible(past), Called(f, a, v))
    case Then(past, Printed(_)) => Visible(past)
    case Then(past, Reached(m, v, _)) =>
      if IsCheck(m) then Visible(past) else Then(Visible(past), Reached(m, v, None))
  }

  lemma {:induction false} VisibleKeepsCalls(t: Trace)
    ensures CallsOf(Visible(t)) == CallsOf(t)
  {
    if t.Then? {
      VisibleKeepsCalls(t.past);
    }
  }

  /** The states `d` of a debug run and `p` of a production run differ in diagnostics only. */
  predicate Alike(d: State, p: State) {
    d.store == p.store && Visible(d.trace) == Visible(p.trace)
  }

  predicate AlikeResults(d: Result, p: Result) {
    if p.OutOfFuel? then d.OutOfFuel? else d.Done? && d.out == p.out && Alike(d.st, p.st)
  }

  /** What the surroundings of a run can observe of two states: their stores and external calls. */
  predicate SameObserved(d: State, p: State) {
    d.store == p.store && CallsOf(d.trace) == CallsOf(p.trace)
  }

  /** Two runs end together, with the same control outcome, store and external calls. */
  predicate SameBehaviour(d: Result, p: Result) {
    d.Done? == p.Done? && (d.Done? ==> d.out == p.out && SameObserved(d.st, p.st))
  }

  lemma AlikeBehaveSame(d: Result, p: Result)
    requires AlikeResults(d, p)
    ensures SameBehaviour(d, p)
  {
    if d.Done? {
      VisibleKeepsCalls(d.st.trace);
      VisibleKeepsCalls(p.st.trace);
    }
  }

  lemma {:induction false} EvalAlike(env: Env, e: Expr, d: State, p: State)
    requires Alike(d, p)
    ensures Eval(env, e, d).0 == Eval(env, e, p).0
    ensures Alike(Eval(env, e, d).1, Eval(env, e, p).1)
    decreases e
  {
    match e
    case Lit(_) =>
    case Var(_) =>
    case Assign(_, e1) => EvalAlike(env, e1, d, p);
    case Call(_, e1) =>
      EvalAlike(env, e1, d, p);
      VisibleKeepsCalls(Eval(env, e1, d).1.trace);
      VisibleKeepsCalls(Eval(env, e1, p).1.trace);
    case Cast(_, e1) => EvalAlike(env, e1, d, p);
    case Not(e1) => EvalAlike(env, e1, d, p);
    case And(l, r) =>
      EvalAlike(env, l, d, p);
      EvalAlike(env, r, Eval(env, l, d).1, Eval(env, l, p).1);
    case Bin(_, l, r) =>
      EvalAlike(env, l, d, p);
      EvalAlike(env, r, Eval(env, l, d).1, Eval(env, l, p).1);
  }

  lemma ShowAlike(env: Env, e: Expr, d: State, p: State)
    requires Alike(d, p)
    ensures Show(env, e, d).0 == Show(env, e, p).0
    ensures Alike(Show(env, e, d).1, Show(env, e, p).1)
  {
    EvalAlike(env, e, d, p);
    EvalAlike(env, e, Eval(env, e, d).1, Eval(env, e, p).1);
  }

  // ----- Side conditions, all decidable on the source -----

  /** An operand without side effects. */
  predicate Pure(e: Expr) {
    match e
    case Lit(_) => true
    case Var(_) => true
    case Assign(_, _) => false
    case Call(_, _) => false
    case Cast(_, e1) => Pure(e1)
    case Not(e1) => Pure(e1)
    case And(l, r) => Pure(l) && Pure(r)
    case Bin(_, l, r) => Pure(l) && Pure(r)
  }

  lemma {:induction false} PureKeepsState(env: Env, e: Expr, st: State)
    requires Pure(e)
    ensures Eval(env, e, st).1 == st
  {
    match e
    case Cast(_, e1) => PureKeepsState(env, e1, st);
    case Not(e1) => PureKeepsState(env, e1, st);
    case And(l, r) => PureKeepsState(env, l, st); PureKeepsState(env, r, st);
    case Bin(_, l, r) => PureKeepsState(env, l, st); PureKeepsState(env, r, st);
    case _ =>
  }

  /** Every part of `e` is evaluated whenever `e` is. */
  predicate Unconditional(e: Expr) {
    match e
    case Lit(_) => true
    case Var(_) => true
    case Assign(_, e1) => Unconditional(e1)
    case Call(_, e1) => Unconditional(e1)
    case Cast(_, e1) => Unconditional(e1)
    case Not(e1) => Unconditional(e1)
    case And(_, _) => false
    case Bin(_, l, r) => Unconditional(l) && Unconditional(r)
  }

  /** A state in which nothing was ever stored or called. */
  const FRESH: State := State(map[], Empty)

  lemma {:induction false} EvalNeverUndoes(env: Env, e: Expr, st: State)
    requires Unconditional(e) && (st != FRESH || !Pure(e))
    ensures Eval(env, e, st).1 != FRESH
  {
    match e
    case Lit(_) =>
    case Var(_) =>
    case Assign(x, _) => assert x in Eval(env, e, st).1.store;
    case Call(_, _) =>
    case Cast(_, e1) => EvalNeverUndoes(env, e1, st);
    case Not(e1) => EvalNeverUndoes(env, e1, st);
    case Bin(_, l, r) =>
      if st != FRESH || !Pure(l) {
        EvalNeverUndoes(env, l, st);
      }
      EvalNeverUndoes(env, r, Eval(env, l, st).1);
  }

  /** Purity is exact, apart from operands of `&&` that may be skipped. */
  lemma PureExact(env: Env, e: Expr)
    requires Unconditional(e)
    ensures Pure(e) <==> Eval(env, e, FRESH).1 == FRESH
  {
    if Pure(e) {
      PureKeepsState(env, e, FRESH);
    } else {
      EvalNeverUndoes(env, e, FRESH);
    }
  }

  lemma PureShowKeepsState(env: Env, e: Expr, st: State)
    requires Pure(e)
    ensures Show(env, e, st).1 == st
  {
    PureKeepsState(env, e, st);
  }

  /** The type of `e` is no wider than a `long` of `w` bits. */
  predicate FitsLong(w: nat, e: Expr) {
    match e
    case Lit(n) => InRange(Long(w), n)
    case Assign(_, e1) => FitsLong(w, e1)
    case Cast(ty, _) => ty.width <= w
    case Not(_) => w >= 1
    case And(_, _) => w >= 1
    case Bin(op, _, _) => w >= 1 && (op.Eq? || op.Ne? || op.Lt?)
    case _ => false
  }

  lemma TruthValueKept(w: nat, v: int)
    requires w >= 1 && (v == 0 || v == 1)
    ensures Convert(Long(w), v) == 0 <==> v == 0
  {
    assert Pow2(1) == 2 * Pow2(0);
    NarrowValueKeepsTruth(CType(false, 1), w, v);
  }

  lemma {:induction false} FitsLongKeepsTruth(env: Env, e: Expr, st: State)
    requires FitsLong(env.longWidth, e)
    ensures ToLong(env, Eval(env, e, st).0) == 0 <==> Eval(env, e, st).0 == 0
    decreases e
  {
    var v := Eval(env, e, st).0;
    match e
    case Lit(_) => ConvertInRange(Long(env.longWidth), v);
    case Assign(_, e1) => FitsLongKeepsTruth(env, e1, st);
    case Cast(ty, _) => NarrowValueKeepsTruth(ty, env.longWidth, v);
    case Not(_) => TruthValueKept(env.longWidth, v);
    case And(_, _) => TruthValueKept(env.longWidth, v);
    case Bin(_, _, _) => TruthValueKept(env.longWidth, v);
    case _ =>
  }

  /** A `break` or `continue` in `s` may leave `s`. */
  predicate Escapes(s: Stmt)
    decreases s
  {
    match s
    case Break => true
    case Continue => true
    case Block(items) => EscapesItems(items)
    case IfThen(_, thn) => Escapes(thn)
    case IfElse(_, thn, els) => Escapes(thn) || Escapes(els)
    case Invoke(m) => (m.VerifyAction? || m.VerifyNoErrAction?) && EscapesItems(ActionOf(m).value)
    case _ => false
  }

  predicate EscapesItems(ss: Items)
    decreases ss
  {
    match ss
    case Nil => false
    case Cons(s, rest) => Escapes(s) || EscapesItems(rest)
    case Decl(_, _, rest) => EscapesItems(rest)
  }

  predicate Stays(r: Result) { r.Done? ==> !r.out.Broke? && !r.out.Continued? }

  lemma {:induction false} NoEscape(env: Env, b: Build, fuel: nat, s: Stmt, st: State)
    requires !Escapes(s)
    ensures Stays(Exec(env, b, fuel, s, st))
    decreases fuel, s
  {
    match s
    case Block(items) => NoEscapeItems(env, b, fuel, items, st);
    case IfThen(c, thn) => NoEscape(env, b, fuel, thn, Eval(env, c, st).1);
    case IfElse(c, thn, els) =>
      NoEscape(env, b, fuel, thn, Eval(env, c, st).1);
      NoEscape(env, b, fuel, els, Eval(env, c, st).1);
    case While(c, body) =>
      var r := Exec(env, b, fuel, body, Eval(env, c, st).1);
      if r.Done? && fuel > 0 {
        NoEscape(env, b, fuel - 1, s, r.st);
      }
    case DoWhile(body, c) =>
      var r := Exec(env, b, fuel, body, st);
      if r.Done? && fuel > 0 {
        NoEscape(env, b, fuel - 1, s, Eval(env, c, r.st).1);
      }
    case Invoke(m) =>
      if m.VerifyAction? || m.VerifyNoErrAction? {
        var (v, st1) := Eval(env, m.operand, st);
        NoEscapeItems(env, b, fuel, ActionOf(m).value, Visit(env, b, m, v, st1));
      }
    case _ =>
  }

  lemma {:induction false} NoEscapeItems(env: Env, b: Build, fuel: nat, ss: Items, st: State)
    requires !EscapesItems(ss)
    ensures Stays(ExecItems(env, b, fuel, ss, st))
    decreases fuel, ss
  {
    match ss
    case Nil =>
    case Cons(s, rest) =>
      NoEscape(env, b, fuel, s, st);
      var r := Exec(env, b, fuel, s, st);
      if r.Done? {
        NoEscapeItems(env, b, fuel, rest, r.st);
      }
    case Decl(x, init, rest) =>
      var (v, st1) := Eval(env, init, Set(st, x, env.junk));
      NoEscapeItems(env, b, fuel, rest, Set(st1, x, ToLong(env, v)));
  }

  /** The side conditions of build equivalence: Check operands and messages are pure, error codes
      whose branch matters fit in `long`, and no `break` or `continue` escapes an action of
      __Verify_noErr_Action. */
  predicate Portable(w: nat, s: Stmt)
    decreases s
  {
    match s
    case Block(items) => PortableItems(w, items)
    case IfThen(_, thn) => Portable(w, thn)
    case IfElse(_, thn, els) => Portable(w, thn) && Portable(w, els)
    case While(_, body) => Portable(w, body)
    case DoWhile(body, _) => Portable(w, body)
    case Invoke(m) => PortableMacro(w, m)
    case _ => true
  }

  predicate PortableItems(w: nat, ss: Items)
    decreases ss
  {
    match ss
    case Nil => true
    case Cons(s, rest) => Portable(w, s) && PortableItems(w, rest)
    case Decl(_, _, rest) => PortableItems(w, rest)
  }

  /** The code is stored in a `long` in one build only, and its test decides what runs next. */
  predicate Narrows<A>(m: Macro<A>) {
    m.VerifyNoErrAction? || ((m.RequireNoErr? || m.RequireNoErrAction?) && !IsQuiet(m))
  }

  predicate PortableMacro(w: nat, m: Macro<Items>)
    decreases m
  {
    && (m.Check? || m.CheckNoErr? ==> Pure(m.operand)) && Pure(MessageArg(m))
    && (Narrows(m) ==> FitsLong(w, m.operand))
    && (ActionOf(m).Some? ==> PortableItems(w, ActionOf(m).value))
    && (m.VerifyNoErrAction? ==> !EscapesItems(ActionOf(m).value))
  }

  // ----- Side conditions at run time -----

  /** Every macro that the production run of `s` from `st` comes to meets its condition there. */
  predicate Safe(env: Env, fuel: nat, s: Stmt, st: State)
    decreases fuel, s
  {
    match s
    case Block(items) => SafeItems(env, fuel, items, st)
    case IfThen(c, thn) =>
      var (v, st1) := Eval(env, c, st);
      v != 0 ==> Safe(env, fuel, thn, st1)
    case IfElse(c, thn, els) =>
      var (v, st1) := Eval(env, c, st);
      if v != 0 then Safe(env, fuel, thn, st1) else Safe(env, fuel, els, st1)
    case While(c, body) =>
      var (v, st1) := Eval(env, c, st);
      v != 0 ==>
        && Safe(env, fuel, body, st1)
        && var r := Exec(env, Production, fuel, body, st1);
           fuel > 0 && Repeats(r) ==> Safe(env, fuel - 1, s, r.st)
    case DoWhile(body, c) =>
      && Safe(env, fuel, body, st)
      && var r := Exec(env, Production, fuel, body, st);
         fuel > 0 && Repeats(r) ==>
           var (v, st1) := Eval(env, c, r.st);
           v != 0 ==> Safe(env, fuel - 1, s, st1)
    case Invoke(m) => SafeMacro(env, fuel, m, st)
    case _ => true
  }

  /** A loop body with this result lets its loop test again. */
  predicate Repeats(r: Result) { r.Done? && (r.out.Normal? || r.out.Continued?) }

  predicate SafeItems(env: Env, fuel: nat, ss: Items, st: State)
    decreases fuel, ss
  {
    match ss
    case Nil => true
    case Cons(s, rest) =>
      && Safe(env, fuel, s, st)
      && var r := Exec(env, Production, fuel, s, st);
         r.Done? && r.out.Normal? ==> SafeItems(env, fuel, rest, r.st)
    case Decl(x, init, rest) =>
      var (v, st1) := Eval(env, init, Set(st, x, env.junk));
      SafeItems(env, fuel, rest, Set(st1, x, ToLong(env, v)))
  }

  /** The operand of a Check macro and the message of any macro have no effect, no `break` or
      `continue` that debug would absorb leaves the action, and a code that fails in production only
      has an action that changes nothing and leads nowhere. */
  predicate SafeMacro(env: Env, fuel: nat, m: Macro<Items>, st: State)
    decreases fuel, m
  {
    var (v, st1) := EvalOperand(env, m, st);
    var d, p := Visit(env, Debug, m, v, st1), Visit(env, Production, m, v, st1);
    if IsCheck(m) then Alike(d, st) else
    && Alike(d, p)
    && (Fails(env, Production, m, v) ==>
          && (ActionOf(m).Some? ==> SafeItems(env, fuel, ActionOf(m).value, p))
          && var a := RunAction(env, Production, fuel, m, p);
             if Fails(env, Debug, m, v) then m.VerifyNoErrAction? ==> Stays(a)
             else a.Done? && Alike(p, a.st) && After(Production, m, a.out).Normal?)
  }

  /** The reference runs of the two builds agree on outcome, store, calls and operands if every macro
      that the production run comes to meets its condition. */
  lemma {:induction false} SafeRunsAlike(env: Env, fuel: nat, s: Stmt, d: State, p: State)
    requires Safe(env, fuel, s, p) && Alike(d, p)
    ensures AlikeResults(Exec(env, Debug, fuel, s, d), Exec(env, Production, fuel, s, p))
    decreases fuel, s, 1
  {
    match s
    case Do(e) => EvalAlike(env, e, d, p);
    case Block(items) => SafeItemsRunAlike(env, fuel, items, d, p);
    case IfThen(c, thn) =>
      EvalAlike(env, c, d, p);
      if Eval(env, c, p).0 != 0 {
        SafeRunsAlike(env, fuel, thn, Eval(env, c, d).1, Eval(env, c, p).1);
      }
    case IfElse(c, thn, els) =>
      EvalAlike(env, c, d, p);
      SafeRunsAlike(env, fuel, if Eval(env, c, p).0 != 0 then thn else els, Eval(env, c, d).1, Eval(env, c, p).1);
    case While(c, body) =>
      EvalAlike(env, c, d, p);
      var d1 := Eval(env, c, d).1;
      var (v, p1) := Eval(env, c, p);
      if v != 0 {
        SafeRunsAlike(env, fuel, body, d1, p1);
        var rd, rp := Exec(env, Debug, fuel, body, d1), Exec(env, Production, fuel, body, p1);
        if Repeats(rp) && fuel > 0 {
          SafeRunsAlike(env, fuel - 1, s, rd.st, rp.st);
        }
      }
    case DoWhile(body, c) =>
      SafeRunsAlike(env, fuel, body, d, p);
      var rd, rp := Exec(env, Debug, fuel, body, d), Exec(env, Production, fuel, body, p);
      if Repeats(rp) {
        EvalAlike(env, c, rd.st, rp.st);
        if fuel > 0 && Eval(env, c, rp.st).0 != 0 {
          SafeRunsAlike(env, fuel - 1, s, Eval(env, c, rd.st).1, Eval(env, c, rp.st).1);
        }
      }
    case Return(e) => EvalAlike(env, e, d, p);
    case Emit(r) =>
      ShowAlike(env, r.message, d, p);
      EvalAlike(env, r.value, Show(env, r.message, d).1, Show(env, r.message, p).1);
    case Invoke(m) => SafeMacroRunsAlike(env, fuel, m, d, p);
    case _ =>
  }

  lemma {:induction false} SafeItemsRunAlike(env: Env, fuel: nat, ss: Items, d: State, p: State)
    requires SafeItems(env, fuel, ss, p) && Alike(d, p)
    ensures AlikeResults(ExecItems(env, Debug, fuel, ss, d), ExecItems(env, Production, fuel, ss, p))
    decreases fuel, ss, 1
  {
    match ss
    case Nil =>
    case Cons(s, rest) =>
      SafeRunsAlike(env, fuel, s, d, p);
      var rd, rp := Exec(env, Debug, fuel, s, d), Exec(env, Production, fuel, s, p);
      if rp.Done? && rp.out.Normal? {
        SafeItemsRunAlike(env, fuel, rest, rd.st, rp.st);
      }
    case Decl(x, init, rest) =>
      var d0, p0 := Set(d, x, env.junk), Set(p, x, env.junk);
      EvalAlike(env, init, d0, p0);
      var (v, d1) := Eval(env, init, d0);
      var p1 := Eval(env, init, p0).1;
      SafeItemsRunAlike(env, fuel, rest, Set(d1, x, ToLong(env, v)), Set(p1, x, ToLong(env, v)));
  }

  lemma VisitAlike(env: Env, m: Macro<Items>, d: State, p: State)
    requires Alike(d, p)
    ensures
      var (v, d1) := EvalOperand(env, m, d);
      var (w, p1) := EvalOperand(env, m, p);
      v == w && Alike(Visit(env, Debug, m, v, d1), Visit(env, Debug, m, v, p1))
  {
    if !m.DebugString? {
      EvalAlike(env, m.operand, d, p);
    }
    ShowAlike(env, MessageArg(m), EvalOperand(env, m, d).1, EvalOperand(env, m, p).1);
  }

  /** An assertion that fails in debug also fails in production. */
  lemma DebugFailureIsShared(env: Env, m: Macro<Items>, v: int)
    requires Fails(env, Debug, m, v)
    ensures Fails(env, Production, m, v)
  {
    SmallRemainder(0, Pow2(env.longWidth));
  }

  lemma {:induction false} SafeMacroRunsAlike(env: Env, fuel: nat, m: Macro<Items>, d: State, p: State)
    requires SafeMacro(env, fuel, m, p) && Alike(d, p)
    ensures AlikeResults(RunMacro(env, Debug, fuel, m, d), RunMacro(env, Production, fuel, m, p))
    decreases fuel, m, 0
  {
    VisitAlike(env, m, d, p);
    RunMacroFinishes(env, Debug, fuel, m, d);
    if !IsCheck(m) {
      RunMacroFinishes(env, Production, fuel, m, p);
      var (v, d1) := EvalOperand(env, m, d);
      var p1 := EvalOperand(env, m, p).1;
      var d2, p2 := Visit(env, Debug, m, v, d1), Visit(env, Production, m, v, p1);
      if Fails(env, Debug, m, v) {
        DebugFailureIsShared(env, m, v);
        if ActionOf(m).Some? {
          SafeItemsRunAlike(env, fuel, ActionOf(m).value, d2, p2);
        }
      }
    }
  }

  // ----- Portable programs are safe -----

  lemma {:induction false} PortableIsSafe(env: Env, fuel: nat, s: Stmt, st: State)
    requires Portable(env.longWidth, s)
    ensures Safe(env, fuel, s, st)
    decreases fuel, s, 1
  {
    match s
    case Block(items) => PortableItemsAreSafe(env, fuel, items, st);
    case IfThen(c, thn) => PortableIsSafe(env, fuel, thn, Eval(env, c, st).1);
    case IfElse(c, thn, els) =>
      PortableIsSafe(env, fuel, thn, Eval(env, c, st).1);
      PortableIsSafe(env, fuel, els, Eval(env, c, st).1);
    case While(c, body) =>
      var st1 := Eval(env, c, st).1;
      PortableIsSafe(env, fuel, body, st1);
      var r := Exec(env, Production, fuel, body, st1);
      if r.Done? && fuel > 0 {
        PortableIsSafe(env, fuel - 1, s, r.st);
      }
    case DoWhile(body, c) =>
      PortableIsSafe(env, fuel, body, st);
      var r := Exec(env, Production, fuel, body, st);
      if r.Done? && fuel > 0 {
        PortableIsSafe(env, fuel - 1, s, Eval(env, c, r.st).1);
      }
    case Invoke(m) => PortableMacroIsSafe(env, fuel, m, st);
    case _ =>
  }

  lemma {:induction false} PortableItemsAreSafe(env: Env, fuel: nat, ss: Items, st: State)
    requires PortableItems(env.longWidth, ss)
    ensures SafeItems(env, fuel, ss, st)
    decreases fuel, ss, 1
  {
    match ss
    case Nil =>
    case Cons(s, rest) =>
      PortableIsSafe(env, fuel, s, st);
      var r := Exec(env, Production, fuel, s, st);
      if r.Done? {
        PortableItemsAreSafe(env, fuel, rest, r.st);
      }
    case Decl(x, init, rest) =>
      var (v, st1) := Eval(env, init, Set(st, x, env.junk));
      PortableItemsAreSafe(env, fuel, rest, Set(st1, x, ToLong(env, v)));
  }

  lemma {:induction false} PortableMacroIsSafe(env: Env, fuel: nat, m: Macro<Items>, st: State)
    requires PortableMacro(env.longWidth, m)
    ensures SafeMacro(env, fuel, m, st)
    decreases fuel, m, 0
  {
    var (v, st1) := EvalOperand(env, m, st);
    PureShowKeepsState(env, MessageArg(m), st1);
    if m.Check? || m.CheckNoErr? {
      PureKeepsState(env, m.operand, st);
    }
    if Narrows(m) {
      FitsLongKeepsTruth(env, m.operand, st);
    }
    if ActionOf(m).Some? {
      var p := Visit(env, Production, m, v, st1);
      PortableItemsAreSafe(env, fuel, ActionOf(m).value, p);
      if m.VerifyNoErrAction? {
        NoEscapeItems(env, Production, fuel, ActionOf(m).value, p);
      }
    }
  }

  /** The reference runs of a portable program agree. */
  lemma RunsAlike(env: Env, fuel: nat, s: Stmt, d: State, p: State)
    requires Portable(env.longWidth, s) && Alike(d, p)
    ensures AlikeResults(Exec(env, Debug, fuel, s, d), Exec(env, Production, fuel, s, p))
  {
    PortableIsSafe(env, fuel, s, p);
    SafeRunsAlike(env, fuel, s, d, p);
  }
}
