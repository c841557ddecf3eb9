/** Function bodies: sequences of statements, some of which carry the exception labels that the
    Require macros jump to. */
module Functions {
  import opened Options
  import opened CLang
  import opened Expansion
  import opened Refinement
  import opened Builds
  import opened Summaries

  datatype Segment = Segment(dest: Option<Name>, s: Stmt)

  type Body = seq<Segment>

  /** The first segment at or after `i` that carries label `l`. */
  function FindLabel(f: Body, l: Name, i: nat): (j: Option<nat>)
    requires i <= |f|
    ensures j.Some? ==> i <= j.value < |f|
    decreases |f| - i
  {
    if i == |f| then None
    else if f[i].dest == Some(l) then Some(i)
    else FindLabel(f, l, i + 1)
  }

  /** The segment that runs after segment `i` has ended with outcome `out`; none if that outcome leaves
      the function. */
  function Next(f: Body, i: nat, out: Outcome): (j: Option<nat>)
    requires i < |f|
    ensures j.Some? ==> j.value <= |f|
  {
    match out
    case Normal => Some(i + 1)
    case Jumped(l) => FindLabel(f, l, 0)
    case _ => None
  }

  /** Runs the body from segment `i`.  A backward jump spends fuel, a forward jump does not. */
  function RunFrom(env: Env, b: Build, fuel: nat, f: Body, i: nat, st: State): Result
    requires i <= |f|
    decreases fuel, |f| - i
  {
    if i == |f| then Done(st, Normal) else
    match Exec(env, b, fuel, f[i].s, st)
    case OutOfFuel => OutOfFuel
    case Done(st1, out) =>
      match Next(f, i, out)
      case None => Done(st1, out)
      case Some(j) =>
        if j > i then RunFrom(env, b, fuel, f, j, st1)
        else if fuel == 0 then OutOfFuel
        else RunFrom(env, b, fuel - 1, f, j, st1)
  }

  // ----- Where a jump lands -----

  /** Segment `j` is the first that carries label `l`. */
  predicate Carries(f: Body, j: nat, l: Name) {
    j < |f| && f[j].dest == Some(l) && forall k | 0 <= k < j :: f[k].dest != Some(l)
  }

  predicate CarriedBySome(f: Body, l: Name) { exists k | 0 <= k < |f| :: f[k].dest == Some(l) }

  lemma {:induction false} FindLabelExact(f: Body, l: Name, i: nat)
    requires i <= |f| && forall k | 0 <= k < i :: f[k].dest != Some(l)
    ensures forall j: nat :: Carries(f, j, l) <==> FindLabel(f, l, i) == Some(j)
    ensures CarriedBySome(f, l) <==> FindLabel(f, l, i).Some?
    decreases |f| - i
  {
    if i < |f| && f[i].dest != Some(l) {
      FindLabelExact(f, l, i + 1);
    }
  }

  /** A segment that jumps to `l` goes on at the segment that carries `l`, for a backward jump with the
      fuel that it costs. */
  lemma JumpLands(env: Env, b: Build, fuel: nat, f: Body, i: nat, l: Name, j: nat, st: State, st1: State)
    requires i < |f| && Exec(env, b, fuel, f[i].s, st) == Done(st1, Jumped(l)) && Carries(f, j, l)
    ensures RunFrom(env, b, fuel, f, i, st) ==
            if i < j then RunFrom(env, b, fuel, f, j, st1)
            else if fuel == 0 then OutOfFuel
            else RunFrom(env, b, fuel - 1, f, j, st1)
  {
    FindLabelExact(f, l, 0);
  }

  /** A jump to a label that no segment carries leaves the function, as `break`, `continue` and `return`
      do; a segment that ends normally is followed by the next, and the last by the end. */
  lemma SegmentEnds(env: Env, b: Build, fuel: nat, f: Body, i: nat, st: State, st1: State, out: Outcome)
    requires i < |f| && Exec(env, b, fuel, f[i].s, st) == Done(st1, out)
    ensures out.Normal? ==> RunFrom(env, b, fuel, f, i, st) == RunFrom(env, b, fuel, f, i + 1, st1)
    ensures out.Jumped? && !CarriedBySome(f, out.dest) ==> RunFrom(env, b, fuel, f, i, st) == Done(st1, out)
    ensures !out.Normal? && !out.Jumped? ==> RunFrom(env, b, fuel, f, i, st) == Done(st1, out)
    ensures RunFrom(env, b, fuel, f, |f|, st) == Done(st, Normal)
  {
    if out.Jumped? {
      FindLabelExact(f, out.dest, 0);
    }
  }

  function ExpandBody(b: Build, f: Body): Body {
    seq(|f|, i requires 0 <= i < |f| => Segment(f[i].dest, Expand(b, f[i].s)))
  }

  predicate SameLabels(f: Body, g: Body) {
    |f| == |g| && forall i | 0 <= i < |f| :: f[i].dest == g[i].dest
  }

  lemma {:induction false} FindLabelSame(f: Body, g: Body, l: Name, i: nat)
    requires SameLabels(f, g) && i <= |f|
    ensures FindLabel(f, l, i) == FindLabel(g, l, i)
    decreases |f| - i
  {
    if i < |f| {
      FindLabelSame(f, g, l, i + 1);
    }
  }

  lemma NextSame(f: Body, g: Body, i: nat, out: Outcome)
    requires SameLabels(f, g) && i < |f|
    ensures Next(f, i, out) == Next(g, i, out)
  {
    if out.Jumped? {
      FindLabelSame(f, g, out.dest, 0);
    }
  }

  // ----- Both builds of a function -----

  predicate BodyAvoids(h: set<Name>, f: Body) {
    forall i | 0 <= i < |f| :: Avoids(h, f[i].s)
  }

  predicate BodyPortable(w: nat, f: Body) {
    forall i | 0 <= i < |f| :: Portable(w, f[i].s)
  }

  lemma {:induction false} BodySimulates(env: Env, b: Build, fuel: nat, f: Body, i: nat, x: State, r: State)
    requires i <= |f| && BodyAvoids(Hidden(b), f) && Simulates(env, b, Hidden(b), x, r)
    ensures Matches(env, b, Hidden(b), x, r, RunFrom(env, b, fuel, ExpandBody(b, f), i, x), RunFrom(env, b, fuel, f, i, r))
    decreases fuel, |f| - i
  {
    if i < |f| {
      ExpandSimulates(env, b, fuel, f[i].s, x, r);
      var x1, r1 := Exec(env, b, fuel, Expand(b, f[i].s), x), Exec(env, b, fuel, f[i].s, r);
      if r1.Done? {
        var next := Next(f, i, r1.out);
        NextSame(f, ExpandBody(b, f), i, r1.out);
        if next.Some? && (next.value > i || fuel > 0) {
          var left := if next.value > i then fuel else fuel - 1;
          BodySimulates(env, b, left, f, next.value, x1.st, r1.st);
          MatchesFrom(env, b, x, r, x1.st, r1.st,
                      RunFrom(env, b, left, ExpandBody(b, f), next.value, x1.st), RunFrom(env, b, left, f, next.value, r1.st));
        }
      }
    }
  }

  /** Every macro that the production run of `f` comes to, from segment `i` on, meets its condition. */
  predicate BodySafe(env: Env, fuel: nat, f: Body, i: nat, st: State)
    requires i <= |f|
    decreases fuel, |f| - i
  {
    i < |f| ==>
      && Safe(env, fuel, f[i].s, st)
      && var r := Exec(env, Production, fuel, f[i].s, st);
         r.Done? ==>
           match Next(f, i, r.out)
           case None => true
           case Some(j) =>
             if j > i then BodySafe(env, fuel, f, j, r.st) else fuel > 0 ==> BodySafe(env, fuel - 1, f, j, r.st)
  }

  lemma {:induction false} BodyRunsAlike(env: Env, fuel: nat, f: Body, i: nat, d: State, p: State)
    requires i <= |f| && BodySafe(env, fuel, f, i, p) && Alike(d, p)
    ensures AlikeResults(RunFrom(env, Debug, fuel, f, i, d), RunFrom(env, Production, fuel, f, i, p))
    decreases fuel, |f| - i
  {
    if i < |f| {
      SafeRunsAlike(env, fuel, f[i].s, d, p);
      var d1, p1 := Exec(env, Debug, fuel, f[i].s, d), Exec(env, Production, fuel, f[i].s, p);
      if p1.Done? {
        var next := Next(f, i, p1.out);
        if next.Some? && (next.value > i || fuel > 0) {
          BodyRunsAlike(env, if next.value > i then fuel else fuel - 1, f, next.value, d1.st, p1.st);
        }
      }
    }
  }

  lemma {:induction false} PortableBodyIsSafe(env: Env, fuel: nat, f: Body, i: nat, st: State)
    requires i <= |f| && BodyPortable(env.longWidth, f)
    ensures BodySafe(env, fuel, f, i, st)
    decreases fuel, |f| - i
  {
    if i < |f| {
      PortableIsSafe(env, fuel, f[i].s, st);
      var r := Exec(env, Production, fuel, f[i].s, st);
      if r.Done? {
        var next := Next(f, i, r.out);
        if next.Some? && (next.value > i || fuel > 0) {
          PortableBodyIsSafe(env, if next.value > i then fuel else fuel - 1, f, next.value, r.st);
        }
      }
    }
  }

  /** The run of build `b` of function `f`, from a store and an empty trace. */
  function Compiled(env: Env, b: Build, fuel: nat, f: Body, store: Store): Result {
    RunFrom(env, b, fuel, ExpandBody(b, f), 0, State(store, Empty))
  }

  /** The reference run of build `b` of function `f`. */
  function Reference(env: Env, b: Build, fuel: nat, f: Body, store: Store): Result {
    RunFrom(env, b, fuel, f, 0, State(store, Empty))
  }

  /** The expanded function refines its reference run, whatever its labels and jumps. */
  lemma FunctionRefines(env: Env, b: Build, fuel: nat, f: Body, store: Store)
    requires BodyAvoids(Hidden(b), f)
    ensures
      var x, r := Compiled(env, b, fuel, f, store), Reference(env, b, fuel, f, store);
      && x.Done? == r.Done?
      && (x.Done? ==> x.out == r.out && x.st.store == r.st.store && x.st.trace == Render(env, b, r.st.trace))
  {
    var st := State(store, Empty);
    BodySimulates(env, b, fuel, f, 0, st, st);
    var x, r := Compiled(env, b, fuel, f, store), Reference(env, b, fuel, f, store);
    if x.Done? {
      StoresEqual(b, store, x.st.store, r.st.store);
    }
  }

  /** A failed Require goes on at its exception label, in both builds: with the state after its operand
      and, in debug, its message. */
  lemma FailedRequireLands(env: Env, b: Build, fuel: nat, f: Body, i: nat, j: nat,
                           neg: bool, e: Expr, l: Name, msg: Option<Expr>, x: State)
    requires i < j && Carries(f, j, l) && f[i].s == Invoke(Require(neg, e, l, Form(msg)))
    requires !Holds(neg, Eval(env, e, x).0)
    ensures
      var x1 := Eval(env, e, x).1;
      var x2 := if b.Debug? then Says(env, Shown(neg, e), Some(l), msg, false, x1) else x1;
      RunFrom(env, b, fuel, ExpandBody(b, f), i, x) == RunFrom(env, b, fuel, ExpandBody(b, f), j, x2)
  {
    var g, x1 := ExpandBody(b, f), Eval(env, e, x).1;
    var x2 := if b.Debug? then Says(env, Shown(neg, e), Some(l), msg, false, x1) else x1;
    RequireSummary(env, b, fuel, neg, e, l, msg, x);
    var m: Macro<Items> := Require(neg, e, l, Form(msg));
    assert ExpandAction(b, m) == m && g[i].s == Expand(b, Invoke(m));
    JumpLands(env, b, fuel, g, i, l, j, x, x2);
  }

  /** The expanded function behaves like its reference run. */
  lemma FunctionBehavesSame(env: Env, b: Build, fuel: nat, f: Body, store: Store)
    requires BodyAvoids(Hidden(b), f)
    ensures SameBehaviour(Compiled(env, b, fuel, f, store), Reference(env, b, fuel, f, store))
  {
    FunctionRefines(env, b, fuel, f, store);
    var r := Reference(env, b, fuel, f, store);
    if r.Done? {
      RenderKeepsCalls(env, b, r.st.trace);
    }
  }

  /** Build equivalence from a store: the debug and production expansions of a function end together,
      in the same store, with the same control outcome and the same external calls, if every macro
      that the production run comes to meets its condition there. */
  lemma RunEquivalence(env: Env, fuel: nat, f: Body, store: Store)
    requires BodyAvoids({EVAL_ONCE}, f) && BodySafe(env, fuel, f, 0, State(store, Empty))
    ensures SameBehaviour(Compiled(env, Debug, fuel, f, store), Compiled(env, Production, fuel, f, store))
  {
    BodyAvoidsNothing(f);
    FunctionBehavesSame(env, Debug, fuel, f, store);
    FunctionBehavesSame(env, Production, fuel, f, store);
    BodyRunsAlike(env, fuel, f, 0, State(store, Empty), State(store, Empty));
    AlikeBehaveSame(Reference(env, Debug, fuel, f, store), Reference(env, Production, fuel, f, store));
  }

  /** Build equivalence: both expansions of a portable function behave the same, from every store. */
  lemma BuildEquivalence(env: Env, fuel: nat, f: Body, store: Store)
    requires BodyAvoids({EVAL_ONCE}, f) && BodyPortable(env.longWidth, f)
    ensures SameBehaviour(Compiled(env, Debug, fuel, f, store), Compiled(env, Production, fuel, f, store))
  {
    PortableBodyIsSafe(env, fuel, f, 0, State(store, Empty));
    RunEquivalence(env, fuel, f, store);
  }

  lemma BodyAvoidsNothing(f: Body)
    ensures BodyAvoids({}, f)
  {
    forall i | 0 <= i < |f| ensures Avoids({}, f[i].s) {
      AvoidsNothing(f[i].s);
    }
  }

  lemma {:induction false} AvoidsNothing(s: Stmt)
    ensures Avoids({}, s)
    decreases s
  {
    match s
    case Do(e) => AvoidsNothingExpr(e);
    case Block(items) => AvoidsNothingItems(items);
    case IfThen(c, thn) => AvoidsNothingExpr(c); AvoidsNothing(thn);
    case IfElse(c, thn, els) => AvoidsNothingExpr(c); AvoidsNothing(thn); AvoidsNothing(els);
    case While(c, body) => AvoidsNothingExpr(c); AvoidsNothing(body);
    case DoWhile(body, c) => AvoidsNothingExpr(c); AvoidsNothing(body);
    case Return(e) => AvoidsNothingExpr(e);
    case Emit(r) => AvoidsNothingExpr(r.message); AvoidsNothingExpr(r.value);
    case Invoke(m) =>
      if !m.DebugString? {
        AvoidsNothingExpr(m.operand);
      }
      AvoidsNothingExpr(MessageArg(m));
      if ActionOf(m).Some? {
        AvoidsNothingItems(ActionOf(m).value);
      }
    case _ =>
  }

  lemma {:induction false} AvoidsNothingItems(ss: Items)
    ensures AvoidsItems({}, ss)
    decreases ss
  {
    match ss
    case Nil =>
    case Cons(s, rest) => AvoidsNothing(s); AvoidsNothingItems(rest);
    case Decl(_, init, rest) => AvoidsNothingExpr(init); AvoidsNothingItems(rest);
  }

  lemma AvoidsNothingExpr(e: Expr)
    ensures AvoidsExpr({}, e)
  {
  }

  // ----- Diagnostics -----

  /** The messages of a trace, in order. */
  function MessagesOf(t: Trace): seq<Message> {
    match t
    case Empty => []
    case Then(past, e) => MessagesOf(past) + if e.Printed? then [e.msg] else []
  }

  /** The messages owed for a reference trace: one for each debug string and each failed assertion
      of a non-quiet macro that was reached, in the order in which they were reached. */
  function Owed(env: Env, t: Trace): seq<Message> {
    match t
    case Empty => []
    case Then(past, Reached(m, v, shown)) =>
      Owed(env, past) + if !IsQuiet(m) && Fails(env, Debug, m, v) then [MessageOf(env, m, v, shown)] else []
    case Then(past, _) => Owed(env, past)
  }

  /** The program itself prints no assertion messages. */
  predicate EmitFree(s: Stmt)
    decreases s
  {
    match s
    case Emit(_) => false
    case Block(items) => EmitFreeItems(items)
    case IfThen(_, thn) => EmitFree(thn)
    case IfElse(_, thn, els) => EmitFree(thn) && EmitFree(els)
    case While(_, body) => EmitFree(body)
    case DoWhile(body, _) => EmitFree(body)
    case Invoke(m) => ActionOf(m).Some? ==> EmitFreeItems(ActionOf(m).value)
    case _ => true
  }

  predicate EmitFreeItems(ss: Items)
    decreases ss
  {
    match ss
    case Nil => true
    case Cons(s, rest) => EmitFree(s) && EmitFreeItems(rest)
    case Decl(_, _, rest) => EmitFreeItems(rest)
  }

  predicate BodyEmitFree(f: Body) {
    forall i | 0 <= i < |f| :: EmitFree(f[i].s)
  }

  /** The trace holds no message and, in production, no visit to a Check macro and no message shown. */
  predicate Silent(b: Build, t: Trace) {
    match t
    case Empty => true
    case Then(past, e) =>
      Silent(b, past) && !e.Printed? && (b.Production? && e.Reached? ==> !IsCheck(e.m) && e.shown.None?)
  }

  /** A silent production trace is its own visible part. */
  lemma {:induction false} SilentIsVisible(t: Trace)
    requires Silent(Production, t)
    ensures Visible(t) == t
  {
    if t.Then? {
      SilentIsVisible(t.past);
    }
  }

  lemma {:induction false} EvalSilent(env: Env, b: Build, e: Expr, st: State)
    requires Silent(b, st.trace)
    ensures Silent(b, Eval(env, e, st).1.trace)
    decreases e
  {
    match e
    case Assign(_, e1) => EvalSilent(env, b, e1, st);
    case Call(_, e1) => EvalSilent(env, b, e1, st);
    case Cast(_, e1) => EvalSilent(env, b, e1, st);
    case Not(e1) => EvalSilent(env, b, e1, st);
    case And(l, r) => EvalSilent(env, b, l, st); EvalSilent(env, b, r, Eval(env, l, st).1);
    case Bin(_, l, r) => EvalSilent(env, b, l, st); EvalSilent(env, b, r, Eval(env, l, st).1);
    case _ =>
  }

  lemma VisitSilent(env: Env, b: Build, m: Macro<Items>, st: State)
    requires Silent(b, st.trace) && !(b.Production? && IsCheck(m))
    ensures
      var (v, st1) := EvalOperand(env, m, st);
      Silent(b, Visit(env, b, m, v, st1).trace)
  {
    var st1 := EvalOperand(env, m, st).1;
    if !m.DebugString? {
      EvalSilent(env, b, m.operand, st);
    }
    EvalSilent(env, b, MessageArg(m), st1);
    EvalSilent(env, b, MessageArg(m), Eval(env, MessageArg(m), st1).1);
  }

  predicate SilentResult(b: Build, r: Result) { r.Done? ==> Silent(b, r.st.trace) }

  lemma {:induction false} ExecSilent(env: Env, b: Build, fuel: nat, s: Stmt, st: State)
    requires EmitFree(s) && Silent(b, st.trace)
    ensures SilentResult(b, Exec(env, b, fuel, s, st))
    decreases fuel, s
  {
    match s
    case Do(e) => EvalSilent(env, b, e, st);
    case Block(items) => ExecItemsSilent(env, b, fuel, items, st);
    case IfThen(c, thn) =>
      EvalSilent(env, b, c, st);
      ExecSilent(env, b, fuel, thn, Eval(env, c, st).1);
    case IfElse(c, thn, els) =>
      EvalSilent(env, b, c, st);
      ExecSilent(env, b, fuel, thn, Eval(env, c, st).1);
      ExecSilent(env, b, fuel, els, Eval(env, c, st).1);
    case While(c, body) =>
      EvalSilent(env, b, c, st);
      var st1 := Eval(env, c, st).1;
      ExecSilent(env, b, fuel, body, st1);
      var r := Exec(env, b, fuel, body, st1);
      if r.Done? && fuel > 0 {
        ExecSilent(env, b, fuel - 1, s, r.st);
      }
    case DoWhile(body, c) =>
      ExecSilent(env, b, fuel, body, st);
      var r := Exec(env, b, fuel, body, st);
      if r.Done? {
        EvalSilent(env, b, c, r.st);
        if fuel > 0 {
          ExecSilent(env, b, fuel - 1, s, Eval(env, c, r.st).1);
        }
      }
    case Return(e) => EvalSilent(env, b, e, st);
    case Invoke(m) =>
      if !(b.Production? && IsCheck(m)) {
        VisitSilent(env, b, m, st);
        if ActionOf(m).Some? {
          var (v, st1) := EvalOperand(env, m, st);
          ExecItemsSilent(env, b, fuel, ActionOf(m).value, Visit(env, b, m, v, st1));
        }
      }
    case _ =>
  }

  lemma {:induction false} ExecItemsSilent(env: Env, b: Build, fuel: nat, ss: Items, st: State)
    requires EmitFreeItems(ss) && Silent(b, st.trace)
    ensures SilentResult(b, ExecItems(env, b, fuel, ss, st))
    decreases fuel, ss
  {
    match ss
    case Nil =>
    case Cons(s, rest) =>
      ExecSilent(env, b, fuel, s, st);
      var r := Exec(env, b, fuel, s, st);
      if r.Done? {
        ExecItemsSilent(env, b, fuel, rest, r.st);
      }
    case Decl(x, init, rest) =>
      EvalSilent(env, b, init, Set(st, x, env.junk));
      var (v, st1) := Eval(env, init, Set(st, x, env.junk));
      ExecItemsSilent(env, b, fuel, rest, Set(st1, x, ToLong(env, v)));
  }

  lemma {:induction false} RunFromSilent(env: Env, b: Build, fuel: nat, f: Body, i: nat, st: State)
    requires i <= |f| && BodyEmitFree(f) && Silent(b, st.trace)
    ensures SilentResult(b, RunFrom(env, b, fuel, f, i, st))
    decreases fuel, |f| - i
  {
    if i < |f| {
      ExecSilent(env, b, fuel, f[i].s, st);
      var r := Exec(env, b, fuel, f[i].s, st);
      if r.Done? {
        var next := Next(f, i, r.out);
        if next.Some? && (next.value > i || fuel > 0) {
          RunFromSilent(env, b, if next.value > i then fuel else fuel - 1, f, next.value, r.st);
        }
      }
    }
  }

  lemma {:induction false} RenderedMessages(env: Env, b: Build, t: Trace)
    requires Silent(b, t)
    ensures MessagesOf(Render(env, b, t)) == if b.Debug? then Owed(env, t) else []
  {
    if t.Then? {
      RenderedMessages(env, b, t.past);
    }
  }

  lemma MessagesExact(env: Env, b: Build, fuel: nat, f: Body, store: Store)
    requires BodyAvoids(Hidden(b), f) && BodyEmitFree(f)
    ensures
      var x, r := Compiled(env, b, fuel, f, store), Reference(env, b, fuel, f, store);
      x.Done? == r.Done? && (x.Done? ==> MessagesOf(x.st.trace) == if b.Debug? then Owed(env, r.st.trace) else [])
  {
    FunctionRefines(env, b, fuel, f, store);
    RunFromSilent(env, b, fuel, f, 0, State(store, Empty));
    var r := Reference(env, b, fuel, f, store);
    if r.Done? {
      RenderedMessages(env, b, r.st.trace);
    }
  }

  /** Trace exactness: the debug build prints exactly the messages owed for the macros that its
      reference run reached, and the production build prints none. */
  lemma TraceExactness(env: Env, fuel: nat, f: Body, store: Store)
    requires BodyAvoids({EVAL_ONCE}, f) && BodyEmitFree(f)
    ensures
      var d, r := Compiled(env, Debug, fuel, f, store), Reference(env, Debug, fuel, f, store);
      d.Done? == r.Done? && (d.Done? ==> MessagesOf(d.st.trace) == Owed(env, r.st.trace))
    ensures
      var p := Compiled(env, Production, fuel, f, store);
      p.Done? ==> MessagesOf(p.st.trace) == []
  {
    BodyAvoidsNothing(f);
    MessagesExact(env, Debug, fuel, f, store);
    MessagesExact(env, Production, fuel, f, store);
  }

  /** Evaluation count: if every macro that the production run of a function comes to meets its
      condition, its reference trace is exactly that of the debug run without its visits to Check
      macros and its messages.  So both builds evaluate the same
      Verify and Require operands to the same values, in the same order and between the same calls,
      and no Check operand is evaluated in production. */
  lemma EvaluationCount(env: Env, fuel: nat, f: Body, store: Store)
    requires BodyEmitFree(f) && BodySafe(env, fuel, f, 0, State(store, Empty))
    ensures
      var d, p := Reference(env, Debug, fuel, f, store), Reference(env, Production, fuel, f, store);
      d.Done? == p.Done? && (p.Done? ==> p.st.trace == Visible(d.st.trace))
  {
    var st := State(store, Empty);
    BodyRunsAlike(env, fuel, f, 0, st, st);
    RunFromSilent(env, Production, fuel, f, 0, st);
    var p := Reference(env, Production, fuel, f, store);
    if p.Done? {
      SilentIsVisible(p.st.trace);
    }
  }
}
