/** What each macro does, form by form, as the comment in front of its definition says.  The laws are about
    the run of the definition itself and name neither the rule nor the report that the definitions share. */
module Summaries {
  import opened Options
  import opened Integers
  import opened CLang
  import opened Expansion
  import opened Refinement

  // ----- Words of the comments -----

  /** The assertion holds for operand value `v`; `neg` marks an __n* macro. */
  predicate Holds(neg: bool, v: int) { if neg then v == 0 else v != 0 }

  /** The assertion as the message shows it. */
  function Shown(neg: bool, e: Expr): Text { Stringized(if neg then Not(e) else e) }

  /** The plain form, or the _String form with its message. */
  function Form(msg: Option<Expr>): Diagnostic { if msg.None? then Plain else WithString(msg.value) }

  /** A message is printed.  Its pointer is evaluated again if it is not null, and the value printed is
      the local error code, if there is one. */
  function Says(env: Env, text: Text, dest: Option<Name>, msg: Option<Expr>, code: bool, x: State): State {
    if msg.None? then Prints(env, text, dest, None, code, x) else
    var (p, x1) := Eval(env, msg.value, x);
    if p == 0 then Prints(env, text, dest, None, code, x1) else
    var (q, x2) := Eval(env, msg.value, x1);
    Prints(env, text, dest, Some(q), code, x2)
  }

  function Prints(env: Env, text: Text, dest: Option<Name>, shown: Option<int>, code: bool, x: State): State {
    Log(x, Printed(Message(text, dest, shown, if code then ToLong(env, Get(x.store, EVAL_ONCE)) else 0)))
  }

  /** `goto l` follows an action with result `r`, inside `do { } while (0)`. */
  function ThenGoto(l: Name, r: Result): Result {
    if r.OutOfFuel? then OutOfFuel
    else if r.out.Normal? then Done(r.st, Jumped(l))
    else if r.out.Broke? || r.out.Continued? then Done(r.st, Normal)
    else r
  }

  /** Leaves the scope of the local error code of a definition entered from `x`. */
  function LeaveScope(x: State, r: Result): Result {
    if r.Done? then Done(Restore(x.store, EVAL_ONCE, r.st), r.out) else r
  }

  lemma ReportSays(env: Env, m: Macro<Items>, msg: Option<Expr>, x: State)
    requires MessageArg(m) == if msg.None? then Lit(0) else msg.value
    ensures
      var r := ReportOf(m);
      Tell(env, r, x) == Says(env, r.text, r.dest, msg, IsNoErr(m), x)
  {
    ConvertInRange(Long(env.longWidth), 0);
  }

  // ----- Macros on assertions -----

  lemma DebugStringSummary(env: Env, b: Build, fuel: nat, note: Expr, x: State)
    ensures Exec(env, b, fuel, Replace(b, DebugString(note)), x) ==
            Done(if b.Debug? then Says(env, NoText, None, Some(note), false, x) else x, Normal)
  {
    if b.Debug? {
      ReplaceRuns(env, b, fuel, DebugString(note), x);
      ReportSays(env, DebugString(note), Some(note), x);
    }
  }

  /** Production does nothing; debug evaluates the assertion and prints a message if it fails. */
  lemma CheckSummary(env: Env, b: Build, fuel: nat, neg: bool, e: Expr, msg: Option<Expr>, x: State)
    ensures
      var (v, x1) := Eval(env, e, x);
      Exec(env, b, fuel, Replace(b, Check(neg, e, msg)), x) ==
      if b.Production? then Done(x, Normal)
      else Done(if Holds(neg, v) then x1 else Says(env, Shown(neg, e), None, msg, false, x1), Normal)
  {
    if b.Debug? {
      ReplaceRuns(env, b, fuel, Check(neg, e, msg), x);
      ReportSays(env, Check(neg, e, msg), msg, Eval(env, e, x).1);
    }
  }

  /** Both builds evaluate the assertion; debug prints a message if it fails. */
  lemma VerifySummary(env: Env, b: Build, fuel: nat, neg: bool, e: Expr, msg: Option<Expr>, x: State)
    ensures
      var (v, x1) := Eval(env, e, x);
      Exec(env, b, fuel, Replace(b, Verify(neg, e, msg)), x) ==
      Done(if b.Production? || Holds(neg, v) then x1 else Says(env, Shown(neg, e), None, msg, false, x1), Normal)
  {
    ReplaceRuns(env, b, fuel, Verify(neg, e, msg), x);
    ReportSays(env, Verify(neg, e, msg), msg, Eval(env, e, x).1);
  }

  /** Both builds run the action if the assertion fails, debug after a message. */
  lemma VerifyActionSummary(env: Env, b: Build, fuel: nat, e: Expr, action: Items, x: State)
    ensures
      var (v, x1) := Eval(env, e, x);
      var start := if b.Debug? then Says(env, Shown(false, e), None, None, false, x1) else x1;
      Exec(env, b, fuel, Replace(b, VerifyAction(e, action)), x) ==
      if v != 0 then Done(x1, Normal) else ExecItems(env, b, fuel, action, start)
  {
    ReplaceRuns(env, b, fuel, VerifyAction(e, action), x);
    ReportSays(env, VerifyAction(e, action), None, Eval(env, e, x).1);
  }

  /** Both builds jump if the assertion fails, debug after a message that names the label. */
  lemma RequireSummary(env: Env, b: Build, fuel: nat, neg: bool, e: Expr, l: Name, msg: Option<Expr>, x: State)
    ensures
      var (v, x1) := Eval(env, e, x);
      var start := if b.Debug? then Says(env, Shown(neg, e), Some(l), msg, false, x1) else x1;
      Exec(env, b, fuel, Replace(b, Require(neg, e, l, Form(msg))), x) ==
      if Holds(neg, v) then Done(x1, Normal) else Done(start, Jumped(l))
  {
    ReplaceRuns(env, b, fuel, Require(neg, e, l, Form(msg)), x);
    ReportSays(env, Require(neg, e, l, Form(msg)), msg, Eval(env, e, x).1);
  }

  /** The same, with the action before the jump. */
  lemma RequireActionSummary(env: Env, b: Build, fuel: nat, neg: bool, e: Expr, l: Name, action: Items, msg: Option<Expr>, x: State)
    ensures
      var (v, x1) := Eval(env, e, x);
      var start := if b.Debug? then Says(env, Shown(neg, e), Some(l), msg, false, x1) else x1;
      Exec(env, b, fuel, Replace(b, RequireAction(neg, e, l, action, Form(msg))), x) ==
      if Holds(neg, v) then Done(x1, Normal) else ThenGoto(l, ExecItems(env, b, fuel, action, start))
  {
    ReplaceRuns(env, b, fuel, RequireAction(neg, e, l, action, Form(msg)), x);
    ReportSays(env, RequireAction(neg, e, l, action, Form(msg)), msg, Eval(env, e, x).1);
  }

  // ----- Quiet macros -----

  /** A quiet macro prints no message of its own, in either build. */
  lemma QuietSummary(env: Env, b: Build, fuel: nat, neg: bool, e: Expr, l: Name, action: Items, x: State)
    ensures
      var (v, x1) := Eval(env, e, x);
      && Exec(env, b, fuel, Replace(b, Require(neg, e, l, Quiet)), x) ==
         (if Holds(neg, v) then Done(x1, Normal) else Done(x1, Jumped(l)))
      && Exec(env, b, fuel, Replace(b, RequireAction(neg, e, l, action, Quiet)), x) ==
         if Holds(neg, v) then Done(x1, Normal) else ThenGoto(l, ExecItems(env, b, fuel, action, x1))
  {
    ReplaceRuns(env, b, fuel, Require(neg, e, l, Quiet), x);
    ReplaceRuns(env, b, fuel, RequireAction(neg, e, l, action, Quiet), x);
  }

  /** A quiet macro on an error code tests the code itself, in either build. */
  lemma QuietCodeSummary(env: Env, b: Build, fuel: nat, e: Expr, l: Name, action: Items, x: State)
    ensures
      var (v, x1) := Eval(env, e, x);
      && Exec(env, b, fuel, Replace(b, RequireNoErr(e, l, Quiet)), x) ==
         (if v == 0 then Done(x1, Normal) else Done(x1, Jumped(l)))
      && Exec(env, b, fuel, Replace(b, RequireNoErrAction(e, l, action, Quiet)), x) ==
         if v == 0 then Done(x1, Normal) else ThenGoto(l, ExecItems(env, b, fuel, action, x1))
  {
    ReplaceRuns(env, b, fuel, RequireNoErr(e, l, Quiet), x);
    ReplaceRuns(env, b, fuel, RequireNoErrAction(e, l, action, Quiet), x);
  }

  // ----- Macros on error codes: production -----

  /** Production ignores the code, or does not look at it at all. */
  lemma IgnoredCodeSummary(env: Env, fuel: nat, e: Expr, msg: Option<Expr>, x: State)
    ensures Exec(env, Production, fuel, Replace(Production, CheckNoErr(e, msg)), x) == Done(x, Normal)
    ensures Exec(env, Production, fuel, Replace(Production, VerifyNoErr(e, msg)), x) == Done(Eval(env, e, x).1, Normal)
  {
    ReplaceRuns(env, Production, fuel, VerifyNoErr(e, msg), x);
  }

  /** Production tests the code itself. */
  lemma CodeSummary(env: Env, fuel: nat, e: Expr, l: Name, action: Items, msg: Option<Expr>, x: State)
    ensures
      var (v, x1) := Eval(env, e, x);
      var a := ExecItems(env, Production, fuel, action, x1);
      && Exec(env, Production, fuel, Replace(Production, VerifyNoErrAction(e, action)), x) ==
         (if v == 0 then Done(x1, Normal) else a)
      && Exec(env, Production, fuel, Replace(Production, RequireNoErr(e, l, Form(msg))), x) ==
         (if v == 0 then Done(x1, Normal) else Done(x1, Jumped(l)))
      && Exec(env, Production, fuel, Replace(Production, RequireNoErrAction(e, l, action, Form(msg))), x) ==
         if v == 0 then Done(x1, Normal) else ThenGoto(l, a)
  {
    ReplaceRuns(env, Production, fuel, VerifyNoErrAction(e, action), x);
    ReplaceRuns(env, Production, fuel, RequireNoErr(e, l, Form(msg)), x);
    ReplaceRuns(env, Production, fuel, RequireNoErrAction(e, l, action, Form(msg)), x);
  }

  // ----- Macros on error codes: debug -----

  /** Debug tests the copy of the code, in the scope of the local that holds it, and prints a message
      with that copy if it is not zero. */
  lemma ReportedCodeSummary(env: Env, fuel: nat, e: Expr, msg: Option<Expr>, x: State)
    ensures
      var (v, x1) := BindCode(env, e, x);
      var end := if ToLong(env, v) == 0 then x1 else Says(env, StringizedNoErr(e), None, msg, true, x1);
      && Exec(env, Debug, fuel, Replace(Debug, CheckNoErr(e, msg)), x) == LeaveScope(x, Done(end, Normal))
      && Exec(env, Debug, fuel, Replace(Debug, VerifyNoErr(e, msg)), x) == LeaveScope(x, Done(end, Normal))
  {
    ReplaceRuns(env, Debug, fuel, CheckNoErr(e, msg), x);
    ReplaceRuns(env, Debug, fuel, VerifyNoErr(e, msg), x);
    ReportSays(env, CheckNoErr(e, msg), msg, BindCode(env, e, x).1);
    ReportSays(env, VerifyNoErr(e, msg), msg, BindCode(env, e, x).1);
  }

  lemma DebugVerifyCodeSummary(env: Env, fuel: nat, e: Expr, action: Items, x: State)
    ensures
      var (v, x1) := BindCode(env, e, x);
      var a := ExecItems(env, Debug, fuel, action, Says(env, StringizedNoErr(e), None, None, true, x1));
      Exec(env, Debug, fuel, Replace(Debug, VerifyNoErrAction(e, action)), x) ==
      LeaveScope(x, if ToLong(env, v) == 0 then Done(x1, Normal) else AbsorbResult(a))
  {
    ReplaceRuns(env, Debug, fuel, VerifyNoErrAction(e, action), x);
    ReportSays(env, VerifyNoErrAction(e, action), None, BindCode(env, e, x).1);
  }

  lemma DebugRequireCodeSummary(env: Env, fuel: nat, e: Expr, l: Name, msg: Option<Expr>, x: State)
    ensures
      var (v, x1) := BindCode(env, e, x);
      var start := Says(env, StringizedNoErr(e), Some(l), msg, true, x1);
      Exec(env, Debug, fuel, Replace(Debug, RequireNoErr(e, l, Form(msg))), x) ==
      LeaveScope(x, if ToLong(env, v) == 0 then Done(x1, Normal) else Done(start, Jumped(l)))
  {
    ReplaceRuns(env, Debug, fuel, RequireNoErr(e, l, Form(msg)), x);
    ReportSays(env, RequireNoErr(e, l, Form(msg)), msg, BindCode(env, e, x).1);
  }

  lemma DebugRequireCodeActionSummary(env: Env, fuel: nat, e: Expr, l: Name, action: Items, msg: Option<Expr>, x: State)
    ensures
      var (v, x1) := BindCode(env, e, x);
      var a := ExecItems(env, Debug, fuel, action, Says(env, StringizedNoErr(e), Some(l), msg, true, x1));
      Exec(env, Debug, fuel, Replace(Debug, RequireNoErrAction(e, l, action, Form(msg))), x) ==
      LeaveScope(x, if ToLong(env, v) == 0 then Done(x1, Normal) else ThenGoto(l, a))
  {
    ReplaceRuns(env, Debug, fuel, RequireNoErrAction(e, l, action, Form(msg)), x);
    ReportSays(env, RequireNoErrAction(e, l, action, Form(msg)), msg, BindCode(env, e, x).1);
  }

  /** The value that these messages print is the code, copied into a `long`. */
  lemma CopyIsPrinted(env: Env, e: Expr, text: Text, dest: Option<Name>, x: State)
    ensures
      var (v, x1) := BindCode(env, e, x);
      Says(env, text, dest, None, true, x1) == Log(x1, Printed(Message(text, dest, None, ToLong(env, v))))
  {
    ConvertInRange(Long(env.longWidth), ToLong(env, Eval(env, e, Set(x, EVAL_ONCE, env.junk)).0));
  }
}
