/** The definitions of AssertMacros.h, as the statements they denote, and the expansion of whole
    programs. */
module Expansion {
  import opened Options
  import opened CLang

  // ----- The header's definitions -----

  /** `0 != e` */
  function NonZero(e: Expr): Expr { Bin(Ne, Lit(0), e) }

  /** `do { body } while ( 0 )` */
  function Once(body: Items): Stmt { DoWhile(Block(body), Lit(0)) }

  function One(s: Stmt): Items { Cons(s, Nil) }

  /** `DEBUG_ASSERT_MESSAGE(r);` followed by `rest`.  The macro's own definition ends in a
      semicolon, so the one written after it is a null statement. */
  function Say(r: Report, rest: Items): Items { Cons(Emit(r), Cons(Null, rest)) }

  /** The `assertion` parameter: a __n* form passes the negation of its operand. */
  function Assertion<A>(m: Macro<A>): Expr
    requires !m.DebugString?
  {
    if IsNegated(m) then Not(m.operand) else m.operand
  }

  /** The message arguments of a non-quiet macro; `value` is 0 or the local error code. */
  function ReportOf<A>(m: Macro<A>): Report {
    var value := if IsNoErr(m) then Var(EVAL_ONCE) else Lit(0);
    var dest := if IsRequire(m) then Some(m.dest) else None;
    var text := if m.DebugString? then NoText else if IsNoErr(m) then StringizedNoErr(m.operand) else Stringized(Assertion(m));
    Report(text, dest, MessageArg(m), value)
  }

  /** The production definition of `m`, or its only one when it is quiet. */
  function ProductionBody(m: Macro<Items>): Stmt {
    match m
    case DebugString(_) => Null
    case Check(_, _, _) => Null
    case CheckNoErr(_, _) => Null
    case Verify(_, _, _) => Once(One(IfThen(Not(Assertion(m)), Block(Nil))))
    case VerifyNoErr(e, _) => Once(One(IfThen(NonZero(e), Block(Nil))))
    case VerifyAction(e, action) => IfElse(Not(e), Block(action), Once(Nil))
    case VerifyNoErrAction(e, action) => IfElse(NonZero(e), Block(action), Once(Nil))
    case Require(_, _, l, _) => Once(One(IfThen(Not(Assertion(m)), Block(One(Goto(l))))))
    case RequireAction(_, _, l, action, _) =>
      Once(One(IfThen(Not(Assertion(m)), Block(Cons(Block(action), One(Goto(l)))))))
    case RequireNoErr(e, l, _) => Once(One(IfThen(NonZero(e), Block(One(Goto(l))))))
    case RequireNoErrAction(e, l, action, _) =>
      Once(One(IfThen(NonZero(e), Block(Cons(Block(action), One(Goto(l)))))))
  }

  /** `long evalOnceErrorCode = (e); if ( 0 != evalOnceErrorCode ) { body }`, run once. */
  function OnceCode(e: Expr, body: Items): Stmt {
    Once(Decl(EVAL_ONCE, e, One(IfThen(NonZero(Var(EVAL_ONCE)), Block(body)))))
  }

  /** The debug definition of a non-quiet `m`. */
  function DebugBody(m: Macro<Items>): Stmt {
    var r := ReportOf(m);
    match m
    case DebugString(_) => Once(Say(r, Nil))
    case Check(_, _, _) => Once(One(IfThen(Not(Assertion(m)), Block(Say(r, Nil)))))
    case CheckNoErr(e, _) => OnceCode(e, Say(r, Nil))
    case Verify(_, _, _) => Once(One(IfThen(Not(Assertion(m)), Block(Say(r, Nil)))))
    case VerifyNoErr(e, _) => OnceCode(e, Say(r, Nil))
    case VerifyAction(e, action) => IfElse(Not(e), Block(Say(r, action)), Once(Nil))
    case VerifyNoErrAction(e, action) => OnceCode(e, Say(r, action))
    case Require(_, _, l, _) => Once(One(IfThen(Not(Assertion(m)), Block(Say(r, One(Goto(l)))))))
    case RequireAction(_, _, l, action, _) =>
      Once(One(IfThen(Not(Assertion(m)), Block(Say(r, Cons(Block(action), One(Goto(l))))))))
    case RequireNoErr(e, l, _) => OnceCode(e, Say(r, One(Goto(l))))
    case RequireNoErrAction(e, l, action, _) => OnceCode(e, Say(r, Cons(Block(action), One(Goto(l)))))
  }

  /** What `m;` becomes in build `b`, once the macros in its action are expanded. */
  function Replace(b: Build, m: Macro<Items>): Stmt {
    if b.Production? || IsQuiet(m) then ProductionBody(m) else DebugBody(m)
  }

  // ----- Common parts of the definitions -----

  /** The condition tested by the production and quiet definitions. */
  function TestOf(m: Macro<Items>): Expr
    requires !m.DebugString?
  {
    if IsNoErr(m) then NonZero(m.operand) else Not(Assertion(m))
  }

  /** What the expansion of `m` runs once its assertion has failed, after the message if any. */
  function Tail(m: Macro<Items>): Items {
    match m
    case VerifyAction(_, a) => a
    case VerifyNoErrAction(_, a) => a
    case Require(_, _, l, _) => One(Goto(l))
    case RequireNoErr(_, l, _) => One(Goto(l))
    case RequireAction(_, _, l, a, _) => Cons(Block(a), One(Goto(l)))
    case RequireNoErrAction(_, l, a, _) => Cons(Block(a), One(Goto(l)))
    case _ => Nil
  }

  // ----- Expansion of whole programs -----

  function Expand(b: Build, s: Stmt): Stmt
    decreases s
  {
    match s
    case Block(items) => Block(ExpandItems(b, items))
    case IfThen(c, thn) => IfThen(c, Expand(b, thn))
    case IfElse(c, thn, els) => IfElse(c, Expand(b, thn), Expand(b, els))
    case While(c, body) => While(c, Expand(b, body))
    case DoWhile(body, c) => DoWhile(Expand(b, body), c)
    case Invoke(m) => Replace(b, ExpandAction(b, m))
    case _ => s
  }

  function ExpandItems(b: Build, ss: Items): Items
    decreases ss
  {
    match ss
    case Nil => Nil
    case Cons(s, rest) => Cons(Expand(b, s), ExpandItems(b, rest))
    case Decl(x, init, rest) => Decl(x, init, ExpandItems(b, rest))
  }

  function ExpandAction(b: Build, m: Macro<Items>): Macro<Items>
    decreases m
  {
    match ActionOf(m)
    case None => m
    case Some(a) => WithAction(m, ExpandItems(b, a))
  }
}
