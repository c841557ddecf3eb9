/** The replacement lists of AssertMacros.h, token by token, and the hygiene theorem. */
module Hygiene {
  import opened Options
  import opened CLang
  import opened Expansion
  import opened Syntax

  // ----- Replacement lists, without the semicolon that the user writes after the invocation -----

  /** `{ ts }` */
  function Braces(ts: seq<Token>): seq<Token> { [TLBrace] + ts + [TRBrace] }

  /** `if ( c ) { ts }` */
  function IfBraces(c: Expr, ts: seq<Token>): seq<Token> { [TIf(c)] + Braces(ts) }

  /** `do { ts } while ( 0 )` */
  function DoOnce(ts: seq<Token>): seq<Token> { [TDo] + Braces(ts) + [TWhile(Lit(0))] }

  /** `if ( c ) { ts } else do {} while (0)` */
  function IfElseNothing(c: Expr, ts: seq<Token>): seq<Token> { IfBraces(c, ts) + [TElse] + DoOnce([]) }

  /** `do { long evalOnceErrorCode = (e); if ( 0 != evalOnceErrorCode ) { ts } } while ( 0 )` */
  function DoOnceCode(e: Expr, ts: seq<Token>): seq<Token> {
    DoOnce([TLong(EVAL_ONCE, e), TSemi] + IfBraces(NonZero(Var(EVAL_ONCE)), ts))
  }

  /** `DEBUG_ASSERT_MESSAGE(r);`, whose definition brings a semicolon of its own. */
  function SayText(r: Report): seq<Token> { [TMessage(r), TSemi, TSemi] }

  function GotoText(l: Name): seq<Token> { [TGoto(l), TSemi] }

  /** `action;` */
  function ActionText(m: Macro<Argument>): seq<Token> {
    (if TextOf(m).Some? then TextOf(m).value else []) + [TSemi]
  }

  /** The production definition of `m`, or its only one when it is quiet. */
  function ProductionText(m: Macro<Argument>): seq<Token> {
    match m
    case DebugString(_) => []
    case Check(_, _, _) => []
    case CheckNoErr(_, _) => []
    case Verify(_, _, _) => DoOnce(IfBraces(Not(Assertion(m)), []))
    case VerifyNoErr(e, _) => DoOnce(IfBraces(NonZero(e), []))
    case VerifyAction(e, _) => IfElseNothing(Not(e), ActionText(m))
    case VerifyNoErrAction(e, _) => IfElseNothing(NonZero(e), ActionText(m))
    case Require(_, _, l, _) => DoOnce(IfBraces(Not(Assertion(m)), GotoText(l)))
    case RequireAction(_, _, l, _, _) => DoOnce(IfBraces(Not(Assertion(m)), Braces(ActionText(m)) + GotoText(l)))
    case RequireNoErr(e, l, _) => DoOnce(IfBraces(NonZero(e), GotoText(l)))
    case RequireNoErrAction(e, l, _, _) => DoOnce(IfBraces(NonZero(e), Braces(ActionText(m)) + GotoText(l)))
  }

  /** The debug definition of a non-quiet `m`. */
  function DebugText(m: Macro<Argument>): seq<Token> {
    var say := SayText(ReportOf(m));
    match m
    case DebugString(_) => DoOnce(say)
    case Check(_, _, _) => DoOnce(IfBraces(Not(Assertion(m)), say))
    case CheckNoErr(e, _) => DoOnceCode(e, say)
    case Verify(_, _, _) => DoOnce(IfBraces(Not(Assertion(m)), say))
    case VerifyNoErr(e, _) => DoOnceCode(e, say)
    case VerifyAction(e, _) => IfElseNothing(Not(e), say + ActionText(m))
    case VerifyNoErrAction(e, _) => DoOnceCode(e, say + ActionText(m))
    case Require(_, _, l, _) => DoOnce(IfBraces(Not(Assertion(m)), say + GotoText(l)))
    case RequireAction(_, _, l, _, _) =>
      DoOnce(IfBraces(Not(Assertion(m)), say + (Braces(ActionText(m)) + GotoText(l))))
    case RequireNoErr(e, l, _) => DoOnceCode(e, say + GotoText(l))
    case RequireNoErrAction(e, l, _, _) => DoOnceCode(e, say + (Braces(ActionText(m)) + GotoText(l)))
  }

  function ReplacementList(b: Build, m: Macro<Argument>): seq<Token> {
    if b.Production? || IsQuiet(m) then ProductionText(m) else DebugText(m)
  }

  // ----- Macro expansion on tokens -----

  function ExpandToken(b: Build, t: Token): seq<Token>
    decreases TokenSize(t), 0
  {
    match t
    case TMacro(m) =>
      (match TextOf(m)
       case None => ReplacementList(b, m)
       case Some(text) =>
         assert TokenSize(t) == 2 + Size(text);
         ReplacementList(b, WithAction(m, Argument(ExpandText(b, text)))))
    case _ => [t]
  }

  function ExpandText(b: Build, ts: seq<Token>): seq<Token>
    decreases Size(ts), 1
  {
    if ts == [] then [] else ExpandToken(b, ts[0]) + ExpandText(b, ts[1..])
  }

  lemma {:induction false} ExpandTextAppend(b: Build, ts: seq<Token>, us: seq<Token>)
    ensures ExpandText(b, ts + us) == ExpandText(b, ts) + ExpandText(b, us)
    decreases |ts|
  {
    if ts == [] {
      assert ts + us == us;
    } else {
      assert (ts + us)[1..] == ts[1..] + us;
      ExpandTextAppend(b, ts[1..], us);
    }
  }

  lemma ExpandOne(b: Build, t: Token)
    ensures ExpandText(b, [t]) == ExpandToken(b, t)
  {
    assert [t][1..] == [];
    assert ExpandText(b, [t]) == ExpandToken(b, t) + [];
  }

  // ----- Each replacement list is the text of one statement -----

  lemma PrintOne(s: Stmt)
    ensures PrintItems(One(s)) == Print(s)
  {
    assert PrintItems(Nil) == [];
  }

  lemma PrintIf(c: Expr, body: Items)
    ensures PrintItems(One(IfThen(c, Block(body)))) == IfBraces(c, PrintItems(body))
  {
    PrintOne(IfThen(c, Block(body)));
    assert Print(Block(body)) == Braces(PrintItems(body));
  }

  lemma PrintOnce(body: Items)
    ensures Print(Once(body)) == DoOnce(PrintItems(body)) + [TSemi]
  {
    assert Print(Block(body)) == Braces(PrintItems(body));
  }

  lemma PrintOnceIf(c: Expr, body: Items)
    ensures Print(Once(One(IfThen(c, Block(body))))) == DoOnce(IfBraces(c, PrintItems(body))) + [TSemi]
  {
    PrintIf(c, body);
    PrintOnce(One(IfThen(c, Block(body))));
  }

  lemma PrintOnceCode(e: Expr, body: Items)
    ensures Print(OnceCode(e, body)) == DoOnceCode(e, PrintItems(body)) + [TSemi]
  {
    PrintIf(NonZero(Var(EVAL_ONCE)), body);
    PrintOnce(Decl(EVAL_ONCE, e, One(IfThen(NonZero(Var(EVAL_ONCE)), Block(body)))));
  }

  lemma PrintIfElse(c: Expr, body: Items)
    ensures Print(IfElse(c, Block(body), Once(Nil))) == IfElseNothing(c, PrintItems(body)) + [TSemi]
  {
    assert Print(Block(body)) == Braces(PrintItems(body));
    PrintOnce(Nil);
    assert PrintItems(Nil) == [];
  }

  lemma PrintSay(r: Report, rest: Items)
    ensures PrintItems(Say(r, rest)) == SayText(r) + PrintItems(rest)
  {
    assert PrintItems(Cons(Null, rest)) == [TSemi] + PrintItems(rest);
  }

  lemma PrintActionThenGoto(a: Items, l: Name)
    ensures PrintItems(Cons(Block(a), One(Goto(l)))) == Braces(PrintItems(a)) + GotoText(l)
  {
    PrintOne(Goto(l));
    assert Print(Block(a)) == Braces(PrintItems(a));
  }

  /** The action of an invocation, with the semicolon of the replacement list, is its block items. */
  lemma PrintAction(m: Macro<Items>)
    requires WellFormedMacro(m) && ActionOf(m).Some?
    ensures ActionText(PrintMacro(m)) == PrintItems(ActionOf(m).value)
  {
    var ts := PrintItems(ActionOf(m).value);
    assert TextOf(PrintMacro(m)) == Some(ButLast(ts));
    ButLastSemi(ts);
  }

  lemma ProductionTextPrints(m: Macro<Items>)
    requires WellFormedMacro(m)
    ensures Print(ProductionBody(m)) == ProductionText(PrintMacro(m)) + [TSemi]
  {
    if ActionOf(m).Some? {
      ProductionActionTextPrints(m);
    } else if IsRequire(m) {
      PrintOne(Goto(m.dest));
      PrintOnceIf(TestOf(m), One(Goto(m.dest)));
    } else if m.Verify? || m.VerifyNoErr? {
      assert PrintItems(Nil) == [];
      PrintOnceIf(TestOf(m), Nil);
    }
  }

  lemma ProductionActionTextPrints(m: Macro<Items>)
    requires WellFormedMacro(m) && ActionOf(m).Some?
    ensures Print(ProductionBody(m)) == ProductionText(PrintMacro(m)) + [TSemi]
  {
    var a := ActionOf(m).value;
    PrintAction(m);
    if IsRequire(m) {
      PrintActionThenGoto(a, m.dest);
      PrintOnceIf(TestOf(m), Tail(m));
    } else {
      PrintIfElse(TestOf(m), a);
    }
  }

  lemma PrintSayLast(r: Report)
    ensures PrintItems(Say(r, Nil)) == SayText(r)
  {
    PrintSay(r, Nil);
    assert PrintItems(Nil) == [];
  }

  lemma DebugTextPrints(m: Macro<Items>)
    requires WellFormedMacro(m)
    ensures Print(DebugBody(m)) == DebugText(PrintMacro(m)) + [TSemi]
  {
    var r := ReportOf(m);
    assert ReportOf(PrintMacro(m)) == r;
    if IsRequire(m) && ActionOf(m).None? {
      DebugRequireTextPrints(m);
    } else if IsRequire(m) {
      DebugRequireActionTextPrints(m);
    } else if ActionOf(m).Some? {
      PrintAction(m);
      PrintSay(r, ActionOf(m).value);
      match m
      case VerifyAction(e, a) => PrintIfElse(Not(e), Say(r, a));
      case VerifyNoErrAction(e, a) => PrintOnceCode(e, Say(r, a));
    } else {
      PrintSayLast(r);
      match m
      case DebugString(_) => PrintOnce(Say(r, Nil));
      case Check(_, _, _) => PrintOnceIf(Not(Assertion(m)), Say(r, Nil));
      case CheckNoErr(e, _) => PrintOnceCode(e, Say(r, Nil));
      case Verify(_, _, _) => PrintOnceIf(Not(Assertion(m)), Say(r, Nil));
      case VerifyNoErr(e, _) => PrintOnceCode(e, Say(r, Nil));
    }
  }

  lemma DebugRequireTextPrints(m: Macro<Items>)
    requires WellFormedMacro(m) && IsRequire(m) && ActionOf(m).None?
    ensures Print(DebugBody(m)) == DebugText(PrintMacro(m)) + [TSemi]
  {
    var r := ReportOf(m);
    assert ReportOf(PrintMacro(m)) == r;
    PrintOne(Goto(m.dest));
    PrintSay(r, One(Goto(m.dest)));
    if m.Require? {
      PrintOnceIf(Not(Assertion(m)), Say(r, One(Goto(m.dest))));
    } else {
      PrintOnceCode(m.operand, Say(r, One(Goto(m.dest))));
    }
  }

  lemma DebugRequireActionTextPrints(m: Macro<Items>)
    requires WellFormedMacro(m) && IsRequire(m) && ActionOf(m).Some?
    ensures Print(DebugBody(m)) == DebugText(PrintMacro(m)) + [TSemi]
  {
    var r := ReportOf(m);
    assert ReportOf(PrintMacro(m)) == r;
    PrintAction(m);
    PrintActionThenGoto(ActionOf(m).value, m.dest);
    PrintSay(r, Tail(m));
    if m.RequireAction? {
      PrintOnceIf(Not(Assertion(m)), Say(r, Tail(m)));
    } else {
      PrintOnceCode(m.operand, Say(r, Tail(m)));
    }
  }

  // ----- Expanding the text is expanding the statement -----

  lemma ReplacementPrints(b: Build, m: Macro<Items>)
    requires WellFormedMacro(m)
    ensures Print(Replace(b, m)) == ReplacementList(b, PrintMacro(m)) + [TSemi]
  {
    if b.Production? || IsQuiet(m) {
      ProductionTextPrints(m);
    } else {
      DebugTextPrints(m);
    }
  }

  /** Every token list without invocations is left alone. */
  lemma ExpandPlain(b: Build, ts: seq<Token>)
    requires forall i | 0 <= i < |ts| :: !ts[i].TMacro?
    ensures ExpandText(b, ts) == ts
    decreases |ts|
  {
    if ts != [] {
      ExpandPlain(b, ts[1..]);
    }
  }

  lemma ExpandBetween(b: Build, left: seq<Token>, ts: seq<Token>, right: seq<Token>)
    requires forall i | 0 <= i < |left| :: !left[i].TMacro?
    requires forall i | 0 <= i < |right| :: !right[i].TMacro?
    ensures ExpandText(b, left + ts + right) == left + ExpandText(b, ts) + right
  {
    ExpandPlain(b, left);
    ExpandPlain(b, right);
    ExpandTextAppend(b, left + ts, right);
    ExpandTextAppend(b, left, ts);
  }

  /** Expanding the tokens of a statement gives the tokens of its expansion, which is again well
      formed, and open to an `else` exactly when the statement was. */
  lemma {:induction false} ExpandTextPrints(b: Build, s: Stmt)
    requires WellFormed(s)
    ensures ExpandText(b, Print(s)) == Print(Expand(b, s))
    ensures WellFormed(Expand(b, s)) && Open(Expand(b, s)) == Open(s)
    decreases s, 1
  {
    match s
    case Block(items) =>
      ExpandItemsTextPrints(b, items);
      ExpandBetween(b, [TLBrace], PrintItems(items), [TRBrace]);
    case IfThen(_, _) => ExpandIfTextPrints(b, s);
    case IfElse(_, _, _) => ExpandIfElseTextPrints(b, s);
    case While(_, _) => ExpandLoopTextPrints(b, s);
    case DoWhile(_, _) => ExpandLoopTextPrints(b, s);
    case Invoke(m) =>
      ExpandMacroTextPrints(b, m);
      ExpandPlain(b, [TSemi]);
      ExpandOne(b, TMacro(PrintMacro(m)));
      ExpandTextAppend(b, [TMacro(PrintMacro(m))], [TSemi]);
      assert [TMacro(PrintMacro(m))] + [TSemi] == Print(s);
    case _ => ExpandPlain(b, Print(s));
  }

  lemma {:induction false} ExpandIfTextPrints(b: Build, s: Stmt)
    requires s.IfThen? && WellFormed(s)
    ensures ExpandText(b, Print(s)) == Print(Expand(b, s)) && WellFormed(Expand(b, s))
    decreases s, 0
  {
    ExpandTextPrints(b, s.thn);
    ExpandPlain(b, [TIf(s.c)]);
    ExpandTextAppend(b, [TIf(s.c)], Print(s.thn));
  }

  lemma {:induction false} ExpandIfElseTextPrints(b: Build, s: Stmt)
    requires s.IfElse? && WellFormed(s)
    ensures ExpandText(b, Print(s)) == Print(Expand(b, s))
    ensures WellFormed(Expand(b, s)) && Open(Expand(b, s)) == Open(s)
    decreases s, 0
  {
    ExpandTextPrints(b, s.thn);
    ExpandTextPrints(b, s.els);
    ExpandBetween(b, [TIf(s.c)], Print(s.thn), [TElse]);
    ExpandTextAppend(b, [TIf(s.c)] + Print(s.thn) + [TElse], Print(s.els));
  }

  lemma {:induction false} ExpandLoopTextPrints(b: Build, s: Stmt)
    requires (s.While? || s.DoWhile?) && WellFormed(s)
    ensures ExpandText(b, Print(s)) == Print(Expand(b, s))
    ensures WellFormed(Expand(b, s)) && Open(Expand(b, s)) == Open(s)
    decreases s, 0
  {
    ExpandTextPrints(b, s.body);
    if s.While? {
      ExpandPlain(b, [TWhile(s.c)]);
      ExpandTextAppend(b, [TWhile(s.c)], Print(s.body));
    } else {
      ExpandBetween(b, [TDo], Print(s.body), [TWhile(s.c), TSemi]);
    }
  }

  lemma {:induction false} ExpandItemsTextPrints(b: Build, ss: Items)
    requires WellFormedItems(ss)
    ensures ExpandText(b, PrintItems(ss)) == PrintItems(ExpandItems(b, ss))
    ensures WellFormedItems(ExpandItems(b, ss))
    decreases ss
  {
    match ss
    case Nil =>
    case Cons(s, rest) =>
      ExpandTextPrints(b, s);
      ExpandItemsTextPrints(b, rest);
      ExpandTextAppend(b, Print(s), PrintItems(rest));
    case Decl(x, init, rest) =>
      ExpandItemsTextPrints(b, rest);
      ExpandPlain(b, [TLong(x, init), TSemi]);
      ExpandTextAppend(b, [TLong(x, init), TSemi], PrintItems(rest));
  }

  lemma {:induction false} ExpandMacroTextPrints(b: Build, m: Macro<Items>)
    requires WellFormedMacro(m)
    ensures ExpandToken(b, TMacro(PrintMacro(m))) + [TSemi] == Print(Replace(b, ExpandAction(b, m)))
    ensures WellFormed(Replace(b, ExpandAction(b, m))) && !Open(Replace(b, ExpandAction(b, m)))
    decreases m
  {
    var m' := ExpandAction(b, m);
    if ActionOf(m).Some? {
      var a := ActionOf(m).value;
      ExpandItemsTextPrints(b, a);
      ExpandActionText(b, PrintItems(a));
      PrintMacroExpands(b, m);
    }
    ReplacementPrints(b, m');
    ReplaceWellFormed(b, m');
  }

  lemma ExpandActionText(b: Build, ts: seq<Token>)
    requires EndsInSemi(ts)
    ensures EndsInSemi(ExpandText(b, ts)) && ButLast(ExpandText(b, ts)) == ExpandText(b, ButLast(ts))
  {
    ButLastSemi(ts);
    ExpandTextAppend(b, ButLast(ts), [TSemi]);
    ExpandPlain(b, [TSemi]);
    ButLastSemi(ExpandText(b, ButLast(ts)));
  }

  lemma PrintMacroExpands(b: Build, m: Macro<Items>)
    requires ActionOf(m).Some?
    requires
      var a := ActionOf(m).value;
      ButLast(PrintItems(ExpandItems(b, a))) == ExpandText(b, ButLast(PrintItems(a)))
    ensures ExpandToken(b, TMacro(PrintMacro(m))) == ReplacementList(b, PrintMacro(ExpandAction(b, m)))
  {
    var text := ButLast(PrintItems(ActionOf(m).value));
    assert TextOf(PrintMacro(m)) == Some(text);
    assert PrintMacro(ExpandAction(b, m)) == WithAction(PrintMacro(m), Argument(ExpandText(b, text)));
  }

  lemma BlockWellFormed(c: Expr, body: Items)
    requires WellFormedItems(body)
    ensures WellFormed(Block(body)) && WellFormed(Once(body))
    ensures WellFormedItems(One(IfThen(c, Block(body))))
  {
    assert WellFormed(Block(body));
    assert WellFormed(IfThen(c, Block(body)));
    assert WellFormedItems(Nil);
  }

  lemma SayWellFormed(r: Report, body: Items)
    requires WellFormedItems(body)
    ensures WellFormedItems(Say(r, body))
  {
    assert WellFormedItems(Cons(Null, body));
  }

  lemma TailWellFormed(m: Macro<Items>)
    requires WellFormedMacro(m)
    ensures WellFormedItems(Tail(m))
  {
    assert WellFormedItems(Nil);
    if IsRequire(m) {
      assert WellFormedItems(One(Goto(m.dest)));
      if ActionOf(m).Some? {
        assert WellFormed(Block(ActionOf(m).value));
      }
    }
  }

  /** Every replacement list is one statement that takes no `else` from its surroundings. */
  lemma ReplaceWellFormed(b: Build, m: Macro<Items>)
    requires WellFormedMacro(m)
    ensures WellFormed(Replace(b, m)) && !Open(Replace(b, m))
  {
    var r, rest, test := ReportOf(m), Tail(m), NonZero(Var(EVAL_ONCE));
    TailWellFormed(m);
    SayWellFormed(r, rest);
    BlockWellFormed(test, Nil);
    var body := if b.Production? || IsQuiet(m) then rest else Say(r, rest);
    BlockWellFormed(test, body);
    if !m.DebugString? {
      var c := TestOf(m);
      BlockWellFormed(c, body);
      BlockWellFormed(c, One(IfThen(c, Block(body))));
      BlockWellFormed(c, Decl(EVAL_ONCE, m.operand, One(IfThen(test, Block(body)))));
    }
  }

  /** Statement hygiene: if the unexpanded text of a program parses as `s`, then its expanded text
      parses, in either build, and as the expansion of `s`; so every `else` belongs to the same `if`
      before and after expansion, whatever nest of `if` statements surrounds the macros. */
  lemma StatementHygiene(b: Build, ts: seq<Token>)
    requires ParseStmt(ts).Ok? && ParseStmt(ts).rest == []
    ensures ParseStmt(ExpandText(b, ts)) == Ok(Expand(b, ParseStmt(ts).value), [])
  {
    ParseSound(ts);
    var s := ParseStmt(ts).value;
    assert ts == Print(s);
    ExpandTextPrints(b, s);
    RoundTrip(Expand(b, s));
  }
}
