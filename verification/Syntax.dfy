/** The tokens of the C fragment with macro invocations, a printer and a parser for statements
    (ISO/IEC 9899:2011, section 6.8), in which every `else` goes to the nearest `if`, and the proof
    that the two are inverse. */
module Syntax {
  import opened Options
  import opened CLang

  /** Tokens.  A parenthesised operand, with the keyword before it, is one token. */
  datatype Token =
    | TSemi
    | TLBrace
    | TRBrace
    | TIf(c: Expr)                        // if ( c )
    | TElse
    | TDo
    | TWhile(c: Expr)                     // while ( c )
    | TExpr(e: Expr)
    | TBreak
    | TContinue
    | TGoto(dest: Name)
    | TLabel(dest: Name)                  // dest :
    | TReturn(e: Expr)
    | TLong(x: Name, e: Expr)             // long x = ( e )
    | TMessage(r: Report)                 // the call that DEBUG_ASSERT_MESSAGE makes
    | TMacro(m: Macro<Argument>)          // an invocation

  /** The action argument of an invocation: a token list, not yet parsed. */
  datatype Argument = Argument(tokens: seq<Token>)

  // ----- From statements to tokens -----

  function Print(s: Stmt): seq<Token>
    decreases s
  {
    match s
    case Null => [TSemi]
    case Do(e) => [TExpr(e), TSemi]
    case Block(items) => [TLBrace] + PrintItems(items) + [TRBrace]
    case IfThen(c, thn) => [TIf(c)] + Print(thn)
    case IfElse(c, thn, els) => [TIf(c)] + Print(thn) + [TElse] + Print(els)
    case While(c, body) => [TWhile(c)] + Print(body)
    case DoWhile(body, c) => [TDo] + Print(body) + [TWhile(c), TSemi]
    case Break => [TBreak, TSemi]
    case Continue => [TContinue, TSemi]
    case Goto(l) => [TGoto(l), TSemi]
    case Return(e) => [TReturn(e), TSemi]
    case Emit(r) => [TMessage(r), TSemi]
    case Invoke(m) => [TMacro(PrintMacro(m)), TSemi]
  }

  function PrintItems(ss: Items): seq<Token>
    decreases ss
  {
    match ss
    case Nil => []
    case Cons(s, rest) => Print(s) + PrintItems(rest)
    case Decl(x, init, rest) => [TLong(x, init), TSemi] + PrintItems(rest)
  }

  /** An action is written without its last semicolon, which the macro supplies. */
  function ButLast(ts: seq<Token>): seq<Token> {
    if ts == [] then [] else ts[..|ts| - 1]
  }

  function PrintMacro(m: Macro<Items>): Macro<Argument>
    decreases m
  {
    WithAction(m, Argument(if ActionOf(m).Some? then ButLast(PrintItems(ActionOf(m).value)) else []))
  }

  // ----- Statements as the grammar produces them -----

  /** A following `else` would become part of `s`. */
  predicate Open(s: Stmt) {
    match s
    case IfThen(_, _) => true
    case IfElse(_, _, els) => Open(els)
    case While(_, body) => Open(body)
    case _ => false
  }

  predicate EndsInSemi(ts: seq<Token>) { ts != [] && ts[|ts| - 1] == TSemi }

  lemma ButLastSemi(ts: seq<Token>)
    ensures EndsInSemi(ts) ==> ButLast(ts) + [TSemi] == ts
    ensures EndsInSemi(ts + [TSemi]) && ButLast(ts + [TSemi]) == ts
  {
  }

  /** No `else` stands after a statement that would take it, and actions end in a semicolon. */
  predicate WellFormed(s: Stmt)
    decreases s
  {
    match s
    case Block(items) => WellFormedItems(items)
    case IfThen(_, thn) => WellFormed(thn)
    case IfElse(_, thn, els) => WellFormed(thn) && WellFormed(els) && !Open(thn)
    case While(_, body) => WellFormed(body)
    case DoWhile(body, _) => WellFormed(body)
    case Invoke(m) => WellFormedMacro(m)
    case _ => true
  }

  predicate WellFormedItems(ss: Items)
    decreases ss
  {
    match ss
    case Nil => true
    case Cons(s, rest) => WellFormed(s) && WellFormedItems(rest)
    case Decl(_, _, rest) => WellFormedItems(rest)
  }

  predicate WellFormedMacro(m: Macro<Items>)
    decreases m
  {
    ActionOf(m).Some? ==> WellFormedItems(ActionOf(m).value) && EndsInSemi(PrintItems(ActionOf(m).value))
  }

  predicate Follows(s: Stmt, rest: seq<Token>) { Open(s) && rest != [] ==> !rest[0].TElse? }

  predicate AtEnd(ts: seq<Token>) { ts == [] || ts[0].TRBrace? }

  // ----- From tokens to statements -----

  /** The text of the action of an invocation. */
  function TextOf(m: Macro<Argument>): Option<seq<Token>> {
    match m
    case VerifyAction(_, a) => Some(a.tokens)
    case VerifyNoErrAction(_, a) => Some(a.tokens)
    case RequireAction(_, _, _, a, _) => Some(a.tokens)
    case RequireNoErrAction(_, _, a, _) => Some(a.tokens)
    case _ => None
  }

  function TokenSize(t: Token): (n: nat)
    ensures n >= 1
    decreases t
  {
    match t
    case TMacro(VerifyAction(_, a)) => 2 + Size(a.tokens)
    case TMacro(VerifyNoErrAction(_, a)) => 2 + Size(a.tokens)
    case TMacro(RequireAction(_, _, _, a, _)) => 2 + Size(a.tokens)
    case TMacro(RequireNoErrAction(_, _, a, _)) => 2 + Size(a.tokens)
    case _ => 1
  }

  /** The number of tokens, counting those inside invocations. */
  function Size(ts: seq<Token>): nat
    decreases ts
  {
    if ts == [] then 0 else TokenSize(ts[0]) + Size(ts[1..])
  }

  lemma {:induction false} SizeAppend(a: seq<Token>, b: seq<Token>)
    ensures Size(a + b) == Size(a) + Size(b)
    decreases |a|
  {
    if a == [] {
      assert a + b == b;
    } else {
      assert (a + b)[1..] == a[1..] + b;
      SizeAppend(a[1..], b);
    }
  }

  datatype Parsed<+T> = Fail | Ok(value: T, rest: seq<Token>)

  lemma SizeDrop(ts: seq<Token>, k: nat)
    requires k <= |ts|
    ensures Size(ts[k..]) + k <= Size(ts)
    decreases k
  {
    if k > 0 {
      SizeDrop(ts[1..], k - 1);
      assert ts[1..][k - 1..] == ts[k..];
    } else {
      assert ts[0..] == ts;
    }
  }

  /** A statement of one token and a semicolon. */
  function Terminated(s: Stmt, ts: seq<Token>): (r: Parsed<Stmt>)
    requires ts != []
    ensures r.Ok? ==> Size(r.rest) < Size(ts)
  {
    if |ts| >= 2 && ts[1] == TSemi then SizeDrop(ts, 2); Ok(s, ts[2..]) else Fail
  }

  /** Recursive descent over the statement grammar: an `else` goes to the nearest `if`. */
  function ParseStmt(ts: seq<Token>): (r: Parsed<Stmt>)
    ensures r.Ok? ==> Size(r.rest) < Size(ts)
    decreases Size(ts), 1
  {
    if ts == [] then Fail else
    SizeDrop(ts, 1);
    match ts[0]
    case TSemi => Ok(Null, ts[1..])
    case TExpr(e) => Terminated(Do(e), ts)
    case TBreak => Terminated(Break, ts)
    case TContinue => Terminated(Continue, ts)
    case TGoto(l) => Terminated(Goto(l), ts)
    case TReturn(e) => Terminated(Return(e), ts)
    case TMessage(r) => Terminated(Emit(r), ts)
    case TLBrace =>
      (match ParseItems(ts[1..])
       case Fail => Fail
       case Ok(items, rest) =>
         if rest == [] || rest[0] != TRBrace then Fail else
         SizeDrop(rest, 1);
         Ok(Block(items), rest[1..]))
    case TIf(c) =>
      (match ParseStmt(ts[1..])
       case Fail => Fail
       case Ok(thn, rest) =>
         if rest == [] || rest[0] != TElse then Ok(IfThen(c, thn), rest) else
         SizeDrop(rest, 1);
         match ParseStmt(rest[1..])
         case Fail => Fail
         case Ok(els, rest') => Ok(IfElse(c, thn, els), rest'))
    case TWhile(c) =>
      (match ParseStmt(ts[1..])
       case Fail => Fail
       case Ok(body, rest) => Ok(While(c, body), rest))
    case TDo =>
      (match ParseStmt(ts[1..])
       case Fail => Fail
       case Ok(body, rest) =>
         if |rest| < 2 || !rest[0].TWhile? || rest[1] != TSemi then Fail else
         SizeDrop(rest, 2);
         Ok(DoWhile(body, rest[0].c), rest[2..]))
    case TMacro(m) =>
      (match ParseMacro(m, Size(ts))
       case None => Fail
       case Some(m') => Terminated(Invoke(m'), ts))
    case _ => Fail
  }

  /** Block items, up to a closing brace or the end. */
  function ParseItems(ts: seq<Token>): (r: Parsed<Items>)
    ensures r.Ok? ==> Size(r.rest) <= Size(ts)
    decreases Size(ts), 2
  {
    if AtEnd(ts) then Ok(Nil, ts)
    else if ts[0].TLong? then
      if |ts| < 2 || ts[1] != TSemi then Fail else
      SizeDrop(ts, 2);
      match ParseItems(ts[2..])
      case Fail => Fail
      case Ok(items, rest) => Ok(Decl(ts[0].x, ts[0].e, items), rest)
    else
      match ParseStmt(ts)
      case Fail => Fail
      case Ok(s, rest) =>
        match ParseItems(rest)
        case Fail => Fail
        case Ok(items, rest') => Ok(Cons(s, items), rest')
  }

  /** An invocation whose action, followed by the semicolon of the replacement list, is a list of
      block items.  `bound` is the size of the enclosing text. */
  function ParseMacro(m: Macro<Argument>, bound: nat): Option<Macro<Items>>
    requires TokenSize(TMacro(m)) <= bound
    decreases bound, 0
  {
    match TextOf(m)
    case None => Some(WithAction(m, Nil))
    case Some(text) =>
      SizeAppend(text, [TSemi]);
      assert Size([TSemi]) == 1;
      assert TokenSize(TMacro(m)) == 2 + Size(text);
      match ParseItems(text + [TSemi])
      case Fail => None
      case Ok(items, rest) => if rest == [] then Some(WithAction(m, items)) else None
  }

  // ----- The parser inverts the printer -----

  /** What a successful parse of a statement promises. */
  predicate ReadBack(ts: seq<Token>, s: Stmt, rest: seq<Token>) {
    ts == Print(s) + rest && WellFormed(s) && Follows(s, rest)
  }

  /** Whatever is parsed is well formed and prints back as the tokens read. */
  lemma {:induction false} ParseSound(ts: seq<Token>)
    requires ParseStmt(ts).Ok?
    ensures ReadBack(ts, ParseStmt(ts).value, ParseStmt(ts).rest)
    decreases Size(ts), 1
  {
    match ts[0]
    case TLBrace => ParseBlockSound(ts);
    case TIf(_) => ParseIfSound(ts);
    case TWhile(_) => ParseWhileSound(ts);
    case TDo => ParseDoSound(ts);
    case TMacro(m) => SizeDrop(ts, 1); ParseMacroSound(m, Size(ts));
    case _ =>
  }

  lemma {:induction false} ParseBlockSound(ts: seq<Token>)
    requires ParseStmt(ts).Ok? && ts[0].TLBrace?
    ensures ReadBack(ts, ParseStmt(ts).value, ParseStmt(ts).rest)
    decreases Size(ts), 0
  {
    SizeDrop(ts, 1);
    ParseItemsSound(ts[1..]);
    BlockText(ts, ParseItems(ts[1..]).value, ParseItems(ts[1..]).rest);
  }

  lemma BlockText(ts: seq<Token>, items: Items, rest: seq<Token>)
    requires ts != [] && ts[0] == TLBrace && ts[1..] == PrintItems(items) + rest && rest != [] && rest[0] == TRBrace
    ensures ts == Print(Block(items)) + rest[1..]
  {
    assert ts == [TLBrace] + ts[1..] && rest == [TRBrace] + rest[1..];
  }

  /** A statement that an `else` follows is not open, so the two branches make one statement. */
  lemma IfElseSound(ts: seq<Token>, s: Stmt, rest: seq<Token>, rest': seq<Token>)
    requires s.IfElse? && ts != [] && ts[0] == TIf(s.c) && ReadBack(ts[1..], s.thn, rest)
    requires rest != [] && rest[0] == TElse && ReadBack(rest[1..], s.els, rest')
    ensures ReadBack(ts, s, rest')
  {
    assert ts == [ts[0]] + ts[1..] && rest == [TElse] + rest[1..];
  }

  lemma IfThenSound(ts: seq<Token>, s: Stmt, rest: seq<Token>)
    requires s.IfThen? && ts != [] && ts[0] == TIf(s.c) && ReadBack(ts[1..], s.thn, rest)
    requires rest == [] || rest[0] != TElse
    ensures ReadBack(ts, s, rest)
  {
    assert ts == [ts[0]] + ts[1..];
  }

  lemma {:induction false} ParseIfSound(ts: seq<Token>)
    requires ParseStmt(ts).Ok? && ts[0].TIf?
    ensures ReadBack(ts, ParseStmt(ts).value, ParseStmt(ts).rest)
    decreases Size(ts), 0
  {
    SizeDrop(ts, 1);
    ParseSound(ts[1..]);
    var Ok(thn, rest) := ParseStmt(ts[1..]);
    if rest != [] && rest[0] == TElse {
      SizeDrop(rest, 1);
      var Ok(els, rest') := ParseStmt(rest[1..]);
      assert ParseStmt(ts) == Ok(IfElse(ts[0].c, thn, els), rest');
      ParseSound(rest[1..]);
      IfElseSound(ts, IfElse(ts[0].c, thn, els), rest, rest');
    } else {
      assert ParseStmt(ts) == Ok(IfThen(ts[0].c, thn), rest);
      IfThenSound(ts, IfThen(ts[0].c, thn), rest);
    }
  }

  lemma WhileSound(ts: seq<Token>, s: Stmt, rest: seq<Token>)
    requires s.While? && ts != [] && ts[0] == TWhile(s.c) && ReadBack(ts[1..], s.body, rest)
    ensures ReadBack(ts, s, rest)
  {
    assert ts == [ts[0]] + ts[1..];
  }

  lemma {:induction false} ParseWhileSound(ts: seq<Token>)
    requires ParseStmt(ts).Ok? && ts[0].TWhile?
    ensures ReadBack(ts, ParseStmt(ts).value, ParseStmt(ts).rest)
    decreases Size(ts), 0
  {
    SizeDrop(ts, 1);
    ParseSound(ts[1..]);
    var Ok(body, rest) := ParseStmt(ts[1..]);
    assert ParseStmt(ts) == Ok(While(ts[0].c, body), rest);
    WhileSound(ts, While(ts[0].c, body), rest);
  }

  lemma {:induction false} ParseDoSound(ts: seq<Token>)
    requires ParseStmt(ts).Ok? && ts[0].TDo?
    ensures ReadBack(ts, ParseStmt(ts).value, ParseStmt(ts).rest)
    decreases Size(ts), 0
  {
    SizeDrop(ts, 1);
    ParseSound(ts[1..]);
    DoText(ts, ParseStmt(ts[1..]).value, ParseStmt(ts[1..]).rest);
  }

  lemma DoText(ts: seq<Token>, body: Stmt, rest: seq<Token>)
    requires ts != [] && ts[0] == TDo && ts[1..] == Print(body) + rest
    requires |rest| >= 2 && rest[0].TWhile? && rest[1] == TSemi
    ensures ts == Print(DoWhile(body, rest[0].c)) + rest[2..]
  {
    assert ts == [TDo] + ts[1..] && rest == [rest[0], TSemi] + rest[2..];
  }

  /** What a successful parse of block items promises. */
  predicate ItemsReadBack(ts: seq<Token>, ss: Items, rest: seq<Token>) {
    ts == PrintItems(ss) + rest && WellFormedItems(ss) && AtEnd(rest)
  }

  lemma ConsText(ts: seq<Token>, s: Stmt, ss: Items, rest: seq<Token>, rest': seq<Token>)
    requires ts == Print(s) + rest && rest == PrintItems(ss) + rest'
    ensures ts == PrintItems(Cons(s, ss)) + rest'
  {
    assert ts == (Print(s) + PrintItems(ss)) + rest';
  }

  lemma DeclText(ts: seq<Token>, ss: Items, rest: seq<Token>)
    requires |ts| >= 2 && ts[0].TLong? && ts[1] == TSemi && ts[2..] == PrintItems(ss) + rest
    ensures ts == PrintItems(Decl(ts[0].x, ts[0].e, ss)) + rest
  {
    assert ts == [ts[0], TSemi] + ts[2..];
  }

  lemma {:induction false} ParseItemsSound(ts: seq<Token>)
    requires ParseItems(ts).Ok?
    ensures ItemsReadBack(ts, ParseItems(ts).value, ParseItems(ts).rest)
    decreases Size(ts), 2
  {
    if AtEnd(ts) {
      assert ts == PrintItems(Nil) + ts;
    } else if ts[0].TLong? {
      SizeDrop(ts, 2);
      ParseItemsSound(ts[2..]);
      DeclText(ts, ParseItems(ts[2..]).value, ParseItems(ts[2..]).rest);
    } else {
      ParseSound(ts);
      var Ok(s, rest) := ParseStmt(ts);
      ParseItemsSound(rest);
      ConsText(ts, s, ParseItems(rest).value, rest, ParseItems(rest).rest);
    }
  }

  lemma AppendNothing(ts: seq<Token>)
    ensures ts + [] == ts
  {
  }

  lemma {:induction false} ParseMacroSound(m: Macro<Argument>, bound: nat)
    requires TokenSize(TMacro(m)) <= bound && ParseMacro(m, bound).Some?
    ensures
      var m' := ParseMacro(m, bound).value;
      PrintMacro(m') == m && WellFormedMacro(m')
    decreases bound, 0
  {
    if TextOf(m).Some? {
      var text := TextOf(m).value;
      SizeAppend(text, [TSemi]);
      assert Size([TSemi]) == 1;
      assert TokenSize(TMacro(m)) == 2 + Size(text);
      ParseItemsSound(text + [TSemi]);
      var m' := ParseMacro(m, bound).value;
      var items := ParseItems(text + [TSemi]).value;
      AppendNothing(PrintItems(items));
      WithItemsPrints(m, items);
    } else {
      assert PrintMacro(WithAction(m, Nil)) == m;
    }
  }

  /** Parsing the action of an invocation can be undone. */
  lemma WithItemsPrints(m: Macro<Argument>, items: Items)
    requires TextOf(m).Some? && PrintItems(items) == TextOf(m).value + [TSemi] && WellFormedItems(items)
    ensures PrintMacro(WithAction(m, items)) == m && WellFormedMacro(WithAction(m, items))
  {
    ButLastSemi(TextOf(m).value);
    assert ActionOf(WithAction(m, items)) == Some(items);
  }

  lemma {:induction false} FirstToken(s: Stmt)
    ensures Print(s) != [] && !Print(s)[0].TElse? && !Print(s)[0].TRBrace? && !Print(s)[0].TLong? && !Print(s)[0].TLabel?
  {
  }

  /** Every well-formed statement is parsed back from its tokens, in any context that does not
      offer an open `if` another `else`. */
  lemma {:induction false} PrintParses(s: Stmt, rest: seq<Token>)
    requires WellFormed(s) && Follows(s, rest)
    ensures ParseStmt(Print(s) + rest) == Ok(s, rest)
    decreases s, 1
  {
    match s
    case Block(_) => PrintBlockParses(s, rest);
    case IfThen(_, _) => PrintIfParses(s, rest);
    case IfElse(_, _, _) => PrintIfElseParses(s, rest);
    case While(_, _) => PrintLoopParses(s, rest);
    case DoWhile(_, _) => PrintLoopParses(s, rest);
    case Invoke(m) =>
      var ts := Print(s) + rest;
      SizeDrop(ts, 1);
      PrintMacroParses(m, Size(ts));
      assert ts[2..] == rest;
    case Null => assert (Print(s) + rest)[1..] == rest;
    case _ => assert (Print(s) + rest)[2..] == rest;
  }

  lemma {:induction false} PrintBlockParses(s: Stmt, rest: seq<Token>)
    requires s.Block? && WellFormed(s)
    ensures ParseStmt(Print(s) + rest) == Ok(s, rest)
    decreases s, 0
  {
    var ts, rest1 := Print(s) + rest, [TRBrace] + rest;
    assert ts[1..] == PrintItems(s.items) + rest1;
    PrintItemsParse(s.items, rest1);
    assert rest1[1..] == rest;
  }

  lemma {:induction false} PrintIfParses(s: Stmt, rest: seq<Token>)
    requires s.IfThen? && WellFormed(s) && Follows(s, rest)
    ensures ParseStmt(Print(s) + rest) == Ok(s, rest)
    decreases s, 0
  {
    assert (Print(s) + rest)[1..] == Print(s.thn) + rest;
    PrintParses(s.thn, rest);
  }

  lemma {:induction false} PrintIfElseParses(s: Stmt, rest: seq<Token>)
    requires s.IfElse? && WellFormed(s) && Follows(s, rest)
    ensures ParseStmt(Print(s) + rest) == Ok(s, rest)
    decreases s, 0
  {
    var rest1 := [TElse] + (Print(s.els) + rest);
    assert (Print(s) + rest)[1..] == Print(s.thn) + rest1;
    PrintParses(s.thn, rest1);
    assert rest1[1..] == Print(s.els) + rest;
    PrintParses(s.els, rest);
  }

  lemma {:induction false} PrintLoopParses(s: Stmt, rest: seq<Token>)
    requires (s.While? || s.DoWhile?) && WellFormed(s) && Follows(s, rest)
    ensures ParseStmt(Print(s) + rest) == Ok(s, rest)
    decreases s, 0
  {
    var ts := Print(s) + rest;
    if s.While? {
      assert ts[1..] == Print(s.body) + rest;
      PrintParses(s.body, rest);
    } else {
      var rest1 := [TWhile(s.c), TSemi] + rest;
      assert ts[1..] == Print(s.body) + rest1;
      PrintParses(s.body, rest1);
      assert rest1[2..] == rest;
    }
  }

  /** What stands behind a block item does not begin with `else`. */
  lemma ItemsFollow(s: Stmt, tail: Items, rest: seq<Token>)
    requires AtEnd(rest)
    ensures Follows(s, PrintItems(tail) + rest)
  {
    if tail.Cons? {
      FirstToken(tail.head);
    }
  }

  lemma ConsAppend(s: Stmt, tail: Items, rest: seq<Token>)
    ensures PrintItems(Cons(s, tail)) + rest == Print(s) + (PrintItems(tail) + rest)
  {
  }

  lemma DeclAppend(x: Name, init: Expr, tail: Items, rest: seq<Token>)
    ensures PrintItems(Decl(x, init, tail)) + rest == [TLong(x, init), TSemi] + (PrintItems(tail) + rest)
  {
  }

  lemma {:induction false} PrintItemsParse(ss: Items, rest: seq<Token>)
    requires WellFormedItems(ss) && AtEnd(rest)
    ensures ParseItems(PrintItems(ss) + rest) == Ok(ss, rest)
    decreases ss
  {
    match ss
    case Nil => assert PrintItems(ss) + rest == rest;
    case Cons(s, tail) =>
      ConsAppend(s, tail, rest);
      FirstToken(s);
      ItemsFollow(s, tail, rest);
      PrintParses(s, PrintItems(tail) + rest);
      PrintItemsParse(tail, rest);
    case Decl(x, init, tail) =>
      DeclAppend(x, init, tail, rest);
      var rest1 := PrintItems(tail) + rest;
      assert ([TLong(x, init), TSemi] + rest1)[2..] == rest1;
      PrintItemsParse(tail, rest);
  }

  lemma {:induction false} PrintMacroParses(m: Macro<Items>, bound: nat)
    requires WellFormedMacro(m) && TokenSize(TMacro(PrintMacro(m))) <= bound
    ensures ParseMacro(PrintMacro(m), bound) == Some(m)
    decreases m
  {
    PrintMacroKeepsText(m);
    if ActionOf(m).Some? {
      var a := ActionOf(m).value;
      var text := ButLast(PrintItems(a));
      assert text + [TSemi] == PrintItems(a) by { ButLastSemi(PrintItems(a)); }
      AppendNothing(PrintItems(a));
      PrintItemsParse(a, []);
      assert ParseItems(text + [TSemi]) == Ok(a, []);
    }
  }

  /** An invocation is determined by its head and its action. */
  lemma PrintMacroKeepsText(m: Macro<Items>)
    ensures TextOf(PrintMacro(m)) == if ActionOf(m).Some? then Some(ButLast(PrintItems(ActionOf(m).value))) else None
    ensures WithAction(PrintMacro(m), if ActionOf(m).Some? then ActionOf(m).value else Nil) == m
  {
  }

  /** Round trip: the grammar reads a statement back from its own text exactly when it is well
      formed, and every text it accepts is the text of a well-formed statement. */
  lemma RoundTrip(s: Stmt)
    ensures ParseStmt(Print(s)) == Ok(s, []) <==> WellFormed(s)
  {
    AppendNothing(Print(s));
    if WellFormed(s) {
      PrintParses(s, []);
    }
    if ParseStmt(Print(s)) == Ok(s, []) {
      ParseSound(Print(s));
    }
  }
}
