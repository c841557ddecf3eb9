/** The text of function bodies: statements, some of them behind a label, and the proof that
    expanding the tokens of a body and then parsing gives the expansion of its parse. */
module FunctionText {
  import opened Options
  import opened CLang
  import opened Expansion
  import opened Functions
  import opened Syntax
  import opened Hygiene

  function PrintLabel(l: Option<Name>): seq<Token> {
    if l.Some? then [TLabel(l.value)] else []
  }

  function PrintBody(f: Body): seq<Token> {
    if f == [] then [] else PrintLabel(f[0].dest) + Print(f[0].s) + PrintBody(f[1..])
  }

  predicate WellFormedBody(f: Body) {
    forall i | 0 <= i < |f| :: WellFormed(f[i].s)
  }

  /** The label in front of `ts`, if any, and the tokens after it. */
  function SplitLabel(ts: seq<Token>): (r: (Option<Name>, seq<Token>))
    ensures Size(r.1) <= Size(ts) && ts == PrintLabel(r.0) + r.1
  {
    if ts != [] && ts[0].TLabel? then SizeDrop(ts, 1); (Some(ts[0].dest), ts[1..]) else (None, ts)
  }

  function ParseBody(ts: seq<Token>): Option<Body>
    decreases Size(ts)
  {
    if ts == [] then Some([]) else
    var (l, us) := SplitLabel(ts);
    match ParseStmt(us)
    case Fail => None
    case Ok(s, rest) =>
      match ParseBody(rest)
      case None => None
      case Some(f) => Some([Segment(l, s)] + f)
  }

  // ----- Round trip -----

  lemma ConsBody(g: Segment, f: Body)
    ensures PrintBody([g] + f) == PrintLabel(g.dest) + Print(g.s) + PrintBody(f)
    ensures WellFormedBody([g] + f) <==> WellFormed(g.s) && WellFormedBody(f)
  {
    assert ([g] + f)[1..] == f;
    assert WellFormedBody([g] + f) ==> WellFormedBody(f) by {
      if WellFormedBody([g] + f) {
        forall i | 0 <= i < |f| ensures WellFormed(f[i].s) { assert f[i] == ([g] + f)[i + 1]; }
      }
    }
    assert ([g] + f)[0] == g;
  }

  lemma SegmentText(ts: seq<Token>, g: Segment, us: seq<Token>, rest: seq<Token>, f: Body)
    requires ts == PrintLabel(g.dest) + us && us == Print(g.s) + rest && rest == PrintBody(f)
    ensures ts == PrintBody([g] + f)
  {
    ConsBody(g, f);
    Associate(PrintLabel(g.dest), Print(g.s), rest);
  }

  lemma Associate(a: seq<Token>, b: seq<Token>, c: seq<Token>)
    ensures a + (b + c) == a + b + c
  {
  }

  lemma {:induction false} ParseBodySound(ts: seq<Token>)
    requires ParseBody(ts).Some?
    ensures ts == PrintBody(ParseBody(ts).value) && WellFormedBody(ParseBody(ts).value)
    decreases Size(ts)
  {
    if ts != [] {
      var (l, us) := SplitLabel(ts);
      ParseSound(us);
      var Ok(s, rest) := ParseStmt(us);
      ParseBodySound(rest);
      var f := ParseBody(rest).value;
      assert ParseBody(ts) == Some([Segment(l, s)] + f);
      SegmentText(ts, Segment(l, s), us, rest, f);
      ConsBody(Segment(l, s), f);
    }
  }

  /** The text of a body does not start with `else`. */
  lemma BodyFollows(s: Stmt, f: Body)
    ensures Follows(s, PrintBody(f))
  {
    if f != [] {
      FirstToken(f[0].s);
    }
  }

  lemma {:induction false} PrintBodyParses(f: Body)
    requires WellFormedBody(f)
    ensures ParseBody(PrintBody(f)) == Some(f)
    decreases |f|
  {
    if f != [] {
      var g, rest := f[0], PrintBody(f[1..]);
      PrintBodyParses(f[1..]);
      FirstToken(g.s);
      BodyFollows(g.s, f[1..]);
      PrintParses(g.s, rest);
      Associate(PrintLabel(g.dest), Print(g.s), rest);
      SplitPrinted(g.dest, Print(g.s) + rest);
      assert [g] + f[1..] == f;
    }
  }

  lemma SplitPrinted(l: Option<Name>, us: seq<Token>)
    requires us != [] && !us[0].TLabel?
    ensures SplitLabel(PrintLabel(l) + us) == (l, us)
  {
    if l.Some? {
      assert (PrintLabel(l) + us)[1..] == us;
    } else {
      assert PrintLabel(l) + us == us;
    }
  }

  // ----- Hygiene of function bodies -----

  lemma SegmentExpands(b: Build, g: Segment, rest: seq<Token>)
    requires WellFormed(g.s)
    ensures ExpandText(b, PrintLabel(g.dest) + Print(g.s) + rest) ==
            PrintLabel(g.dest) + Print(Expand(b, g.s)) + ExpandText(b, rest)
  {
    ExpandTextPrints(b, g.s);
    ExpandPlain(b, PrintLabel(g.dest));
    ExpandTextAppend(b, PrintLabel(g.dest), Print(g.s));
    ExpandTextAppend(b, PrintLabel(g.dest) + Print(g.s), rest);
  }

  lemma ExpandBodyCons(b: Build, f: Body)
    requires f != []
    ensures ExpandBody(b, f) == [Segment(f[0].dest, Expand(b, f[0].s))] + ExpandBody(b, f[1..])
  {
  }

  lemma {:induction false} ExpandBodyTextPrints(b: Build, f: Body)
    requires WellFormedBody(f)
    ensures ExpandText(b, PrintBody(f)) == PrintBody(ExpandBody(b, f)) && WellFormedBody(ExpandBody(b, f))
    decreases |f|
  {
    if f != [] {
      ExpandBodyTextPrints(b, f[1..]);
      ExpandBodyCons(b, f);
      SegmentExpands(b, f[0], PrintBody(f[1..]));
      ConsBody(Segment(f[0].dest, Expand(b, f[0].s)), ExpandBody(b, f[1..]));
      assert WellFormed(Expand(b, f[0].s)) by { ExpandTextPrints(b, f[0].s); }
    }
  }

  /** Hygiene of whole functions: if the unexpanded text of a function body parses as `f`, its expanded
      text parses, in either build, and as the expansion of `f`, with every label and `else` in place. */
  lemma BodyHygiene(b: Build, ts: seq<Token>)
    requires ParseBody(ts).Some?
    ensures ParseBody(ExpandText(b, ts)) == Some(ExpandBody(b, ParseBody(ts).value))
  {
    ParseBodySound(ts);
    var f := ParseBody(ts).value;
    ExpandBodyTextPrints(b, f);
    PrintBodyParses(ExpandBody(b, f));
  }
}
