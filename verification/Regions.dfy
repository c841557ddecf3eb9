/** The __API_*_BEGIN and __API_*_END regions: BEGIN pushes a group of attributes, END pops one, and a
    declaration gets the attributes of every group on the stack. */
module Regions {
  import opened Options
  import opened Dispatch

  type Symbol = string

  /** A line of a header: the start of a region, the end of one, or a declaration. */
  datatype Line =
    | Begin(family: Family, args: seq<Argument>)
    | End(family: Family)
    | Declare(symbol: Symbol)

  /** What the compiler sees of a line. */
  datatype Directive = Push | Add(attribute: Attribute) | Pop | Declaration(symbol: Symbol)

  type Groups = seq<seq<Attribute>>

  type Declarations = seq<(Symbol, seq<Attribute>)>

  // ----- Expansion of lines -----

  function Adds(attributes: seq<Attribute>): seq<Directive> {
    seq(|attributes|, i requires 0 <= i < |attributes| => Add(attributes[i]))
  }

  predicate Expands(fam: Family, args: seq<Argument>) { ExpandApi(MACROS, fam, args).Some? }

  /** BEGIN is a push and one directive for each clause; each END, of any family, is a pop. */
  function Directives(line: Line): Option<seq<Directive>> {
    match line
    case Begin(fam, args) =>
      (match ExpandApi(MACROS, fam, args)
       case None => None
       case Some(attributes) => Some([Push] + Adds(attributes)))
    case End(_) => Some([Pop])
    case Declare(s) => Some([Declaration(s)])
  }

  // ----- The compiler's stack -----

  datatype State = State(groups: Groups, declared: Declarations)

  function Concat(groups: Groups): seq<Attribute> {
    if groups == [] then [] else Concat(groups[..|groups| - 1]) + groups[|groups| - 1]
  }

  /** One directive; a pop or an attribute without an open group is an error. */
  function Step(st: State, d: Directive): Option<State> {
    var n := |st.groups|;
    match d
    case Push => Some(State(st.groups + [[]], st.declared))
    case Add(a) =>
      if n == 0 then None else Some(State(st.groups[..n - 1] + [st.groups[n - 1] + [a]], st.declared))
    case Pop => if n == 0 then None else Some(State(st.groups[..n - 1], st.declared))
    case Declaration(s) => Some(State(st.groups, st.declared + [(s, Concat(st.groups))]))
  }

  function Steps(st: State, ds: seq<Directive>): Option<State>
    decreases |ds|
  {
    if ds == [] then Some(st) else
    match Step(st, ds[0])
    case None => None
    case Some(st1) => Steps(st1, ds[1..])
  }

  /** Runs the lines of a header from `st`; None is a compile-time error. */
  function Run(st: State, lines: seq<Line>): Option<State>
    decreases |lines|
  {
    if lines == [] then Some(st) else
    match Directives(lines[0])
    case None => None
    case Some(ds) =>
      match Steps(st, ds)
      case None => None
      case Some(st1) => Run(st1, lines[1..])
  }

  lemma {:induction false} AddsFillGroup(st: State, attributes: seq<Attribute>)
    requires st.groups != []
    ensures
      var n := |st.groups|;
      Steps(st, Adds(attributes)) ==
      Some(State(st.groups[..n - 1] + [st.groups[n - 1] + attributes], st.declared))
    decreases |attributes|
  {
    var n := |st.groups|;
    if attributes == [] {
      assert st.groups[n - 1] + attributes == st.groups[n - 1];
      assert st.groups[..n - 1] + [st.groups[n - 1]] == st.groups;
    } else {
      var st1 := State(st.groups[..n - 1] + [st.groups[n - 1] + [attributes[0]]], st.declared);
      assert Adds(attributes)[1..] == Adds(attributes[1..]);
      AddsFillGroup(st1, attributes[1..]);
      assert st1.groups[..n - 1] == st.groups[..n - 1];
      assert st.groups[n - 1] + [attributes[0]] + attributes[1..] == st.groups[n - 1] + attributes;
    }
  }

  /** However many clauses it has, a BEGIN that expands opens one group with all its attributes. */
  lemma BeginOpensGroup(st: State, fam: Family, args: seq<Argument>)
    requires Expands(fam, args)
    ensures Steps(st, Directives(Begin(fam, args)).value) ==
            Some(State(st.groups + [ExpandApi(MACROS, fam, args).value], st.declared))
  {
    var attributes := ExpandApi(MACROS, fam, args).value;
    var st1 := State(st.groups + [[]], st.declared);
    var ds := [Push] + Adds(attributes);
    assert ds[0] == Push && ds[1..] == Adds(attributes);
    AddsFillGroup(st1, attributes);
    assert st1.groups[..|st.groups|] == st.groups;
    assert [] + attributes == attributes;
  }

  // ----- The tree reading -----

  /** Nested regions, each with the invocation that opens it and the family of the END that closes it. */
  datatype Forest =
    | Leaf
    | Item(symbol: Symbol, rest: Forest)
    | Region(family: Family, args: seq<Argument>, body: Forest, closer: Family, rest: Forest)

  function Flatten(f: Forest): seq<Line> {
    match f
    case Leaf => []
    case Item(s, rest) => [Declare(s)] + Flatten(rest)
    case Region(fam, args, body, closer, rest) => [Begin(fam, args)] + Flatten(body) + [End(closer)] + Flatten(rest)
  }

  /** All BEGINs of the forest have an expansion. */
  predicate WellFormed(f: Forest) {
    match f
    case Leaf => true
    case Item(_, rest) => WellFormed(rest)
    case Region(fam, args, body, _, rest) => Expands(fam, args) && WellFormed(body) && WellFormed(rest)
  }

  /** Each declaration with the attributes inherited from the regions around it, outermost first. */
  function Read(f: Forest, inherited: seq<Attribute>): Declarations {
    match f
    case Leaf => []
    case Item(s, rest) => [(s, inherited)] + Read(rest, inherited)
    case Region(fam, args, body, _, rest) =>
      (match ExpandApi(MACROS, fam, args)
       case None => []
       case Some(attributes) => Read(body, inherited + attributes) + Read(rest, inherited))
  }

  lemma {:induction false} RunAppend(st: State, a: seq<Line>, b: seq<Line>)
    ensures Run(st, a + b) == match Run(st, a) case None => None case Some(st1) => Run(st1, b)
    decreases |a|
  {
    if a == [] {
      assert a + b == b;
    } else {
      assert (a + b)[0] == a[0] && (a + b)[1..] == a[1..] + b;
      match Directives(a[0])
      case None =>
      case Some(ds) =>
        match Steps(st, ds)
        case None =>
        case Some(st1) => RunAppend(st1, a[1..], b);
    }
  }

  lemma RunOne(st: State, line: Line)
    ensures Run(st, [line]) == match Directives(line) case None => None case Some(ds) => Steps(st, ds)
  {
    assert [line][1..] == [];
  }

  lemma RunDeclare(st: State, s: Symbol)
    ensures Run(st, [Declare(s)]) == Some(State(st.groups, st.declared + [(s, Concat(st.groups))]))
  {
    RunOne(st, Declare(s));
    assert [Declaration(s)][1..] == [];
  }

  lemma RunEnd(st: State, fam: Family)
    ensures Run(st, [End(fam)]) == if st.groups == [] then None else Some(State(st.groups[..|st.groups| - 1], st.declared))
  {
    RunOne(st, End(fam));
    assert [Pop][1..] == [];
  }

  /** A region whose body restores the stack restores the stack itself. */
  lemma RunRegion(st: State, begin: Line, body: seq<Line>, closer: Family, declared: Declarations)
    requires begin.Begin? && Expands(begin.family, begin.args)
    requires
      var groups := st.groups + [ExpandApi(MACROS, begin.family, begin.args).value];
      Run(State(groups, st.declared), body) == Some(State(groups, declared))
    ensures Run(st, [begin] + body + [End(closer)]) == Some(State(st.groups, declared))
  {
    var groups := st.groups + [ExpandApi(MACROS, begin.family, begin.args).value];
    RunOne(st, begin);
    BeginOpensGroup(st, begin.family, begin.args);
    RunAppend(st, [begin], body);
    RunEnd(State(groups, declared), closer);
    assert groups[..|groups| - 1] == st.groups;
    RunAppend(st, [begin] + body, [End(closer)]);
  }

  /** Region stack refines region tree: the text of a forest runs without error from every state,
      leaves the stack as it was, and gives each declaration exactly the attributes of the groups
      already open and of the regions around it. */
  lemma {:induction false} StackRefinesTree(st: State, f: Forest)
    requires WellFormed(f)
    ensures Run(st, Flatten(f)) == Some(State(st.groups, st.declared + Read(f, Concat(st.groups))))
    decreases f, 1
  {
    match f
    case Leaf => assert st.declared + [] == st.declared;
    case Item(s, rest) =>
      RunAppend(st, [Declare(s)], Flatten(rest));
      RunDeclare(st, s);
      var st1 := State(st.groups, st.declared + [(s, Concat(st.groups))]);
      StackRefinesTree(st1, rest);
      assert st1.declared + Read(rest, Concat(st.groups)) == st.declared + Read(f, Concat(st.groups));
    case Region(_, _, _, _, _) => StackRefinesRegion(st, f);
  }

  lemma {:induction false} StackRefinesRegion(st: State, f: Forest)
    requires f.Region? && WellFormed(f)
    ensures Run(st, Flatten(f)) == Some(State(st.groups, st.declared + Read(f, Concat(st.groups))))
    decreases f, 0
  {
    var begin := Begin(f.family, f.args);
    var attributes := ExpandApi(MACROS, f.family, f.args).value;
    var inherited := Concat(st.groups);
    var st1 := State(st.groups + [attributes], st.declared);
    assert Concat(st1.groups) == inherited + attributes by {
      assert st1.groups[..|st.groups|] == st.groups;
    }
    StackRefinesTree(st1, f.body);
    var inner := Read(f.body, inherited + attributes);
    var st2 := State(st.groups, st.declared + inner);
    RunRegion(st, begin, Flatten(f.body), f.closer, st2.declared);
    StackRefinesTree(st2, f.rest);
    RunAppend(st, [begin] + Flatten(f.body) + [End(f.closer)], Flatten(f.rest));
    assert (st.declared + inner) + Read(f.rest, inherited) == st.declared + (inner + Read(f.rest, inherited));
  }

  // ----- Every run without error that restores the stack is the run of a forest -----

  datatype ReadForest = Unclosed | Forest(f: Forest, rest: seq<Line>)

  /** Reads a forest up to an END that it does not open, or to the end of the lines. */
  function ParseForest(lines: seq<Line>): (r: ReadForest)
    ensures r.Forest? ==> |r.rest| <= |lines| && (r.rest == [] || r.rest[0].End?)
    decreases |lines|
  {
    if lines == [] || lines[0].End? then Forest(Leaf, lines) else
    match ParseForest(lines[1..])
    case Unclosed => Unclosed
    case Forest(f, rest) =>
      if lines[0].Declare? then Forest(Item(lines[0].symbol, f), rest)
      else if rest == [] then Unclosed
      else
        match ParseForest(rest[1..])
        case Unclosed => Unclosed
        case Forest(f', rest') => Forest(Region(lines[0].family, lines[0].args, f, rest[0].family, f'), rest')
  }

  lemma {:induction false} ParseForestSound(lines: seq<Line>)
    requires ParseForest(lines).Forest?
    ensures lines == Flatten(ParseForest(lines).f) + ParseForest(lines).rest
    decreases |lines|
  {
    if lines == [] || lines[0].End? {
      assert Flatten(Leaf) + lines == lines;
    } else {
      ParseForestSound(lines[1..]);
      var Forest(f, rest) := ParseForest(lines[1..]);
      if lines[0].Declare? {
        ItemText(lines, f, rest);
      } else {
        ParseForestSound(rest[1..]);
        var Forest(f', rest') := ParseForest(rest[1..]);
        RegionText(lines, f, rest, f', rest');
      }
    }
  }

  lemma ItemText(lines: seq<Line>, f: Forest, rest: seq<Line>)
    requires lines != [] && lines[0].Declare? && lines[1..] == Flatten(f) + rest
    ensures lines == Flatten(Item(lines[0].symbol, f)) + rest
  {
    assert lines == [lines[0]] + lines[1..];
  }

  lemma RegionText(lines: seq<Line>, f: Forest, rest: seq<Line>, f': Forest, rest': seq<Line>)
    requires lines != [] && lines[0].Begin? && lines[1..] == Flatten(f) + rest
    requires rest != [] && rest[0].End? && rest[1..] == Flatten(f') + rest'
    ensures lines == Flatten(Region(lines[0].family, lines[0].args, f, rest[0].family, f')) + rest'
  {
    assert lines == [lines[0]] + lines[1..] && rest == [rest[0]] + rest[1..];
    Regroup([lines[0]], Flatten(f), [rest[0]], Flatten(f'), rest');
  }

  lemma Regroup(a: seq<Line>, b: seq<Line>, c: seq<Line>, d: seq<Line>, e: seq<Line>)
    ensures a + (b + (c + (d + e))) == (a + b + c + d) + e
  {
  }

  /** Only forests whose BEGINs all expand run without error. */
  lemma {:induction false} RunMeansWellFormed(st: State, f: Forest, rest: seq<Line>)
    requires Run(st, Flatten(f) + rest).Some?
    ensures WellFormed(f)
    decreases f, 1
  {
    RunAppend(st, Flatten(f), rest);
    match f
    case Leaf =>
    case Item(s, f1) =>
      RunAppend(st, [Declare(s)], Flatten(f1));
      RunDeclare(st, s);
      AppendNoLines(Flatten(f1));
      RunMeansWellFormed(State(st.groups, st.declared + [(s, Concat(st.groups))]), f1, []);
    case Region(_, _, _, _, _) => RegionRunMeansWellFormed(st, f);
  }

  lemma {:induction false} RegionRunMeansWellFormed(st: State, f: Forest)
    requires f.Region? && Run(st, Flatten(f)).Some?
    ensures WellFormed(f)
    decreases f, 0
  {
    var begin, end := [Begin(f.family, f.args)], [End(f.closer)];
    RegionFlat(f);
    RunAppend(st, begin, Flatten(f.body) + (end + Flatten(f.rest)));
    RunOne(st, begin[0]);
    BeginOpensGroup(st, f.family, f.args);
    var st1 := State(st.groups + [ExpandApi(MACROS, f.family, f.args).value], st.declared);
    RunMeansWellFormed(st1, f.body, end + Flatten(f.rest));
    RunAppend(st1, Flatten(f.body), end + Flatten(f.rest));
    StackRefinesTree(st1, f.body);
    var st2 := Run(st1, Flatten(f.body)).value;
    RunAppend(st2, end, Flatten(f.rest));
    RunEnd(st2, f.closer);
    AppendNoLines(Flatten(f.rest));
    RunMeansWellFormed(Run(st2, end).value, f.rest, []);
  }

  lemma RegionFlat(f: Forest)
    requires f.Region?
    ensures Flatten(f) == [Begin(f.family, f.args)] + (Flatten(f.body) + ([End(f.closer)] + Flatten(f.rest)))
  {
  }

  lemma AppendNoLines(lines: seq<Line>)
    ensures lines + [] == lines
  {
  }

  /** An unclosed BEGIN leaves the stack higher than it was. */
  lemma {:induction false} UnclosedGrows(st: State, lines: seq<Line>)
    requires ParseForest(lines).Unclosed? && Run(st, lines).Some?
    ensures |Run(st, lines).value.groups| > |st.groups|
    decreases |lines|
  {
    assert lines == [lines[0]] + lines[1..];
    RunAppend(st, [lines[0]], lines[1..]);
    match lines[0]
    case End(_) =>
    case Declare(s) =>
      RunDeclare(st, s);
      UnclosedGrows(Run(st, [Declare(s)]).value, lines[1..]);
    case Begin(fam, args) =>
      RunOne(st, Begin(fam, args));
      BeginOpensGroup(st, fam, args);
      var st1 := Run(st, [lines[0]]).value;
      match ParseForest(lines[1..])
      case Unclosed => UnclosedGrows(st1, lines[1..]);
      case Forest(body, rest) =>
        ParseForestSound(lines[1..]);
        RunMeansWellFormed(st1, body, rest);
        StackRefinesTree(st1, body);
        RunAppend(st1, Flatten(body), rest);
        if rest != [] {
          var st2 := Run(st1, Flatten(body)).value;
          assert rest == [rest[0]] + rest[1..];
          RunAppend(st2, [rest[0]], rest[1..]);
          RunEnd(st2, rest[0].family);
          UnclosedGrows(Run(st2, [rest[0]]).value, rest[1..]);
        }
  }

  /** The run from the empty stack succeeds and ends with the empty stack. */
  predicate Balanced(lines: seq<Line>) {
    var r := Run(State([], []), lines);
    r.Some? && r.value.groups == []
  }

  /** A header is balanced if and only if it is the text of a forest whose BEGINs all expand; then its
      declarations are read as in the forest. */
  lemma BalancedExact(lines: seq<Line>)
    ensures Balanced(lines) <==> exists f: Forest :: WellFormed(f) && Flatten(f) == lines
    ensures forall f: Forest :: WellFormed(f) && Flatten(f) == lines ==>
              Run(State([], []), lines) == Some(State([], Read(f, [])))
  {
    var st := State([], []);
    forall f: Forest | WellFormed(f) && Flatten(f) == lines
      ensures Run(st, lines) == Some(State([], Read(f, [])))
    {
      StackRefinesTree(st, f);
      assert st.declared + Read(f, []) == Read(f, []);
    }
    if Balanced(lines) {
      match ParseForest(lines)
      case Unclosed => UnclosedGrows(st, lines);
      case Forest(f, rest) =>
        ParseForestSound(lines);
        RunMeansWellFormed(st, f, rest);
        StackRefinesTree(st, f);
        RunAppend(st, Flatten(f), rest);
        AppendNoLines(Flatten(f));
    }
  }

  // ----- The stack as the compiler keeps it -----

  class AttributeStack {
    var groups: Groups
    var declared: Declarations

    function Contents(): State
      reads this
    {
      State(groups, declared)
    }

    constructor ()
      ensures Contents() == State([], [])
    {
      groups, declared := [], [];
    }

    /** Processes one directive; on an error nothing changes. */
    method Apply(d: Directive) returns (ok: bool)
      modifies this
      ensures ok == Step(old(Contents()), d).Some?
      ensures Contents() == if ok then Step(old(Contents()), d).value else old(Contents())
    {
      ok := true;
      match d
      case Push => groups := groups + [[]];
      case Add(a) =>
        if groups == [] {
          ok := false;
        } else {
          groups := groups[..|groups| - 1] + [groups[|groups| - 1] + [a]];
        }
      case Pop =>
        if groups == [] {
          ok := false;
        } else {
          groups := groups[..|groups| - 1];
        }
      case Declaration(s) =>
        var attributes := Concat(groups);
        declared := declared + [(s, attributes)];
    }

    /** Processes the directives of one line. */
    method ApplyAll(ds: seq<Directive>) returns (ok: bool)
      modifies this
      ensures ok == Steps(old(Contents()), ds).Some?
      ensures ok ==> Contents() == Steps(old(Contents()), ds).value
    {
      ok := true;
      var i := 0;
      while ok && i < |ds|
        invariant 0 <= i <= |ds|
        invariant ok ==> Steps(old(Contents()), ds) == Steps(Contents(), ds[i..])
        invariant !ok ==> Steps(old(Contents()), ds).None?
        decreases |ds| - i, ok
      {
        assert ds[i..][0] == ds[i] && ds[i..][1..] == ds[i + 1..];
        ok := Apply(ds[i]);
        i := i + 1;
      }
      assert ok ==> ds[i..] == [];
    }

    /** Processes a header. */
    method Process(lines: seq<Line>) returns (ok: bool)
      modifies this
      ensures ok == Run(old(Contents()), lines).Some?
      ensures ok ==> Contents() == Run(old(Contents()), lines).value
    {
      ok := true;
      var i := 0;
      while ok && i < |lines|
        invariant 0 <= i <= |lines|
        invariant ok ==> Run(old(Contents()), lines) == Run(Contents(), lines[i..])
        invariant !ok ==> Run(old(Contents()), lines).None?
        decreases |lines| - i, ok
      {
        assert lines[i..][0] == lines[i] && lines[i..][1..] == lines[i + 1..];
        var ds := Directives(lines[i]);
        if ds.Some? {
          ok := ApplyAll(ds.value);
        } else {
          ok := false;
        }
        i := i + 1;
      }
      assert ok ==> lines[i..] == [];
    }
  }
}
