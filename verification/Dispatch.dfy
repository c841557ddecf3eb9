/** The variadic __API_* macros: selection of an indexed macro by counting arguments. */
module Dispatch {
  import opened Options

  /** An argument of an __API_* macro, as text: a platform clause, or a message. */
  type Argument = string

  datatype Family = AvailableFamily | DeprecatedFamily | ReplacementFamily | UnavailableFamily

  /** One `availability` attribute; a deprecation carries its message or replacement. */
  datatype Attribute = Attribute(family: Family, clause: Argument, note: Option<Argument>)

  /** The families whose first argument is a message or a replacement. */
  predicate HasNote(fam: Family) { fam.DeprecatedFamily? || fam.ReplacementFamily? }

  /** The number of indexed macros of each family (__API_AVAILABLE0 to __API_AVAILABLE8). */
  const MACROS: nat := 9

  /** What the selector's NAME parameter can be bound to. */
  datatype Name = Indexed(clauses: nat) | Zero | Passed(argument: Argument)

  /** The names after the arguments: those of the indexed macros, by falling number of clauses, and
      the padding zeros. */
  function Table(k: nat, note: bool): seq<Name> {
    seq(k, i requires 0 <= i < k => Indexed(k - i)) + if note then [Zero, Zero] else [Zero]
  }

  /** `GET_MACRO(_0, ..., NAME, ...)` with `slots` parameters before NAME; the variable part must not be
      empty (ISO/IEC 9899:2011, section 6.10.3). */
  function Select(slots: nat, actuals: seq<Name>): Option<Name> {
    if slots + 1 < |actuals| then Some(actuals[slots]) else None
  }

  function Pass(args: seq<Argument>): seq<Name> {
    seq(|args|, i requires 0 <= i < |args| => Passed(args[i]))
  }

  /** The name selected for `args`, in a family of `k` indexed macros. */
  function Dispatched(k: nat, note: bool, args: seq<Argument>): Option<Name> {
    Select(if note then k + 1 else k, Pass(args) + Table(k, note))
  }

  /** The indexed macro for `n` clauses: one attribute for each parameter, in order, all with the
      same note.  It exists for 1 to `k` clauses and accepts exactly its own number of arguments. */
  function Body(k: nat, fam: Family, n: nat, args: seq<Argument>): Option<seq<Attribute>> {
    var first := if HasNote(fam) then 1 else 0;
    if !(1 <= n <= k) || |args| != n + first then None else
    var note := if HasNote(fam) then Some(args[0]) else None;
    Some(seq(n, i requires 0 <= i < n => Attribute(fam, args[i + first], note)))
  }

  /** The expansion of an invocation with `k` indexed macros in the family. */
  function ExpandApi(k: nat, fam: Family, args: seq<Argument>): Option<seq<Attribute>> {
    match Dispatched(k, HasNote(fam), args)
    case Some(Indexed(n)) => Body(k, fam, n, args)
    case _ => None
  }

  /** Selection is exact, for every table size: `n` clauses select the macro for `n` clauses if and
      only if 1 <= n <= k.  The first argument is no clause where it is a message or a replacement. */
  lemma SelectsByCount(k: nat, fam: Family, args: seq<Argument>)
    requires |args| >= 1
    ensures
      var n := if fam.DeprecatedFamily? || fam.ReplacementFamily? then |args| - 1 else |args|;
      var selected := Dispatched(k, HasNote(fam), args);
      selected.Some? && if 1 <= n <= k then selected.value == Indexed(n) else !selected.value.Indexed?
  {
    var note := HasNote(fam);
    var slots := if note then k + 1 else k;
    var all := Pass(args) + Table(k, note);
    assert |all| > slots + 1;
    if slots < |args| {
      assert all[slots] == Pass(args)[slots];
    } else {
      assert all[slots] == Table(k, note)[slots - |args|];
    }
  }

  /** A map over the clauses. */
  function MapClauses(fam: Family, clauses: seq<Argument>, note: Option<Argument>): seq<Attribute> {
    if clauses == [] then [] else [Attribute(fam, clauses[0], note)] + MapClauses(fam, clauses[1..], note)
  }

  lemma {:induction false} MapClausesAt(fam: Family, clauses: seq<Argument>, note: Option<Argument>, i: nat)
    ensures |MapClauses(fam, clauses, note)| == |clauses|
    ensures i < |clauses| ==> MapClauses(fam, clauses, note)[i] == Attribute(fam, clauses[i], note)
    decreases |clauses|
  {
    if clauses != [] {
      MapClausesAt(fam, clauses[1..], note, if i > 0 then i - 1 else 0);
    }
  }

  /** Dispatch equals map: with 1 to `k` clauses an invocation expands to one attribute per clause, in
      order; with any other number it does not expand to attributes.  The deprecated and replacement
      families take a first argument that goes into each attribute. */
  lemma DispatchIsMap(k: nat, fam: Family, args: seq<Argument>)
    requires |args| >= 1
    ensures fam.AvailableFamily? || fam.UnavailableFamily? ==>
              ExpandApi(k, fam, args) == if |args| <= k then Some(MapClauses(fam, args, None)) else None
    ensures fam.DeprecatedFamily? || fam.ReplacementFamily? ==>
              ExpandApi(k, fam, args) == if 2 <= |args| <= k + 1 then Some(MapClauses(fam, args[1..], Some(args[0]))) else None
  {
    SelectsByCount(k, fam, args);
    var first := if HasNote(fam) then 1 else 0;
    var clauses, note := args[first..], if HasNote(fam) then Some(args[0]) else None;
    if 1 <= |clauses| <= k {
      var r := ExpandApi(k, fam, args).value;
      MapClausesAt(fam, clauses, note, 0);
      forall i: nat | i < |clauses| ensures r[i] == MapClauses(fam, clauses, note)[i] {
        MapClausesAt(fam, clauses, note, i);
      }
      assert r == MapClauses(fam, clauses, note);
    }
  }

  /** The header has macros for nine clauses and no more. */
  lemma NineClauses(fam: Family, args: seq<Argument>)
    requires |args| >= 1
    ensures fam.AvailableFamily? || fam.UnavailableFamily? ==> (ExpandApi(MACROS, fam, args).Some? <==> |args| <= 9)
    ensures fam.DeprecatedFamily? || fam.ReplacementFamily? ==> (ExpandApi(MACROS, fam, args).Some? <==> 2 <= |args| <= 10)
  {
    DispatchIsMap(MACROS, fam, args);
  }
}
