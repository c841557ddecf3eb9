/** `__swift_compiler_version_at_least`: a version test by 64-bit integer comparison. */
module Swift {
  import opened Options

  const TWO_TO_64: int := 0x1_0000_0000_0000_0000

  /** The components that the test looks at: X, Z, a and b.  The second argument, Y, is ignored. */
  datatype Components = Components(x: nat, z: nat, a: nat, b: nat)

  /** The arguments, padded with the four zeros that the macro appends. */
  function Component(args: seq<nat>, i: nat): nat
    requires 1 <= |args| && i < 5
  {
    (args + [0, 0, 0, 0])[i]
  }

  function Read(args: seq<nat>): Components
    requires 1 <= |args|
  {
    Components(Component(args, 0), Component(args, 2), Component(args, 3), Component(args, 4))
  }

  /** The threshold, in 64-bit unsigned arithmetic. */
  function Threshold(c: Components): int {
    (c.x * 1000 * 1000 * 1000 + c.z * 1000 * 1000 + c.a * 1000 + c.b) % TWO_TO_64
  }

  /** `__swift_compiler_version_at_least(args)`, for a compiler version if there is one. */
  predicate AtLeast(compiler: Option<int>, args: seq<nat>)
    requires 1 <= |args|
  {
    match compiler
    case None => true
    case Some(version) => version >= Threshold(Read(args))
  }

  predicate InBounds(c: Components) {
    c.x <= 18446744072 && c.z < 1000 && c.a < 1000 && c.b < 1000
  }

  /** Lexicographic order of (X, Z, a, b). */
  predicate AtMost(c: Components, d: Components) {
    c.x < d.x || (c.x == d.x &&
      (c.z < d.z || (c.z == d.z &&
        (c.a < d.a || (c.a == d.a && c.b <= d.b)))))
  }

  /** Within the bounds the threshold does not wrap, and thresholds order as their components do. */
  lemma ThresholdOrder(c: Components, d: Components)
    requires InBounds(c) && InBounds(d)
    ensures Threshold(c) == c.x * 1_000_000_000 + c.z * 1_000_000 + c.a * 1000 + c.b
    ensures Threshold(c) <= Threshold(d) <==> AtMost(c, d)
  {
    Unwrapped(c);
    Unwrapped(d);
    var low, low' := c.z * 1_000_000 + c.a * 1000 + c.b, d.z * 1_000_000 + d.a * 1000 + d.b;
    assert low < 1_000_000_000 && low' < 1_000_000_000;
    assert c.a * 1000 + c.b < 1_000_000 && d.a * 1000 + d.b < 1_000_000;
  }

  lemma Unwrapped(c: Components)
    requires InBounds(c)
    ensures Threshold(c) == c.x * 1_000_000_000 + c.z * 1_000_000 + c.a * 1000 + c.b
  {
    var t := c.x * 1_000_000_000 + c.z * 1_000_000 + c.a * 1000 + c.b;
    assert 0 <= t < TWO_TO_64;
  }

  /** The largest component bound is exact: one more and the threshold can wrap below itself. */
  lemma BoundIsExact()
    ensures InBounds(Components(18446744072, 999, 999, 999))
    ensures Threshold(Components(18446744073, 999, 999, 999)) < Threshold(Components(0, 999, 999, 999))
  {
  }

  /** The test compares the compiler's components with the arguments, without regard to the second. */
  lemma AtLeastIsLexicographic(compiler: Components, args: seq<nat>)
    requires 1 <= |args| && InBounds(compiler) && InBounds(Read(args))
    ensures AtLeast(Some(Threshold(compiler)), args) <==> AtMost(Read(args), compiler)
  {
    ThresholdOrder(Read(args), compiler);
  }

  /** Of five or more arguments the first, third, fourth and fifth are X, Z, a and b.  Without a compiler
      version the answer is yes. */
  lemma ArgumentPositions(compiler: Components, args: seq<nat>)
    requires 5 <= |args| && InBounds(compiler) && InBounds(Components(args[0], args[2], args[3], args[4]))
    ensures AtLeast(None, args)
    ensures
      var version := compiler.x * 1_000_000_000 + compiler.z * 1_000_000 + compiler.a * 1000 + compiler.b;
      AtLeast(Some(version), args) <==>
      || compiler.x > args[0]
      || (compiler.x == args[0] && compiler.z > args[2])
      || (compiler.x == args[0] && compiler.z == args[2] && compiler.a > args[3])
      || (compiler.x == args[0] && compiler.z == args[2] && compiler.a == args[3] && compiler.b >= args[4])
  {
    AtLeastIsLexicographic(compiler, args);
    Unwrapped(compiler);
  }

  /** The second argument has no effect. */
  lemma SecondArgumentIgnored(compiler: Option<int>, args: seq<nat>, y: nat)
    requires 2 <= |args|
    ensures AtLeast(compiler, args[1 := y]) == AtLeast(compiler, args)
  {
    var padded, padded' := args + [0, 0, 0, 0], args[1 := y] + [0, 0, 0, 0];
    assert forall i | 0 <= i < |padded| && i != 1 :: padded'[i] == padded[i];
    assert Read(args[1 := y]) == Read(args);
  }

  /** Omitted trailing arguments count as zeros, and arguments past the fifth are ignored. */
  lemma TrailingArguments(compiler: Option<int>, args: seq<nat>, more: seq<nat>)
    requires 1 <= |args| && (|args| >= 5 || forall i | 0 <= i < |more| :: more[i] == 0)
    ensures AtLeast(compiler, args + more) == AtLeast(compiler, args)
  {
    var padded, padded' := args + [0, 0, 0, 0], args + more + [0, 0, 0, 0];
    forall i: nat | i < 5 ensures padded'[i] == padded[i] {
      if |args| <= i {
        assert padded[i] == 0;
        if i < |args| + |more| {
          assert padded'[i] == more[i - |args|];
        }
      }
    }
    assert Read(args + more) == Read(args);
  }
}
