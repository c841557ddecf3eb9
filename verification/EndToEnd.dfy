/** From program text to behaviour: the two preprocessed texts of one function behave alike. */
module EndToEnd {
  import opened Options
  import opened CLang
  import opened Builds
  import opened Functions
  import opened Termination
  import opened Machine
  import opened Syntax
  import opened Hygiene
  import opened FunctionText

  /** The text of a function body is preprocessed in build `b` and parsed, and the machine, started on the
      result in `store`, halts with result `r`. */
  ghost predicate TextHalts(env: Env, b: Build, ts: seq<Token>, store: Store, r: Result) {
    var parsed := ParseBody(ExpandText(b, ts));
    parsed.Some? && Halts(env, parsed.value, store, r)
  }

  /** If the source text of a function, with its exception labels, parses as a body that does not name
      `evalOnceErrorCode` and each macro that its production run comes to meets its condition, then both
      of its preprocessed texts parse, the machine halts on one exactly when it halts on the other, and no
      caller can tell their runs apart. */
  lemma TextsRunAlike(env: Env, ts: seq<Token>, store: Store)
    requires ParseBody(ts).Some?
    requires BodyAvoids({EVAL_ONCE}, ParseBody(ts).value) && RunSafe(env, ParseBody(ts).value, store)
    ensures forall b: Build :: ParseBody(ExpandText(b, ts)).Some?
    ensures (exists d :: TextHalts(env, Debug, ts, store, d)) <==> (exists p :: TextHalts(env, Production, ts, store, p))
    ensures forall d, p :: TextHalts(env, Debug, ts, store, d) && TextHalts(env, Production, ts, store, p) ==> SameBehaviour(d, p)
  {
    var f := ParseBody(ts).value;
    forall b: Build ensures ParseBody(ExpandText(b, ts)) == Some(ExpandBody(b, f)) {
      BodyHygiene(b, ts);
    }
    forall b: Build, r: Result ensures TextHalts(env, b, ts, store, r) <==> Halts(env, ExpandBody(b, f), store, r) {
    }
    BuildsHaltAlike(env, f, store);
  }
}
