/** Availability resolution: the fallback chains of AvailabilityMacros.h, which turn the versions in
    which a symbol was introduced and deprecated, and the range of versions that a build targets,
    into a declaration attribute. */
module Resolution {
  import opened Options
  import opened Versions

  datatype Attribute = Plain | WeakImport | Unavailable | Deprecated

  /** The versions a build targets, as integers: MIN_REQUIRED and MAX_ALLOWED. */
  datatype Target = Target(min: int, max: int)

  // ----- The header -----

  datatype Architecture = Intel | Arm | OtherArchitecture

  datatype ConfigError = MaxBelowMin | MinBelow10_0

  datatype Configured = Accepted(target: Target) | Rejected(error: ConfigError)

  /** MIN_REQUIRED: as given, else the deployment target of the compiler, else by architecture. */
  function MinRequired(given: Option<int>, environment: Option<int>, arch: Architecture): int {
    match given
    case Some(v) => v
    case None =>
      match environment
      case Some(v) => v
      case None => match arch case Intel => 1040 case Arm => 1050 case OtherArchitecture => 1010
  }

  /** MAX_ALLOWED: as given, else the larger of 14.0 and the minimum. */
  function MaxAllowed(given: Option<int>, min: int): int {
    match given
    case Some(v) => v
    case None => if min > 140000 then min else 140000
  }

  function Configure(givenMin: Option<int>, environment: Option<int>, arch: Architecture, givenMax: Option<int>): Configured {
    var min := MinRequired(givenMin, environment, arch);
    var max := MaxAllowed(givenMax, min);
    if max < min then Rejected(MaxBelowMin)
    else if min < 1000 then Rejected(MinBelow10_0)
    else Accepted(Target(min, max))
  }

  /** AVAILABLE_MAC_OS_X_VERSION_<introduced>_AND_LATER */
  function Available(t: Target, introduced: int): Attribute {
    if t.max < introduced then Unavailable
    else if t.min < introduced then WeakImport
    else Plain
  }

  /** AVAILABLE_..._AND_LATER_BUT_DEPRECATED[_IN_...], testing MIN_REQUIRED against `tested`. */
  function AvailableButDeprecated(t: Target, introduced: int, tested: int): Attribute {
    if t.min >= tested then Deprecated else Available(t, introduced)
  }

  /** DEPRECATED_IN_..._AND_LATER, testing MIN_REQUIRED against `tested`. */
  function DeprecatedIn(t: Target, tested: int): Attribute {
    if t.min >= tested then Deprecated else Plain
  }

  /** The forms for 10.0 do not test anything. */
  const AVAILABLE_10_0: Attribute := Plain
  const AVAILABLE_10_0_BUT_DEPRECATED: Attribute := Deprecated

  /** Whether a declaration really gets weak_import: WEAK_IMPORT_ATTRIBUTE is empty for compilers
      without support, and whenever MIN_REQUIRED is below 10.2. */
  predicate EmitsWeakImport(t: Target, a: Attribute, supported: bool) {
    a.WeakImport? && supported && t.min >= 1020
  }

  predicate ValidTarget(t: Target) { 1000 <= t.min <= t.max }

  // ----- Configuration -----

  /** A target is accepted exactly when it is valid, and with a defaulted maximum the only way to be
      rejected is a minimum below 10.0. */
  lemma ConfigureExact(givenMin: Option<int>, environment: Option<int>, arch: Architecture, givenMax: Option<int>)
    ensures
      var min := MinRequired(givenMin, environment, arch);
      var t := Target(min, MaxAllowed(givenMax, min));
      var c := Configure(givenMin, environment, arch, givenMax);
      && (c.Accepted? <==> ValidTarget(t))
      && (c.Accepted? ==> c.target == t)
      && (givenMax.None? ==> (c.Accepted? <==> min >= 1000))
      && (givenMin.None? && environment.None? && givenMax.None? ==> c.Accepted?)
  {
  }

  /** A given minimum wins over the deployment target of the compiler and the architecture, the
      deployment target over the architecture, and a given maximum is taken as it is.  A maximum below the
      minimum is reported first. */
  lemma ConfigureGiven(min: int, max: int, environment: Option<int>, arch: Architecture, givenMax: Option<int>)
    ensures Configure(Some(min), environment, arch, Some(max)) ==
            if max < min then Rejected(MaxBelowMin)
            else if min < Encode(Version(10, 0, 0)) then Rejected(MinBelow10_0)
            else Accepted(Target(min, max))
    ensures Configure(Some(min), environment, arch, givenMax) == Configure(Some(min), None, OtherArchitecture, givenMax)
    ensures Configure(None, Some(min), arch, givenMax) == Configure(Some(min), None, OtherArchitecture, givenMax)
  {
  }

  /** The defaults are 10.4, 10.5 and 10.1 for the minimum, and for the maximum the smallest version
      that is neither below 14.0 nor below the minimum. */
  lemma ConfigureDefaults(min: Version)
    requires Encodable(min)
    ensures MinRequired(None, None, Intel) == Encode(Version(10, 4, 0))
    ensures MinRequired(None, None, Arm) == Encode(Version(10, 5, 0))
    ensures MinRequired(None, None, OtherArchitecture) == Encode(Version(10, 1, 0))
    ensures MaxAllowed(None, Encode(min)) == Encode(if Less(Version(14, 0, 0), min) then min else Version(14, 0, 0))
  {
    EncodeOrder(Version(14, 0, 0), min);
  }

  // ----- Resolution on versions -----

  /** A range of versions. */
  datatype Range = Range(min: Version, max: Version)

  predicate ValidRange(r: Range) { Encodable(r.min) && Encodable(r.max) && !Less(r.max, r.min) }

  function EncodeRange(r: Range): Target { Target(Encode(r.min), Encode(r.max)) }

  /** The same rule by lexicographic order. */
  function Resolve(r: Range, introduced: Version, deprecated: Version): Attribute {
    if !Less(r.min, deprecated) then Deprecated
    else if Less(r.max, introduced) then Unavailable
    else if Less(r.min, introduced) then WeakImport
    else Plain
  }

  /** The integer chain gives the same answer as the lexicographic rule. */
  lemma EncodingRefines(r: Range, introduced: Version, deprecated: Version)
    requires ValidRange(r) && Encodable(introduced) && Encodable(deprecated)
    ensures AvailableButDeprecated(EncodeRange(r), Encode(introduced), Encode(deprecated)) == Resolve(r, introduced, deprecated)
    ensures ValidTarget(EncodeRange(r))
  {
    EncodeOrder(r.min, deprecated);
    EncodeOrder(r.max, introduced);
    EncodeOrder(r.min, introduced);
    EncodeOrder(r.max, r.min);
  }

  /** A symbol exists on a version from its introduction on. */
  predicate Present(introduced: Version, os: Version) { !Less(os, introduced) }

  predicate InRange(r: Range, os: Version) { !Less(os, r.min) && !Less(r.max, os) }

  ghost predicate AbsentThroughout(r: Range, introduced: Version) {
    forall os: Version :: InRange(r, os) ==> !Present(introduced, os)
  }

  ghost predicate PresentThroughout(r: Range, introduced: Version) {
    forall os: Version :: InRange(r, os) ==> Present(introduced, os)
  }

  /** Exact range classification, whichever integers encode the versions: unavailable exactly when
      no targeted version has the symbol, weak exactly when the oldest lacks it and the newest has
      it, and otherwise every targeted version has it and it is deprecated exactly when that is so
      from the oldest targeted version on. */
  lemma RangeClassification(r: Range, introduced: Version, deprecated: Version)
    requires ValidRange(r) && Encodable(introduced) && Encodable(deprecated) && !Less(deprecated, introduced)
    ensures
      var a := AvailableButDeprecated(EncodeRange(r), Encode(introduced), Encode(deprecated));
      && (a.Unavailable? <==> AbsentThroughout(r, introduced))
      && (a.WeakImport? <==> !Present(introduced, r.min) && Present(introduced, r.max))
      && (a.Plain? || a.Deprecated? <==> PresentThroughout(r, introduced))
      && (a.Deprecated? <==> !Less(r.min, deprecated))
  {
    EncodingRefines(r, introduced, deprecated);
    assert InRange(r, r.min) && InRange(r, r.max);
  }

  /** The order of the tests does not matter, and the forms for 10.0 are instances of the rule. */
  lemma UnconditionalFormsAgree(t: Target, introduced: int, deprecated: int)
    requires ValidTarget(t) && introduced <= deprecated
    ensures AvailableButDeprecated(t, introduced, deprecated) ==
            if Available(t, introduced).Plain? && t.min >= deprecated then Deprecated else Available(t, introduced)
    ensures AVAILABLE_10_0 == Available(t, 1000)
    ensures AVAILABLE_10_0_BUT_DEPRECATED == AvailableButDeprecated(t, 1000, 1000) == DeprecatedIn(t, 1000)
    ensures AvailableButDeprecated(t, 1000, deprecated) == DeprecatedIn(t, deprecated)
  {
  }

  /** A declaration is really weak exactly when its introduction lies within the targeted range, the
      range starts at 10.2 or later and the compiler supports it. */
  lemma WeakImportExact(t: Target, introduced: int, deprecated: int, supported: bool)
    requires ValidTarget(t) && introduced <= deprecated
    ensures EmitsWeakImport(t, AvailableButDeprecated(t, introduced, deprecated), supported) <==>
            supported && 1020 <= t.min < introduced <= t.max
  {
  }

  // ----- Life of a symbol across builds -----

  function Rank(a: Attribute): int {
    match a case Unavailable => 0 case WeakImport => 1 case Plain => 2 case Deprecated => 3
  }

  /** Targets with one maximum and a minimum that only rises. */
  predicate RisingMin(ts: seq<Target>) {
    && (forall i | 0 <= i < |ts| :: ValidTarget(ts[i]) && ts[i].max == ts[0].max)
    && (forall i | 0 < i < |ts| :: ts[i - 1].min <= ts[i].min)
  }

  /** Targets with one minimum and a maximum that only rises. */
  predicate RisingMax(ts: seq<Target>) {
    && (forall i | 0 <= i < |ts| :: ValidTarget(ts[i]) && ts[i].min == ts[0].min)
    && (forall i | 0 < i < |ts| :: ts[i - 1].max <= ts[i].max)
  }

  lemma {:induction false} MinRises(ts: seq<Target>, i: nat, j: nat)
    requires RisingMin(ts) && i <= j < |ts|
    ensures ts[i].min <= ts[j].min
    decreases j - i
  {
    if i < j {
      MinRises(ts, i, j - 1);
    }
  }

  lemma {:induction false} MaxRises(ts: seq<Target>, i: nat, j: nat)
    requires RisingMax(ts) && i <= j < |ts|
    ensures ts[i].max <= ts[j].max
    decreases j - i
  {
    if i < j {
      MaxRises(ts, i, j - 1);
    }
  }

  /** As the minimum rises, a symbol only moves from weak to plain to deprecated, and an unavailable
      one stays so. */
  lemma LifecycleRisingMin(ts: seq<Target>, introduced: int, deprecated: int, i: nat, j: nat)
    requires RisingMin(ts) && introduced <= deprecated && i <= j < |ts|
    ensures
      var a, b := AvailableButDeprecated(ts[i], introduced, deprecated), AvailableButDeprecated(ts[j], introduced, deprecated);
      Rank(a) <= Rank(b) && (a.Unavailable? <==> b.Unavailable?)
  {
    MinRises(ts, i, j);
  }

  /** As the maximum rises, a symbol only moves from unavailable to weak. */
  lemma LifecycleRisingMax(ts: seq<Target>, introduced: int, deprecated: int, i: nat, j: nat)
    requires RisingMax(ts) && introduced <= deprecated && i <= j < |ts|
    ensures
      var a, b := AvailableButDeprecated(ts[i], introduced, deprecated), AvailableButDeprecated(ts[j], introduced, deprecated);
      a == b || (a.Unavailable? && b.WeakImport?)
  {
    MaxRises(ts, i, j);
  }

  // ----- The two blocks that test another version than they name -----

  /** A block that tests `tested` instead of its deprecation version resolves differently exactly
      for the targets whose minimum lies between the two. */
  lemma MistestedExact(t: Target, introduced: int, tested: int, deprecated: int)
    requires ValidTarget(t) && introduced <= tested <= deprecated
    ensures AvailableButDeprecated(t, introduced, tested) != AvailableButDeprecated(t, introduced, deprecated) <==> tested <= t.min < deprecated
    ensures DeprecatedIn(t, tested) != DeprecatedIn(t, deprecated) <==> tested <= t.min < deprecated
  {
  }

  /** Line 824 reports 10.6 symbols deprecated in 10.13 as deprecated already from 10.7 on, and line
      3964 reports types deprecated in 10.13 as deprecated already from 10.12 on. */
  lemma MistestedBlocks(r: Range)
    requires ValidRange(r)
    ensures
      AvailableButDeprecated(EncodeRange(r), 1060, 1070) != AvailableButDeprecated(EncodeRange(r), 1060, 101300) <==>
      !Less(r.min, Version(10, 7, 0)) && Less(r.min, Version(10, 13, 0))
    ensures
      DeprecatedIn(EncodeRange(r), 101200) != DeprecatedIn(EncodeRange(r), 101300) <==>
      !Less(r.min, Version(10, 12, 0)) && Less(r.min, Version(10, 13, 0))
  {
    EncodeOrder(r.max, r.min);
    EncodeOrder(r.min, Version(10, 7, 0));
    EncodeOrder(r.min, Version(10, 12, 0));
    EncodeOrder(r.min, Version(10, 13, 0));
    MistestedExact(EncodeRange(r), 1060, 1070, 101300);
    MistestedExact(EncodeRange(r), 1060, 101200, 101300);
  }
}
