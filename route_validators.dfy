/**
 * The five built-in route parameter validators (route_validators.go) and their
 * registration. Each returns its input unchanged when it accepts it and the
 * empty string with an error when it does not.
 *
 * uuid.Parse is a library parser that is not modelled: it is a parameter
 * `uuidParse` giving the error uuid.Parse returns for a string, if any.
 */
module RouteValidators {
  import opened Wrappers
  import opened Types
  import opened GoStrconv
  import opened BoltRouter

  /** validateInt: accepted exactly when strconv.Atoi parses the value. */
  function ValidateInt(value: string): (r: Checked)
    ensures r.err.None? <==> IsDecimalSyntax(value) && MinInt64 <= SignedValue(value) <= MaxInt64
    ensures r.err.None? ==> r.value == value
    ensures r.err.Some? ==> r.value == ""
  {
    AtoiCorrect(value);
    var n := Atoi(value);
    if n.err != NoErr then Checked("", Some(Plain(NumErrorText("Atoi", value, n.err))))
    else Checked(value, None)
  }

  /** validateBool: accepted exactly for the twelve strconv.ParseBool spellings. */
  function ValidateBool(value: string): (r: Checked)
    ensures r.err.None? <==> IsBoolSpelling(value)
    ensures r.err.None? ==> r.value == value
    ensures r.err.Some? ==> r.value == ""
  {
    match ParseBool(value)
    case None => Checked("", Some(Plain(NumErrorText("ParseBool", value, ErrSyntax))))
    case Some(_) => Checked(value, None)
  }

  /** validateUUIDv4: accepted exactly when uuid.Parse returns no error, and that error otherwise. */
  function ValidateUUIDv4(uuidParse: string -> Option<Error>, value: string): (r: Checked)
    ensures r.err == uuidParse(value)
    ensures r.err.None? ==> r.value == value
    ensures r.err.Some? ==> r.value == ""
  {
    match uuidParse(value)
    case Some(e) => Checked("", Some(e))
    case None => Checked(value, None)
  }

  predicate IsAsciiLetter(c: char) {
    'a' <= c <= 'z' || 'A' <= c <= 'Z'
  }

  predicate IsAsciiDigit(c: char) {
    '0' <= c <= '9'
  }

  /**
   * The regular expression `^[a-zA-Z]+$` (or `^[a-zA-Z0-9]+$` when `digits`),
   * matched from position i to the end: every remaining character is in the class.
   */
  function ClassRunFrom(s: string, i: nat, digits: bool): (ok: bool)
    requires i <= |s|
    ensures ok <==> forall k :: i <= k < |s| ==> IsAsciiLetter(s[k]) || (digits && IsAsciiDigit(s[k]))
    decreases |s| - i
  {
    if i == |s| then true
    else (IsAsciiLetter(s[i]) || (digits && IsAsciiDigit(s[i]))) && ClassRunFrom(s, i + 1, digits)
  }

  /** validateAlpha: a non-empty run of ASCII letters. */
  function ValidateAlpha(value: string): (r: Checked)
    ensures r.err.None? <==> |value| > 0 && forall k :: 0 <= k < |value| ==> IsAsciiLetter(value[k])
    ensures r.err.None? ==> r.value == value
    ensures r.err.Some? ==> r == Checked("", Some(Plain("param is not alpha")))
  {
    if |value| > 0 && ClassRunFrom(value, 0, false) then Checked(value, None)
    else Checked("", Some(Plain("param is not alpha")))
  }

  /** validateAlphaNumeric: a non-empty run of ASCII letters and digits. */
  function ValidateAlphaNumeric(value: string): (r: Checked)
    ensures r.err.None? <==> |value| > 0 && forall k :: 0 <= k < |value| ==> IsAsciiLetter(value[k]) || IsAsciiDigit(value[k])
    ensures r.err.None? ==> r.value == value
    ensures r.err.Some? ==> r == Checked("", Some(Plain("param is not alphanumeric")))
  {
    if |value| > 0 && ClassRunFrom(value, 0, true) then Checked(value, None)
    else Checked("", Some(Plain("param is not alphanumeric")))
  }

  /** Every value the alpha validator accepts, the alphanumeric one accepts too. */
  lemma AlphaImpliesAlphaNumeric(value: string)
    requires ValidateAlpha(value).err.None?
    ensures ValidateAlphaNumeric(value) == ValidateAlpha(value)
  {
  }

  /** None of the string-syntax validators accepts the empty parameter value. */
  lemma EmptyValueRejected()
    ensures ValidateInt("").err.Some?
    ensures ValidateBool("").err.Some?
    ensures ValidateAlpha("").err.Some?
    ensures ValidateAlphaNumeric("").err.Some?
  {
  }

  /** The names registerDefaultRouteValidators registers. */
  const DefaultValidatorNames: set<string> := {"int", "bool", "uuid", "alpha", "alphanumeric"}

  /** Some default name is already registered. */
  predicate DefaultTaken(vs: map<string, Validator>) {
    "int" in vs || "bool" in vs || "uuid" in vs || "alpha" in vs || "alphanumeric" in vs
  }

  /** DefaultTaken holds exactly when the registry shares a name with DefaultValidatorNames. */
  lemma DefaultTakenShares(vs: map<string, Validator>)
    ensures DefaultTaken(vs) <==> exists n :: n in DefaultValidatorNames && n in vs
  {
    if exists n :: n in DefaultValidatorNames && n in vs {
      var n :| n in DefaultValidatorNames && n in vs;
      assert n == "int" || n == "bool" || n == "uuid" || n == "alpha" || n == "alphanumeric";
    }
  }

  /** The five default names are pairwise different. */
  lemma DistinctNames()
    ensures "int" != "bool" && "int" != "uuid" && "int" != "alpha" && "int" != "alphanumeric"
    ensures "bool" != "uuid" && "bool" != "alpha" && "bool" != "alphanumeric"
    ensures "uuid" != "alpha" && "uuid" != "alphanumeric" && "alpha" != "alphanumeric"
  {
    assert "bool"[0] != "uuid"[0];
    assert |"alpha"| != |"alphanumeric"|;
  }

  /** validateUUIDv4 with the parser fixed, as the router stores it. */
  function UUIDValidator(uuidParse: string -> Option<Error>): (f: Validator)
    ensures forall v :: f(v) == ValidateUUIDv4(uuidParse, v)
  {
    v => ValidateUUIDv4(uuidParse, v)
  }

  /**
   * The registry after the five built-ins are added: each default name maps
   * to its validator and every other name keeps its entry.
   */
  function WithDefaults(vs: map<string, Validator>, uuidParse: string -> Option<Error>): (r: map<string, Validator>)
    ensures r.Keys == vs.Keys + DefaultValidatorNames
    ensures forall n :: n in vs && n !in DefaultValidatorNames ==> r[n] == vs[n]
  {
    vs["int" := ValidateInt]["bool" := ValidateBool]["uuid" := UUIDValidator(uuidParse)]
      ["alpha" := ValidateAlpha]["alphanumeric" := ValidateAlphaNumeric]
  }

  /** Each default name is bound to its own validator. */
  lemma DefaultsBound(vs: map<string, Validator>, uuidParse: string -> Option<Error>)
    ensures var r := WithDefaults(vs, uuidParse);
            r["int"] == ValidateInt && r["bool"] == ValidateBool && r["uuid"] == UUIDValidator(uuidParse) &&
            r["alpha"] == ValidateAlpha && r["alphanumeric"] == ValidateAlphaNumeric
  {
    DistinctNames();
  }

  /**
   * registerDefaultRouteValidators: the five built-ins under their names, in
   * order; fatal as soon as one of the names is already registered.
   */
  method RegisterDefaultRouteValidators(router: Router, uuidParse: string -> Option<Error>) returns (fatal: bool)
    modifies router
    ensures fatal <==> DefaultTaken(old(router.validators))
    ensures !fatal ==> router.validators == WithDefaults(old(router.validators), uuidParse)
    ensures router.routes == old(router.routes)
  {
    ghost var before := router.validators;
    DistinctNames();
    fatal := router.RegisterRouteParamValidator("int", ValidateInt);
    if fatal { return; }
    fatal := router.RegisterRouteParamValidator("bool", ValidateBool);
    if fatal { return; }
    fatal := router.RegisterRouteParamValidator("uuid", UUIDValidator(uuidParse));
    if fatal { return; }
    fatal := router.RegisterRouteParamValidator("alpha", ValidateAlpha);
    if fatal { return; }
    fatal := router.RegisterRouteParamValidator("alphanumeric", ValidateAlphaNumeric);
  }
}
