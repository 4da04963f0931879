/** The attribute validators of the component schema: a validator maps a
    value and its context to the matching errors it finds. */
module Validators {

  import opened Values
  import opened AstNodes

  /** `validateSimple(check, buildMessage)`: no error when the check holds,
      otherwise exactly one error, built from the value, in the caller's
      context. */
  function ValidateSimple(check: Value -> bool, buildMessage: Value -> string): (validator: NodeValidator)
    ensures forall v, context :: validator(v, context) == [] <==> check(v)
    ensures forall v, context :: !check(v) ==> validator(v, context) == [MatchingError(buildMessage(v), context)]
  {
    (v: Value, context: AstContext) => if check(v) then [] else [MatchingError(buildMessage(v), context)]
  }

  /** `alwaysTrueValidator`: accepts every value. */
  function AlwaysTrueValidator(v: Value, context: AstContext): (errors: seq<MatchingError>)
    ensures errors == []
  {
    []
  }

  /** lodash `isString`. */
  predicate IsString(v: Value) {
    v.Str?
  }

  /** The message of `isStringValidator`: the template literal `${value} Should be string`. */
  function ShouldBeString(v: Value): string {
    JsString(v) + " Should be string"
  }

  /** `isStringValidator`. */
  function IsStringValidator(): NodeValidator {
    ValidateSimple(IsString, ShouldBeString)
  }

  /** `isStringValidator` accepts exactly the strings; any other value gets
      one error naming it. */
  lemma IsStringValidatorAccepts(v: Value, context: AstContext)
    ensures IsStringValidator()(v, context) == [] <==> v.Str?
    ensures !v.Str? ==> IsStringValidator()(v, context) == [MatchingError(JsString(v) + " Should be string", context)]
  {
    var validator := IsStringValidator();
    assert validator(v, context) == [] <==> IsString(v);
  }
  /** lodash `isNumber`. */
  predicate IsNumber(v: Value) {
    v.Num?
  }

  /** The message of the YAML schema's `isNumberValidator` as it is
      written: the template of the string validator, `${value} Should be string`. */
  function IsNumberValidatorAsWritten(): NodeValidator {
    ValidateSimple(IsNumber, ShouldBeString)
  }

  /** The YAML schema's `isNumberValidator` as written rejects a string
      with a message asking for a string. */
  lemma IsNumberValidatorAsWrittenMisreports(context: AstContext)
    ensures IsNumberValidatorAsWritten()(Str("abc"), context) == [MatchingError("abc Should be string", context)]
  {
    var validator := IsNumberValidatorAsWritten();
    assert !IsNumber(Str("abc"));
    assert ShouldBeString(Str("abc")) == "abc" + " Should be string" == "abc Should be string";
    assert validator(Str("abc"), context) == [MatchingError(ShouldBeString(Str("abc")), context)];
  }

  /** The message the number validator evidently means: `${value} Should be number`. */
  function ShouldBeNumber(v: Value): string {
    JsString(v) + " Should be number"
  }

  /** `isNumberValidator`, with the message naming the expected type. */
  function IsNumberValidator(): NodeValidator {
    ValidateSimple(IsNumber, ShouldBeNumber)
  }

  /** `isNumberValidator` accepts exactly the numbers; any other value gets
      one error naming it and asking for a number. */
  lemma IsNumberValidatorAccepts(v: Value, context: AstContext)
    ensures IsNumberValidator()(v, context) == [] <==> v.Num?
    ensures !v.Num? ==> IsNumberValidator()(v, context) == [MatchingError(JsString(v) + " Should be number", context)]
  {
    var validator := IsNumberValidator();
    assert validator(v, context) == [] <==> IsNumber(v);
  }
}
