/**
 * The two express-validator rules the routers declare, `isLength({ min })`
 * and `isEmail()`, as `check(field)` applies them.
 *
 * `check(field)` looks for `field` in every request location (body, cookies,
 * headers, route parameters, query) and validates every instance it finds.
 * It reports one error per failing instance. When no location has the field,
 * it validates the single value `undefined`, which reads as "". The body's
 * value is `""` when the body lacks the field; the other locations' values
 * come in as `elsewhere`, in the library's location order.
 */
module Validator {
  import opened Http

  /** The values `check(field)` validates: the body's value if present, then the other locations' values. */
  function Instances(body: string, elsewhere: seq<string>): (vs: seq<string>)
    ensures vs != []
    ensures body != "" ==> vs == [body] + elsewhere
    ensures body == "" && elsewhere != [] ==> vs == elsewhere
    ensures body == "" && elsewhere == [] ==> vs == [""]
  {
    if body != "" then [body] + elsewhere
    else if elsewhere != [] then elsewhere
    else [""]
  }

  /** The field's values in the other locations; none when the field is not there. */
  function Elsewhere(others: map<string, seq<string>>, field: string): (vs: seq<string>)
    ensures field !in others ==> vs == []
    ensures field in others ==> vs == others[field]
  {
    if field in others then others[field] else []
  }

  /** The variation selectors `isLength` does not count. */
  predicate IsPresentationSelector(c: char)
  {
    c == '\U{FE0E}' || c == '\U{FE0F}'
  }

  /**
   * The length validator.js's `isLength` compares with `min`: the string's
   * code points, leaving out the variation selectors U+FE0E and U+FE0F.
   */
  function LengthCount(s: string): (n: nat)
    ensures n <= |s|
    ensures n == |s| <==> forall i :: 0 <= i < |s| ==> !IsPresentationSelector(s[i])
    decreases |s|
  {
    if s == [] then 0
    else
      var rest := LengthCount(s[1..]);
      assert forall i :: 1 <= i < |s| ==> s[i] == s[1..][i - 1];
      (if IsPresentationSelector(s[0]) then 0 else 1) + rest
  }

  /** `check(field).isLength({ min }).withMessage(msg)`: one error for each instance shorter than `min`. */
  function MinLength(field: string, values: seq<string>, min: nat, msg: string): (errs: seq<FieldError>)
    ensures errs == [] <==> forall i :: 0 <= i < |values| ==> LengthCount(values[i]) >= min
    ensures FieldError(field, msg) in errs <==> exists i :: 0 <= i < |values| && LengthCount(values[i]) < min
    ensures forall e :: e in errs ==> e == FieldError(field, msg)
    ensures |errs| <= |values|
  {
    if values == [] then []
    else
      var rest := MinLength(field, values[1..], min, msg);
      assert forall i :: 1 <= i < |values| ==> values[i] == values[1..][i - 1];
      (if LengthCount(values[0]) >= min then [] else [FieldError(field, msg)]) + rest
  }

  /** `check(field).isEmail().withMessage(msg)`: one error for each instance `isEmail` refuses. */
  function EmailCheck(field: string, values: seq<string>, isEmail: string -> bool, msg: string): (errs: seq<FieldError>)
    ensures errs == [] <==> forall i :: 0 <= i < |values| ==> isEmail(values[i])
    ensures FieldError(field, msg) in errs <==> exists i :: 0 <= i < |values| && !isEmail(values[i])
    ensures forall e :: e in errs ==> e == FieldError(field, msg)
    ensures |errs| <= |values|
  {
    if values == [] then []
    else
      var rest := EmailCheck(field, values[1..], isEmail, msg);
      assert forall i :: 1 <= i < |values| ==> values[i] == values[1..][i - 1];
      (if isEmail(values[0]) then [] else [FieldError(field, msg)]) + rest
  }

  /** Every instance of a field that `check` validates must pass: a failing query value fails the rule however good the body's is. */
  lemma FailingInstanceFails(field: string, body: string, elsewhere: seq<string>, k: nat, min: nat, msg: string)
    requires k < |elsewhere| && LengthCount(elsewhere[k]) < min
    ensures FieldError(field, msg) in MinLength(field, Instances(body, elsewhere), min, msg)
  {
    var vs := Instances(body, elsewhere);
    var j := if body != "" then k + 1 else k;
    assert vs[j] == elsewhere[k];
  }
}
