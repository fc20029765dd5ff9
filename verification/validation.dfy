/** The request-body validators the routes chain before a controller runs
    (`body('x').notEmpty()`, `.isIn([...])`, `.isInt({min,max})`, ...), and the shared
    `validate` step that answers 400 with the collected errors. */
module Validation {
  import opened Wrappers
  import opened Json
  import Text

  /** The validator library's `toString`: undefined and null become "", objects
      "[object Object]", arrays their comma join, everything else `String(v)`. */
  function ToText(v: Option<Json>): string
  {
    match v
    case None => ""
    case Some(JNull) => ""
    case Some(JArr(items)) => JoinItems(items)
    case Some(j) => Stringify(j)
  }

  datatype Check =
    | NotEmpty
    | IsIn(options: seq<string>)
    | MinLength(min: nat)
    | IsIntIn(lo: int, hi: int)
    | IsNumeric
    | IsEmail
    | IsObject
    | IsArrayLen(minLen: nat, maxLen: nat)

  /** One link of a chain: the field path, the check, whether `.optional()` precedes it,
      and the `.withMessage(...)` text. */
  datatype Rule = Rule(path: seq<string>, check: Check, optional: bool, message: string)

  /** One entry of the `errors` array of a 400 reply. */
  datatype FieldError = FieldError(path: seq<string>, message: string)

  /** `[+-]?` followed by `rest`. */
  function Unsigned(t: string): string
  {
    if |t| > 0 && (t[0] == '+' || t[0] == '-') then t[1..] else t
  }

  /** `/^[+-]?([0-9]*[.])?[0-9]+$/`: digits with at most one '.', ending in a digit. */
  predicate NumericText(t: string)
  {
    var u := Unsigned(t);
    && |u| >= 1
    && Text.IsDigit(u[|u| - 1])
    && Text.Count(u, '.') <= 1
    && forall i :: 0 <= i < |u| ==> Text.IsDigit(u[i]) || u[i] == '.'
  }

  /** `/^[-+]?[0-9]+$/`: an optionally signed run of digits. */
  predicate IntText(t: string)
  {
    var u := Unsigned(t);
    |u| >= 1 && Text.AllDigits(u)
  }

  /** The integer an `IntText` string denotes. */
  function IntValue(t: string): int
    requires IntText(t)
  {
    var n: int := Text.ParseDigits(Unsigned(t));
    if |t| > 0 && t[0] == '-' then -n else n
  }

  /** `isLength` counts characters, not counting the emoji presentation selectors. */
  function TextLength(t: string): int
  {
    |t| - Text.Count(t, '\U{FE0E}') - Text.Count(t, '\U{FE0F}')
  }

  /** The string-based checks, applied to one converted value. */
  predicate TextPasses(c: Check, t: string, isEmail: string -> bool)
  {
    match c
    case NotEmpty => |t| > 0
    case IsIn(options) => t in options
    case MinLength(min) => TextLength(t) >= min
    case IsIntIn(lo, hi) => IntText(t) && lo <= IntValue(t) <= hi
    case IsNumeric => NumericText(t)
    case IsEmail => isEmail(t)
    case IsObject => false
    case IsArrayLen(_, _) => false
  }

  /** Whether a check accepts a field value.  String-based checks look at every element
      of an array value (an empty array has none to reject); `isObject` and `isArray`
      look at the raw value. */
  predicate Passes(c: Check, v: Option<Json>, isEmail: string -> bool)
  {
    match c
    case IsObject => v.Some? && v.value.JObj?
    case IsArrayLen(lo, hi) => v.Some? && v.value.JArr? && lo <= |v.value.items| <= hi
    case _ =>
      match v
      case Some(JArr(items)) => forall i :: 0 <= i < |items| ==> TextPasses(c, ToText(Some(items[i])), isEmail)
      case _ => TextPasses(c, ToText(v), isEmail)
  }

  /** The value a rule looks at. */
  function FieldOf(body: Object, r: Rule): Option<Json>
  {
    if |r.path| == 0 then Some(JObj(body)) else At(body, r.path)
  }

  /** A rule reports an error unless it is optional and its field is undefined, or its check passes. */
  predicate Fails(r: Rule, body: Object, isEmail: string -> bool)
  {
    !(r.optional && FieldOf(body, r).None?) && !Passes(r.check, FieldOf(body, r), isEmail)
  }

  /** How many of a field's values the array-aware checks reject: one per element of an array
      value, and the single value otherwise. */
  function RejectedItems(c: Check, items: seq<Json>, isEmail: string -> bool): (n: nat)
    ensures n == 0 <==> forall i :: 0 <= i < |items| ==> TextPasses(c, ToText(Some(items[i])), isEmail)
    ensures n <= |items|
  {
    if |items| == 0 then 0
    else
      var rest := RejectedItems(c, items[1..], isEmail);
      assert forall i :: 1 <= i < |items| ==> items[i] == items[1..][i - 1];
      (if TextPasses(c, ToText(Some(items[0])), isEmail) then 0 else 1) + rest
  }

  /** How many errors one check adds for a field value: `isObject` and `isArray` judge the raw
      value once, the string-based checks judge every element of an array separately. */
  function Rejected(c: Check, v: Option<Json>, isEmail: string -> bool): (n: nat)
    ensures n == 0 <==> Passes(c, v, isEmail)
  {
    if c.IsObject? || c.IsArrayLen? || !(v.Some? && v.value.JArr?) then
      if Passes(c, v, isEmail) then 0 else 1
    else RejectedItems(c, v.value.items, isEmail)
  }

  /** The errors of one rule: none when it is skipped as optional, otherwise one copy of its
      path and message per rejected value. */
  function RuleErrors(r: Rule, body: Object, isEmail: string -> bool): (errs: seq<FieldError>)
    ensures |errs| == 0 <==> !Fails(r, body, isEmail)
    ensures forall k :: 0 <= k < |errs| ==> errs[k] == FieldError(r.path, r.message)
  {
    if r.optional && FieldOf(body, r).None? then []
    else seq(Rejected(r.check, FieldOf(body, r), isEmail), _ => FieldError(r.path, r.message))
  }

  /** The errors the chain collects, in chain order; every rule runs (no short-circuit). */
  function Errors(rules: seq<Rule>, body: Object, isEmail: string -> bool): (errs: seq<FieldError>)
    ensures |errs| == 0 <==> forall i :: 0 <= i < |rules| ==> !Fails(rules[i], body, isEmail)
  {
    if |rules| == 0 then []
    else
      var rest := Errors(rules[1..], body, isEmail);
      assert forall i :: 1 <= i < |rules| ==> rules[i] == rules[1..][i - 1];
      RuleErrors(rules[0], body, isEmail) + rest
  }

  /** Every collected error is the path and message of a rule of the chain that fails; the
      lemma names that rule. */
  lemma {:induction false} ErrorsFromFailingRules(rules: seq<Rule>, body: Object, isEmail: string -> bool, k: nat)
    returns (i: nat)
    requires k < |Errors(rules, body, isEmail)|
    ensures i < |rules| && Fails(rules[i], body, isEmail)
    ensures Errors(rules, body, isEmail)[k] == FieldError(rules[i].path, rules[i].message)
    decreases |rules|
  {
    var first := RuleErrors(rules[0], body, isEmail);
    var rest := Errors(rules[1..], body, isEmail);
    assert Errors(rules, body, isEmail) == first + rest;
    if k < |first| {
      i := 0;
    } else {
      var j := ErrorsFromFailingRules(rules[1..], body, isEmail, k - |first|);
      assert rules[1..][j] == rules[j + 1];
      i := j + 1;
    }
  }

  /** An array value is judged element by element: `["a", "b"]` under a numeric check gives
      two errors, `[]` gives none. */
  lemma ArrayValueErrorPerElement(r: Rule, a: string, b: string, isEmail: string -> bool)
    requires r.check == IsNumeric && !NumericText(a) && !NumericText(b) && |r.path| == 1
    ensures RuleErrors(r, map[r.path[0] := JArr([JStr(a), JStr(b)])], isEmail) == [FieldError(r.path, r.message), FieldError(r.path, r.message)]
    ensures RuleErrors(r, map[r.path[0] := JArr([])], isEmail) == []
  {
    var items := [JStr(a), JStr(b)];
    assert items[1..] == [JStr(b)];
    assert FieldOf(map[r.path[0] := JArr(items)], r) == Some(JArr(items));
    assert RejectedItems(IsNumeric, items, isEmail) == 2;
    assert FieldOf(map[r.path[0] := JArr([])], r) == Some(JArr([]));
  }

  /** What the `validate` middleware decides: the controller runs, or 400 `{ errors }`. */
  datatype Gate = Proceed | Reject(status: int, errors: seq<FieldError>)

  function Validate(rules: seq<Rule>, body: Object, isEmail: string -> bool): (g: Gate)
    ensures g.Proceed? <==> forall i :: 0 <= i < |rules| ==> !Fails(rules[i], body, isEmail)
    ensures g.Reject? ==> g.status == 400 && |g.errors| > 0
  {
    var errs := Errors(rules, body, isEmail);
    if |errs| == 0 then Proceed else Reject(400, errs)
  }

  /** A string value is non-empty for `notEmpty` exactly when it is not "". */
  lemma NotEmptyText(t: string, isEmail: string -> bool)
    ensures Passes(NotEmpty, Some(JStr(t)), isEmail) <==> t != ""
  {
    assert ToText(Some(JStr(t))) == t;
  }

  /** A rule on a top-level field looks at that field. */
  lemma TopLevelRule(r: Rule, body: Object, isEmail: string -> bool)
    requires |r.path| == 1
    ensures FieldOf(body, r) == Get(body, r.path[0])
    ensures Fails(r, body, isEmail) <==>
      !(r.optional && r.path[0] !in body) && !Passes(r.check, Get(body, r.path[0]), isEmail)
  {
  }

  /** A rule without `.optional()` fails exactly when its check rejects the field. */
  lemma RequiredRule(r: Rule, body: Object, isEmail: string -> bool)
    requires !r.optional
    ensures !Fails(r, body, isEmail) <==> Passes(r.check, FieldOf(body, r), isEmail)
  {
  }

  /** No rule of the chain fails. */
  predicate NoneFails(rules: seq<Rule>, body: Object, isEmail: string -> bool)
  {
    forall i :: 0 <= i < |rules| ==> !Fails(rules[i], body, isEmail)
  }

  /** A five-rule chain passes exactly when none of its five rules fails. */
  lemma ProceedIffFive(rules: seq<Rule>, body: Object, isEmail: string -> bool)
    requires |rules| == 5
    ensures Validate(rules, body, isEmail).Proceed? <==>
      && !Fails(rules[0], body, isEmail) && !Fails(rules[1], body, isEmail) && !Fails(rules[2], body, isEmail)
      && !Fails(rules[3], body, isEmail) && !Fails(rules[4], body, isEmail)
  {
    assert Validate(rules, body, isEmail).Proceed? <==> NoneFails(rules, body, isEmail);
    NoneFailsFive(rules, body, isEmail);
  }

  lemma NoneFailsFive(rules: seq<Rule>, body: Object, isEmail: string -> bool)
    requires |rules| == 5
    ensures NoneFails(rules, body, isEmail) <==>
      && !Fails(rules[0], body, isEmail) && !Fails(rules[1], body, isEmail) && !Fails(rules[2], body, isEmail)
      && !Fails(rules[3], body, isEmail) && !Fails(rules[4], body, isEmail)
  {
  }

  /** A six-rule chain passes exactly when none of its six rules fails. */
  lemma ProceedIffSix(rules: seq<Rule>, body: Object, isEmail: string -> bool)
    requires |rules| == 6
    ensures Validate(rules, body, isEmail).Proceed? <==>
      && !Fails(rules[0], body, isEmail) && !Fails(rules[1], body, isEmail) && !Fails(rules[2], body, isEmail)
      && !Fails(rules[3], body, isEmail) && !Fails(rules[4], body, isEmail) && !Fails(rules[5], body, isEmail)
  {
    assert Validate(rules, body, isEmail).Proceed? <==> NoneFails(rules, body, isEmail);
    NoneFailsSix(rules, body, isEmail);
  }

  lemma NoneFailsSix(rules: seq<Rule>, body: Object, isEmail: string -> bool)
    requires |rules| == 6
    ensures NoneFails(rules, body, isEmail) <==>
      && !Fails(rules[0], body, isEmail) && !Fails(rules[1], body, isEmail) && !Fails(rules[2], body, isEmail)
      && !Fails(rules[3], body, isEmail) && !Fails(rules[4], body, isEmail) && !Fails(rules[5], body, isEmail)
  {
  }

  /** The check that `isEmail` gives no opinion on, for routes that do not use it. */
  function NoEmail(t: string): bool { false }
}
