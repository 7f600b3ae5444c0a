/**
  The sign-up schema: a name that is not blank once trimmed, a valid e-mail address, a
  password and its confirmation of at least six code units each, and a refinement that the
  two passwords agree, reported against the confirmation field.
*/
module SignupForm {
  import opened Wrappers
  import opened JsText
  import opened FormRules

  datatype Field = Name | Email | Password | ConfirmPassword

  datatype Values = Values(name: string, email: string, password: string, confirmPassword: string)

  const NAME_REQUIRED := "请输入姓名"
  const EMAIL_INVALID := "请输入有效邮箱"
  const PASSWORD_SHORT := "密码至少 6 位"
  const PASSWORDS_DIFFER := "两次密码不一致"
  const PASSWORD_MIN: nat := 6

  /** The form's `defaultValues`. */
  const DEFAULTS := Values("", "", "", "")

  /**
    The issues the schema raises, in field order, with the refinement last. The field
    checks only add non-fatal issues, so the refinement is evaluated in every case.
  */
  function Issues(v: Values, isEmail: string -> bool): seq<Issue<Field>> {
    Check(Trim(v.name) != [], Name, NAME_REQUIRED)
    + Check(isEmail(v.email), Email, EMAIL_INVALID)
    + Check(MinLength(v.password, PASSWORD_MIN), Password, PASSWORD_SHORT)
    + Check(MinLength(v.confirmPassword, PASSWORD_MIN), ConfirmPassword, PASSWORD_SHORT)
    + Check(v.password == v.confirmPassword, ConfirmPassword, PASSWORDS_DIFFER)
  }

  /**
    `formSchema.safeParse`: succeeds exactly when every field rule and the equality rule
    hold, handing on the values with the name trimmed.
  */
  function Validate(v: Values, isEmail: string -> bool): (r: Result<Values, seq<Issue<Field>>>)
    ensures r.Success? <==>
              && !AllWhitespace(v.name)
              && isEmail(v.email)
              && Utf16Length(v.password) >= 6
              && Utf16Length(v.confirmPassword) >= 6
              && v.password == v.confirmPassword
    ensures r.Success? ==> r.value == v.(name := Trim(v.name)) && Trim(r.value.name) == r.value.name
    ensures r.Failure? ==> r.error != []
  {
    TrimEmptyIff(v.name);
    TrimIdempotent(v.name);
    Verdict(Issues(v, isEmail), v.(name := Trim(v.name)))
  }

  /** Each rule raises its own message on its own field exactly when it fails. */
  lemma IssueIff(v: Values, isEmail: string -> bool)
    ensures Issue(Name, NAME_REQUIRED) in Issues(v, isEmail) <==> AllWhitespace(v.name)
    ensures Issue(Email, EMAIL_INVALID) in Issues(v, isEmail) <==> !isEmail(v.email)
    ensures Issue(Password, PASSWORD_SHORT) in Issues(v, isEmail) <==> Utf16Length(v.password) < 6
    ensures Issue(ConfirmPassword, PASSWORD_SHORT) in Issues(v, isEmail)
            <==> Utf16Length(v.confirmPassword) < 6
    ensures Issue(ConfirmPassword, PASSWORDS_DIFFER) in Issues(v, isEmail)
            <==> v.password != v.confirmPassword
  {
    TrimEmptyIff(v.name);
    MessagesDistinct();
    var a := Check(Trim(v.name) != [], Name, NAME_REQUIRED);
    var b := Check(isEmail(v.email), Email, EMAIL_INVALID);
    var c := Check(MinLength(v.password, PASSWORD_MIN), Password, PASSWORD_SHORT);
    var d := Check(MinLength(v.confirmPassword, PASSWORD_MIN), ConfirmPassword, PASSWORD_SHORT);
    var e := Check(v.password == v.confirmPassword, ConfirmPassword, PASSWORDS_DIFFER);
    assert Issues(v, isEmail) == a + b + c + d + e;
    InFiveParts(Issue(Name, NAME_REQUIRED), a, b, c, d, e);
    InFiveParts(Issue(Email, EMAIL_INVALID), a, b, c, d, e);
    InFiveParts(Issue(Password, PASSWORD_SHORT), a, b, c, d, e);
    InFiveParts(Issue(ConfirmPassword, PASSWORD_SHORT), a, b, c, d, e);
    InFiveParts(Issue(ConfirmPassword, PASSWORDS_DIFFER), a, b, c, d, e);
  }

  lemma InFiveParts(x: Issue<Field>, a: seq<Issue<Field>>, b: seq<Issue<Field>>, c: seq<Issue<Field>>,
                d: seq<Issue<Field>>, e: seq<Issue<Field>>)
    ensures x in a + b + c + d + e <==> x in a || x in b || x in c || x in d || x in e
  {
  }

  lemma MessagesDistinct()
    ensures PASSWORD_SHORT != PASSWORDS_DIFFER
  {
    assert PASSWORD_SHORT[0] != PASSWORDS_DIFFER[0];
  }

  /**
    With every field acceptable but the two passwords different, the only complaint is
    the mismatch, attached to the confirmation.
  */
  lemma MismatchOnly(v: Values, isEmail: string -> bool)
    requires !AllWhitespace(v.name) && isEmail(v.email)
    requires MinLength(v.password, 6) && MinLength(v.confirmPassword, 6)
    requires v.password != v.confirmPassword
    ensures Validate(v, isEmail) == Failure([Issue(ConfirmPassword, PASSWORDS_DIFFER)])
  {
    TrimEmptyIff(v.name);
    assert Issues(v, isEmail) == [Issue(ConfirmPassword, PASSWORDS_DIFFER)];
  }

  /** Any six-character password is long enough; five one-unit characters are not. */
  lemma SixIsEnough(v: Values, isEmail: string -> bool)
    requires |v.password| == 6
    ensures Issue(Password, PASSWORD_SHORT) !in Issues(v, isEmail)
    ensures (|v.confirmPassword| == 5 && forall i :: 0 <= i < 5 ==> CodeUnits(v.confirmPassword[i]) == 1)
            ==> Issue(ConfirmPassword, PASSWORD_SHORT) in Issues(v, isEmail)
  {
    if |v.confirmPassword| == 5 && forall i :: 0 <= i < 5 ==> CodeUnits(v.confirmPassword[i]) == 1 {
      BmpMinLength(v.confirmPassword, 5);
      IssueIff(v, isEmail);
    }
  }

  /** The empty form as first shown is rejected, whatever counts as an e-mail address. */
  lemma DefaultsRejected(isEmail: string -> bool)
    ensures Validate(DEFAULTS, isEmail).Failure?
    ensures Issue(Name, NAME_REQUIRED) in Validate(DEFAULTS, isEmail).error
  {
  }
}
