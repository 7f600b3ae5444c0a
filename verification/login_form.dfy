/** The login schema: a valid e-mail address and a password of at least six code units. */
module LoginForm {
  import opened Wrappers
  import opened JsText
  import opened FormRules

  datatype Field = Email | Password

  datatype Values = Values(email: string, password: string)

  const EMAIL_INVALID := "请输入有效邮箱。"
  const PASSWORD_SHORT := "密码至少 6 位。"
  const PASSWORD_MIN: nat := 6

  /** The form's `defaultValues`. */
  const DEFAULTS := Values("", "")

  function Issues(v: Values, isEmail: string -> bool): seq<Issue<Field>> {
    Check(isEmail(v.email), Email, EMAIL_INVALID)
    + Check(MinLength(v.password, PASSWORD_MIN), Password, PASSWORD_SHORT)
  }

  /** `formSchema.safeParse`: succeeds, unchanged, exactly when both field rules hold. */
  function Validate(v: Values, isEmail: string -> bool): (r: Result<Values, seq<Issue<Field>>>)
    ensures r.Success? <==> isEmail(v.email) && Utf16Length(v.password) >= 6
    ensures r.Success? ==> r.value == v
    ensures r.Failure? ==> r.error != [] && |r.error| <= 2
  {
    Verdict(Issues(v, isEmail), v)
  }

  /** Each rule raises its own message on its own field exactly when it fails. */
  lemma IssueIff(v: Values, isEmail: string -> bool)
    ensures Issue(Email, EMAIL_INVALID) in Issues(v, isEmail) <==> !isEmail(v.email)
    ensures Issue(Password, PASSWORD_SHORT) in Issues(v, isEmail) <==> Utf16Length(v.password) < 6
  {
  }

  /** Any six-character password passes the length rule, since no character is less than one code unit. */
  lemma SixIsEnough(v: Values, isEmail: string -> bool)
    requires |v.password| == 6
    ensures Issue(Password, PASSWORD_SHORT) !in Issues(v, isEmail)
  {
  }

  /** The empty form as first shown is rejected for its password, whatever counts as an e-mail address. */
  lemma DefaultsRejected(isEmail: string -> bool)
    ensures Validate(DEFAULTS, isEmail).Failure?
    ensures Issue(Password, PASSWORD_SHORT) in Validate(DEFAULTS, isEmail).error
  {
  }
}
