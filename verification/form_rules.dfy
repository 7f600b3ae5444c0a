/**
  The pieces of a zod object schema the login and sign-up forms use: per-field checks that
  each contribute at most one issue, collected in field order, and a parse that succeeds
  exactly when no issue was raised. Whether a string is an e-mail address is decided by a
  predicate the caller supplies (zod's own pattern is not modelled).
*/
module FormRules {
  import opened Wrappers
  import opened JsText

  /** A validation message attached to the field it concerns. */
  datatype Issue<F> = Issue(path: F, message: string)

  /** zod's `.min(n)` on a string: at least `n` UTF-16 code units. */
  predicate MinLength(s: string, n: nat) {
    Utf16Length(s) >= n
  }

  /** One check: no issue when it holds, else the one issue it raises. */
  function Check<F>(holds: bool, path: F, message: string): (issues: seq<Issue<F>>)
    ensures holds <==> issues == []
    ensures !holds ==> issues == [Issue(path, message)]
  {
    if holds then [] else [Issue(path, message)]
  }

  /** The parse result: the (possibly transformed) value when no issue was raised. */
  function Verdict<V, F>(issues: seq<Issue<F>>, value: V): (r: Result<V, seq<Issue<F>>>)
    ensures r.Success? <==> issues == []
    ensures r.Success? ==> r.value == value
    ensures r.Failure? ==> r.error == issues
  {
    if issues == [] then Success(value) else Failure(issues)
  }

  /** Three characters outside the Basic Multilingual Plane (three emoji) meet `.min(6)`. */
  lemma AstralMinLength(s: string)
    requires |s| == 3 && forall i :: 0 <= i < 3 ==> CodeUnits(s[i]) == 2
    ensures MinLength(s, 6)
  {
    AstralUtf16Length(s);
  }

  /** A string of at least `n` characters from the Basic Multilingual Plane passes `.min(n)`. */
  lemma {:induction false} BmpMinLength(s: string, n: nat)
    requires |s| >= n
    requires forall i :: 0 <= i < |s| ==> CodeUnits(s[i]) == 1
    ensures MinLength(s, n)
    ensures Utf16Length(s) == |s|
  {
    if s != [] {
      BmpMinLength(s[..|s| - 1], if n == 0 then 0 else n - 1);
    }
  }
}
