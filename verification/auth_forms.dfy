/** The form rules of the sign-up, login, password-reset, find-username and
    set-goal pages: the email and password predicates, when each submit
    button is enabled, and which error text each field shows. */
module AuthForms {
  import opened JsValues
  import opened Strings

  // ---------------------------------------------------------------- emailValid

  predicate NoSpace(s: string) {
    forall i :: 0 <= i < |s| ==> !IsJsSpace(s[i])
  }

  /** A run matched by `[^\s@]+`. */
  predicate Part(s: string) {
    |s| > 0 && forall i :: 0 <= i < |s| ==> s[i] != '@' && !IsJsSpace(s[i])
  }

  /** What `/^[^\s@]+@[^\s@]+\.[^\s@]+$/` accepts: three runs without white
      space or '@', joined by '@' and by a '.'. */
  ghost predicate EmailShape(v: string) {
    exists a, b, c :: Part(a) && Part(b) && Part(c) && v == a + "@" + b + "." + c
  }

  /** A '.' with at least one character on each side. */
  predicate InnerDot(d: string) {
    exists j :: 0 < j < |d| - 1 && d[j] == '.'
  }

  /** `emailValid(v)`: the text before the first '@' is a non-empty run, and
      the text after it has no '@' and a '.' that is neither first nor last;
      no white space anywhere. */
  predicate EmailValid(v: string) {
    && '@' in v
    && var i := IndexOf(v, '@');
    && i > 0 && NoSpace(v[..i])
    && '@' !in v[i + 1..] && NoSpace(v[i + 1..]) && InnerDot(v[i + 1..])
  }

  lemma EmailValidHasShape(v: string)
    requires EmailValid(v)
    ensures EmailShape(v)
  {
    var i := IndexOf(v, '@');
    var d := v[i + 1..];
    var j :| 0 < j < |d| - 1 && d[j] == '.';
    var a, b, c := v[..i], d[..j], d[j + 1..];
    assert v == a + "@" + d by {
      assert v == v[..i] + [v[i]] + v[i + 1..];
    }
    assert d == b + "." + c by {
      assert d == d[..j] + [d[j]] + d[j + 1..];
    }
    assert Part(a);
    assert Part(b) by {
      forall k | 0 <= k < |b| ensures b[k] != '@' && !IsJsSpace(b[k]) {
        assert b[k] == d[k];
      }
    }
    assert Part(c) by {
      forall k | 0 <= k < |c| ensures c[k] != '@' && !IsJsSpace(c[k]) {
        assert c[k] == d[j + 1 + k];
      }
    }
    assert v == a + "@" + b + "." + c;
  }

  lemma ShapeIsEmailValid(v: string, a: string, b: string, c: string)
    requires Part(a) && Part(b) && Part(c) && v == a + "@" + b + "." + c
    ensures EmailValid(v)
  {
    var d := b + "." + c;
    assert v == a + "@" + d;
    assert v[|a|] == '@';
    var i := IndexOf(v, '@');
    assert i == |a|;
    assert v[..i] == a && v[i + 1..] == d;
    assert d[|b|] == '.';
    forall k | 0 <= k < |d| ensures d[k] != '@' && !IsJsSpace(d[k]) {
      if k < |b| {
        assert d[k] == b[k];
      } else if k > |b| {
        assert d[k] == c[k - |b| - 1];
      }
    }
  }

  /** `emailValid` accepts exactly the strings of the regular expression's shape. */
  lemma EmailValidIffShape(v: string)
    ensures EmailValid(v) <==> EmailShape(v)
  {
    if EmailValid(v) {
      EmailValidHasShape(v);
    }
    if EmailShape(v) {
      var a, b, c :| Part(a) && Part(b) && Part(c) && v == a + "@" + b + "." + c;
      ShapeIsEmailValid(v, a, b, c);
    }
  }

  /** An accepted email has exactly one '@' and no white space. */
  lemma EmailValidOneAt(v: string)
    requires EmailValid(v)
    ensures multiset(v)['@'] == 1 && NoSpace(v)
  {
    var i := IndexOf(v, '@');
    var local, domain := v[..i], v[i + 1..];
    assert v == local + [v[i]] + domain;
    assert multiset(local)['@'] == 0 && multiset(domain)['@'] == 0;
    forall k | 0 <= k < |v| ensures !IsJsSpace(v[k]) {
      if k < i {
        assert v[k] == local[k];
      } else if k > i {
        assert v[k] == domain[k - i - 1];
      }
    }
  }

  // ---------------------------------------------------------------- passwordValid

  /** `/\d/.test(v)`: some ASCII digit. */
  function HasDigit(v: string): (b: bool)
    ensures b <==> exists k :: 0 <= k < |v| && IsDigit(v[k])
  {
    if v == [] then false
    else IsDigit(v[0]) || (assert forall k :: 0 <= k < |v| - 1 ==> v[1..][k] == v[k + 1]; HasDigit(v[1..]))
  }

  /** `passwordValid(v)`: at least eight characters, one of them a digit. */
  predicate PasswordValid(v: string) {
    |v| >= 8 && HasDigit(v)
  }

  // ---------------------------------------------------------------- form states

  /** What a sync handler assigns: the button's `disabled` and an error text. */
  datatype FormState = FormState(disabled: bool, error: string)

  const EmailMessage := "Please enter a valid email."
  const PasswordMessage := "Min 8 chars and include a number."
  const ConfirmMessage := "Passwords do not match."
  const AmountMessage := "Please enter a positive number."

  datatype SignupFields = SignupFields(first: string, last: string, email: string,
                                       password: string, confirm: string, terms: bool)

  /** `syncButtonState()`: the sign-up button is disabled unless both names
      are non-blank, the trimmed email and the password are valid, the
      confirmation repeats the password and the terms are accepted. */
  function SignupDisabled(f: SignupFields): (disabled: bool)
    ensures !disabled ==> Trim(f.first) != "" && Trim(f.last) != "" && f.confirm == f.password && f.terms
    ensures !disabled ==> EmailValid(Trim(f.email)) && PasswordValid(f.password)
    ensures disabled ==> !(Trim(f.first) != "" && Trim(f.last) != "" && EmailValid(Trim(f.email))
                           && PasswordValid(f.password) && f.confirm == f.password && f.terms)
  {
    var ok := Trim(f.first) != "" && Trim(f.last) != "" && EmailValid(Trim(f.email))
              && PasswordValid(f.password) && f.confirm == f.password && f.terms;
    !ok
  }

  /** An enabled sign-up button means an email of the accepted shape with a
      single '@', and a password of eight or more characters with a digit. */
  lemma SignupEnabledMeans(f: SignupFields)
    requires !SignupDisabled(f)
    ensures EmailShape(Trim(f.email)) && multiset(Trim(f.email))['@'] == 1
    ensures |f.password| >= 8 && exists k :: 0 <= k < |f.password| && IsDigit(f.password[k])
    ensures f.confirm == f.password
  {
    EmailValidIffShape(Trim(f.email));
    EmailValidOneAt(Trim(f.email));
  }

  /** The email field's handler: an error for a non-empty value that is not
      a valid email, as typed (not trimmed). */
  function EmailError(v: string): (e: string)
    ensures e != "" <==> v != "" && !EmailValid(v)
    ensures e == "" || e == EmailMessage
  {
    if v == "" then "" else if EmailValid(v) then "" else EmailMessage
  }

  /** The password field's handler: its own error text, and the
      confirmation's text when a confirmation has been typed. */
  function PasswordErrors(password: string, confirm: string): (errs: (string, string))
    ensures errs.0 != "" <==> password != "" && !PasswordValid(password)
    ensures errs.1 != "" <==> confirm != "" && confirm != password
  {
    (if password == "" then "" else if PasswordValid(password) then "" else PasswordMessage,
     if confirm != "" && confirm != password then ConfirmMessage else "")
  }

  /** The confirmation field's handler. */
  function ConfirmError(password: string, confirm: string): (e: string)
    ensures e != "" <==> confirm != "" && confirm != password
  {
    if confirm == "" then "" else if confirm == password then "" else ConfirmMessage
  }

  /** Typing in either field leaves the same confirmation message. */
  lemma ConfirmHandlersAgree(password: string, confirm: string)
    ensures PasswordErrors(password, confirm).1 == ConfirmError(password, confirm)
  {
  }

  /** `syncLogin()`: disabled when the trimmed user name or the password is empty. */
  function LoginDisabled(user: string, password: string): (disabled: bool)
    ensures disabled <==> Trim(user) == "" || password == ""
  {
    !(Trim(user) != "" && password != "")
  }

  /** A user name of white space only keeps the login button disabled. */
  lemma LoginBlankUser(user: string, password: string)
    requires AllSpace(user)
    ensures LoginDisabled(user, password)
  {
    TrimEmpty(user);
  }

  /** `sync()` of the reset form: enabled for a valid trimmed email; the
      error shows for a non-empty value whose trimmed form is not valid. */
  function ResetState(email: string): (s: FormState)
    ensures s.disabled <==> !EmailValid(Trim(email))
    ensures s.error != "" <==> email != "" && !EmailValid(Trim(email))
  {
    var ok := EmailValid(Trim(email));
    FormState(!ok, if ok || email == "" then "" else EmailMessage)
  }

  /** `sync2()` of the find-username form. */
  function FindState(first: string, last: string, email: string): (s: FormState)
    ensures !s.disabled <==> Trim(first) != "" && Trim(last) != "" && EmailValid(Trim(email))
    ensures s.error != "" <==> email != "" && !EmailValid(Trim(email))
  {
    var ok := Trim(first) != "" && Trim(last) != "" && EmailValid(Trim(email));
    FormState(!ok, if EmailValid(Trim(email)) || email == "" then "" else EmailMessage)
  }

  /** On the reset and find-username forms an email error always comes with
      a disabled button. */
  lemma ErrorMeansDisabled(first: string, last: string, email: string)
    ensures ResetState(email).error != "" ==> ResetState(email).disabled
    ensures FindState(first, last, email).error != "" ==> FindState(first, last, email).disabled
  {
  }

  /** `validAmount(v)` on the result of `parseFloat(v)`. */
  predicate ValidAmount(n: JsNumber) {
    n.Finite? && n.value > 0.0
  }

  /** `sync()` of the set-goal form, for the typed text and its parsed number. */
  function GoalState(text: string, parsed: JsNumber): (s: FormState)
    ensures s.disabled <==> !ValidAmount(parsed)
    ensures s.error != "" <==> text != "" && !ValidAmount(parsed)
    ensures s.error != "" ==> s.disabled
  {
    var ok := ValidAmount(parsed);
    FormState(!ok, if ok || text == "" then "" else AmountMessage)
  }

  // ---------------------------------------------------------------- sign-up email error

  /** As written, the sign-up page checks the email trimmed for its button
      but untrimmed for its error text: " a@b.co" shows the error while the
      button is enabled. */
  lemma SignupEmailErrorDisagrees()
    ensures var f := SignupFields("Ann", "Lee", " a@b.co", "password1", "password1", true);
      EmailError(f.email) == EmailMessage && !SignupDisabled(f)
  {
    var f := SignupFields("Ann", "Lee", " a@b.co", "password1", "password1", true);
    assert f.email != "" && !EmailValid(f.email) && EmailValid(Trim(f.email)) by {
      LeadingSpaceRejected();
      TrimmedExampleAccepted();
    }
    assert Trim(f.first) != "" && Trim(f.last) != "" && PasswordValid(f.password) by {
      ExampleNamesAndPassword();
    }
    EnabledWithEmailError(f);
  }

  /** Fields whose email is invalid as typed but valid once trimmed, with
      everything else acceptable, show the email error on an enabled form. */
  lemma EnabledWithEmailError(f: SignupFields)
    requires f.email != "" && !EmailValid(f.email) && EmailValid(Trim(f.email))
    requires Trim(f.first) != "" && Trim(f.last) != "" && PasswordValid(f.password)
    requires f.confirm == f.password && f.terms
    ensures EmailError(f.email) == EmailMessage && !SignupDisabled(f)
  {
  }

  lemma ExampleNamesAndPassword()
    ensures Trim("Ann") == "Ann" && Trim("Lee") == "Lee" && PasswordValid("password1")
  {
    ExamplePassword();
    ExampleName("Ann");
    ExampleName("Lee");
  }

  lemma ExamplePassword()
    ensures PasswordValid("password1")
  {
    var pw := "password1";
    assert IsDigit(pw[8]);
  }

  lemma ExampleName(s: string)
    requires s == "Ann" || s == "Lee"
    ensures Trim(s) == s
  {
    assert !IsJsSpace(s[0]) && !IsJsSpace(s[2]);
    TrimPlain(s);
  }

  lemma LeadingSpaceRejected()
    ensures !EmailValid(" a@b.co")
  {
    var v := " a@b.co";
    assert v[1] == 'a' && v[2] == '@';
    if '@' in v {
      var i := IndexOf(v, '@');
      assert v[..i][0] == ' ';
    }
  }

  lemma TrimmedExampleAccepted()
    ensures Trim(" a@b.co") == "a@b.co" && EmailValid("a@b.co")
  {
    var t := "a@b.co";
    assert " a@b.co"[1..] == t;
    assert TrimStart(" a@b.co") == TrimStart(t);
    assert TrimStart(t) == t && TrimEnd(t) == t by {
      assert !IsJsSpace(t[0]) && !IsJsSpace(t[|t| - 1]);
    }
    ExampleValid();
  }

  lemma ExampleValid()
    ensures EmailValid("a@b.co")
  {
    var t := "a@b.co";
    assert t[1] == '@' && t[0] == 'a';
    var i := IndexOf(t, '@');
    assert i == 1;
    assert t[..1] == "a" && t[2..] == "b.co";
    assert "b.co"[1] == '.';
  }

  /** The sign-up email error as the other forms compute it: from the
      trimmed value, shown only for a non-empty field. */
  function SignupEmailError(v: string): (e: string)
    ensures e != "" <==> v != "" && !EmailValid(Trim(v))
  {
    if v == "" || EmailValid(Trim(v)) then "" else EmailMessage
  }

  /** With that rule the sign-up page never shows an email error next to an
      enabled button. */
  lemma SignupEmailErrorAgrees(f: SignupFields)
    ensures SignupEmailError(f.email) != "" ==> SignupDisabled(f)
  {
  }
}
