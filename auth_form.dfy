/** The validation schemas of the authentication form
    (src/components/auth-form.tsx): the password-strength rule, the login
    and register field rules, the password/confirm refinement, and which
    schema a form of a given `type` uses. The e-mail format check of the
    validation library is a parameter `isEmail`. */
module AuthForm {
  import opened Common

  /** A validation issue: the field it is attached to and its message. */
  datatype Issue = Issue(path: string, message: string)

  // ----- passwordRequirements -----

  datatype PasswordRule = MinLength | Uppercase | Lowercase | Digit | Special

  const MinPasswordLength := 8

  /** JavaScript's `s.length`: the number of UTF-16 code units, two for a
      character outside the Basic Multilingual Plane. */
  function Utf16Length(s: string): (n: nat)
    ensures |s| <= n <= 2 * |s|
    ensures n == 0 <==> s == []
  {
    if s == [] then 0
    else (if s[0] as int > 0xFFFF then 2 else 1) + Utf16Length(s[1..])
  }

  function RuleMessage(rule: PasswordRule): string
  {
    match rule
    case MinLength => "Password must be at least 8 characters"
    case Uppercase => "Must contain at least one uppercase letter"
    case Lowercase => "Must contain at least one lowercase letter"
    case Digit => "Must contain at least one number"
    case Special => "Must contain at least one special character"
  }

  /** Each violated rule reports its own message. */
  lemma RuleMessagesDistinct(r1: PasswordRule, r2: PasswordRule)
    requires r1 != r2
    ensures RuleMessage(r1) != RuleMessage(r2)
  {
  }

  /** The character classes `[A-Z]`, `[a-z]`, `[0-9]` and `[^A-Za-z0-9]`. */
  predicate IsUpper(c: char) { 'A' <= c <= 'Z' }
  predicate IsLower(c: char) { 'a' <= c <= 'z' }
  predicate IsDigit(c: char) { '0' <= c <= '9' }
  predicate IsSpecial(c: char) { !IsUpper(c) && !IsLower(c) && !IsDigit(c) }

  /** `/[class]/.test(s)`: whether some character of `s` is in the class. */
  function AnyChar(s: string, inClass: char -> bool): (r: bool)
    ensures r <==> exists i :: 0 <= i < |s| && inClass(s[i])
  {
    if s == [] then false
    else if inClass(s[0]) then true
    else
      var rest := AnyChar(s[1..], inClass);
      assert forall i :: 1 <= i < |s| ==> s[i] == s[1..][i - 1];
      rest
  }

  predicate Meets(password: string, rule: PasswordRule)
  {
    match rule
    case MinLength => Utf16Length(password) >= MinPasswordLength
    case Uppercase => AnyChar(password, IsUpper)
    case Lowercase => AnyChar(password, IsLower)
    case Digit => AnyChar(password, IsDigit)
    case Special => AnyChar(password, IsSpecial)
  }

  /** The rules of `passwordRequirements` that `password` violates, in the
      order the schema declares them. */
  function PasswordViolations(password: string): (r: seq<PasswordRule>)
    ensures forall rule :: rule in r <==> !Meets(password, rule)
  {
    (if Meets(password, MinLength) then [] else [MinLength])
    + (if Meets(password, Uppercase) then [] else [Uppercase])
    + (if Meets(password, Lowercase) then [] else [Lowercase])
    + (if Meets(password, Digit) then [] else [Digit])
    + (if Meets(password, Special) then [] else [Special])
  }

  /** A strong password, stated directly over the characters. */
  ghost predicate StrongPassword(password: string)
  {
    && Utf16Length(password) >= 8
    && (exists i :: 0 <= i < |password| && 'A' <= password[i] <= 'Z')
    && (exists i :: 0 <= i < |password| && 'a' <= password[i] <= 'z')
    && (exists i :: 0 <= i < |password| && '0' <= password[i] <= '9')
    && (exists i :: 0 <= i < |password| && IsSpecial(password[i]))
  }

  /** The password schema accepts exactly the strong passwords. */
  lemma PasswordAcceptedIffStrong(password: string)
    ensures PasswordViolations(password) == [] <==> StrongPassword(password)
  {
    var v := PasswordViolations(password);
    if v != [] {
      assert v[0] in v;
    }
  }

  /** Pairing each violated rule with its message keeps the messages in
      step with the rules: one issue per violation, each on `password`. */
  lemma IssuesMatchViolations(password: string, v: seq<PasswordRule>, issues: seq<Issue>)
    requires v == PasswordViolations(password)
    requires |issues| == |v|
    requires forall k :: 0 <= k < |v| ==> issues[k] == Issue("password", RuleMessage(v[k]))
    ensures forall rule :: Issue("password", RuleMessage(rule)) in issues <==> !Meets(password, rule)
    ensures forall k :: 0 <= k < |issues| ==>
      exists rule :: !Meets(password, rule) && issues[k] == Issue("password", RuleMessage(rule))
  {
    forall rule | Issue("password", RuleMessage(rule)) in issues ensures rule in v {
      var k :| 0 <= k < |issues| && issues[k] == Issue("password", RuleMessage(rule));
      if v[k] != rule {
        RuleMessagesDistinct(v[k], rule);
      }
    }
    forall rule | rule in v ensures Issue("password", RuleMessage(rule)) in issues {
      var k :| 0 <= k < |v| && v[k] == rule;
      assert issues[k] == Issue("password", RuleMessage(rule));
    }
    forall k | 0 <= k < |issues|
      ensures exists rule :: !Meets(password, rule) && issues[k] == Issue("password", RuleMessage(rule))
    {
      assert v[k] in v;
    }
  }

  /** The password schema's issues: exactly one per violated rule, in the
      schema's order, each carrying that rule's message. */
  function PasswordIssues(password: string): (issues: seq<Issue>)
    ensures forall rule :: Issue("password", RuleMessage(rule)) in issues <==> !Meets(password, rule)
    ensures forall k :: 0 <= k < |issues| ==> issues[k].path == "password"
    ensures |issues| == |PasswordViolations(password)|
    ensures forall k :: 0 <= k < |issues| ==>
      exists rule :: !Meets(password, rule) && issues[k] == Issue("password", RuleMessage(rule))
  {
    var v := PasswordViolations(password);
    var issues := seq(|v|, i requires 0 <= i < |v| => Issue("password", RuleMessage(v[i])));
    IssuesMatchViolations(password, v, issues);
    issues
  }

  // ----- the form's values -----

  /** The field values the form holds when it is submitted. */
  datatype FormInput = FormInput(
    name: string,
    email: string,
    password: string,
    confirmPassword: string,
    company: Option<string>,
    terms: bool,
    remember: Option<bool>)

  datatype LoginFormValues = LoginFormValues(email: string, password: string, remember: Option<bool>)

  datatype RegisterFormValues = RegisterFormValues(
    name: string,
    email: string,
    password: string,
    confirmPassword: string,
    company: Option<string>,
    terms: bool)

  /** `LoginFormValues | RegisterFormValues` */
  datatype FormValues = LoginValues(login: LoginFormValues) | RegisterValues(register: RegisterFormValues)

  /** The outcome of running a schema on the form's values. */
  datatype Parsed = Accepted(values: FormValues) | Rejected(issues: seq<Issue>)

  const InvalidEmail := "Invalid email address"
  const PasswordRequired := "Password is required"
  const NameTooShort := "Name must be at least 2 characters"
  const TermsRequired := "You must accept the terms"
  const PasswordsDontMatch := "Passwords don't match"

  // ----- loginSchema -----

  function LoginIssues(input: FormInput, isEmail: string -> bool): seq<Issue>
  {
    (if isEmail(input.email) then [] else [Issue("email", InvalidEmail)])
    + (if Utf16Length(input.password) >= 1 then [] else [Issue("password", PasswordRequired)])
  }

  /** The login rules: a well-formed e-mail and a non-empty password; no
      strength rule, and `remember` may be anything or absent. */
  ghost predicate LoginValid(input: FormInput, isEmail: string -> bool)
  {
    isEmail(input.email) && input.password != ""
  }

  // ----- registerSchema -----

  function RegisterIssues(input: FormInput, isEmail: string -> bool): seq<Issue>
  {
    (if Utf16Length(input.name) >= 2 then [] else [Issue("name", NameTooShort)])
    + (if isEmail(input.email) then [] else [Issue("email", InvalidEmail)])
    + PasswordIssues(input.password)
    + (if input.terms then [] else [Issue("terms", TermsRequired)])
    + (if input.password == input.confirmPassword then []
       else [Issue("confirmPassword", PasswordsDontMatch)])
  }

  /** The register rules: a name of at least two characters, a well-formed
      e-mail, a strong password, `terms` literally true and the confirmation
      equal to the password; `company` may be anything or absent. */
  ghost predicate RegisterValid(input: FormInput, isEmail: string -> bool)
  {
    && Utf16Length(input.name) >= 2
    && isEmail(input.email)
    && StrongPassword(input.password)
    && input.terms == true
    && input.password == input.confirmPassword
  }

  /** The mismatch issue, attached to `confirmPassword`, is reported exactly
      when the two passwords differ. */
  lemma MismatchReportedIffDifferent(input: FormInput, isEmail: string -> bool)
    ensures Issue("confirmPassword", PasswordsDontMatch) in RegisterIssues(input, isEmail)
            <==> input.password != input.confirmPassword
  {
  }

  /** `type === "login" ? loginSchema : registerSchema`, run on the input. */
  function Resolve(formType: string, input: FormInput, isEmail: string -> bool): (r: Parsed)
    ensures formType == "login" ==> (r.Accepted? <==> LoginValid(input, isEmail))
    ensures formType != "login" ==> (r.Accepted? <==> RegisterValid(input, isEmail))
    ensures r.Accepted? ==> (r.values.LoginValues? <==> formType == "login")
    ensures r.Accepted? && r.values.LoginValues? ==>
      r.values.login == LoginFormValues(input.email, input.password, input.remember)
    ensures r.Accepted? && r.values.RegisterValues? ==>
      r.values.register == RegisterFormValues(input.name, input.email, input.password,
                                              input.confirmPassword, input.company, input.terms)
    ensures r.Rejected? ==> r.issues != []
  {
    if formType == "login" then
      var issues := LoginIssues(input, isEmail);
      if issues == [] then Accepted(LoginValues(LoginFormValues(input.email, input.password, input.remember)))
      else Rejected(issues)
    else
      PasswordAcceptedIffStrong(input.password);
      var issues := RegisterIssues(input, isEmail);
      if issues == [] then
        Accepted(RegisterValues(RegisterFormValues(input.name, input.email, input.password,
                                                   input.confirmPassword, input.company, input.terms)))
      else Rejected(issues)
  }

  /** Any value of `type` other than exactly "login" selects the register
      schema, which rejects every weak password that the login schema
      accepts. */
  lemma OnlyLoginTypeSkipsStrength(formType: string, input: FormInput, isEmail: string -> bool)
    requires formType != "login"
    requires isEmail(input.email) && input.password != "" && !StrongPassword(input.password)
    ensures Resolve("login", input, isEmail).Accepted?
    ensures Resolve(formType, input, isEmail).Rejected?
  {
  }
}
