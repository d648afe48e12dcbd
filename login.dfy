/**
 * The login page's password-strength meter and the acceptance rules of its
 * login and registration forms. E-mail validity is a parameter: the model
 * does not say which addresses are valid.
 */
module Login {
  import opened Wrappers
  import opened Ascii

  // ---------------------------------------------------------------------------
  // Password strength

  /** Some character is a capital letter. */
  predicate HasUpper(p: string) { exists c :: c in p && IsUpper(c) }
  /** Some character is a small letter. */
  predicate HasLower(p: string) { exists c :: c in p && IsLower(c) }
  /** Some character is a digit. */
  predicate HasDigit(p: string) { exists c :: c in p && IsDigit(c) }
  /** Some character is neither a letter nor a digit. */
  predicate HasOther(p: string) { exists c :: c in p && !IsUpper(c) && !IsLower(c) && !IsDigit(c) }

  /** The five things the meter awards a point for. */
  datatype Criterion = MinLength | Uppercase | Lowercase | Digit | Other

  const CRITERIA: seq<Criterion> := [MinLength, Uppercase, Lowercase, Digit, Other]

  predicate Meets(p: string, c: Criterion)
  {
    match c
    case MinLength => |p| >= 8
    case Uppercase => HasUpper(p)
    case Lowercase => HasLower(p)
    case Digit => HasDigit(p)
    case Other => HasOther(p)
  }

  /** The number of criteria in `cs` that `p` meets. */
  function CountMet(p: string, cs: seq<Criterion>): (n: nat)
    ensures n <= |cs|
  {
    if cs == [] then 0 else (if Meets(p, cs[0]) then 1 else 0) + CountMet(p, cs[1..])
  }

  /** The score of a password: 0 when empty, otherwise the number of criteria it meets. */
  function Strength(p: string): (n: nat)
    ensures n <= |CRITERIA| == 5
  {
    if p == "" then 0 else CountMet(p, CRITERIA)
  }

  /** The label for a score: Weak up to 2, Medium up to 4, Strong above. */
  function LabelOf(strength: nat): (r: string)
    ensures r in {"Weak", "Medium", "Strong"}
    ensures r == "Strong" <==> strength > 4
    ensures r == "Weak" <==> strength <= 2
  {
    if strength <= 2 then "Weak" else if strength <= 4 then "Medium" else "Strong"
  }

  /** The label shown under the password box; nothing for an empty password. */
  function Label(p: string): (r: string)
    ensures r == "" <==> p == ""
    ensures p != "" ==> r == LabelOf(Strength(p))
  {
    if p == "" then "" else LabelOf(Strength(p))
  }

  /** The meter as the page computes it: a counter bumped once per criterion, then a label chosen from it. */
  method CalculatePasswordStrength(password: string) returns (strength: nat, labelText: string)
    ensures strength == Strength(password) && labelText == Label(password)
    ensures strength <= |CRITERIA|
  {
    if password == "" {
      return 0, "";
    }
    strength := 0;
    if |password| >= 8 { strength := strength + 1; }
    if HasUpper(password) { strength := strength + 1; }
    if HasLower(password) { strength := strength + 1; }
    if HasDigit(password) { strength := strength + 1; }
    if HasOther(password) { strength := strength + 1; }
    labelText := "";
    if strength <= 2 {
      labelText := "Weak";
    } else if strength <= 4 {
      labelText := "Medium";
    } else {
      labelText := "Strong";
    }
    StrengthUnfolded(password);
  }

  /** Counting the criteria list one by one gives the sum of the five tests. */
  lemma StrengthUnfolded(p: string)
    ensures Strength(p) == (if |p| >= 8 then 1 else 0) + (if HasUpper(p) then 1 else 0) + (if HasLower(p) then 1 else 0)
                           + (if HasDigit(p) then 1 else 0) + (if HasOther(p) then 1 else 0)
  {
    var c1 := [Uppercase, Lowercase, Digit, Other];
    var c2 := [Lowercase, Digit, Other];
    var c3 := [Digit, Other];
    var c4 := [Other];
    assert CRITERIA[1..] == c1 && c1[1..] == c2 && c2[1..] == c3 && c3[1..] == c4 && c4[1..] == [];
    assert CountMet(p, c4) == (if HasOther(p) then 1 else 0);
    assert CountMet(p, c3) == (if HasDigit(p) then 1 else 0) + CountMet(p, c4);
    assert CountMet(p, c2) == (if HasLower(p) then 1 else 0) + CountMet(p, c3);
    assert CountMet(p, c1) == (if HasUpper(p) then 1 else 0) + CountMet(p, c2);
  }

  /** Every criterion is on the list. */
  lemma AllCriteriaListed(c: Criterion)
    ensures c in CRITERIA
  {
  }

  /** The count reaches the length of the list exactly when every criterion on it is met. */
  lemma {:induction false} CountMetAll(p: string, cs: seq<Criterion>)
    ensures CountMet(p, cs) == |cs| <==> forall i :: 0 <= i < |cs| ==> Meets(p, cs[i])
  {
    if cs != [] {
      CountMetAll(p, cs[1..]);
      if !Meets(p, cs[0]) {
        assert CountMet(p, cs) < |cs|;
      }
      assert forall i :: 1 <= i < |cs| ==> cs[i] == cs[1..][i - 1];
    }
  }

  /** The count is positive as soon as one criterion on the list is met. */
  lemma {:induction false} CountMetPositive(p: string, cs: seq<Criterion>, k: nat)
    requires k < |cs| && Meets(p, cs[k])
    ensures CountMet(p, cs) >= 1
  {
    if k > 0 {
      CountMetPositive(p, cs[1..], k - 1);
    }
  }

  /** A password that meets at least the criteria another meets scores at least as much. */
  lemma {:induction false} CountMetMonotone(p: string, q: string, cs: seq<Criterion>)
    requires forall c :: Meets(p, c) ==> Meets(q, c)
    ensures CountMet(p, cs) <= CountMet(q, cs)
  {
    if cs != [] {
      CountMetMonotone(p, q, cs[1..]);
    }
  }

  /** The empty password scores 0 with no label. */
  lemma EmptyPassword()
    ensures Strength("") == 0 && Label("") == ""
  {
  }

  /** Every character is a capital, a small letter, a digit or something else, so a non-empty password scores at least 1. */
  lemma NonEmptyScoresAtLeastOne(p: string)
    requires p != ""
    ensures Strength(p) >= 1
    ensures Label(p) != ""
  {
    var c := p[0];
    assert c in p;
    if IsUpper(c) {
      CountMetPositive(p, CRITERIA, 1);
    } else if IsLower(c) {
      CountMetPositive(p, CRITERIA, 2);
    } else if IsDigit(c) {
      CountMetPositive(p, CRITERIA, 3);
    } else {
      CountMetPositive(p, CRITERIA, 4);
    }
  }

  /** "Strong" exactly when all five criteria hold; "Weak" for at most two, "Medium" for three or four. */
  lemma LabelSpec(p: string)
    requires p != ""
    ensures Label(p) == "Strong" <==> forall c :: Meets(p, c)
    ensures Label(p) == "Weak" <==> Strength(p) <= 2
    ensures Label(p) == "Medium" <==> 3 <= Strength(p) <= 4
  {
    CountMetAll(p, CRITERIA);
    if forall i :: 0 <= i < |CRITERIA| ==> Meets(p, CRITERIA[i]) {
      forall c: Criterion
        ensures Meets(p, c)
      {
        AllCriteriaListed(c);
      }
    }
  }

  /** Typing one more character into a password never lowers its score. */
  lemma AppendNeverLowers(p: string, c: char)
    ensures Strength(p + [c]) >= Strength(p)
  {
    forall k: Criterion | Meets(p, k)
      ensures Meets(p + [c], k)
    {
      forall x | x in p
        ensures x in p + [c]
      {
      }
    }
    CountMetMonotone(p, p + [c], CRITERIA);
  }

  // ---------------------------------------------------------------------------
  // Form schemas

  datatype Field = Email | Password | RememberMe | Username | ConfirmPassword | AcceptTerms

  /** One validation message, attached to the field it is shown under. */
  datatype Issue = Issue(field: Field, message: string)

  const EMAIL_MESSAGE := "Please enter a valid email address"
  const PASSWORD_MESSAGE := "Password must be at least 6 characters"
  const USERNAME_MESSAGE := "Username must be at least 3 characters"
  const TERMS_MESSAGE := "You must accept the terms and conditions"
  const MISMATCH_MESSAGE := "Passwords do not match"

  /** Login input as submitted; an absent remember-me box is `None`. */
  datatype LoginInput = LoginInput(email: string, password: string, rememberMe: Option<bool>)
  datatype LoginValues = LoginValues(email: string, password: string, rememberMe: bool)

  /** The login schema's issues, in field order: the e-mail first, then the password. */
  function LoginIssues(input: LoginInput, isEmail: string -> bool): (r: seq<Issue>)
    ensures |r| <= 2
    ensures forall i :: 0 <= i < |r| ==> r[i].field in {Email, Password}
    ensures r == [] <==> isEmail(input.email) && |input.password| >= 6
  {
    (if isEmail(input.email) then [] else [Issue(Email, EMAIL_MESSAGE)]) +
    (if |input.password| >= 6 then [] else [Issue(Password, PASSWORD_MESSAGE)])
  }

  /** The login schema: a valid e-mail and a password of at least 6 characters; remember-me defaults to false. */
  function ParseLogin(input: LoginInput, isEmail: string -> bool): (r: Result<LoginValues, seq<Issue>>)
    ensures r.Success? ==> r.value.email == input.email && r.value.password == input.password
    ensures r.Failure? ==> r.error != [] && r.error == LoginIssues(input, isEmail)
  {
    var issues := LoginIssues(input, isEmail);
    if issues == [] then Success(LoginValues(input.email, input.password, input.rememberMe.GetOr(false)))
    else Failure(issues)
  }

  datatype RegisterInput = RegisterInput(username: string, email: string, password: string, confirmPassword: string, acceptTerms: bool)

  /**
   * The registration schema's issues, field rules first. The confirmation refinement only runs
   * when the object itself parsed, and an unticked terms box aborts that parse, so the mismatch
   * is reported only when the box is ticked.
   */
  function RegisterIssues(input: RegisterInput, isEmail: string -> bool): (r: seq<Issue>)
    ensures |r| <= 5
    ensures forall i :: 0 <= i < |r| ==> r[i].field != RememberMe
    ensures !input.acceptTerms ==> Issue(ConfirmPassword, MISMATCH_MESSAGE) !in r
  {
    (if |input.username| >= 3 then [] else [Issue(Username, USERNAME_MESSAGE)]) +
    (if isEmail(input.email) then [] else [Issue(Email, EMAIL_MESSAGE)]) +
    (if |input.password| >= 6 then [] else [Issue(Password, PASSWORD_MESSAGE)]) +
    (if |input.confirmPassword| >= 6 then [] else [Issue(ConfirmPassword, PASSWORD_MESSAGE)]) +
    (if input.acceptTerms then [] else [Issue(AcceptTerms, TERMS_MESSAGE)]) +
    (if !input.acceptTerms || input.password == input.confirmPassword then [] else [Issue(ConfirmPassword, MISMATCH_MESSAGE)])
  }

  /** The registration schema, including the password-confirmation refinement. */
  function ParseRegister(input: RegisterInput, isEmail: string -> bool): (r: Result<RegisterInput, seq<Issue>>)
    ensures r.Success? ==> r.value == input
    ensures r.Failure? ==> r.error != [] && r.error == RegisterIssues(input, isEmail)
  {
    var issues := RegisterIssues(input, isEmail);
    if issues == [] then Success(input) else Failure(issues)
  }

  const DEFAULT_LOGIN := LoginInput("", "", Some(false))
  const DEFAULT_REGISTER := RegisterInput("", "", "", "", false)

  /** Login is accepted exactly for a valid e-mail and a password of 6 or more characters, and remember-me is false unless ticked. */
  lemma LoginSpec(input: LoginInput, isEmail: string -> bool)
    ensures ParseLogin(input, isEmail).Success? <==> isEmail(input.email) && |input.password| >= 6
    ensures ParseLogin(input, isEmail).Success? ==>
      ParseLogin(input, isEmail).value.rememberMe == (input.rememberMe == Some(true))
    ensures ParseLogin(input, isEmail).Failure? ==>
      (Issue(Password, PASSWORD_MESSAGE) in ParseLogin(input, isEmail).error <==> |input.password| < 6)
  {
    var issues := LoginIssues(input, isEmail);
    if !isEmail(input.email) {
      assert issues[0] == Issue(Email, EMAIL_MESSAGE);
    }
    if |input.password| < 6 {
      assert issues[|issues| - 1] == Issue(Password, PASSWORD_MESSAGE);
    }
  }

  /** Registration is accepted exactly when every field rule holds and the two passwords agree. */
  lemma RegisterSpec(input: RegisterInput, isEmail: string -> bool)
    ensures ParseRegister(input, isEmail).Success? <==>
      && |input.username| >= 3
      && isEmail(input.email)
      && |input.password| >= 6
      && |input.confirmPassword| >= 6
      && input.acceptTerms
      && input.password == input.confirmPassword
    ensures ParseRegister(input, isEmail).Success? ==> ParseRegister(input, isEmail).value == input
  {
    var issues := RegisterIssues(input, isEmail);
    if input.acceptTerms && input.password != input.confirmPassword {
      assert issues[|issues| - 1] == Issue(ConfirmPassword, MISMATCH_MESSAGE);
    }
  }

  /** A password mismatch always fails registration; once the terms box is ticked it is reported under the confirmation field. */
  lemma MismatchOnConfirmField(input: RegisterInput, isEmail: string -> bool)
    requires input.password != input.confirmPassword
    ensures ParseRegister(input, isEmail).Failure?
    ensures input.acceptTerms <==> Issue(ConfirmPassword, MISMATCH_MESSAGE) in ParseRegister(input, isEmail).error
  {
    var issues := RegisterIssues(input, isEmail);
    if input.acceptTerms {
      assert issues[|issues| - 1] == Issue(ConfirmPassword, MISMATCH_MESSAGE);
    }
  }

  /** Both forms start out unacceptable: their passwords are empty and the terms box is unticked. */
  lemma DefaultsRejected(isEmail: string -> bool)
    ensures ParseLogin(DEFAULT_LOGIN, isEmail).Failure?
    ensures ParseRegister(DEFAULT_REGISTER, isEmail).Failure?
    ensures Issue(AcceptTerms, TERMS_MESSAGE) in ParseRegister(DEFAULT_REGISTER, isEmail).error
  {
    var issues := RegisterIssues(DEFAULT_REGISTER, isEmail);
    assert Issue(AcceptTerms, TERMS_MESSAGE) in [Issue(AcceptTerms, TERMS_MESSAGE)];
  }
}
