/** What src/components/pages/RegistrationPage.tsx adds to the shared form
    logic: the ordered password rules of `validateForm`, and its year select,
    whose options come from the shared constants. */
module RegistrationPage {
  import opened Util
  import opened Text
  import opened FormCore

  // ---------------------------------------------------------------------------
  // Password rules
  // ---------------------------------------------------------------------------

  /** The password checks, in the order `validateForm` tries them. */
  datatype PasswordRule = Required | MinLength | Capital | Digit

  const PasswordRules: seq<PasswordRule> := [Required, MinLength, Capital, Digit]

  /** `/[A-Z]/.test(pw)` */
  predicate HasCapital(pw: string)
  {
    exists i :: 0 <= i < |pw| && 'A' <= pw[i] <= 'Z'
  }

  /** `/\d/.test(pw)` (without the `u` flag `\d` is `[0-9]`). */
  predicate HasDigit(pw: string)
  {
    exists i :: 0 <= i < |pw| && IsDigit(pw[i])
  }

  /** When a rule rejects a password; the first two look at the trimmed
      password, the last two at the password as typed. */
  predicate Fails(rule: PasswordRule, pw: string)
  {
    match rule
    case Required => Trim(pw) == []
    case MinLength => |Trim(pw)| < 8
    case Capital => !HasCapital(pw)
    case Digit => !HasDigit(pw)
  }

  const PasswordRequired: string := "Password is required"
  const PasswordTooShort: string := "Password must have at least 8 characters"
  const PasswordNoCapital: string := "Password must include a captial letter"
  const PasswordNoDigit: string := "Password must include a number"

  function Message(rule: PasswordRule): string
  {
    match rule
    case Required => PasswordRequired
    case MinLength => PasswordTooShort
    case Capital => PasswordNoCapital
    case Digit => PasswordNoDigit
  }

  /** The position of the first rule in `rules` that rejects `pw`. */
  function FirstFailing(rules: seq<PasswordRule>, pw: string): (r: Option<nat>)
    ensures r.None? <==> forall j :: 0 <= j < |rules| ==> !Fails(rules[j], pw)
    ensures r.Some? ==>
      && r.value < |rules| && Fails(rules[r.value], pw)
      && forall j :: 0 <= j < r.value ==> !Fails(rules[j], pw)
  {
    if rules == [] then None
    else if Fails(rules[0], pw) then Some(0)
    else
      match FirstFailing(rules[1..], pw)
      case None => None
      case Some(i) => Some(i + 1)
  }

  /** A password passes all four rules exactly when, trimmed, it has at least
      eight characters, and it holds a capital letter and a digit; the
      "required" rule is implied by the length rule. */
  lemma PasswordAccepted(pw: string)
    ensures FirstFailing(PasswordRules, pw).None?
            <==> |Trim(pw)| >= 8 && HasCapital(pw) && HasDigit(pw)
  {
    var r := FirstFailing(PasswordRules, pw);
    if |Trim(pw)| >= 8 && HasCapital(pw) && HasDigit(pw) {
      forall j | 0 <= j < |PasswordRules| ensures !Fails(PasswordRules[j], pw) {
      }
    } else {
      assert Fails(PasswordRules[1], pw) || Fails(PasswordRules[2], pw) || Fails(PasswordRules[3], pw);
    }
  }

  /** `FirstFailing` on the four rules, tried in order. */
  lemma {:induction false} FirstFailingInOrder(pw: string)
    ensures FirstFailing(PasswordRules, pw)
            == if Fails(Required, pw) then Some(0)
               else if Fails(MinLength, pw) then Some(1)
               else if Fails(Capital, pw) then Some(2)
               else if Fails(Digit, pw) then Some(3)
               else None
  {
    var d := if Fails(Digit, pw) then Some(0) else None;
    assert FirstFailing([Digit], pw) == d by {
      assert [Digit][1..] == [];
    }
    assert FirstFailing([Capital, Digit], pw)
           == if Fails(Capital, pw) then Some(0) else if d.Some? then Some(1) else None by {
      assert [Capital, Digit][1..] == [Digit];
    }
    assert [MinLength, Capital, Digit][1..] == [Capital, Digit];
    assert PasswordRules[1..] == [MinLength, Capital, Digit];
  }

  /** The password branch of `validateForm`: an `if`/`else if` chain that
      yields the message of the first rule the password breaks. */
  method PasswordError(pw: string) returns (msg: Option<string>)
    ensures msg.None? <==> FirstFailing(PasswordRules, pw).None?
    ensures msg.Some? ==> msg.value == Message(PasswordRules[FirstFailing(PasswordRules, pw).value])
  {
    FirstFailingInOrder(pw);
    if Trim(pw) == [] {
      msg := Some(PasswordRequired);
    } else if |Trim(pw)| < 8 {
      msg := Some(PasswordTooShort);
    } else if !HasCapital(pw) {
      msg := Some(PasswordNoCapital);
    } else if !HasDigit(pw) {
      msg := Some(PasswordNoDigit);
    } else {
      msg := None;
    }
  }

  /** `validateForm`: the shared checks and the password rules, each adding
      its message under its own key; the form is valid when no message was
      recorded. */
  method ValidateForm(f: FormData) returns (ok: bool, errors: map<string, string>)
    ensures ok <==>
      && Trim(f.name) != []
      && Includes(f.email, "@")
      && |Trim(f.password)| >= 8 && HasCapital(f.password) && HasDigit(f.password)
      && |Trim(f.introBlurb)| >= 30
      && |f.practiceGoals| >= 1
    ensures "password" in errors <==> FirstFailing(PasswordRules, f.password).Some?
    ensures "password" in errors ==>
      errors["password"] == Message(PasswordRules[FirstFailing(PasswordRules, f.password).value])
    ensures "email" in errors <==> !Includes(f.email, "@")
    ensures "email" in errors ==> errors["email"] == InvalidEmail
    ensures errors.Keys <= {"name", "email", "password", "introBlurb", "practiceGoals"}
    ensures "name" in errors <==> Trim(f.name) == []
    ensures "introBlurb" in errors <==> |Trim(f.introBlurb)| < 30
    ensures "practiceGoals" in errors <==> |f.practiceGoals| < 1
    ensures "name" in errors ==> errors["name"] == NameRequired
    ensures "introBlurb" in errors ==> errors["introBlurb"] == ShortIntro
    ensures "practiceGoals" in errors ==> errors["practiceGoals"] == NoGoalChosen
  {
    var common := CommonErrors(f);
    var password := PasswordError(f.password);
    PasswordAccepted(f.password);
    errors := if password.Some? then common["password" := password.value] else common;
    ok := |errors| == 0;
    assert ok <==> common == map[] && password.None? by {
      assert password.Some? ==> "password" in errors;
    }
  }

  // ---------------------------------------------------------------------------
  // The year select
  // ---------------------------------------------------------------------------

  /** The values of the year options this page lists (the shared
      `YEAR_OPTIONS` constant): ordinal labels, not numbers. */
  const YearOptions: seq<string> := ["1st", "2nd", "3rd", "4th+"]

  /** Each option is a label `Number` turns into `NaN`. */
  lemma YearOptionsAreLabels(opt: string)
    requires opt in YearOptions
    ensures NumberArgument(opt) && !AllDigits(opt)
  {
    assert NonNumeric(opt[|opt| - 1]) || NonNumeric(opt[|opt| - 2]);
  }

  /** The select's `onChange` as written: `updateField('year', Number(value))`. */
  function SelectYearAsWritten(opt: string): (v: JsValue)
    requires opt in YearOptions || opt == ""
    ensures opt == "" ==> v == Num(0)
    ensures opt != "" ==> v == NaN
  {
    if opt == "" then ToNumber(opt) else (YearOptionsAreLabels(opt); ToNumber(opt))
  }

  /** Whatever year is chosen, the stored value is `NaN`, so the year never
      counts towards the fold score's tech-and-year point. */
  lemma SelectYearAsWrittenLosesYear(f: FormData, opt: string)
    requires opt in YearOptions || opt == ""
    ensures !Holds(f.(year := SelectYearAsWritten(opt)), TechAndYear)
  {
  }

  /** The select's `onChange` corrected: keep the option's value, which is
      how the field is typed (`year: string`) and initialised (`''`). */
  function SelectYear(opt: string): JsValue
  {
    Str(opt)
  }

  /** With the correction, choosing a year earns the tech-and-year point
      whenever a tech interest is chosen, and the placeholder option does not. */
  lemma SelectYearKeepsYear(f: FormData, opt: string)
    requires opt in YearOptions || opt == ""
    ensures Holds(f.(year := SelectYear(opt)), TechAndYear) <==> f.techInterest != [] && opt != ""
  {
  }
}
