/** What src/components/ChrysalisRegistrationForm.tsx adds to the shared
    form logic: a `validateForm` without a password rule, and a year select
    whose options carry numbers. */
module ChrysalisForm {
  import opened Text
  import opened FormCore

  /** `validateForm`: the shared checks only; the form is valid when no
      message was recorded. */
  method ValidateForm(f: FormData) returns (ok: bool, errors: map<string, string>)
    ensures ok <==>
      && Trim(f.name) != []
      && Includes(f.email, "@")
      && |Trim(f.introBlurb)| >= 30
      && |f.practiceGoals| >= 1
    ensures "password" !in errors
    ensures errors.Keys <= {"name", "email", "introBlurb", "practiceGoals"}
    ensures "email" in errors <==> !Includes(f.email, "@")
    ensures "email" in errors ==> errors["email"] == InvalidEmail
    ensures "name" in errors <==> Trim(f.name) == []
    ensures "introBlurb" in errors <==> |Trim(f.introBlurb)| < 30
    ensures "practiceGoals" in errors <==> |f.practiceGoals| < 1
    ensures "name" in errors ==> errors["name"] == NameRequired
    ensures "introBlurb" in errors ==> errors["introBlurb"] == ShortIntro
    ensures "practiceGoals" in errors ==> errors["practiceGoals"] == NoGoalChosen
  {
    errors := CommonErrors(f);
    ok := |errors| == 0;
    assert ok <==> errors == map[];
  }

  /** The option values of this form's year select: the numbers 1 to 4, which
      the select hands over as the strings "1" to "4". */
  const YearOptions: seq<string> := ["1", "2", "3", "4"]

  /** The select's `onChange`: `updateField('year', Number(value))`. */
  function SelectYear(opt: string): (v: JsValue)
    requires opt in YearOptions || opt == ""
    ensures opt == "" ==> v == Num(0)
    ensures forall i :: 0 <= i < |YearOptions| && opt == YearOptions[i] ==> v == Num(i + 1)
  {
    assert NumberArgument(opt);
    ToNumber(opt)
  }

  /** Choosing a year makes it truthy, so it earns the tech-and-year point
      together with a tech interest; the placeholder option does not. */
  lemma SelectYearCounts(f: FormData, opt: string)
    requires opt in YearOptions || opt == ""
    ensures Holds(f.(year := SelectYear(opt)), TechAndYear) <==> f.techInterest != [] && opt != ""
  {
    if opt != "" {
      NumberTruthy(opt);
      assert opt[0] != '0';
    }
  }
}
