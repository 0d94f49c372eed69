/** The form logic the two registration components share word for word
    (src/components/pages/RegistrationPage.tsx and
    src/components/ChrysalisRegistrationForm.tsx): the form record, the
    butterfly fold score, field updates, the practice-goal list operations,
    the common part of validation, the theme lookup and the social icons. */
module FormCore {
  import opened Util
  import opened Text

  /** The JavaScript values a form field can hold: the text of an input,
      the result of `Number(...)` on a select's value, or a checkbox's
      `checked` flag. */
  datatype JsValue = Str(s: string) | Num(n: int) | NaN | Bool(b: bool)

  /** JavaScript truthiness of such a value. */
  predicate Truthy(v: JsValue)
  {
    match v
    case Str(s) => s != []
    case Num(n) => n != 0
    case NaN => false
    case Bool(b) => b
  }

  predicate IsDigit(c: char)
  {
    '0' <= c <= '9'
  }

  predicate AllDigits(s: string)
  {
    forall i :: 0 <= i < |s| ==> IsDigit(s[i])
  }

  /** The value of a decimal numeral; the empty numeral is 0. */
  function DigitsValue(s: string): nat
    requires AllDigits(s)
  {
    if s == [] then 0 else 10 * DigitsValue(s[..|s| - 1]) + (s[|s| - 1] as int - '0' as int)
  }

  /** A letter that no numeric literal `Number` accepts can contain (decimal
      exponents use `e`, hexadecimal digits `a`-`f`, radix prefixes `b`, `o`, `x`). */
  predicate NonNumeric(c: char)
  {
    && ('a' <= c <= 'z' || 'A' <= c <= 'Z')
    && !('a' <= c <= 'f' || 'A' <= c <= 'F')
    && c !in {'b', 'B', 'o', 'O', 'x', 'X'}
  }

  /** The option values a select hands to `Number`: empty, a decimal numeral,
      or a label that starts with a digit and holds a letter no numeral has. */
  predicate NumberArgument(s: string)
  {
    || AllDigits(s)
    || (s != [] && IsDigit(s[0]) && exists i :: 0 <= i < |s| && NonNumeric(s[i]))
  }

  /** `Number(s)` on those strings. */
  function ToNumber(s: string): (v: JsValue)
    requires NumberArgument(s)
    ensures v.Num? <==> AllDigits(s)
    ensures v.NaN? <==> !AllDigits(s)
    ensures v == Num(0) <== s == []
  {
    if AllDigits(s) then Num(DigitsValue(s)) else NaN
  }

  /** A numeral's value is zero exactly when all its digits are `0`. */
  lemma {:induction false} DigitsValueZero(s: string)
    requires AllDigits(s)
    ensures DigitsValue(s) == 0 <==> forall i :: 0 <= i < |s| ==> s[i] == '0'
  {
    if s != [] {
      var p := s[..|s| - 1];
      assert AllDigits(p);
      DigitsValueZero(p);
      assert forall i :: 0 <= i < |p| ==> p[i] == s[i];
    }
  }

  /** What a select stores is truthy exactly when the option is a numeral
      with a non-zero digit: the empty "choose" option and every label-like
      value are falsy. */
  lemma NumberTruthy(s: string)
    requires NumberArgument(s)
    ensures Truthy(ToNumber(s)) <==> AllDigits(s) && exists i :: 0 <= i < |s| && s[i] != '0'
  {
    if AllDigits(s) {
      DigitsValueZero(s);
    }
  }

  datatype Socials = Socials(linkedin: string, instagram: string, discord: string, twitter: string)

  /** The form state; the year holds whatever the year select stored. */
  datatype FormData = FormData(
    name: string,
    email: string,
    password: string,
    university: string,
    year: JsValue,
    techInterest: string,
    introBlurb: string,
    practiceGoals: seq<string>,
    butterflyTheme: string,
    socials: Socials,
    shareSocialsAfterSession: bool)

  /** The initial state of both forms; ChrysalisRegistrationForm.tsx has no
      password field, and its `password` here stays empty and unused. */
  const InitialForm: FormData := FormData("", "", "", "", Str(""), "", "", [], "Sunset",
                                          Socials("", "", "", ""), false)

  // ---------------------------------------------------------------------------
  // The fold score
  // ---------------------------------------------------------------------------

  /** The five conditions that each unfold the butterfly one step. */
  datatype FoldPoint = NameAndEmail | TechAndYear | TwoGoals | LongBlurb | SocialsGiven

  /** `Object.values(socials).filter(Boolean).length` */
  function SocialsProvided(s: Socials): (n: nat)
    ensures n <= 4
    ensures n == 0 <==> s.linkedin == [] && s.instagram == [] && s.discord == [] && s.twitter == []
  {
    (if s.linkedin != [] then 1 else 0) + (if s.instagram != [] then 1 else 0)
      + (if s.discord != [] then 1 else 0) + (if s.twitter != [] then 1 else 0)
  }

  predicate Holds(f: FormData, p: FoldPoint)
  {
    match p
    case NameAndEmail => f.name != [] && f.email != []
    case TechAndYear => f.techInterest != [] && Truthy(f.year)
    case TwoGoals => |f.practiceGoals| >= 2
    case LongBlurb => |Trim(f.introBlurb)| > 30
    case SocialsGiven => SocialsProvided(f.socials) > 0
  }

  function Indicator(b: bool): nat
  {
    if b then 1 else 0
  }

  /** The number of conditions a form meets. */
  function Points(f: FormData): (n: nat)
    ensures n <= 5
  {
    Indicator(Holds(f, NameAndEmail)) + Indicator(Holds(f, TechAndYear)) + Indicator(Holds(f, TwoGoals))
      + Indicator(Holds(f, LongBlurb)) + Indicator(Holds(f, SocialsGiven))
  }

  /** The butterfly is complete exactly when every condition is met, and
      folded shut exactly when none is. */
  lemma PointsExtremes(f: FormData)
    ensures Points(f) == 5 <==> forall p :: Holds(f, p)
    ensures Points(f) == 0 <==> forall p :: !Holds(f, p)
  {
    if Points(f) != 5 {
      assert !Holds(f, NameAndEmail) || !Holds(f, TechAndYear) || !Holds(f, TwoGoals)
        || !Holds(f, LongBlurb) || !Holds(f, SocialsGiven);
    }
    if Points(f) != 0 {
      assert Holds(f, NameAndEmail) || Holds(f, TechAndYear) || Holds(f, TwoGoals)
        || Holds(f, LongBlurb) || Holds(f, SocialsGiven);
    }
  }

  /** `foldScore`: one, plus one for each condition met. */
  method FoldScore(f: FormData) returns (score: int)
    ensures score == 1 + Points(f)
    ensures 1 <= score <= 6
  {
    score := 1;
    if f.name != [] && f.email != [] {
      score := score + 1;
    }
    if f.techInterest != [] && Truthy(f.year) {
      score := score + 1;
    }
    if |f.practiceGoals| >= 2 {
      score := score + 1;
    }
    if |Trim(f.introBlurb)| > 30 {
      score := score + 1;
    }
    var socialsProvided := SocialsProvided(f.socials);
    if socialsProvided > 0 {
      score := score + 1;
    }
    score := if 6 <= score then 6 else score;
  }

  /** An intro of exactly 30 characters passes validation (the check is
      `< 30`) yet earns no fold point (the check is `> 30`). */
  lemma BlurbOfThirty(f: FormData)
    requires |Trim(f.introBlurb)| == 30
    ensures !Holds(f, LongBlurb)
    ensures !(|Trim(f.introBlurb)| < 30)
  {
  }

  // ---------------------------------------------------------------------------
  // Field updates
  // ---------------------------------------------------------------------------

  /** The fields `updateField` is called with. */
  datatype Field =
    | Name | Email | Password | University | Year | TechInterest | IntroBlurb | ButterflyTheme
    | ShareSocialsAfterSession

  /** The error key of a field: its property name. */
  function Key(field: Field): string
  {
    match field
    case Name => "name"
    case Email => "email"
    case Password => "password"
    case University => "university"
    case Year => "year"
    case TechInterest => "techInterest"
    case IntroBlurb => "introBlurb"
    case ButterflyTheme => "butterflyTheme"
    case ShareSocialsAfterSession => "shareSocialsAfterSession"
  }

  function Get(d: FormData, field: Field): JsValue
  {
    match field
    case Name => Str(d.name)
    case Email => Str(d.email)
    case Password => Str(d.password)
    case University => Str(d.university)
    case Year => d.year
    case TechInterest => Str(d.techInterest)
    case IntroBlurb => Str(d.introBlurb)
    case ButterflyTheme => Str(d.butterflyTheme)
    case ShareSocialsAfterSession => Bool(d.shareSocialsAfterSession)
  }

  /** The checkbox stores its `checked` flag, the year select a string or
      the result of `Number`, every other input its text. */
  predicate Fits(field: Field, v: JsValue)
  {
    match field
    case ShareSocialsAfterSession => v.Bool?
    case Year => !v.Bool?
    case _ => v.Str?
  }

  /** The form data and its error messages. */
  datatype Form = Form(data: FormData, errors: map<string, string>)

  /** An error is shown for a key when it is set and not empty. */
  predicate Shown(errors: map<string, string>, key: string)
  {
    key in errors && errors[key] != ""
  }

  /** `updateField(name, value)`: set the field, and blank its error message
      when one is shown. */
  function UpdateField(form: Form, field: Field, v: JsValue): (r: Form)
    requires Fits(field, v)
    ensures Get(r.data, field) == v
    ensures forall g :: g != field ==> Get(r.data, g) == Get(form.data, g)
    ensures r.data.practiceGoals == form.data.practiceGoals && r.data.socials == form.data.socials
    ensures !Shown(r.errors, Key(field))
    ensures Key(field) in r.errors <==> Key(field) in form.errors
    ensures forall k :: k != Key(field) ==> (k in r.errors <==> k in form.errors)
    ensures forall k :: k != Key(field) && k in r.errors ==> r.errors[k] == form.errors[k]
  {
    var d := form.data;
    var s := if v.Str? then v.s else "";
    var d' := match field
      case Name => d.(name := s)
      case Email => d.(email := s)
      case Password => d.(password := s)
      case University => d.(university := s)
      case Year => d.(year := v)
      case TechInterest => d.(techInterest := s)
      case IntroBlurb => d.(introBlurb := s)
      case ButterflyTheme => d.(butterflyTheme := s)
      case ShareSocialsAfterSession => d.(shareSocialsAfterSession := v.Bool? && v.b);
    var key := Key(field);
    Form(d', if Shown(form.errors, key) then form.errors[key := ""] else form.errors)
  }

  /** Typing the same value twice has the effect of typing it once. */
  lemma UpdateFieldIdempotent(form: Form, field: Field, v: JsValue)
    requires Fits(field, v)
    ensures UpdateField(UpdateField(form, field, v), field, v) == UpdateField(form, field, v)
  {
    var r := UpdateField(form, field, v);
    var r2 := UpdateField(r, field, v);
    assert r2.errors == r.errors;
    match field
    case Year => assert r2.data == r.data;
    case _ => assert r2.data == r.data;
  }

  // ---------------------------------------------------------------------------
  // The practice-goal list
  // ---------------------------------------------------------------------------

  /** `addPracticeGoal(g)`: append `g` unless it is already chosen. */
  function AddPracticeGoal(goals: seq<string>, g: string): (r: seq<string>)
    ensures g in goals ==> r == goals
    ensures g !in goals ==> r == goals + [g]
    ensures NoDups(goals) ==> NoDups(r)
  {
    if g in goals then goals else goals + [g]
  }

  /** `removePracticeGoal(g)`: `goals.filter(id => id !== g)`. */
  function RemovePracticeGoal(goals: seq<string>, g: string): seq<string>
  {
    if goals == [] then []
    else if goals[0] == g then RemovePracticeGoal(goals[1..], g)
    else [goals[0]] + RemovePracticeGoal(goals[1..], g)
  }

  /** Removing a goal drops every occurrence of it and keeps the rest in order. */
  lemma {:induction false} RemoveKeeps(goals: seq<string>, g: string)
    ensures forall x :: x in RemovePracticeGoal(goals, g) <==> x in goals && x != g
    ensures IsSubsequence(RemovePracticeGoal(goals, g), goals)
  {
    if goals != [] {
      RemoveKeeps(goals[1..], g);
      assert goals == [goals[0]] + goals[1..];
      var r := RemovePracticeGoal(goals[1..], g);
      if goals[0] == g {
        SubsequencePrepend(r, goals[1..], goals[0]);
      } else {
        assert ([goals[0]] + r)[1..] == r;
      }
    }
  }

  /** Removing an absent goal changes nothing. */
  lemma {:induction false} RemoveAbsent(goals: seq<string>, g: string)
    requires g !in goals
    ensures RemovePracticeGoal(goals, g) == goals
  {
    if goals != [] {
      assert g !in goals[1..];
      RemoveAbsent(goals[1..], g);
      assert [goals[0]] + goals[1..] == goals;
    }
  }

  /** Removing a goal just added gives the list back. */
  lemma RemoveUndoesAdd(goals: seq<string>, g: string)
    requires g !in goals
    ensures RemovePracticeGoal(AddPracticeGoal(goals, g), g) == goals
  {
    AppendRemove(goals, g);
  }

  lemma {:induction false} AppendRemove(goals: seq<string>, g: string)
    requires g !in goals
    ensures RemovePracticeGoal(goals + [g], g) == goals
  {
    if goals == [] {
      assert [g][1..] == [];
    } else {
      assert (goals + [g])[1..] == goals[1..] + [g];
      assert g !in goals[1..];
      AppendRemove(goals[1..], g);
      assert [goals[0]] + goals[1..] == goals;
    }
  }

  /** `onDragEnd` on a drop at `j` of the goal picked up at `i`: the goal is
      taken out and inserted again at `j`. */
  function Move(s: seq<string>, i: int, j: int): seq<string>
    requires 0 <= i < |s| && 0 <= j < |s|
  {
    var t := s[..i] + s[i + 1..];
    t[..j] + [s[i]] + t[j..]
  }

  /** A drop reorders the goals without losing or adding any, and puts the
      dragged goal where it was dropped. */
  lemma MovePermutes(s: seq<string>, i: int, j: int)
    requires 0 <= i < |s| && 0 <= j < |s|
    ensures |Move(s, i, j)| == |s|
    ensures multiset(Move(s, i, j)) == multiset(s)
    ensures Move(s, i, j)[j] == s[i]
  {
    var t := s[..i] + s[i + 1..];
    assert s == s[..i] + [s[i]] + s[i + 1..];
    assert t == t[..j] + t[j..];
    calc {
      multiset(Move(s, i, j));
      multiset(t[..j]) + multiset{s[i]} + multiset(t[j..]);
      multiset(t) + multiset{s[i]};
      multiset(s[..i]) + multiset(s[i + 1..]) + multiset{s[i]};
      multiset(s);
    }
  }

  /** Dragging the goal back to where it came from restores the list. */
  lemma MoveBack(s: seq<string>, i: int, j: int)
    requires 0 <= i < |s| && 0 <= j < |s|
    ensures Move(Move(s, i, j), j, i) == s
  {
    var t := s[..i] + s[i + 1..];
    var r := Move(s, i, j);
    assert r[..j] + r[j + 1..] == t by {
      assert r[..j] == t[..j];
      assert r[j + 1..] == t[j..];
    }
    assert t[..i] == s[..i];
    assert t[i..] == s[i + 1..];
    assert t[..i] + [s[i]] + t[i..] == s;
  }

  /** `items.splice(src, 1)` on the array's contents: the elements after the
      source index move down one place, leaving the last slot stale. */
  method SpliceOut<T>(a: array<T>, src: int)
    requires 0 <= src < a.Length
    modifies a
    ensures a[..a.Length - 1] == old(a[..src]) + old(a[src + 1..])
  {
    ghost var s := a[..];
    var k := src;
    while k < a.Length - 1
      invariant src <= k <= a.Length - 1
      invariant a[..k] == s[..src] + s[src + 1..k + 1]
      invariant a[k..] == s[k..]
    {
      a[k] := a[k + 1];
      k := k + 1;
    }
    assert a[..a.Length - 1] == a[..k];
  }

  /** `items.splice(d, 0, x)` on contents held in all but the last slot: the
      elements from `d` on move up one place and `x` goes in at `d`. */
  method SpliceIn<T>(a: array<T>, d: int, x: T)
    requires 0 <= d < a.Length
    modifies a
    ensures a[..] == old(a[..d]) + [x] + old(a[d..a.Length - 1])
  {
    ghost var s := a[..a.Length - 1];
    var k := a.Length - 1;
    while k > d
      invariant d <= k <= a.Length - 1
      invariant a[..k] == s[..k]
      invariant a[k + 1..] == s[k..]
    {
      a[k] := a[k - 1];
      assert a[k..] == [s[k - 1]] + s[k..];
      assert s[k - 1..] == [s[k - 1]] + s[k..];
      k := k - 1;
    }
    a[d] := x;
    assert a[..] == a[..d] + [x] + a[d + 1..];
  }

  /** `onDragEnd`: without a destination the list stays; otherwise a copy is
      made and spliced in place, the picked goal cut out at the source index
      and inserted at the destination index. */
  method OnDragEnd(goals: seq<string>, src: int, dst: Option<int>) returns (items: seq<string>)
    requires dst.Some? ==> 0 <= src < |goals| && 0 <= dst.value < |goals|
    ensures dst.None? ==> items == goals
    ensures dst.Some? ==> items == Move(goals, src, dst.value)
  {
    if dst.None? {
      return goals;
    }
    var a := new string[|goals|](k requires 0 <= k < |goals| => goals[k]);
    assert a[..] == goals;
    var reordered := a[src];
    SpliceOut(a, src);
    ghost var t := a[..a.Length - 1];
    SpliceIn(a, dst.value, reordered);
    assert t[..dst.value] + t[dst.value..] == t;
    items := a[..];
  }

  // ---------------------------------------------------------------------------
  // Validation shared by both forms
  // ---------------------------------------------------------------------------

  /** A string of white space holds no `@`. */
  lemma {:induction false} NoAtInWhitespace(s: string)
    requires AllWhitespace(s)
    ensures !Includes(s, "@")
  {
    IncludesAt(s, "@");
    forall i | 0 <= i < |s| ensures !OccursAt(s, "@", i) {
      assert IsWhitespace(s[i]);
      assert s[i..i + 1][0] == s[i];
    }
  }

  /** The messages of the shared checks. */
  const NameRequired: string := "Name is required"
  const EmailRequired: string := "Email is required"
  const InvalidEmail: string := "Please enter a valid email"
  const ShortIntro: string := "Please write at least 30 characters about yourself"
  const NoGoalChosen: string := "Please select at least one practice goal"

  /** The name, email, intro and goal checks of `validateForm`, building the
      error record one field at a time. */
  method CommonErrors(f: FormData) returns (errors: map<string, string>)
    ensures errors.Keys <= {"name", "email", "introBlurb", "practiceGoals"}
    ensures errors == map[] <==>
      Trim(f.name) != [] && Includes(f.email, "@") && |Trim(f.introBlurb)| >= 30 && |f.practiceGoals| >= 1
    ensures "name" in errors <==> Trim(f.name) == []
    ensures "email" in errors <==> !Includes(f.email, "@")
    ensures "introBlurb" in errors <==> |Trim(f.introBlurb)| < 30
    ensures "practiceGoals" in errors <==> |f.practiceGoals| < 1
    ensures "name" in errors ==> errors["name"] == NameRequired
    ensures "email" in errors ==> errors["email"] == InvalidEmail
    ensures "introBlurb" in errors ==> errors["introBlurb"] == ShortIntro
    ensures "practiceGoals" in errors ==> errors["practiceGoals"] == NoGoalChosen
  {
    var nameBlank := Trim(f.name) == [];
    var emailBlank := Trim(f.email) == [];
    var noAt := !Includes(f.email, "@");
    var shortBlurb := |Trim(f.introBlurb)| < 30;
    var noGoals := |f.practiceGoals| < 1;
    if emailBlank {
      TrimFacts(f.email);
      NoAtInWhitespace(f.email);
    }
    errors := map[];
    if nameBlank {
      errors := errors["name" := NameRequired];
    }
    if emailBlank {
      errors := errors["email" := EmailRequired];
    }
    if noAt {
      errors := errors["email" := InvalidEmail];
    }
    if shortBlurb {
      errors := errors["introBlurb" := ShortIntro];
    }
    if noGoals {
      errors := errors["practiceGoals" := NoGoalChosen];
    }
    assert errors == map[] <==> !nameBlank && !noAt && !shortBlurb && !noGoals by {
      if nameBlank { assert "name" in errors; }
      if noAt { assert "email" in errors; }
      if shortBlurb { assert "introBlurb" in errors; }
      if noGoals { assert "practiceGoals" in errors; }
    }
  }

  // ---------------------------------------------------------------------------
  // Themes and social icons
  // ---------------------------------------------------------------------------

  datatype Theme = Theme(name: string, colors: seq<string>)

  const Themes: seq<Theme> := [
    Theme("Sunset", ["#FEF3C7", "#FBBF24", "#F59E0B", "#D97706", "#B45309", "#92400E"]),
    Theme("Ocean", ["#DBEAFE", "#93C5FD", "#60A5FA", "#3B82F6", "#2563EB", "#1D4ED8"]),
    Theme("Forest", ["#D1FAE5", "#6EE7B7", "#34D399", "#10B981", "#059669", "#047857"]),
    Theme("Rose", ["#FCE7F3", "#F9A8D4", "#F472B6", "#EC4899", "#DB2777", "#BE185D"]),
    Theme("Lavender", ["#F3E8FF", "#C4B5FD", "#A78BFA", "#8B5CF6", "#7C3AED", "#6D28D9"]),
    Theme("Coral", ["#FEF2F2", "#FECACA", "#FCA5A5", "#F87171", "#EF4444", "#DC2626"])
  ]

  /** The position `themes.find(theme => theme.name === name)` stops at. */
  function FindTheme(ts: seq<Theme>, name: string): (r: Option<nat>)
    ensures r.None? <==> forall i :: 0 <= i < |ts| ==> ts[i].name != name
    ensures r.Some? ==>
      && r.value < |ts| && ts[r.value].name == name
      && forall j :: 0 <= j < r.value ==> ts[j].name != name
  {
    if ts == [] then None
    else if ts[0].name == name then Some(0)
    else
      match FindTheme(ts[1..], name)
      case None => None
      case Some(i) => Some(i + 1)
  }

  /** Every theme has six colours, and no two themes share a name (their
      names already differ in the first letter). */
  lemma ThemesWellFormed()
    ensures forall i :: 0 <= i < |Themes| ==> |Themes[i].colors| == 6
    ensures forall i, j :: 0 <= i < j < |Themes| ==> Themes[i].name != Themes[j].name
  {
    var initials := "SOFRLC";
    assert forall i :: 0 <= i < |Themes| ==> Themes[i].name[0] == initials[i];
  }

  /** The colours of the chosen theme, or of the first theme for an unknown
      name. */
  function ThemeColors(name: string): (colors: seq<string>)
    ensures forall i :: 0 <= i < |Themes| && Themes[i].name == name ==> colors == Themes[i].colors
    ensures (forall i :: 0 <= i < |Themes| ==> Themes[i].name != name) ==> colors == Themes[0].colors
    ensures |colors| == 6
  {
    ThemesWellFormed();
    match FindTheme(Themes, name)
    case Some(i) => Themes[i].colors
    case None => Themes[0].colors
  }

  /** `getSocialIcon(platform)` for platform names that are not properties
      inherited from `Object.prototype`. */
  function SocialIcon(platform: string): (icon: string)
    ensures platform !in {"linkedin", "instagram", "discord", "twitter"} ==> icon == "🔗"
    ensures platform == "linkedin" ==> icon == "💼"
    ensures platform == "instagram" ==> icon == "📸"
    ensures platform == "discord" ==> icon == "🎮"
    ensures platform == "twitter" ==> icon == "🐦"
  {
    if platform == "linkedin" then "💼"
    else if platform == "instagram" then "📸"
    else if platform == "discord" then "🎮"
    else if platform == "twitter" then "🐦"
    else "🔗"
  }
}
