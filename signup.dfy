/**
 * The sign-up page: the password-strength score and the label, colour and bar
 * drawn from it, the form's single-field change handler, and the order of the
 * submit guards.
 *
 * The form data is a record whose field is chosen by the input's `name`, so it
 * is modelled as a map from field name to value: a text value, or the checked
 * flag of a checkbox.
 */
module SignUp {
  import opened LibraryTypes
  import opened TextOps
  import opened SeqFilter

  // ---------------------------------------------------------------- strength

  predicate IsDigit(c: char) { '0' <= c <= '9' }
  predicate IsLetterOrDigit(c: char) { 'a' <= c <= 'z' || IsUpper(c) || IsDigit(c) }

  /** The four things the score counts. */
  datatype Criterion = MinLength | HasUpper | HasDigit | HasSymbol

  /** Whether a password meets a criterion: at least 8 characters, an A-Z, a 0-9, a character outside A-Za-z0-9. */
  predicate Meets(password: string, c: Criterion) {
    match c
    case MinLength => |password| >= 8
    case HasUpper => exists i | 0 <= i < |password| :: IsUpper(password[i])
    case HasDigit => exists i | 0 <= i < |password| :: IsDigit(password[i])
    case HasSymbol => exists i | 0 <= i < |password| :: !IsLetterOrDigit(password[i])
  }

  const AllCriteria: seq<Criterion> := [MinLength, HasUpper, HasDigit, HasSymbol]

  /** The strength of a password: how many of the four criteria it meets. */
  function Strength(password: string): (strength: nat)
    ensures strength <= 4
  {
    Count(AllCriteria, c => Meets(password, c))
  }

  /** `passwordStrength`: a counter bumped once for each criterion that holds. */
  method PasswordStrength(password: string) returns (strength: nat)
    ensures strength == Strength(password)
  {
    strength := 0;
    if |password| >= 8 {
      strength := strength + 1;
    }
    if exists i | 0 <= i < |password| :: IsUpper(password[i]) {
      strength := strength + 1;
    }
    if exists i | 0 <= i < |password| :: IsDigit(password[i]) {
      strength := strength + 1;
    }
    if exists i | 0 <= i < |password| :: !IsLetterOrDigit(password[i]) {
      strength := strength + 1;
    }
    assert AllCriteria[1..][1..][1..][1..] == [];
  }

  /** The empty password meets no criterion. */
  lemma EmptyPasswordIsWeakest()
    ensures Strength("") == 0
  {
    assert AllCriteria[1..][1..][1..][1..] == [];
  }

  /** Typing one more character never lowers the strength: every criterion met stays met. */
  lemma StrengthGrowsWithInput(password: string, c: char)
    ensures Strength(password) <= Strength(password + [c])
  {
    var longer := password + [c];
    assert forall i :: 0 <= i < |password| ==> longer[i] == password[i];
    CountMonotone(AllCriteria, k => Meets(password, k), k => Meets(longer, k));
  }

  // ------------------------------------------------------- label and colour

  /** `getPasswordStrengthText`. */
  function StrengthText(strength: int): (text: string)
    ensures text == "Weak" <==> strength == 0 || strength == 1
    ensures text == "Fair" <==> strength == 2
    ensures text == "Good" <==> strength == 3
    ensures text == "Strong" <==> strength == 4
    ensures text == "" <==> strength < 0 || strength > 4
  {
    match strength
    case 0 => "Weak"
    case 1 => "Weak"
    case 2 => "Fair"
    case 3 => "Good"
    case 4 => "Strong"
    case _ => ""
  }

  /** `getPasswordStrengthColor`. */
  function StrengthColor(strength: int): (cls: string)
    ensures cls == "bg-red-500" <==> strength == 0 || strength == 1
    ensures cls == "bg-yellow-500" <==> strength == 2
    ensures cls == "bg-blue-500" <==> strength == 3
    ensures cls == "bg-green-500" <==> strength == 4
    ensures cls == "bg-gray-300" <==> strength < 0 || strength > 4
  {
    match strength
    case 0 => "bg-red-500"
    case 1 => "bg-red-500"
    case 2 => "bg-yellow-500"
    case 3 => "bg-blue-500"
    case 4 => "bg-green-500"
    case _ => "bg-gray-300"
  }

  /** Every score a password can get has a label and a colour; the fallbacks are never shown. */
  lemma EveryStrengthHasLabel(password: string)
    ensures StrengthText(Strength(password)) != ""
    ensures StrengthColor(Strength(password)) != "bg-gray-300"
  {
  }

  /**
   * The four-segment bar under the password field, drawn only once the password
   * is not empty: segment `level` (1 to 4) takes the strength colour when the
   * strength reaches `level` and stays gray otherwise.
   */
  function StrengthBar(password: string): (bar: seq<string>)
    ensures password == "" ==> bar == []
  {
    if password == "" then []
    else
      var strength := Strength(password);
      seq(4, k => if strength >= k + 1 then StrengthColor(strength) else "bg-gray-300")
  }

  /**
   * A non-empty password gets four segments; segment `level` is coloured exactly
   * when the strength reaches `level`, so exactly `Strength` segments are coloured,
   * all in the colour of that strength.
   */
  lemma {:induction false} StrengthBarSpec(password: string)
    requires password != ""
    ensures var bar := StrengthBar(password);
      |bar| == 4 &&
      (forall k :: 0 <= k < 4 ==>
         (bar[k] != "bg-gray-300" <==> Strength(password) >= k + 1) &&
         (bar[k] != "bg-gray-300" ==> bar[k] == StrengthColor(Strength(password)))) &&
      Count(bar, cls => cls != "bg-gray-300") == Strength(password)
  {
    var strength := Strength(password);
    var bar := StrengthBar(password);
    EveryStrengthHasLabel(password);
    var colour := StrengthColor(strength);
    var c1 := if strength >= 1 then colour else "bg-gray-300";
    var c2 := if strength >= 2 then colour else "bg-gray-300";
    var c3 := if strength >= 3 then colour else "bg-gray-300";
    var c4 := if strength >= 4 then colour else "bg-gray-300";
    assert bar == [c1, c2, c3, c4];
    CountOfFour(c1, c2, c3, c4, cls => cls != "bg-gray-300");
  }

  /** Counting over four segments, one segment at a time. */
  lemma CountOfFour<T>(c1: T, c2: T, c3: T, c4: T, keep: T -> bool)
    ensures Count([c1, c2, c3, c4], keep) ==
      (if keep(c1) then 1 else 0) + (if keep(c2) then 1 else 0) +
      (if keep(c3) then 1 else 0) + (if keep(c4) then 1 else 0)
  {
    assert [c4][1..] == [];
    assert |Filter([c4], keep)| == (if keep(c4) then 1 else 0);
    assert [c3, c4][1..] == [c4];
    assert |Filter([c3, c4], keep)| == (if keep(c3) then 1 else 0) + |Filter([c4], keep)|;
    assert [c2, c3, c4][1..] == [c3, c4];
    assert |Filter([c2, c3, c4], keep)| == (if keep(c2) then 1 else 0) + |Filter([c3, c4], keep)|;
    assert [c1, c2, c3, c4][1..] == [c2, c3, c4];
    assert |Filter([c1, c2, c3, c4], keep)| == (if keep(c1) then 1 else 0) + |Filter([c2, c3, c4], keep)|;
  }

  // ---------------------------------------------------------------- the form

  datatype FieldValue = Text(text: string) | Flag(checked: bool)

  type FormData = map<string, FieldValue>

  /** The input that fired a change event: its name, type, text and checked state. */
  datatype ChangeEvent = ChangeEvent(name: string, value: string, inputType: string, checked: bool)

  const InitialForm: FormData := map[
    "firstName" := Text(""), "lastName" := Text(""), "email" := Text(""),
    "password" := Text(""), "confirmPassword" := Text(""), "agreeToTerms" := Flag(false)]

  function Lookup(form: FormData, field: string): Option<FieldValue> {
    if field in form then Some(form[field]) else None
  }

  /** JavaScript truthiness of a form field: a missing field, "" and an unchecked box are false. */
  predicate Truthy(v: Option<FieldValue>) {
    match v
    case None => false
    case Some(Text(s)) => s != ""
    case Some(Flag(b)) => b
  }

  /** The value a change event stores: the checked flag for a checkbox, the text otherwise. */
  function EventValue(e: ChangeEvent): FieldValue {
    if e.inputType == "checkbox" then Flag(e.checked) else Text(e.value)
  }

  /** The form after one change event: only the named field is written. */
  function ApplyChange(form: FormData, e: ChangeEvent): (after: FormData)
    ensures Lookup(after, e.name) == Some(EventValue(e))
    ensures forall f :: f != e.name ==> Lookup(after, f) == Lookup(form, f)
  {
    form[e.name := EventValue(e)]
  }

  /** The form after a series of change events, applied in order. */
  function ApplyAll(form: FormData, events: seq<ChangeEvent>): FormData {
    if events == [] then form
    else ApplyChange(ApplyAll(form, events[..|events| - 1]), events[|events| - 1])
  }

  datatype SubmitOutcome = PasswordsDontMatch | TermsNotAccepted | Accepted

  /**
   * The guards of `handleSubmit`, in order: a password that differs from its
   * confirmation is refused first, whatever the terms box says; a matching
   * submit is then refused unless the terms are accepted.
   */
  function SubmitCheck(form: FormData): (outcome: SubmitOutcome)
    ensures outcome == PasswordsDontMatch <==> Lookup(form, "password") != Lookup(form, "confirmPassword")
    ensures outcome == TermsNotAccepted <==>
      Lookup(form, "password") == Lookup(form, "confirmPassword") && !Truthy(Lookup(form, "agreeToTerms"))
    ensures outcome == Accepted <==>
      Lookup(form, "password") == Lookup(form, "confirmPassword") && Truthy(Lookup(form, "agreeToTerms"))
  {
    if Lookup(form, "password") != Lookup(form, "confirmPassword") then PasswordsDontMatch
    else if !Truthy(Lookup(form, "agreeToTerms")) then TermsNotAccepted
    else Accepted
  }

  /** The page's state: the form data and the loading flag of the submit button. */
  class SignUpPage {
    var formData: FormData
    var isLoading: bool

    constructor ()
      ensures formData == InitialForm && !isLoading
    {
      formData := InitialForm;
      isLoading := false;
    }

    /** `handleInputChange`: replaces the form with a copy in which only the named field changed. */
    method HandleInputChange(e: ChangeEvent)
      modifies this
      ensures formData == ApplyChange(old(formData), e)
      ensures Lookup(formData, e.name) == Some(EventValue(e))
      ensures forall f :: f != e.name ==> Lookup(formData, f) == Lookup(old(formData), f)
      ensures isLoading == old(isLoading)
    {
      formData := formData[e.name := EventValue(e)];
    }

    /** `handleSubmit`: the loading flag is raised only when both guards pass. */
    method HandleSubmit() returns (outcome: SubmitOutcome)
      modifies this
      ensures outcome == SubmitCheck(old(formData))
      ensures formData == old(formData)
      ensures isLoading == (outcome == Accepted || old(isLoading))
    {
      if Lookup(formData, "password") != Lookup(formData, "confirmPassword") {
        return PasswordsDontMatch;
      }
      if !Truthy(Lookup(formData, "agreeToTerms")) {
        return TermsNotAccepted;
      }
      isLoading := true;
      outcome := Accepted;
    }
  }

  // ------------------------------------------------- the rendered inputs

  /** The (name, type) pairs of the inputs the page renders; the password fields toggle between two types. */
  const RenderedInputs: set<(string, string)> := {
    ("firstName", "text"), ("lastName", "text"), ("email", "email"),
    ("password", "password"), ("password", "text"),
    ("confirmPassword", "password"), ("confirmPassword", "text")}

  /** The terms checkbox that `handleSubmit` checks for but the page does not render. */
  const TermsCheckbox: (string, string) := ("agreeToTerms", "checkbox")

  predicate FromInputs(events: seq<ChangeEvent>, inputs: set<(string, string)>) {
    forall i :: 0 <= i < |events| ==> (events[i].name, events[i].inputType) in inputs
  }

  /**
   * As written, no rendered input can change `agreeToTerms`: from the initial
   * form, whatever the user types, the terms flag stays unchecked and every
   * submit is refused.
   */
  lemma {:induction false} TermsNeverAccepted(events: seq<ChangeEvent>)
    requires FromInputs(events, RenderedInputs)
    ensures Lookup(ApplyAll(InitialForm, events), "agreeToTerms") == Some(Flag(false))
    ensures SubmitCheck(ApplyAll(InitialForm, events)) != Accepted
  {
    if events != [] {
      var prefix := events[..|events| - 1];
      assert FromInputs(prefix, RenderedInputs) by {
        forall i | 0 <= i < |prefix| ensures (prefix[i].name, prefix[i].inputType) in RenderedInputs {
          assert prefix[i] == events[i];
        }
      }
      TermsNeverAccepted(prefix);
      assert (events[|events| - 1].name, events[|events| - 1].inputType) in RenderedInputs;
    }
  }

  /**
   * With the terms checkbox rendered, ticking it makes the submit succeed exactly
   * when the two password fields agree, whatever was typed before.
   */
  lemma TermsCheckboxEnablesSubmit(events: seq<ChangeEvent>, tick: ChangeEvent)
    requires FromInputs(events, RenderedInputs + {TermsCheckbox})
    requires (tick.name, tick.inputType) == TermsCheckbox && tick.checked
    ensures var form := ApplyAll(InitialForm, events + [tick]);
      SubmitCheck(form) == Accepted <==> Lookup(form, "password") == Lookup(form, "confirmPassword")
    ensures SubmitCheck(ApplyAll(InitialForm, [tick])) == Accepted
  {
    assert (events + [tick])[..|events|] == events;
    assert [tick][..0] == [];
  }
}
