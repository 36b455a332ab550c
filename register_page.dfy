/**
 * The registration form: six text inputs, a map of per-input messages, the rules
 * `validateForm` applies, and the submission that sends the form without its
 * confirmation field and moves on to the login view once registration resolves.
 */
module RegisterPage {
  import opened Wrappers
  import opened Entities
  import opened Remote
  import opened Text
  import AuthContext

  /** The form's inputs, by their `name` attribute. */
  datatype Field = FirstName | LastName | Email | Phone | Password | ConfirmPassword

  const Fields: set<Field> := {FirstName, LastName, Email, Phone, Password, ConfirmPassword}

  /** Where a successful registration leads. */
  const LoginRoute := "/login"

  /** The message `validateForm` records for a field that breaks its rule. */
  function RuleMessage(field: Field): (m: string)
    ensures m != ""
  {
    match field
    case FirstName => "First name is required"
    case LastName => "Last name is required"
    case Email => "Invalid email"
    case Phone => "Invalid phone number"
    case Password => "Password must be at least 6 characters"
    case ConfirmPassword => "Passwords do not match"
  }

  /** `formData.password.length < 6`, with JavaScript's UTF-16 length. */
  predicate TooShort(password: string)
  {
    Utf16Length(password) < 6
  }

  /** The form passes every rule of `validateForm`. */
  predicate Acceptable(form: map<Field, string>)
    requires form.Keys == Fields
  {
    && !IsBlank(form[FirstName])
    && !IsBlank(form[LastName])
    && IsEmail(form[Email])
    && IsPhone(form[Phone])
    && !TooShort(form[Password])
    && form[Password] == form[ConfirmPassword]
  }

  /** The body of `POST /auth/register`: the form without `confirmPassword`. */
  function Payload(form: map<Field, string>): (userData: RegisterData)
    requires form.Keys == Fields
    ensures userData.firstName == form[FirstName] && userData.lastName == form[LastName]
    ensures userData.email == form[Email] && userData.phone == form[Phone]
    ensures userData.password == form[Password]
  {
    RegisterData(form[FirstName], form[LastName], form[Email], form[Phone], form[Password])
  }

  /** The field's rule in `validateForm` is broken by `form`. */
  predicate Breaks(form: map<Field, string>, field: Field)
    requires form.Keys == Fields
  {
    match field
    case FirstName => IsBlank(form[FirstName])
    case LastName => IsBlank(form[LastName])
    case Email => !IsEmail(form[Email])
    case Phone => !IsPhone(form[Phone])
    case Password => TooShort(form[Password])
    case ConfirmPassword => form[Password] != form[ConfirmPassword]
  }

  /**
   * The messages `validateForm` collects for `form`: one, with the field's own text, for
   * each broken rule and none for a field that keeps its rule; there are none at all
   * exactly when the form is acceptable.
   */
  function Complaints(form: map<Field, string>): (errors: map<Field, string>)
    requires form.Keys == Fields
    ensures forall f :: f in errors <==> Breaks(form, f)
    ensures forall f | f in errors :: errors[f] == RuleMessage(f)
    ensures errors == map[] <==> Acceptable(form)
  {
    var errors := map f | f in Fields && Breaks(form, f) :: RuleMessage(f);
    assert !Acceptable(form) ==> errors != map[] by {
      if !Acceptable(form) {
        var f :| f in Fields && Breaks(form, f);
        assert f in errors;
      }
    }
    errors
  }

  /**
   * An acceptable form holds an e-mail address and a phone number in the exact sense of
   * the two regular expressions, and a password of at least six UTF-16 code units.
   */
  lemma AcceptableMatchesPatterns(form: map<Field, string>)
    requires form.Keys == Fields
    requires Acceptable(form)
    ensures MatchesEmailPattern(form[Email]) && MatchesPhonePattern(form[Phone])
    ensures Utf16Length(form[ConfirmPassword]) >= 6
  {
    EmailRuleIsPattern(form[Email]);
    PhoneRuleIsPattern(form[Phone]);
  }

  class Register {
    var form: map<Field, string>
    var errors: map<Field, string>

    predicate Valid()
      reads this
    {
      form.Keys == Fields
    }

    /** The mounted form: every field empty and no messages. */
    constructor ()
      ensures Valid()
      ensures forall f | f in Fields :: form[f] == ""
      ensures errors == map[]
    {
      form := map[FirstName := "", LastName := "", Email := "", Phone := "",
                  Password := "", ConfirmPassword := ""];
      errors := map[];
    }

    /** `handleChange`: the named field takes the new value and its message is cleared. */
    method HandleChange(name: Field, value: string)
      requires Valid()
      modifies this
      ensures Valid()
      ensures form == old(form)[name := value]
      ensures errors == old(errors)[name := ""]
    {
      form := form[name := value];
      errors := errors[name := ""];
    }

    /**
     * `validateForm`: records the message of every broken rule, and nothing else, and
     * reports whether there were none.
     */
    method ValidateForm() returns (ok: bool)
      requires Valid()
      modifies this`errors
      ensures errors == Complaints(form)
      ensures ok <==> Acceptable(form)
    {
      errors := Complaints(form);
      ok := errors == map[];
    }

    /**
     * `handleSubmit` given the reply to the registration call: nothing is sent unless
     * the form is acceptable, and the view moves to the login route only once
     * registration has resolved.
     */
    method HandleSubmit(session: AuthContext.Session, reply: Reply<()>)
      returns (sent: Option<Request>, route: Option<string>, notice: Option<Notice>)
      requires Valid()
      modifies this`errors
      ensures sent.Some? <==> Acceptable(form)
      ensures sent.Some? ==> sent.value == PostRegister(Payload(form))
      ensures route.Some? <==> Acceptable(form) && reply.Ok?
      ensures route.Some? ==> route.value == LoginRoute
      ensures notice.Some? <==> Acceptable(form)
      ensures notice.Some? ==> notice.value == AuthContext.RegisterNotice(reply)
      ensures errors == Complaints(form)
      ensures errors == map[] <==> Acceptable(form)
    {
      sent, route, notice := None, None, None;
      var ok := ValidateForm();
      if !ok {
        return;
      }
      var request, settled, n := session.Register(Payload(form), reply);
      sent, notice := Some(request), Some(n);
      if settled.Ok? {
        route := Some(LoginRoute);
      }
    }
  }
}
