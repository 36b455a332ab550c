/**
 * The login form: two inputs, a map of per-input messages, the two rules of
 * `validateForm`, and the submission that signs in through the session and moves to
 * the home view once the sign-in has succeeded.
 */
module LoginPage {
  import opened Wrappers
  import opened Entities
  import opened Remote
  import opened Text
  import AuthContext
  import RegisterPage

  /** The form's inputs, by their `name` attribute. */
  datatype Field = Email | Password

  const Fields: set<Field> := {Email, Password}

  /** Where a successful sign-in leads. */
  const HomeRoute := "/"

  /** The message `validateForm` records for a field that breaks its rule. */
  function RuleMessage(field: Field): (m: string)
    ensures m != ""
  {
    match field
    case Email => "Invalid email"
    case Password => "Password is required"
  }

  /** The field's rule in `validateForm` is broken by `form`: a bad address, an empty password. */
  predicate Breaks(form: map<Field, string>, field: Field)
    requires form.Keys == Fields
  {
    match field
    case Email => !IsEmail(form[Email])
    case Password => form[Password] == ""
  }

  /** The form passes both rules of `validateForm`. */
  predicate Acceptable(form: map<Field, string>)
    requires form.Keys == Fields
  {
    IsEmail(form[Email]) && form[Password] != ""
  }

  /**
   * The messages `validateForm` collects for `form`: one per broken rule, with that
   * rule's text, and none at all exactly when the form is acceptable.
   */
  function Complaints(form: map<Field, string>): (errors: map<Field, string>)
    requires form.Keys == Fields
    ensures forall f :: f in errors <==> Breaks(form, f)
    ensures forall f | f in errors :: errors[f] == RuleMessage(f)
    ensures errors == map[] <==> Acceptable(form)
  {
    var errors := map f | f in Fields && Breaks(form, f) :: RuleMessage(f);
    assert !Acceptable(form) ==> errors != map[] by {
      if !Acceptable(form) {
        var f :| f in Fields && Breaks(form, f);
        assert f in errors;
      }
    }
    errors
  }

  /**
   * Whatever the registration form accepts, the login form accepts for the same e-mail
   * and password: the login rules never refuse credentials registration let through.
   */
  lemma RegisteredCredentialsPass(registration: map<RegisterPage.Field, string>)
    requires registration.Keys == RegisterPage.Fields
    requires RegisterPage.Acceptable(registration)
    ensures var form := map[Email := registration[RegisterPage.Email],
                            Password := registration[RegisterPage.Password]];
            form.Keys == Fields && Complaints(form) == map[]
  {
    var form := map[Email := registration[RegisterPage.Email],
                    Password := registration[RegisterPage.Password]];
    assert form.Keys == Fields;
    assert form[Password] != "" by {
      assert Utf16Length(form[Password]) >= 6;
    }
  }

  class Login {
    var form: map<Field, string>
    var errors: map<Field, string>

    predicate Valid()
      reads this
    {
      form.Keys == Fields
    }

    /** The mounted form: both fields empty and no messages. */
    constructor ()
      ensures Valid()
      ensures form == map[Email := "", Password := ""]
      ensures errors == map[]
    {
      form := map[Email := "", Password := ""];
      errors := map[];
    }

    /** `handleChange`: the named field takes the new value and its message is cleared. */
    method HandleChange(name: Field, value: string)
      requires Valid()
      modifies this
      ensures Valid()
      ensures form == old(form)[name := value]
      ensures errors == old(errors)[name := ""]
    {
      form := form[name := value];
      errors := errors[name := ""];
    }

    /** `validateForm`: records the message of every broken rule and reports whether there were none. */
    method ValidateForm() returns (ok: bool)
      requires Valid()
      modifies this`errors
      ensures errors == Complaints(form)
      ensures ok <==> Acceptable(form)
    {
      errors := Complaints(form);
      ok := errors == map[];
    }

    /**
     * `handleSubmit` given the reply to the sign-in call: an unacceptable form leaves the
     * session untouched and sends nothing; otherwise the session signs in, and the view
     * moves home exactly when that succeeded.
     */
    method HandleSubmit(session: AuthContext.Session, reply: Reply<LoginData>)
      returns (sent: Option<Request>, route: Option<string>, notice: Option<Notice>)
      requires Valid()
      modifies this`errors, session
      ensures errors == Complaints(form)
      ensures sent.Some? <==> Acceptable(form)
      ensures sent.Some? ==> sent.value == PostLogin(form[Email], form[Password])
      ensures !Acceptable(form) ==> session.State() == old(session.State())
      ensures Acceptable(form) ==>
                session.State() == AuthContext.AfterLogin(old(session.State()), reply, session.codecs)
      ensures route.Some? <==> Acceptable(form) && reply.Ok?
      ensures route.Some? ==> route.value == HomeRoute
      ensures notice.Some? <==> Acceptable(form)
      ensures notice.Some? ==> notice.value == AuthContext.LoginNotice(reply)
    {
      sent, route, notice := None, None, None;
      var ok := ValidateForm();
      if !ok {
        return;
      }
      var request, settled, n := session.Login(form[Email], form[Password], reply);
      sent, notice := Some(request), Some(n);
      if settled.Ok? {
        route := Some(HomeRoute);
      }
    }
  }
}
