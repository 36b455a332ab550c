/**
 * The form for listing a new book: three text inputs and an image picker, the three
 * required-field rules of `validateForm`, and the multipart submission with its
 * failure message, which prefers the server's first validation message.
 */
module AddBookPage {
  import opened Wrappers
  import opened Entities
  import opened Remote
  import opened Text

  /** The form's inputs, by their `name` attribute. */
  datatype Field = Title | Author | Condition | Image

  /** The form's state: three strings and the picked file, `null` until one is picked. */
  datatype BookForm = BookForm(title: string, author: string, condition: string, image: Option<ImageFile>)

  /** The mounted form: empty title and author, condition "new", no image. */
  const Initial := BookForm("", "", "new", None)

  /** Where a listed book leads. */
  const ProfileRoute := "/profile"

  const AddedText := "Book added successfully"
  const AddFallback := "Failed to add book"

  /** The message `validateForm` records for a field that breaks its rule; the condition has none. */
  function RuleMessage(field: Field): (m: string)
    requires field != Condition
    ensures m != ""
  {
    match field
    case Title => "Title is required"
    case Author => "Author is required"
    case Image => "Image is required"
  }

  /** The field's rule in `validateForm` is broken; the condition has no rule. */
  predicate Breaks(form: BookForm, field: Field)
  {
    match field
    case Title => IsBlank(form.title)
    case Author => IsBlank(form.author)
    case Condition => false
    case Image => form.image.None?
  }

  /** The form passes every rule of `validateForm`. */
  predicate Acceptable(form: BookForm)
  {
    !IsBlank(form.title) && !IsBlank(form.author) && form.image.Some?
  }

  /**
   * The messages `validateForm` collects: one per broken rule, with its text, and none at
   * all exactly when the form is acceptable. The condition never gets one.
   */
  function Complaints(form: BookForm): (errors: map<Field, string>)
    ensures forall f :: f in errors <==> Breaks(form, f)
    ensures forall f | f in errors :: f != Condition && errors[f] == RuleMessage(f)
    ensures errors == map[] <==> Acceptable(form)
  {
    var errors := map f | f in {Title, Author, Image} && Breaks(form, f) && f != Condition :: RuleMessage(f);
    assert !Acceptable(form) ==> errors != map[] by {
      if IsBlank(form.title) {
        assert Title in errors;
      } else if IsBlank(form.author) {
        assert Author in errors;
      } else if form.image.None? {
        assert Image in errors;
      }
    }
    errors
  }

  /** The first entry of a file list, `files[0]`, which is `undefined` for an empty list. */
  function FirstFile(files: seq<ImageFile>): (image: Option<ImageFile>)
    ensures image.None? <==> |files| == 0
    ensures image.Some? ==> image.value == files[0]
  {
    if |files| == 0 then None else Some(files[0])
  }

  /**
   * The toast of a failed listing: the first `errors[].msg` if it is a non-empty string,
   * else the server's `error`, else "Failed to add book".
   */
  function AddBookFailureText(e: ErrorBody): (r: string)
    ensures Truthy(FirstIssue(e)) ==> r == FirstIssue(e).value
    ensures !Truthy(FirstIssue(e)) && Truthy(e.error) ==> r == e.error.value
    ensures !Truthy(FirstIssue(e)) && !Truthy(e.error) ==> r == AddFallback
    ensures r != ""
  {
    OrElse(FirstIssue(e), OrElse(e.error, AddFallback))
  }

  /** The server's own error is shown only when there is no validation message to show. */
  lemma IssueTakesPrecedence(e: ErrorBody)
    requires |e.issues| > 0 && Truthy(e.issues[0])
    ensures AddBookFailureText(e) == e.issues[0].value
    ensures Truthy(e.error) && e.error.value != e.issues[0].value ==> AddBookFailureText(e) != e.error.value
  {
  }

  /** The freshly mounted form is refused with the title, author and image messages. */
  lemma InitialFormRefused()
    ensures Complaints(Initial) ==
              map[Title := RuleMessage(Title), Author := RuleMessage(Author), Image := RuleMessage(Image)]
  {
    var expected := map[Title := RuleMessage(Title), Author := RuleMessage(Author), Image := RuleMessage(Image)];
    assert IsBlank(Initial.title) && IsBlank(Initial.author);
    assert forall f :: f in Complaints(Initial) <==> f in expected;
  }

  class AddBook {
    var form: BookForm
    var errors: map<Field, string>

    constructor ()
      ensures form == Initial
      ensures errors == map[]
    {
      form := Initial;
      errors := map[];
    }

    /**
     * `handleChange`: the file input (the only one with a file list) stores its first
     * file; every other input stores its value. Only that field's message is cleared.
     */
    method HandleChange(name: Field, value: string, files: Option<seq<ImageFile>>)
      requires files.Some? <==> name == Image
      modifies this
      ensures name == Title ==> form == old(form).(title := value)
      ensures name == Author ==> form == old(form).(author := value)
      ensures name == Condition ==> form == old(form).(condition := value)
      ensures name == Image ==> form == old(form).(image := FirstFile(files.value))
      ensures errors == old(errors)[name := ""]
    {
      match name {
        case Title => form := form.(title := value);
        case Author => form := form.(author := value);
        case Condition => form := form.(condition := value);
        case Image => form := form.(image := FirstFile(files.value));
      }
      errors := errors[name := ""];
    }

    /** `validateForm`: records the message of every broken rule and reports whether there were none. */
    method ValidateForm() returns (ok: bool)
      modifies this`errors
      ensures errors == Complaints(form)
      ensures ok <==> Acceptable(form)
    {
      errors := Complaints(form);
      ok := errors == map[];
    }

    /**
     * `handleSubmit` given the reply to the upload: nothing is sent unless the form is
     * acceptable; the upload carries the form's four fields, and the view moves to the
     * profile exactly when the upload succeeded.
     */
    method HandleSubmit(reply: Reply<()>)
      returns (sent: Option<Request>, route: Option<string>, notice: Option<Notice>)
      modifies this`errors
      ensures errors == Complaints(form)
      ensures sent.Some? <==> Acceptable(form)
      ensures sent.Some? ==>
                sent.value == PostBook(form.title, form.author, form.condition, form.image.value)
      ensures route.Some? <==> Acceptable(form) && reply.Ok?
      ensures route.Some? ==> route.value == ProfileRoute
      ensures notice.Some? <==> Acceptable(form)
      ensures notice.Some? && reply.Ok? ==> notice.value == Success(AddedText)
      ensures notice.Some? && reply.Err? ==> notice.value == Failure(AddBookFailureText(reply.failure))
    {
      sent, route, notice := None, None, None;
      var ok := ValidateForm();
      if !ok {
        return;
      }
      sent := Some(PostBook(form.title, form.author, form.condition, form.image.value));
      match reply {
        case Ok(_) =>
          notice := Some(Success(AddedText));
          route := Some(ProfileRoute);
        case Err(e) =>
          notice := Some(Failure(AddBookFailureText(e)));
      }
    }
  }
}
