/** The "Request Login Access" dialog: eight text fields checked by a zod
    schema, then one row inserted into `login_requests`. */
module RequestLogin {
  import opened Wrappers
  import opened JsStrings
  import opened Zod

  /** The eight fields, as typed or as validated. */
  datatype LoginForm = LoginForm(
    firstName: string, lastName: string, salutation: string, country: string, email: string,
    phoneNumber: string, organization: string, comments: string)

  const EmptyForm := LoginForm("", "", "", "", "", "", "", "")

  /** The row inserted into `login_requests`. */
  datatype LoginRequestInsert = LoginRequestInsert(
    firstName: string, lastName: string, salutation: Option<string>, country: string, email: string,
    phoneNumber: Option<string>, organization: Option<string>, comments: Option<string>)

  /** A required name-like field: trimmed, 1 to 100 characters. */
  function RequiredIssues(path: string, s: string, required: string): (issues: seq<Issue>)
    ensures issues == [] <==> 1 <= |s| <= 100
  {
    MinCheck(path, s, 1, required) + MaxCheck(path, s, 100, AtMost100)
  }

  function EmailIssues(s: string, isEmail: string -> bool): (issues: seq<Issue>)
    ensures issues == [] <==> isEmail(s) && |s| <= 255
  {
    EmailCheck("email", s, isEmail, "Invalid email address") + MaxCheck("email", s, 255, AtMost255)
  }

  /** The issues of the optional fields. */
  function OptionalIssues(form: LoginForm): (issues: seq<Issue>)
    ensures issues == [] <==> |Trim(form.phoneNumber)| <= 50 && |Trim(form.organization)| <= 200
                              && |Trim(form.comments)| <= 1000
  {
    MaxCheck("phoneNumber", Trim(form.phoneNumber), 50, AtMost50)
    + MaxCheck("organization", Trim(form.organization), 200, AtMost200)
    + MaxCheck("comments", Trim(form.comments), 1000, AtMost1000)
  }

  /** The schema's issues, field by field in schema order. */
  function Issues(form: LoginForm, isEmail: string -> bool): seq<Issue> {
    RequiredIssues("firstName", Trim(form.firstName), "First name is required")
    + RequiredIssues("lastName", Trim(form.lastName), "Last name is required")
    + RequiredIssues("country", Trim(form.country), "Country is required")
    + EmailIssues(Trim(form.email), isEmail)
    + OptionalIssues(form)
  }

  /** `requestLoginSchema.parse`: the trimmed values (the salutation as
      typed), or the issues. */
  function Parse(form: LoginForm, isEmail: string -> bool): Result<LoginForm, seq<Issue>> {
    var issues := Issues(form, isEmail);
    if issues != [] then Failure(issues)
    else Success(LoginForm(Trim(form.firstName), Trim(form.lastName), form.salutation, Trim(form.country),
                           Trim(form.email), Trim(form.phoneNumber), Trim(form.organization), Trim(form.comments)))
  }

  /** The bounds the schema places on the trimmed fields. */
  predicate WithinBounds(form: LoginForm, isEmail: string -> bool) {
    1 <= |Trim(form.firstName)| <= 100 && 1 <= |Trim(form.lastName)| <= 100
    && 1 <= |Trim(form.country)| <= 100
    && isEmail(Trim(form.email)) && |Trim(form.email)| <= 255
    && |Trim(form.phoneNumber)| <= 50 && |Trim(form.organization)| <= 200 && |Trim(form.comments)| <= 1000
  }

  /** The form is accepted exactly when every trimmed field is within its
      bounds; a failure always has at least one issue. */
  lemma ParseSucceedsIff(form: LoginForm, isEmail: string -> bool)
    ensures Parse(form, isEmail).Success? <==> WithinBounds(form, isEmail)
    ensures Parse(form, isEmail).Failure? ==> Parse(form, isEmail).error != []
  {
  }

  /** A blank first name is reported first, with its own message. */
  lemma BlankFirstNameReportedFirst(form: LoginForm, isEmail: string -> bool)
    requires Blank(form.firstName)
    ensures Parse(form, isEmail).Failure?
    ensures Parse(form, isEmail).error[0] == Issue("firstName", "First name is required")
  {
    TrimEmptyIffBlank(form.firstName);
  }

  /** `value || null`. */
  function OrNull(s: string): (r: Option<string>)
    ensures r.None? <==> s == []
    ensures r.Some? ==> r.value == s
  {
    if s == [] then None else Some(s)
  }

  /** The row made from the validated values: the optional fields that
      are empty become null. */
  function Insert(v: LoginForm): LoginRequestInsert {
    LoginRequestInsert(v.firstName, v.lastName, OrNull(v.salutation), v.country, v.email,
                       OrNull(v.phoneNumber), OrNull(v.organization), OrNull(v.comments))
  }

  /** The inserted row carries the trimmed values: surrounding spaces never
      reach the table, and a blank optional field is stored as null. */
  lemma InsertUsesTrimmedValues(form: LoginForm, isEmail: string -> bool)
    requires Parse(form, isEmail).Success?
    ensures var row := Insert(Parse(form, isEmail).value);
            row.firstName == Trim(form.firstName) && row.lastName == Trim(form.lastName)
            && row.country == Trim(form.country) && row.email == Trim(form.email)
            && (row.phoneNumber.None? <==> Blank(form.phoneNumber))
            && (row.organization.None? <==> Blank(form.organization))
            && (row.comments.None? <==> Blank(form.comments))
            && (row.salutation.None? <==> form.salutation == [])
  {
    TrimEmptyIffBlank(form.phoneNumber);
    TrimEmptyIffBlank(form.organization);
    TrimEmptyIffBlank(form.comments);
  }

  /** `error.message || "Failed to submit request"`. */
  function FailureText(thrown: Thrown): (m: string)
    ensures m != []
    ensures thrown.ErrorMessage? && thrown.message != [] ==> m == thrown.message
  {
    if thrown.ErrorMessage? && thrown.message != [] then thrown.message else "Failed to submit request"
  }

  class RequestLoginDialog {
    var formData: LoginForm
    var loading: bool

    constructor ()
      ensures formData == EmptyForm && !loading
    {
      formData := EmptyForm;
      loading := false;
    }

    /** `handleSubmit`. A schema failure inserts nothing and shows the first
        issue's message; an accepted form inserts one row; a successful
        insert clears the form and closes the dialog, a failed one keeps
        the form. Loading is over once the submit ends. `inserted` is the
        insert's error, `None` on success. */
    method HandleSubmit(isEmail: string -> bool, inserted: Option<Thrown>)
      returns (toast: Toast, row: Option<LoginRequestInsert>, closes: bool)
      modifies this
      ensures row.Some? <==> Parse(old(formData), isEmail).Success?
      ensures row.Some? ==> row.value == Insert(Parse(old(formData), isEmail).value)
      ensures row.None? ==> toast == Toast("Validation error", Parse(old(formData), isEmail).error[0].message, true)
      ensures closes <==> row.Some? && inserted.None?
      ensures closes ==> formData == EmptyForm && !toast.destructive
      ensures !closes ==> formData == old(formData) && toast.destructive
      ensures row.Some? && inserted.Some? ==> toast == Toast("Error", FailureText(inserted.value), true)
      ensures !loading
    {
      loading := true;
      var validated := Parse(formData, isEmail);
      if validated.Failure? {
        ParseSucceedsIff(formData, isEmail);
        toast := Toast("Validation error", validated.error[0].message, true);
        row, closes := None, false;
      } else {
        var payload := Insert(validated.value);
        row := Some(payload);
        if inserted.Some? {
          toast := Toast("Error", FailureText(inserted.value), true);
          closes := false;
        } else {
          toast := Toast("Request submitted!", "We'll review your request and get back to you soon.", false);
          formData := EmptyForm;
          closes := true;
        }
      }
      loading := false;
    }
  }
}
