/** The "Submit Image" dialog: a picture file, a comment, the submitter's
    name and email and a notification check box, with one error message
    per field. */
module SubmitImage {
  import opened Wrappers
  import opened JsStrings

  /** A picked file, as far as the dialog looks at it. */
  datatype PickedFile = PickedFile(name: string, mimeType: string)

  /** The error messages shown under the three checked fields; `None` is an
      absent (or `undefined`) entry. */
  datatype Errors = Errors(file: Option<string>, submitterName: Option<string>, submitterEmail: Option<string>)

  const NoErrors := Errors(None, None, None)

  const FileMissing := "Please select an image file."
  const FileInvalid := "Please select a valid image file (png, jpg, jpeg)."
  const NameEmpty := "Submitter name cannot be empty."
  const EmailEmpty := "Submitter email cannot be empty."
  const EmailInvalid := "Please enter a valid email address."

  const DialogImageTypes: seq<string> := ["image/png", "image/jpeg", "image/jpg"]

  /** None of the characters is white space or "@": the class `[^\s@]`. */
  predicate NoSpaceOrAt(t: string) {
    forall k :: 0 <= k < |t| ==> !IsSpace(t[k]) && t[k] != '@'
  }

  /** What `/^[^\s@]+@[^\s@]+\.[^\s@]+$/` accepts: three non-empty runs
      without white space or "@", joined by "@" and by a ".". */
  ghost predicate EmailShape(s: string) {
    exists i, j :: EmailShapeAt(s, i, j)
  }

  /** The pattern's shape with the "@" at `i` and the "." at `j`. */
  predicate EmailShapeAt(s: string, i: int, j: int) {
    0 < i && i + 1 < j < |s| - 1 && s[i] == '@' && s[j] == '.'
    && NoSpaceOrAt(s[..i]) && NoSpaceOrAt(s[i + 1..j]) && NoSpaceOrAt(s[j + 1..])
  }

  /** The pattern test, read left to right: a non-empty local part up to
      the first "@", then a domain without white space or another "@" that
      has a "." with something on each side. */
  predicate MatchesEmailPattern(s: string) {
    match IndexOf(s, '@')
    case None => false
    case Some(i) =>
      var domain := s[i + 1..];
      0 < i && NoSpaceOrAt(s[..i]) && |domain| >= 3 && NoSpaceOrAt(domain) && '.' in domain[1..|domain| - 1]
  }

  /** A string the pattern test accepts has the pattern's shape. */
  lemma PatternHasShape(s: string)
    requires MatchesEmailPattern(s)
    ensures EmailShape(s)
  {
    var i := IndexOf(s, '@').value;
    var domain := s[i + 1..];
    var m :| 1 <= m < |domain| - 1 && domain[m] == '.';
    var j := i + 1 + m;
    assert s[j] == '.';
    assert s[i + 1..j] == domain[..m];
    assert s[j + 1..] == domain[m + 1..];
    assert EmailShapeAt(s, i, j);
  }

  /** A string of the pattern's shape passes the pattern test: its first
      "@" is the one that separates the local part. */
  lemma ShapeMatchesPattern(s: string)
    requires EmailShape(s)
    ensures MatchesEmailPattern(s)
  {
    var i, j :| EmailShapeAt(s, i, j);
    ShapeAtMatchesPattern(s, i, j);
  }

  lemma ShapeAtMatchesPattern(s: string, i: int, j: int)
    requires EmailShapeAt(s, i, j)
    ensures MatchesEmailPattern(s)
  {
    IndexOfFirst(s, '@', i);
    var domain := s[i + 1..];
    assert domain == s[i + 1..j] + ['.'] + s[j + 1..];
    NoSpaceOrAtJoin(s[i + 1..j], '.', s[j + 1..]);
    assert domain[1..|domain| - 1][j - i - 2] == '.';
  }

  lemma NoSpaceOrAtJoin(a: string, c: char, b: string)
    requires NoSpaceOrAt(a) && NoSpaceOrAt(b) && !IsSpace(c) && c != '@'
    ensures NoSpaceOrAt(a + [c] + b)
  {
    var t := a + [c] + b;
    forall k | 0 <= k < |t| ensures !IsSpace(t[k]) && t[k] != '@' {
      if k < |a| { assert t[k] == a[k]; }
      else if k > |a| { assert t[k] == b[k - |a| - 1]; }
    }
  }

  /** The pattern test accepts exactly the strings of the pattern's shape. */
  lemma EmailPatternIff(s: string)
    ensures MatchesEmailPattern(s) <==> EmailShape(s)
  {
    if MatchesEmailPattern(s) { PatternHasShape(s); }
    if EmailShape(s) { ShapeMatchesPattern(s); }
  }

  /** A matching address holds no white space at all. */
  lemma PatternRejectsSpace(s: string, k: nat)
    requires k < |s| && IsSpace(s[k])
    ensures !MatchesEmailPattern(s)
  {
  }

  /** The errors `validateForm` finds: one per failing field, the email's
      being "cannot be empty" when it is blank and "valid email" when it is
      not blank but does not match the pattern. */
  function FormErrors(file: Option<PickedFile>, name: string, email: string): (e: Errors)
    ensures e.file.Some? <==> file.None?
    ensures e.submitterName.Some? <==> Trim(name) == []
    ensures e.submitterEmail.Some? <==> Trim(email) == [] || !MatchesEmailPattern(email)
    ensures e.submitterEmail == Some(EmailEmpty) <==> Trim(email) == []
  {
    Errors(if file.None? then Some(FileMissing) else None,
           if Trim(name) == [] then Some(NameEmpty) else None,
           if Trim(email) == [] then Some(EmailEmpty)
           else if !MatchesEmailPattern(email) then Some(EmailInvalid) else None)
  }

  /** The form is valid exactly when a file is chosen, the name is not
      blank and the email, untrimmed, has the pattern's shape. */
  lemma ValidIff(file: Option<PickedFile>, name: string, email: string)
    ensures FormErrors(file, name, email) == NoErrors
        <==> file.Some? && Trim(name) != [] && EmailShape(email)
  {
    EmailPatternIff(email);
    if MatchesEmailPattern(email) {
      var i := IndexOf(email, '@').value;
      assert !IsSpace(email[0]) by {
        assert email[..i][0] == email[0];
      }
      assert Trim(email) != [] by {
        TrimEmptyIffBlank(email);
      }
    }
  }

  /** An address with white space around it is not blank, so it gets the
      "valid email" message rather than the "cannot be empty" one. */
  lemma SpacedEmailRefused(file: Option<PickedFile>, name: string, email: string, k: nat)
    requires k < |email| && IsSpace(email[k]) && !Blank(email)
    ensures FormErrors(file, name, email).submitterEmail == Some(EmailInvalid)
  {
    TrimEmptyIffBlank(email);
    PatternRejectsSpace(email, k);
  }

  class SubmitImageDialog {
    var file: Option<PickedFile>
    var comment: string
    var submitterName: string
    var submitterEmail: string
    var receiveEmail: bool
    var errors: Errors

    /** Every field empty, no errors. */
    predicate Cleared()
      reads this
    {
      file.None? && comment == [] && submitterName == [] && submitterEmail == []
      && !receiveEmail && errors == NoErrors
    }

    constructor ()
      ensures Cleared()
    {
      file, comment, submitterName, submitterEmail := None, "", "", "";
      receiveEmail := false;
      errors := NoErrors;
    }

    /** `validateForm`: the errors are collected field by field, stored,
        and the form is valid when there are none. */
    method ValidateForm() returns (valid: bool)
      modifies this`errors
      ensures errors == FormErrors(file, submitterName, submitterEmail)
      ensures valid <==> errors == NoErrors
    {
      var noFile, nameBlank, emailBlank := file.None?, Trim(submitterName) == [], Trim(submitterEmail) == [];
      var emailMatches := MatchesEmailPattern(submitterEmail);
      var newErrors := NoErrors;
      if noFile {
        newErrors := newErrors.(file := Some(FileMissing));
      }
      if nameBlank {
        newErrors := newErrors.(submitterName := Some(NameEmpty));
      }
      if emailBlank {
        newErrors := newErrors.(submitterEmail := Some(EmailEmpty));
      } else if !emailMatches {
        newErrors := newErrors.(submitterEmail := Some(EmailInvalid));
      }
      errors := newErrors;
      valid := newErrors.file.None? && newErrors.submitterName.None? && newErrors.submitterEmail.None?;
    }

    /** Picking a file: nothing picked changes nothing; a PNG or JPEG is
        taken and clears only the file error; any other type drops the file
        and sets the file error. */
    method HandleFileChange(selected: Option<PickedFile>)
      modifies this
      ensures selected.None? ==> file == old(file) && errors == old(errors)
      ensures selected.Some? && selected.value.mimeType in DialogImageTypes
              ==> file == selected && errors == old(errors).(file := None)
      ensures selected.Some? && selected.value.mimeType !in DialogImageTypes
              ==> file.None? && errors == old(errors).(file := Some(FileInvalid))
      ensures comment == old(comment) && submitterName == old(submitterName)
      ensures submitterEmail == old(submitterEmail) && receiveEmail == old(receiveEmail)
    {
      if selected.Some? {
        if selected.value.mimeType in DialogImageTypes {
          file := selected;
          errors := errors.(file := None);
        } else {
          file := None;
          errors := errors.(file := Some(FileInvalid));
        }
      }
    }

    /** Typing in the name box: a non-blank value clears the name error,
        and no other error changes. */
    method OnNameChange(value: string)
      modifies this
      ensures submitterName == value
      ensures errors == if Trim(value) != [] then old(errors).(submitterName := None) else old(errors)
      ensures file == old(file) && comment == old(comment) && submitterEmail == old(submitterEmail)
      ensures receiveEmail == old(receiveEmail)
    {
      submitterName := value;
      if Trim(value) != [] {
        errors := errors.(submitterName := None);
      }
    }

    /** Typing in the email box: a non-blank value clears the email error
        (even one the address still deserves), and no other error changes. */
    method OnEmailChange(value: string)
      modifies this
      ensures submitterEmail == value
      ensures errors == if Trim(value) != [] then old(errors).(submitterEmail := None) else old(errors)
      ensures file == old(file) && comment == old(comment) && submitterName == old(submitterName)
      ensures receiveEmail == old(receiveEmail)
    {
      submitterEmail := value;
      if Trim(value) != [] {
        errors := errors.(submitterEmail := None);
      }
    }

    /** Clearing every field and error. */
    method Reset()
      modifies this
      ensures Cleared()
    {
      file, comment, submitterName, submitterEmail := None, "", "", "";
      receiveEmail := false;
      errors := NoErrors;
    }

    /** "Save changes": a valid form is cleared and the dialog closes; an
        invalid one keeps every field and shows the errors. */
    method HandleSubmit() returns (closes: bool)
      modifies this
      ensures closes <==> FormErrors(old(file), old(submitterName), old(submitterEmail)) == NoErrors
      ensures closes ==> Cleared()
      ensures !closes ==> unchanged(this`file, this`comment, this`submitterName, this`submitterEmail, this`receiveEmail)
                          && errors == FormErrors(file, submitterName, submitterEmail)
    {
      closes := ValidateForm();
      if closes {
        Reset();
      }
    }

    /** "Cancel": everything cleared, and the dialog closes. */
    method HandleCancel() returns (closes: bool)
      modifies this
      ensures closes && Cleared()
    {
      Reset();
      closes := true;
    }
  }
}
