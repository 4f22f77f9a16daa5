/** The "Contribute" page: a signed-in user fills in a postmark entry, may
    attach an image, and submits it for review as a pending submission. */
module Contribute {
  import opened Wrappers
  import opened JsStrings
  import EntryDetail

  /** The states the form offers, as (code, label) pairs. */
  const StateOptions: seq<(string, string)> :=
    [("MA", "Massachusetts"), ("NY", "New York"), ("PA", "Pennsylvania"), ("CT", "Connecticut")]

  /** The label of a state code, or the code itself when it is not offered. */
  function StateLabel(code: string): (text: string)
    ensures (exists i :: 0 <= i < |StateOptions| && StateOptions[i].0 == code) ==>
              exists i :: 0 <= i < |StateOptions| && StateOptions[i] == (code, text)
    ensures (forall i :: 0 <= i < |StateOptions| ==> StateOptions[i].0 != code) ==> text == code
  {
    LabelIn(StateOptions, code)
  }

  /** `options.find(o => o.value === code)?.label ?? code`. */
  function LabelIn(options: seq<(string, string)>, code: string): (text: string)
    ensures (exists i :: 0 <= i < |options| && options[i].0 == code) ==>
              exists i :: 0 <= i < |options| && options[i] == (code, text)
    ensures (forall i :: 0 <= i < |options| ==> options[i].0 != code) ==> text == code
  {
    if options == [] then code
    else if options[0].0 == code then options[0].1
    else
      var found := LabelIn(options[1..], code);
      assert forall i :: 1 <= i < |options| ==> options[i] == options[1..][i - 1];
      found
  }

  /** `buildName`: the trimmed town, a comma, the state label and the
      (untrimmed) postmark type, the whole trimmed. */
  function BuildName(state: string, town: string, kind: string): string {
    Trim(Trim(town) + ", " + StateLabel(state) + " " + kind)
  }

  /** When the town is not blank and the type does not end in white space,
      the final trim changes nothing: the name is exactly
      "<town>, <label> <type>". */
  lemma BuildNameShape(state: string, town: string, kind: string)
    requires !Blank(town) && kind != [] && !IsSpace(kind[|kind| - 1])
    ensures BuildName(state, town, kind) == Trim(town) + ", " + StateLabel(state) + " " + kind
  {
    var t := Trim(town);
    TrimEmptyIffBlank(town);
    TrimEdges(town);
    var s := t + ", " + StateLabel(state) + " " + kind;
    assert s[0] == t[0] && s[|s| - 1] == kind[|kind| - 1];
    TrimNoop(s);
  }

  /** `buildDateRange`: "" when the first year is blank, the first year
      alone when the last is blank, otherwise "first-last"; both trimmed. */
  function BuildDateRange(firstSeen: string, lastSeen: string): (r: string)
    ensures r == [] <==> Blank(firstSeen)
    ensures !Blank(firstSeen) && Blank(lastSeen) ==> r == Trim(firstSeen)
    ensures !Blank(firstSeen) && !Blank(lastSeen) ==> r == Trim(firstSeen) + "-" + Trim(lastSeen)
  {
    TrimEmptyIffBlank(firstSeen);
    TrimEmptyIffBlank(lastSeen);
    var first := Trim(firstSeen);
    var last := Trim(lastSeen);
    if first == [] then "" else if last != [] then first + "-" + last else first
  }

  /** Round trip with the detail view: a range built from a first year
      without hyphens reads back as the trimmed first year and the trimmed
      last year, or the dash when the last year was blank. */
  lemma DateRangeRoundTrip(firstSeen: string, lastSeen: string)
    requires !Blank(firstSeen) && '-' !in Trim(firstSeen)
    ensures EntryDetail.ParseDateRange(Some(BuildDateRange(firstSeen, lastSeen)))
         == EntryDetail.SeenYears(Trim(firstSeen), EntryDetail.OrDash(Trim(lastSeen)))
  {
    TrimEmptyIffBlank(lastSeen);
    if Blank(lastSeen) {
      RoundTripFirstOnly(firstSeen);
    } else {
      RoundTripBoth(firstSeen, lastSeen);
    }
  }

  lemma RoundTripFirstOnly(firstSeen: string)
    requires !Blank(firstSeen) && '-' !in Trim(firstSeen)
    ensures EntryDetail.ParseDateRange(Some(Trim(firstSeen))) == EntryDetail.SeenYears(Trim(firstSeen), EntryDetail.Dash)
  {
    var first := Trim(firstSeen);
    TrimEmptyIffBlank(firstSeen);
    TrimEmptyIffBlank(first);
    TrimIdempotent(firstSeen);
    EntryDetail.ParseWithoutHyphen(first);
  }

  lemma RoundTripBoth(firstSeen: string, lastSeen: string)
    requires !Blank(firstSeen) && '-' !in Trim(firstSeen) && !Blank(lastSeen)
    ensures EntryDetail.ParseDateRange(Some(Trim(firstSeen) + "-" + Trim(lastSeen)))
         == EntryDetail.SeenYears(Trim(firstSeen), Trim(lastSeen))
  {
    var first := Trim(firstSeen);
    var last := Trim(lastSeen);
    TrimmedNotEmpty(firstSeen);
    TrimmedNotEmpty(lastSeen);
    JoinedTrimmed(first, last);
    EntryDetail.ParseAtFirstHyphen(first + "-" + last, first, last);
  }

  /** The trim of a string that is not blank is not empty, has no white
      space at either end, and trims to itself. */
  lemma TrimmedNotEmpty(s: string)
    requires !Blank(s)
    ensures var t := Trim(s); t != [] && !IsSpace(t[0]) && !IsSpace(t[|t| - 1]) && Trim(t) == t
  {
    TrimEmptyIffBlank(s);
    TrimIdempotent(s);
    TrimEdges(s);
  }

  /** Two trimmed pieces joined by a hyphen trim to themselves. */
  lemma JoinedTrimmed(first: string, last: string)
    requires first != [] && !IsSpace(first[0]) && last != [] && !IsSpace(last[|last| - 1])
    ensures Trim(first + "-" + last) == first + "-" + last
  {
    var s := first + "-" + last;
    assert s[0] == first[0] && s[|s| - 1] == last[|last| - 1];
    TrimNoop(s);
  }

  // ---- the image ----

  /** A file picked in the browser. */
  datatype ImageFile = ImageFile(name: string, mimeType: string, size: nat)

  const AllowedImageTypes: seq<string> := ["image/png", "image/jpeg", "image/jpg", "image/webp", "image/tiff"]
  const MaxImageBytes: nat := 10 * 1024 * 1024

  predicate ImageAcceptable(file: ImageFile) {
    file.mimeType in AllowedImageTypes && file.size <= MaxImageBytes
  }

  /** `name.split(".").pop() || "jpg"`: the text after the last dot, the whole
      name when there is no dot, and "jpg" only when that text is empty. */
  function UploadExtension(name: string): (ext: string)
    ensures ext != [] && '.' !in ext
    ensures ext == "jpg" || EndsWith(name, ext)
    ensures '.' !in name && name != [] ==> ext == name
  {
    var last := LastPiece(name, '.');
    if last == [] then "jpg" else last
  }

  /** A name "photo.final.png" uploads with extension "png". */
  lemma UploadExtensionAfterLastDot(base: string, ext: string)
    requires ext != [] && '.' !in ext
    ensures UploadExtension(base + "." + ext) == ext
  {
    LastPieceAfterSeparator(base, '.', ext);
  }

  /** A name ending in a dot falls back to "jpg". */
  lemma UploadExtensionTrailingDot(base: string)
    ensures UploadExtension(base + ".") == "jpg"
  {
    LastPieceAfterSeparator(base, '.', "");
    assert base + "." == base + "." + "";
  }

  // ---- submission ----

  /** The signed-in user, as far as the page uses it. */
  datatype User = User(id: string, fullName: Option<string>, email: Option<string>)

  /** An entry of "My submissions". */
  datatype MySubmission = MySubmission(id: string, name: string, status: string, createdAt: string)

  /** A row of the user's submissions as the database returns it. */
  datatype SubmissionRow = SubmissionRow(id: string, name: string, status: Option<string>, createdAt: string)

  /** The row inserted into `submissions`. */
  datatype SubmissionInsert = SubmissionInsert(
    userId: string, submitterName: Option<string>, name: string, state: string, town: string,
    dateRange: string, color: string, kind: string, description: Option<string>,
    citationReferences: Option<string>, imageUrl: Option<string>, dimensions: Option<string>,
    manuscript: Option<string>, rarity: Option<string>, status: string)

  datatype SubmitOutcome = SignInRequired | MissingRequired | InvalidDate | Submitted | SubmitFailed(message: string)

  /** `value.trim() || null`. */
  function Optional(value: string): (r: Option<string>)
    ensures r.None? <==> Blank(value)
    ensures r.Some? ==> r.value == Trim(value)
  {
    TrimEmptyIffBlank(value);
    if Trim(value) == [] then None else Some(Trim(value))
  }

  /** What a thrown error shows: its message, or the fallback text. */
  function MessageOr(thrown: Thrown, fallback: string): (m: string)
    ensures thrown.ErrorMessage? ==> m == thrown.message
    ensures thrown.NotAnError? ==> m == fallback
  {
    if thrown.ErrorMessage? then thrown.message else fallback
  }

  /** A loaded row: a null status reads as "pending". */
  function FromRow(row: SubmissionRow): (s: MySubmission)
    ensures s.status == row.status.GetOr("pending")
    ensures s.id == row.id && s.name == row.name && s.createdAt == row.createdAt
  {
    MySubmission(row.id, row.name, row.status.GetOr("pending"), row.createdAt)
  }

  function FromRows(rows: seq<SubmissionRow>): (r: seq<MySubmission>)
    ensures |r| == |rows| && forall i :: 0 <= i < |rows| ==> r[i] == FromRow(rows[i])
  {
    seq(|rows|, i requires 0 <= i < |rows| => FromRow(rows[i]))
  }

  /** The values of the form's eleven text fields. */
  datatype TextValues = TextValues(
    state: string, town: string, firstSeen: string, lastSeen: string, kind: string, color: string,
    dimensions: string, manuscript: string, rarity: string, description: string, references: string)

  const EmptyText := TextValues("", "", "", "", "", "", "", "", "", "", "")

  /** The five required fields (state, town, first year, type, colour) are
      not blank after trim. */
  predicate RequiredFilled(v: TextValues) {
    Trim(v.state) != [] && Trim(v.town) != [] && Trim(v.firstSeen) != [] && Trim(v.kind) != [] && Trim(v.color) != []
  }

  /** The row a submit inserts: trimmed required fields, the state code (not
      its label), blank optional fields as null, status "pending". */
  function Payload(v: TextValues, user: User, imageUrl: Option<string>): (p: SubmissionInsert)
    ensures p.status == "pending" && p.userId == user.id && p.imageUrl == imageUrl
    ensures p.state == Trim(v.state) && p.town == Trim(v.town) && p.kind == Trim(v.kind) && p.color == Trim(v.color)
    ensures p.name == BuildName(v.state, v.town, v.kind) && p.dateRange == BuildDateRange(v.firstSeen, v.lastSeen)
    ensures p.submitterName == (if user.fullName.Some? then user.fullName else user.email)
    ensures p.description == Optional(v.description) && p.citationReferences == Optional(v.references)
    ensures p.dimensions == Optional(v.dimensions) && p.manuscript == Optional(v.manuscript)
    ensures p.rarity == Optional(v.rarity)
  {
    SubmissionInsert(user.id, if user.fullName.Some? then user.fullName else user.email,
      BuildName(v.state, v.town, v.kind), Trim(v.state), Trim(v.town), BuildDateRange(v.firstSeen, v.lastSeen),
      Trim(v.color), Trim(v.kind), Optional(v.description), Optional(v.references), imageUrl,
      Optional(v.dimensions), Optional(v.manuscript), Optional(v.rarity), "pending")
  }

  /** A submitted row always carries a date range: once the first year
      passes the required check, the "Invalid date" branch cannot be taken. */
  lemma RequiredImpliesDateRange(v: TextValues)
    requires RequiredFilled(v)
    ensures BuildDateRange(v.firstSeen, v.lastSeen) != []
  {
    TrimEmptyIffBlank(v.firstSeen);
  }

  /** The image step of a submit: with a file, its storage path
      "<user id>/<random id>.<extension>" and, when the upload succeeds, its
      public URL; a failed upload only loses the image. */
  function UploadStep(file: Option<ImageFile>, userId: string, pathId: string, upload: Result<string, Thrown>)
    : (r: (Option<string>, Option<string>))
    ensures r.0.Some? <==> file.Some?
    ensures file.Some? ==> r.0 == Some(userId + "/" + pathId + "." + UploadExtension(file.value.name))
    ensures r.1 == (if file.Some? && upload.Success? then Some(upload.value) else None)
  {
    if file.None? then (None, None)
    else (Some(userId + "/" + pathId + "." + UploadExtension(file.value.name)),
          if upload.Success? then Some(upload.value) else None)
  }

  /** What a submit returns and leaves behind in the form. */
  datatype SubmitEffect = SubmitEffect(
    outcome: SubmitOutcome, uploadPath: Option<string>, row: Option<SubmissionInsert>,
    values: TextValues, imageFile: Option<ImageFile>, imagePreview: Option<string>,
    mySubmissions: seq<MySubmission>)

  /** A submit. Without a user: the sign-in prompt. With a required field
      blank: the "missing fields" message. With no date range: the "invalid
      date" message (a branch `RequiredImpliesDateRange` shows is never taken).
      Otherwise the image (if any) is
      uploaded, the row inserted, and on success the form is cleared and one
      pending entry is put first in "My submissions"; a thrown insert
      error shows its message. The storage upload, the insert and the two
      random identifiers are inputs: `upload` is the public URL or the
      upload's failure, `inserted` is `None` on success or the thrown error,
      `pathId` names the stored file, `entryId` and `now` label the new
      list entry. */
  function Submit(v: TextValues, file: Option<ImageFile>, preview: Option<string>, mine: seq<MySubmission>,
                  user: Option<User>, upload: Result<string, Thrown>, pathId: string,
                  inserted: Option<Thrown>, entryId: string, now: string): SubmitEffect
  {
    if user.None? then SubmitEffect(SignInRequired, None, None, v, file, preview, mine)
    else if !RequiredFilled(v) then SubmitEffect(MissingRequired, None, None, v, file, preview, mine)
    else if BuildDateRange(v.firstSeen, v.lastSeen) == [] then SubmitEffect(InvalidDate, None, None, v, file, preview, mine)
    else
      var step := UploadStep(file, user.value.id, pathId, upload);
      var row := Payload(v, user.value, step.1);
      if inserted.Some? then
        SubmitEffect(SubmitFailed(MessageOr(inserted.value, "Could not submit. Try again.")), step.0, Some(row),
                     v, file, preview, mine)
      else
        SubmitEffect(Submitted, step.0, Some(row), EmptyText, None, None,
                     [MySubmission(entryId, row.name, "pending", now)] + mine)
  }

  /** Nothing is uploaded or inserted, and the form is untouched, without a
      signed-in user or with a required field blank. */
  lemma SubmitRejectedLeavesForm(v: TextValues, file: Option<ImageFile>, preview: Option<string>,
                                 mine: seq<MySubmission>, user: Option<User>, upload: Result<string, Thrown>,
                                 pathId: string, inserted: Option<Thrown>, entryId: string, now: string)
    requires user.None? || !RequiredFilled(v)
    ensures var e := Submit(v, file, preview, mine, user, upload, pathId, inserted, entryId, now);
            e.row.None? && e.uploadPath.None? && e.values == v && e.imageFile == file
            && e.imagePreview == preview && e.mySubmissions == mine
            && e.outcome == (if user.None? then SignInRequired else MissingRequired)
  {
  }

  /** Every inserted row is pending, carries a non-empty date range and the
      trimmed state code, and the "Invalid date" outcome never occurs. */
  lemma SubmitRowWellFormed(v: TextValues, file: Option<ImageFile>, preview: Option<string>,
                            mine: seq<MySubmission>, user: Option<User>, upload: Result<string, Thrown>,
                            pathId: string, inserted: Option<Thrown>, entryId: string, now: string)
    ensures var e := Submit(v, file, preview, mine, user, upload, pathId, inserted, entryId, now);
            e.outcome != InvalidDate
            && (e.row.Some? <==> user.Some? && RequiredFilled(v))
            && (e.row.Some? ==> e.row.value.status == "pending" && e.row.value.dateRange != []
                                && e.row.value.state == Trim(v.state) && e.row.value.userId == user.value.id)
  {
    if user.Some? && RequiredFilled(v) { RequiredImpliesDateRange(v); }
  }

  /** A successful submit clears all eleven fields and the image, and puts
      exactly one pending entry, named like the row, before the old list. */
  lemma SubmitSuccessResets(v: TextValues, file: Option<ImageFile>, preview: Option<string>,
                            mine: seq<MySubmission>, user: Option<User>, upload: Result<string, Thrown>,
                            pathId: string, inserted: Option<Thrown>, entryId: string, now: string)
    requires user.Some? && RequiredFilled(v) && inserted.None?
    ensures var e := Submit(v, file, preview, mine, user, upload, pathId, inserted, entryId, now);
            e.outcome == Submitted && e.values == EmptyText && e.imageFile.None? && e.imagePreview.None?
            && |e.mySubmissions| == |mine| + 1 && e.mySubmissions[1..] == mine
            && e.mySubmissions[0].status == "pending" && e.mySubmissions[0].name == BuildName(v.state, v.town, v.kind)
  {
    RequiredImpliesDateRange(v);
  }

  /** A failed image upload does not stop the submission: the row is
      inserted without an image. */
  lemma UploadFailureStillSubmits(v: TextValues, file: Option<ImageFile>, preview: Option<string>,
                                  mine: seq<MySubmission>, user: Option<User>, thrown: Thrown,
                                  pathId: string, entryId: string, now: string)
    requires user.Some? && RequiredFilled(v) && file.Some?
    ensures var e := Submit(v, file, preview, mine, user, Failure(thrown), pathId, None, entryId, now);
            e.outcome == Submitted && e.row.Some? && e.row.value.imageUrl.None? && e.uploadPath.Some?
  {
    RequiredImpliesDateRange(v);
    var step := UploadStep(file, user.value.id, pathId, Failure(thrown));
    assert step.1.None?;
  }

  /** A failed insert leaves the form as it was and shows the error's
      message, or the fallback text for a thrown non-error. */
  lemma SubmitFailureKeepsForm(v: TextValues, file: Option<ImageFile>, preview: Option<string>,
                               mine: seq<MySubmission>, user: Option<User>, upload: Result<string, Thrown>,
                               pathId: string, thrown: Thrown, entryId: string, now: string)
    requires user.Some? && RequiredFilled(v)
    ensures var e := Submit(v, file, preview, mine, user, upload, pathId, Some(thrown), entryId, now);
            e.values == v && e.imageFile == file && e.imagePreview == preview && e.mySubmissions == mine
            && e.outcome == SubmitFailed(if thrown.ErrorMessage? then thrown.message else "Could not submit. Try again.")
  {
    RequiredImpliesDateRange(v);
  }

  class ContributeForm {
    /** The eleven text inputs. */
    var values: TextValues
    var imageFile: Option<ImageFile>
    var imagePreview: Option<string>
    var submitting: bool
    var mySubmissions: seq<MySubmission>

    constructor ()
      ensures values == EmptyText
      ensures imageFile.None? && imagePreview.None? && !submitting && mySubmissions == []
    {
      values := EmptyText;
      imageFile, imagePreview, submitting, mySubmissions := None, None, false, [];
    }

    /** Loading "My submissions": empty without a user; on a failed fetch
        the list stays as it was. */
    method LoadMySubmissions(user: Option<User>, fetched: Result<seq<SubmissionRow>, Thrown>)
      modifies this
      ensures user.None? ==> mySubmissions == []
      ensures user.Some? && fetched.Success? ==> mySubmissions == FromRows(fetched.value)
      ensures user.Some? && fetched.Failure? ==> mySubmissions == old(mySubmissions)
      ensures values == old(values) && imageFile == old(imageFile)
      ensures imagePreview == old(imagePreview) && submitting == old(submitting)
    {
      if user.None? {
        mySubmissions := [];
      } else if fetched.Success? {
        mySubmissions := FromRows(fetched.value);
      }
    }

    /** Picking a file. No file clears the image and its preview; a file of
        another type, or larger than 10 MB, is refused and the previous
        image stays. The preview of an accepted file is read asynchronously
        and is not part of this step. Returns whether the file was taken. */
    method HandleImageChange(selected: Option<ImageFile>) returns (accepted: bool)
      modifies this
      ensures accepted <==> selected.Some? && ImageAcceptable(selected.value)
      ensures selected.None? ==> imageFile.None? && imagePreview.None?
      ensures selected.Some? && !accepted ==> imageFile == old(imageFile) && imagePreview == old(imagePreview)
      ensures accepted ==> imageFile == selected && imagePreview == old(imagePreview)
      ensures values == old(values) && submitting == old(submitting)
      ensures mySubmissions == old(mySubmissions)
    {
      accepted := false;
      if selected.None? {
        imageFile := None;
        imagePreview := None;
        return;
      }
      var file := selected.value;
      if file.mimeType !in AllowedImageTypes {
        return;
      }
      if file.size > MaxImageBytes {
        return;
      }
      imageFile := selected;
      accepted := true;
    }

    /** The remove button next to the preview. */
    method RemoveImage()
      modifies this
      ensures imageFile.None? && imagePreview.None?
      ensures values == old(values) && submitting == old(submitting)
      ensures mySubmissions == old(mySubmissions)
    {
      imageFile := None;
      imagePreview := None;
    }

    /** `handleSubmit`, proved to follow `Submit`; `submitting` is on only
        while the upload and insert are under way, and off once they end. */
    method HandleSubmit(user: Option<User>, upload: Result<string, Thrown>, pathId: string,
                        inserted: Option<Thrown>, entryId: string, now: string)
      returns (outcome: SubmitOutcome, uploadPath: Option<string>, row: Option<SubmissionInsert>)
      modifies this
      ensures SubmitEffect(outcome, uploadPath, row, values, imageFile, imagePreview, mySubmissions)
           == Submit(old(values), old(imageFile), old(imagePreview), old(mySubmissions),
                     user, upload, pathId, inserted, entryId, now)
      ensures submitting == (if row.None? then old(submitting) else false)
    {
      var v, file, preview, mine := values, imageFile, imagePreview, mySubmissions;
      ghost var expected := Submit(v, file, preview, mine, user, upload, pathId, inserted, entryId, now);
      uploadPath, row := None, None;
      if user.None? {
        outcome := SignInRequired;
      } else if !RequiredFilled(v) {
        outcome := MissingRequired;
      } else if BuildDateRange(v.firstSeen, v.lastSeen) == [] {
        outcome := InvalidDate;
      } else {
        submitting := true;
        var step := UploadStep(file, user.value.id, pathId, upload);
        uploadPath := step.0;
        var payload := Payload(v, user.value, step.1);
        row := Some(payload);
        if inserted.Some? {
          outcome := SubmitFailed(MessageOr(inserted.value, "Could not submit. Try again."));
        } else {
          outcome := Submitted;
          v, file, preview := EmptyText, None, None;
          mine := [MySubmission(entryId, payload.name, "pending", now)] + mine;
        }
        submitting := false;
      }
      assert SubmitEffect(outcome, uploadPath, row, v, file, preview, mine) == expected;
      values, imageFile, imagePreview, mySubmissions := v, file, preview, mine;
    }
  }
}
