/**
 The write side of the complaint API: the multipart form of POST /api/complaints,
 its manual validation, case-number generation, the insertion of the complaint and
 of its first case update, and the admin PATCH that sets status and officer and
 may append a note. The database is a value: the two tables as sequences in
 insertion order plus the next AUTOINCREMENT ids; clocks and `Math.random` are
 parameters.
 */
module Complaints {
  import opened Wrappers
  import opened Text
  import opened Uploads

  /** The text fields of the multipart body; `None` is a field the client did not send. */
  datatype Form = Form(
    vehicleNumber: Option<string>, vehicleType: Option<string>, vehicleModel: Option<string>,
    vehicleColor: Option<string>, theftDate: Option<string>, theftLocation: Option<string>,
    description: Option<string>, complainantName: Option<string>, complainantPhone: Option<string>,
    complainantEmail: Option<string>, complainantAddress: Option<string>)

  /** The eleven form fields. */
  datatype Field =
    | VehicleNumber | VehicleType | VehicleModel | VehicleColor | TheftDate | TheftLocation
    | Description | ComplainantName | ComplainantPhone | ComplainantEmail | ComplainantAddress
  {
    /** The field's key in the form and in the `field` of an error entry. */
    function Key(): string {
      match this
      case VehicleNumber => "vehicleNumber"
      case VehicleType => "vehicleType"
      case VehicleModel => "vehicleModel"
      case VehicleColor => "vehicleColor"
      case TheftDate => "theftDate"
      case TheftLocation => "theftLocation"
      case Description => "description"
      case ComplainantName => "complainantName"
      case ComplainantPhone => "complainantPhone"
      case ComplainantEmail => "complainantEmail"
      case ComplainantAddress => "complainantAddress"
    }
  }

  datatype FieldError = FieldError(field: Field, message: string)

  /** The fields the validator checks, in the order it checks them. */
  const RequiredFields: seq<Field> := [
    VehicleNumber, VehicleType, VehicleModel, TheftDate, TheftLocation,
    ComplainantName, ComplainantPhone, ComplainantEmail]

  const InvalidEmailMessage := "Valid email is required"

  function FieldValue(form: Form, field: Field): Option<string> {
    match field
    case VehicleNumber => form.vehicleNumber
    case VehicleType => form.vehicleType
    case VehicleModel => form.vehicleModel
    case VehicleColor => form.vehicleColor
    case TheftDate => form.theftDate
    case TheftLocation => form.theftLocation
    case Description => form.description
    case ComplainantName => form.complainantName
    case ComplainantPhone => form.complainantPhone
    case ComplainantEmail => form.complainantEmail
    case ComplainantAddress => form.complainantAddress
  }

  /** The message for a missing required field. */
  function RequiredMessage(field: Field): string {
    match field
    case VehicleNumber => "Vehicle number is required"
    case VehicleType => "Vehicle type is required"
    case VehicleModel => "Vehicle model is required"
    case TheftDate => "Theft date is required"
    case TheftLocation => "Theft location is required"
    case ComplainantName => "Complainant name is required"
    case ComplainantPhone => "Complainant phone is required"
    case _ => "Complainant email is required"
  }

  /** Position of a required field in the checking order (8 for the others). */
  function FieldRank(field: Field): nat {
    match field
    case VehicleNumber => 0
    case VehicleType => 1
    case VehicleModel => 2
    case TheftDate => 3
    case TheftLocation => 4
    case ComplainantName => 5
    case ComplainantPhone => 6
    case ComplainantEmail => 7
    case _ => 8
  }

  lemma RankOfRequired(k: nat)
    requires k < |RequiredFields|
    ensures FieldRank(RequiredFields[k]) == k
  {
  }

  /** `!value || !value.trim()`: absent, or nothing but white space (which is
      exactly when `trim` leaves the empty string, by the contract of `Trim`). */
  predicate Missing(value: Option<string>) {
    value.None? || AllSpace(value.value)
  }

  /** A non-empty run of characters that are neither white space nor '@'. */
  predicate IsEmailWord(w: string) {
    |w| > 0 && forall k | 0 <= k < |w| :: !IsSpace(w[k]) && w[k] != '@'
  }

  /** `/^[^\s@]+@[^\s@]+\.[^\s@]+$/.test(t)`: a word, '@', a word, '.', a word. The
      middle word may itself hold dots; the pattern backtracks to any '.' after it. */
  predicate MatchesEmailPattern(t: string) {
    exists i, j | 0 <= i < j < |t| ::
      t[i] == '@' && t[j] == '.' && IsEmailWord(t[..i]) && IsEmailWord(t[i + 1..j]) && IsEmailWord(t[j + 1..])
  }

  /** Whether the validator reports `field`. */
  predicate Fails(form: Form, field: Field) {
    Missing(FieldValue(form, field))
    || (field == ComplainantEmail && !MatchesEmailPattern(Trim(FieldValue(form, field).value)))
  }

  function MessageFor(form: Form, field: Field): string {
    if Missing(FieldValue(form, field)) then RequiredMessage(field) else InvalidEmailMessage
  }

  /** The validator's verdict on each required field, in checking order: the
      error message when the field fails, `None` when it passes. */
  function FieldVerdicts(form: Form): (v: seq<Option<string>>)
    ensures |v| == |RequiredFields|
    ensures forall k | 0 <= k < |RequiredFields| :: v[k].Some? == Fails(form, RequiredFields[k])
    ensures forall k | 0 <= k < |RequiredFields| && v[k].Some? :: v[k].value == MessageFor(form, RequiredFields[k])
  {
    seq(|RequiredFields|, k requires 0 <= k < |RequiredFields| =>
      if Fails(form, RequiredFields[k]) then Some(MessageFor(form, RequiredFields[k])) else None)
  }

  /** The positions from `k` on whose verdict is a failure, in increasing order. */
  function FailingFrom(v: seq<Option<string>>, k: nat): (idx: seq<nat>)
    requires k <= |v|
    ensures forall i | 0 <= i < |idx| :: k <= idx[i] < |v| && v[idx[i]].Some?
    ensures forall i, j | 0 <= i < j < |idx| :: idx[i] < idx[j]
    ensures forall n | k <= n < |v| && v[n].Some? :: n in idx
    decreases |v| - k
  {
    if k == |v| then []
    else if v[k].Some? then [k] + FailingFrom(v, k + 1)
    else FailingFrom(v, k + 1)
  }

  /** The error list for a sequence of verdicts, one per required field. */
  function ErrorsOf(v: seq<Option<string>>): (errors: seq<FieldError>)
    requires |v| == |RequiredFields|
    ensures forall i | 0 <= i < |errors| ::
              && FieldRank(errors[i].field) < |RequiredFields|
              && RequiredFields[FieldRank(errors[i].field)] == errors[i].field
              && v[FieldRank(errors[i].field)] == Some(errors[i].message)
    ensures forall i, j | 0 <= i < j < |errors| :: FieldRank(errors[i].field) < FieldRank(errors[j].field)
    ensures forall n | 0 <= n < |RequiredFields| ::
              v[n].Some? <==> exists i | 0 <= i < |errors| :: errors[i].field == RequiredFields[n]
  {
    var idx := FailingFrom(v, 0);
    ErrorListFacts(v, idx);
    ErrorList(v, idx)
  }

  /** One error per listed position, with that position's field and message. */
  function ErrorList(v: seq<Option<string>>, idx: seq<nat>): (errors: seq<FieldError>)
    requires |v| == |RequiredFields|
    requires forall i | 0 <= i < |idx| :: idx[i] < |v| && v[idx[i]].Some?
    ensures |errors| == |idx|
    ensures forall i | 0 <= i < |idx| :: errors[i] == FieldError(RequiredFields[idx[i]], v[idx[i]].value)
  {
    seq(|idx|, i requires 0 <= i < |idx| => FieldError(RequiredFields[idx[i]], v[idx[i]].value))
  }

  lemma ErrorListFacts(v: seq<Option<string>>, idx: seq<nat>)
    requires |v| == |RequiredFields| && idx == FailingFrom(v, 0)
    ensures var errors := ErrorList(v, idx);
            && (forall i | 0 <= i < |errors| ::
                  && FieldRank(errors[i].field) < |RequiredFields|
                  && RequiredFields[FieldRank(errors[i].field)] == errors[i].field
                  && v[FieldRank(errors[i].field)] == Some(errors[i].message))
            && (forall i, j | 0 <= i < j < |errors| :: FieldRank(errors[i].field) < FieldRank(errors[j].field))
            && (forall n | 0 <= n < |RequiredFields| ::
                  v[n].Some? <==> exists i | 0 <= i < |errors| :: errors[i].field == RequiredFields[n])
  {
    ErrorRanks(v, idx);
    forall n | 0 <= n < |RequiredFields|
      ensures v[n].Some? <==> exists i | 0 <= i < |ErrorList(v, idx)| :: ErrorList(v, idx)[i].field == RequiredFields[n]
    {
      ErrorCoverage(v, idx, n);
    }
  }

  /** The rank of each error's field is the position it came from. */
  lemma ErrorRanks(v: seq<Option<string>>, idx: seq<nat>)
    requires |v| == |RequiredFields| && idx == FailingFrom(v, 0)
    ensures forall i | 0 <= i < |idx| :: FieldRank(ErrorList(v, idx)[i].field) == idx[i]
  {
    var errors := ErrorList(v, idx);
    forall i | 0 <= i < |idx|
      ensures FieldRank(errors[i].field) == idx[i]
    {
      RankOfRequired(idx[i]);
    }
  }

  /** A position fails exactly when an error names its field. */
  lemma ErrorCoverage(v: seq<Option<string>>, idx: seq<nat>, n: int)
    requires |v| == |RequiredFields| && idx == FailingFrom(v, 0) && 0 <= n < |RequiredFields|
    ensures v[n].Some? <==> exists i | 0 <= i < |ErrorList(v, idx)| :: ErrorList(v, idx)[i].field == RequiredFields[n]
  {
    var errors := ErrorList(v, idx);
    if v[n].Some? {
      var i :| 0 <= i < |idx| && idx[i] == n;
      assert errors[i].field == RequiredFields[n];
    }
    if exists i | 0 <= i < |errors| :: errors[i].field == RequiredFields[n] {
      var i :| 0 <= i < |errors| && errors[i].field == RequiredFields[n];
      RankOfRequired(n);
      RankOfRequired(idx[i]);
      assert idx[i] == n;
    }
  }

  /** The manual validation of POST /api/complaints: one error per failing required
      field, in the fixed order; an error names a field exactly when that field is
      absent or blank, or (for the e-mail only) present but not of the pattern's
      shape once trimmed. vehicleColor, description and complainantAddress are not
      among the required fields and are never reported. */
  function Validate(form: Form): (errors: seq<FieldError>)
    ensures forall i | 0 <= i < |errors| :: errors[i].field in RequiredFields
    ensures forall i, j | 0 <= i < j < |errors| :: FieldRank(errors[i].field) < FieldRank(errors[j].field)
    ensures forall i | 0 <= i < |errors| :: errors[i].message == MessageFor(form, errors[i].field)
    ensures forall n | 0 <= n < |RequiredFields| ::
              Fails(form, RequiredFields[n]) <==> exists i | 0 <= i < |errors| :: errors[i].field == RequiredFields[n]
  {
    ErrorsOf(FieldVerdicts(form))
  }

  /** The pattern in terms of its three words: text of the shape a@b.c with words a, b, c. */
  lemma EmailPatternAsWords(t: string)
    ensures MatchesEmailPattern(t)
            <==> exists a, b, c :: IsEmailWord(a) && IsEmailWord(b) && IsEmailWord(c) && t == a + "@" + b + "." + c
  {
    if MatchesEmailPattern(t) {
      MatchSplitsIntoWords(t);
    }
    forall a, b, c | IsEmailWord(a) && IsEmailWord(b) && IsEmailWord(c) && t == a + "@" + b + "." + c
      ensures MatchesEmailPattern(t)
    {
      WordsMatch(a, b, c);
    }
  }

  lemma MatchSplitsIntoWords(t: string)
    requires MatchesEmailPattern(t)
    ensures exists a, b, c :: IsEmailWord(a) && IsEmailWord(b) && IsEmailWord(c) && t == a + "@" + b + "." + c
  {
    var i, j :| 0 <= i < j < |t| && t[i] == '@' && t[j] == '.'
                && IsEmailWord(t[..i]) && IsEmailWord(t[i + 1..j]) && IsEmailWord(t[j + 1..]);
    var a, b, c := t[..i], t[i + 1..j], t[j + 1..];
    assert t == a + [t[i]] + b + [t[j]] + c;
    assert [t[i]] == "@" && [t[j]] == ".";
  }

  lemma WordsMatch(a: string, b: string, c: string)
    requires IsEmailWord(a) && IsEmailWord(b) && IsEmailWord(c)
    ensures MatchesEmailPattern(a + "@" + b + "." + c)
  {
    var t := a + "@" + b + "." + c;
    var i, j := |a|, |a| + 1 + |b|;
    assert t[..i] == a && t[i + 1..j] == b && t[j + 1..] == c;
    assert t[i] == '@' && t[j] == '.';
  }

  /** An address the pattern accepts has no white space and exactly one '@'. */
  lemma EmailPatternShape(t: string)
    requires MatchesEmailPattern(t)
    ensures forall k | 0 <= k < |t| :: !IsSpace(t[k])
    ensures exists i | 0 <= i < |t| :: t[i] == '@' && forall k | 0 <= k < |t| && k != i :: t[k] != '@'
  {
    var i, j :| 0 <= i < j < |t| && t[i] == '@' && t[j] == '.'
                && IsEmailWord(t[..i]) && IsEmailWord(t[i + 1..j]) && IsEmailWord(t[j + 1..]);
    forall k | 0 <= k < |t| && k != i
      ensures !IsSpace(t[k]) && t[k] != '@'
    {
      if k < i {
        assert t[k] == t[..i][k];
      } else if k < j {
        assert t[k] == t[i + 1..j][k - i - 1];
      } else if k > j {
        assert t[k] == t[j + 1..][k - j - 1];
      }
    }
  }

  // ---------------------------------------------------------------- case numbers

  const CaseNumberPrefix := "VTC-"

  /** `Math.floor(Math.random() * 1000)` for a draw in [0, 1). */
  function RandomSuffix(draw: real): (n: int)
    requires 0.0 <= draw < 1.0
    ensures 0 <= n <= 999
  {
    (draw * 1000.0).Floor
  }

  function FormatCaseNumber(millis: nat, suffix: nat): string {
    CaseNumberPrefix + Decimal(millis) + "-" + Decimal(suffix)
  }

  /** Reads `VTC-<digits>-<digits>` back into its two numbers. */
  function ParseCaseNumber(s: string): Option<(nat, nat)> {
    if |s| < |CaseNumberPrefix| || s[..|CaseNumberPrefix|] != CaseNumberPrefix then None
    else
      var parts := Split(s[|CaseNumberPrefix|..], '-');
      if |parts| == 2 && parts[0] != "" && parts[1] != "" && AllDigits(parts[0]) && AllDigits(parts[1])
      then Some((DecimalValue(parts[0]), DecimalValue(parts[1])))
      else None
  }

  lemma {:induction false} CaseNumberRoundTrip(millis: nat, suffix: nat)
    ensures ParseCaseNumber(FormatCaseNumber(millis, suffix)) == Some((millis, suffix))
  {
    var s := FormatCaseNumber(millis, suffix);
    var a, b := Decimal(millis), Decimal(suffix);
    assert s[..|CaseNumberPrefix|] == CaseNumberPrefix;
    assert s[|CaseNumberPrefix|..] == Join([a, b], '-');
    assert '-' !in a by { assert forall k | 0 <= k < |a| :: IsDigit(a[k]); }
    assert '-' !in b by { assert forall k | 0 <= k < |b| :: IsDigit(b[k]); }
    SplitJoin([a, b], '-');
    DecimalRoundTrip(millis);
    DecimalRoundTrip(suffix);
  }

  /** `generateCaseNumber`: "VTC-" + `Date.now()` + "-" + a suffix in 0..999, and
      reading it back gives that time and suffix. */
  function GenerateCaseNumber(millis: nat, draw: real): (cn: string)
    requires 0.0 <= draw < 1.0
    ensures ParseCaseNumber(cn).Some?
    ensures ParseCaseNumber(cn).value.0 == millis && ParseCaseNumber(cn).value.1 <= 999
  {
    var n := RandomSuffix(draw);
    CaseNumberRoundTrip(millis, n);
    FormatCaseNumber(millis, n)
  }

  // ---------------------------------------------------------------- the store

  /** A row of `complaints`. `status` is nullable (its default is 'pending'). */
  datatype Complaint = Complaint(
    id: int, userId: int,
    vehicleNumber: string, vehicleType: string, vehicleModel: string, vehicleColor: string,
    theftDate: string, theftLocation: string, description: string,
    complainantName: string, complainantPhone: string, complainantEmail: string, complainantAddress: string,
    status: Option<string>, assignedOfficer: Option<string>, caseNumber: string, documents: string,
    createdAt: int, updatedAt: int)

  /** A row of `updates`: one note in a complaint's history. */
  datatype CaseUpdate = CaseUpdate(id: int, complaintId: int, message: string, updatedBy: string, createdAt: int)

  datatype Store = Store(complaints: seq<Complaint>, updates: seq<CaseUpdate>, nextComplaintId: int, nextUpdateId: int)

  const InitialStatus := "pending"
  const FiledNotePrefix := "Complaint filed successfully. Case number: "
  const InsertFailedError := "Failed to submit complaint"

  /** The table constraints and AUTOINCREMENT counters: ids below the next id and
      pairwise distinct, case numbers unique. */
  predicate WellFormed(s: Store) {
    && (forall i | 0 <= i < |s.complaints| :: s.complaints[i].id < s.nextComplaintId)
    && (forall i, j | 0 <= i < j < |s.complaints| ::
          s.complaints[i].id != s.complaints[j].id && s.complaints[i].caseNumber != s.complaints[j].caseNumber)
    && (forall i | 0 <= i < |s.updates| :: s.updates[i].id < s.nextUpdateId)
    && (forall i, j | 0 <= i < j < |s.updates| :: s.updates[i].id != s.updates[j].id)
  }

  predicate CaseNumberTaken(s: Store, caseNumber: string) {
    exists i | 0 <= i < |s.complaints| :: s.complaints[i].caseNumber == caseNumber
  }

  /** The possible answers to POST /api/complaints once the caller is authenticated. */
  datatype Creation =
    | Created(store: Store, caseNumber: string, complaintId: int)   // 201
    | Invalid(error: string, errors: seq<FieldError>)              // 400
    | UploadRefused(error: string)                                 // multer error, Express's default 500 page
    | InsertFailed                                                 // 500 from the INSERT callback

  /** A form the validator passes carries every required field. */
  lemma PassingFormHasRequiredValues(form: Form)
    requires Validate(form) == []
    ensures form.vehicleNumber.Some? && form.vehicleType.Some? && form.vehicleModel.Some?
    ensures form.theftDate.Some? && form.theftLocation.Some?
    ensures form.complainantName.Some? && form.complainantPhone.Some? && form.complainantEmail.Some?
  {
    assert form.vehicleNumber.Some? by { assert !Fails(form, RequiredFields[0]); }
    assert form.vehicleType.Some? by { assert !Fails(form, RequiredFields[1]); }
    assert form.vehicleModel.Some? by { assert !Fails(form, RequiredFields[2]); }
    assert form.theftDate.Some? by { assert !Fails(form, RequiredFields[3]); }
    assert form.theftLocation.Some? by { assert !Fails(form, RequiredFields[4]); }
    assert form.complainantName.Some? by { assert !Fails(form, RequiredFields[5]); }
    assert form.complainantPhone.Some? by { assert !Fails(form, RequiredFields[6]); }
    assert form.complainantEmail.Some? by { assert !Fails(form, RequiredFields[7]); }
  }

  /** The row the INSERT writes: the form's text as sent (not trimmed), missing
      description and address as '', status 'pending', no officer. */
  function NewComplaint(store: Store, userId: int, form: Form, files: seq<Upload>, caseNumber: string, clock: int): Complaint
    requires Validate(form) == [] && form.vehicleColor.Some?
  {
    PassingFormHasRequiredValues(form);
    Complaint(
      store.nextComplaintId, userId,
      form.vehicleNumber.value, form.vehicleType.value, form.vehicleModel.value, form.vehicleColor.value,
      form.theftDate.value, form.theftLocation.value, form.description.GetOr(""),
      form.complainantName.value, form.complainantPhone.value, form.complainantEmail.value,
      form.complainantAddress.GetOr(""),
      Some(InitialStatus), None, caseNumber, DocumentsColumn(files), clock, clock)
  }

  /** POST /api/complaints after authentication: files first (multer), then the
      validator, then the INSERT, which fails when vehicleColor was not sent at all
      (NOT NULL) or the case number is already taken (UNIQUE); on success the first
      case update is written, authored by the complainant's name. */
  function SubmitComplaint(store: Store, userId: int, form: Form, files: seq<Upload>, millis: nat, draw: real, clock: int): (r: Creation)
    requires 0.0 <= draw < 1.0
    ensures r.UploadRefused? <==> ReceiveFiles(files).Some?
    ensures r.Invalid? <==> ReceiveFiles(files).None? && Validate(form) != []
    ensures r.Invalid? ==> r.errors == Validate(form) && r.errors != [] && r.error == r.errors[0].message
    ensures r.InsertFailed? ==> form.vehicleColor.None? || CaseNumberTaken(store, GenerateCaseNumber(millis, draw))
    ensures r.Created? ==>
              && ReceiveFiles(files).None? && Validate(form) == [] && form.vehicleColor.Some?
              && r.caseNumber == GenerateCaseNumber(millis, draw)
              && !CaseNumberTaken(store, r.caseNumber)
              && r.complaintId == store.nextComplaintId
              && r.store.complaints == store.complaints + [NewComplaint(store, userId, form, files, r.caseNumber, clock)]
              && form.complainantName.Some?
              && r.store.nextComplaintId == store.nextComplaintId + 1
              && r.store.nextUpdateId == store.nextUpdateId + 1
              && r.store.updates == store.updates
                   + [CaseUpdate(store.nextUpdateId, r.complaintId, FiledNotePrefix + r.caseNumber,
                                 form.complainantName.value, clock)]
  {
    if ReceiveFiles(files).Some? then UploadRefused(ReceiveFiles(files).value)
    else
      var errors := Validate(form);
      if errors != [] then Invalid(errors[0].message, errors)
      else
        var caseNumber := GenerateCaseNumber(millis, draw);
        if form.vehicleColor.None? || CaseNumberTaken(store, caseNumber) then InsertFailed
        else
          var row := NewComplaint(store, userId, form, files, caseNumber, clock);
          PassingFormHasRequiredValues(form);
          var note := CaseUpdate(store.nextUpdateId, row.id, FiledNotePrefix + caseNumber, form.complainantName.value, clock);
          Created(Store(store.complaints + [row], store.updates + [note], store.nextComplaintId + 1, store.nextUpdateId + 1),
                  caseNumber, row.id)
  }

  /** Creating a complaint keeps the table constraints. */
  lemma SubmitPreservesWellFormed(store: Store, userId: int, form: Form, files: seq<Upload>, millis: nat, draw: real, clock: int)
    requires 0.0 <= draw < 1.0
    requires WellFormed(store)
    ensures SubmitComplaint(store, userId, form, files, millis, draw, clock).Created? ==>
              WellFormed(SubmitComplaint(store, userId, form, files, millis, draw, clock).store)
  {
    var r := SubmitComplaint(store, userId, form, files, millis, draw, clock);
    if r.Created? {
      var row := NewComplaint(store, userId, form, files, r.caseNumber, clock);
      AppendPreservesWellFormed(store, row, r.store.updates[|store.updates|]);
      assert r.store.updates == store.updates + [r.store.updates[|store.updates|]];
    }
  }

  /** Appending a row with the next id and an unused case number, and a note with the
      next update id, keeps the table constraints. */
  lemma AppendPreservesWellFormed(store: Store, row: Complaint, note: CaseUpdate)
    requires WellFormed(store)
    requires row.id == store.nextComplaintId && !CaseNumberTaken(store, row.caseNumber)
    requires note.id == store.nextUpdateId
    ensures WellFormed(Store(store.complaints + [row], store.updates + [note], store.nextComplaintId + 1, store.nextUpdateId + 1))
  {
  }

  // ---------------------------------------------------------------- admin PATCH

  /** The JSON body of PATCH /api/admin/complaints/:id; `None` is an absent key. */
  datatype PatchRequest = PatchRequest(status: Option<string>, assignedOfficer: Option<string>, message: Option<string>)

  /** JavaScript truthiness of an optional string. */
  predicate Truthy(v: Option<string>) {
    v.Some? && v.value != ""
  }

  /** `assignedOfficer || null`. */
  function OfficerColumn(v: Option<string>): (r: Option<string>)
    ensures r.Some? <==> Truthy(v)
    ensures r.Some? ==> r == v
  {
    if Truthy(v) then v else None
  }

  /** `UPDATE complaints SET status = ?, assignedOfficer = ?, updatedAt = ... WHERE id = ?`. */
  function UpdateWhereId(rows: seq<Complaint>, id: int, status: Option<string>, officer: Option<string>, clock: int): (r: seq<Complaint>)
    ensures |r| == |rows|
    ensures forall i | 0 <= i < |rows| && rows[i].id != id :: r[i] == rows[i]
    ensures forall i | 0 <= i < |rows| && rows[i].id == id ::
              && r[i].status == status && r[i].assignedOfficer == officer && r[i].updatedAt == clock
              && r[i].(status := rows[i].status, assignedOfficer := rows[i].assignedOfficer, updatedAt := rows[i].updatedAt) == rows[i]
  {
    if |rows| == 0 then []
    else
      [if rows[0].id == id then rows[0].(status := status, assignedOfficer := officer, updatedAt := clock) else rows[0]]
      + UpdateWhereId(rows[1..], id, status, officer, clock)
  }

  /** PATCH /api/admin/complaints/:id after the admin gate. An absent status is written
      as NULL; an empty or absent officer as NULL. A note authored by the caller's
      e-mail is appended exactly when the message is non-empty. There is no check that
      the id exists: nothing is updated then, yet the note is still written and the
      answer is still success. */
  function PatchComplaint(store: Store, id: int, request: PatchRequest, callerEmail: string, clock: int): (r: Store)
    ensures |r.complaints| == |store.complaints|
    ensures forall i | 0 <= i < |store.complaints| && store.complaints[i].id != id :: r.complaints[i] == store.complaints[i]
    ensures forall i | 0 <= i < |store.complaints| && store.complaints[i].id == id ::
              r.complaints[i] == store.complaints[i].(status := request.status,
                                                      assignedOfficer := OfficerColumn(request.assignedOfficer),
                                                      updatedAt := clock)
    ensures Truthy(request.message) ==>
              r.updates == store.updates + [CaseUpdate(store.nextUpdateId, id, request.message.value, callerEmail, clock)]
    ensures !Truthy(request.message) ==> r.updates == store.updates
    ensures r.nextComplaintId == store.nextComplaintId
    ensures r.nextUpdateId == store.nextUpdateId + if Truthy(request.message) then 1 else 0
  {
    var rows := UpdateWhereId(store.complaints, id, request.status, OfficerColumn(request.assignedOfficer), clock);
    if Truthy(request.message) then
      Store(rows, store.updates + [CaseUpdate(store.nextUpdateId, id, request.message.value, callerEmail, clock)],
            store.nextComplaintId, store.nextUpdateId + 1)
    else
      Store(rows, store.updates, store.nextComplaintId, store.nextUpdateId)
  }

  /** PATCH keeps the table constraints: it changes no id and no case number. */
  lemma PatchPreservesWellFormed(store: Store, id: int, request: PatchRequest, callerEmail: string, clock: int)
    requires WellFormed(store)
    ensures WellFormed(PatchComplaint(store, id, request, callerEmail, clock))
  {
    var r := PatchComplaint(store, id, request, callerEmail, clock);
    SameKeys(store.complaints, r.complaints);
  }

  /** Rows that keep their ids and case numbers keep them distinct. */
  lemma SameKeys(before: seq<Complaint>, after: seq<Complaint>)
    requires |after| == |before|
    requires forall i | 0 <= i < |before| :: after[i].id == before[i].id && after[i].caseNumber == before[i].caseNumber
    ensures forall i | 0 <= i < |after| :: after[i].id == before[i].id
    ensures forall i, j | 0 <= i < j < |after| ::
              (after[i].id != after[j].id <==> before[i].id != before[j].id)
              && (after[i].caseNumber != after[j].caseNumber <==> before[i].caseNumber != before[j].caseNumber)
  {
  }

  /** Patching an id no row has leaves every complaint as it was. */
  lemma PatchUnknownIdChangesNoComplaint(store: Store, id: int, request: PatchRequest, callerEmail: string, clock: int)
    requires forall i | 0 <= i < |store.complaints| :: store.complaints[i].id != id
    ensures PatchComplaint(store, id, request, callerEmail, clock).complaints == store.complaints
  {
  }

  // ---------------------------------------------------------------- replies

  /** The parts of a JSON reply body the client reads; `errors` lists each entry's
      `message` (an entry without one is `None`). */
  datatype Body = Body(caseNumber: Option<string>, error: Option<string>, errors: seq<Option<string>>)

  /** An HTTP answer: status code and the body, `None` when it is not JSON. */
  datatype Reply = Reply(status: int, body: Option<Body>)

  function ErrorMessages(errors: seq<FieldError>): (r: seq<Option<string>>)
    ensures |r| == |errors|
    ensures forall k | 0 <= k < |errors| :: r[k] == Some(errors[k].message)
  {
    if |errors| == 0 then [] else [Some(errors[0].message)] + ErrorMessages(errors[1..])
  }

  /** How each outcome of POST /api/complaints reaches the client. */
  function CreationReply(r: Creation): Reply {
    match r
    case Created(_, caseNumber, _) => Reply(201, Some(Body(Some(caseNumber), None, [])))
    case Invalid(error, errors) => Reply(400, Some(Body(None, Some(error), ErrorMessages(errors))))
    case UploadRefused(_) => Reply(500, None)
    case InsertFailed => Reply(500, Some(Body(None, Some(InsertFailedError), [])))
  }
}
