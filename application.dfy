/**
 * The Express controller `submitApplication`: validate the body with
 * `applicationSchema`, then either append a row to the configured Google
 * Sheet or build an Excel workbook and upload it to Google Drive, and answer
 * with 200, 400 (validation) or 500 (anything else).
 *
 * `GOOGLE_SHEET_ID`, the clock and the outcomes of the Sheets append and
 * the Drive upload are parameters; the response says which adapters the
 * handler called.
 */
module Application {
  import opened Wrappers
  import opened Text
  import opened Schema
  import opened Forms
  import GoogleDrive
  import GoogleSheets
  import MembersApi

  // ---------------------------------------------------------------------
  // `applicationSchema`
  // ---------------------------------------------------------------------

  /** One field of the schema: the shared rules, plus the three links, which must be absent, empty or a URL. */
  predicate FieldOk(d: Draft, g: Grammars, f: Field)
  {
    if f == FacebookLink then OptionalUrlOk(d.facebookLink, g)
    else if f == InstagramLink then OptionalUrlOk(d.instagramLink, g)
    else if f == WebsiteLink then OptionalUrlOk(d.websiteLink, g)
    else CommonFieldOk(d, f, g)
  }

  /** Every rule of the schema, spelled out. `phone` need only be a string. */
  predicate ApplicationOk(d: Draft, g: Grammars)
  {
    && MinLength(d.englishName, 1) && MinLength(d.chapter, 1) && MinLength(d.profession, 1)
    && Present(d.phone) && EmailOk(d.email, g)
    && YearsOk(d.yearsOfMembership) && YesNoOk(d.isGoldMember)
    && MinLength(d.weddingCategory, 1) && MinLength(d.weddingServices, 10)
    && OptionalUrlOk(d.facebookLink, g) && OptionalUrlOk(d.instagramLink, g)
    && OptionalUrlOk(d.websiteLink, g)
  }

  lemma RulesAgree(d: Draft, g: Grammars)
    ensures (forall f :: FieldOk(d, g, f)) <==> ApplicationOk(d, g)
  {
    if forall f :: FieldOk(d, g, f) {
      assert FieldOk(d, g, EnglishName) && FieldOk(d, g, Chapter) && FieldOk(d, g, Profession);
      assert FieldOk(d, g, Phone) && FieldOk(d, g, Email) && FieldOk(d, g, YearsOfMembership);
      assert FieldOk(d, g, IsGoldMember) && FieldOk(d, g, WeddingCategory) && FieldOk(d, g, WeddingServices);
      assert FieldOk(d, g, FacebookLink) && FieldOk(d, g, InstagramLink) && FieldOk(d, g, WebsiteLink);
    }
  }

  /** The paths of the `ZodError` issues, in schema order. */
  function Issues(d: Draft, g: Grammars): seq<Field>
  {
    Failing(ApplicationFields, f => FieldOk(d, g, f))
  }

  /** The issues name exactly the fields that break their rule. */
  lemma IssuesNameFailingFields(d: Draft, g: Grammars)
    ensures forall f :: f in Issues(d, g) <==> !FieldOk(d, g, f)
  {
    ApplicationFieldsAreAllButFiles();
    assert FieldOk(d, g, Files);
  }

  /** There are no issues exactly when the body parses. */
  lemma NoIssuesIffValid(d: Draft, g: Grammars)
    ensures Issues(d, g) == [] <==> ApplicationOk(d, g)
  {
    IssuesNameFailingFields(d, g);
    RulesAgree(d, g);
    var r := Issues(d, g);
    assert r != [] ==> r[0] in r;
  }

  /** An invalid email and zero years are both reported, and the answer is 400. */
  lemma InvalidEmailAndYearsReported(d: Draft, g: Grammars)
    requires d.email.Some? && !g.isEmail(d.email.value)
    requires d.yearsOfMembership == Some(0)
    ensures Email in Issues(d, g) && YearsOfMembership in Issues(d, g)
  {
    assert !FieldOk(d, g, Email) && !FieldOk(d, g, YearsOfMembership);
    IssuesNameFailingFields(d, g);
  }

  // ---------------------------------------------------------------------
  // `submitApplication`
  // ---------------------------------------------------------------------

  /** The adapter calls the handler makes. */
  datatype Effect =
    | AppendToSheet(spreadsheetId: string, sheetName: string)   // `appendToGoogleSheet(data, spreadsheetId)`, default sheet name
    | BuildWorkbook                          // `createExcelFromData(data)`
    | UploadWorkbook(fileName: string)       // `uploadToGoogleDrive(buffer, fileName)`

  /** The JSON answers. */
  datatype Reply =
    | SheetAppended(spreadsheetId: string)
    | UploadedToDrive(fileId: string)
    | Invalid(details: seq<Field>)
    | Failure

  function StatusCode(r: Reply): (code: int)
    ensures code == 400 <==> r.Invalid?
    ensures code == 500 <==> r == Failure
    ensures code == 200 <==> r.SheetAppended? || r.UploadedToDrive?
  {
    match r
    case Invalid(_) => 400
    case Failure => 500
    case _ => 200
  }

  function Message(r: Reply): string
  {
    match r
    case SheetAppended(_) => "申請已成功提交並新增至 Google Sheet"
    case UploadedToDrive(_) => "申請已成功提交並上傳至 Google Drive"
    case Invalid(_) => "資料驗證失敗"
    case Failure => "提交失敗，請稍後再試"
  }

  /** `${englishName}_${Date.now()}.xlsx`. */
  function WorkbookName(englishName: string, now: nat): string
  {
    englishName + "_" + NatToString(now) + ".xlsx"
  }

  /** The workbook name always ends in `.xlsx`, so the Drive upload infers the spreadsheet type. */
  lemma WorkbookIsXlsx(englishName: string, now: nat)
    ensures GoogleDrive.MimeTypeFor(WorkbookName(englishName, now)) == GoogleDrive.XlsxType
  {
    assert WorkbookName(englishName, now) == (englishName + "_" + NatToString(now)) + "." + "xlsx";
    GoogleDrive.KnownExtension(englishName + "_" + NatToString(now), "xlsx");
  }

  /**
   * The handler. `sheetId` is `GOOGLE_SHEET_ID`; `appended` is the outcome of
   * the Sheets append, `uploaded` that of the Drive upload (the file id or
   * the error), `now` the clock in milliseconds. Answers with the calls made
   * and the reply.
   */
  function SubmitApplication(
    d: Draft, g: Grammars, sheetId: Option<string>,
    appended: Outcome, uploaded: Result<string, string>, now: nat): (r: (seq<Effect>, Reply))
    ensures !ApplicationOk(d, g) ==> r.0 == [] && r.1 == Invalid(Issues(d, g)) && Issues(d, g) != []
    ensures ApplicationOk(d, g) && Truthy(sheetId) ==>
      && r.0 == [AppendToSheet(sheetId.value, GoogleSheets.DefaultSheetName)]
      && (appended == Done ==> r.1 == SheetAppended(sheetId.value))
      && (appended != Done ==> r.1 == Failure)
    ensures ApplicationOk(d, g) && !Truthy(sheetId) ==>
      && r.0 == [BuildWorkbook, UploadWorkbook(WorkbookName(d.englishName.value, now))]
      && (uploaded.Ok? ==> r.1 == UploadedToDrive(uploaded.value))
      && (uploaded.Err? ==> r.1 == Failure)
    ensures r.1.Invalid? <==> !ApplicationOk(d, g)
  {
    if !ApplicationOk(d, g) then
      NoIssuesIffValid(d, g);
      ([], Invalid(Issues(d, g)))
    else if Truthy(sheetId) then
      ([AppendToSheet(sheetId.value, GoogleSheets.DefaultSheetName)], if appended == Done then SheetAppended(sheetId.value) else Failure)
    else
      ([BuildWorkbook, UploadWorkbook(WorkbookName(d.englishName.value, now))],
       if uploaded.Ok? then UploadedToDrive(uploaded.value) else Failure)
  }

  /** At most one of the two storage paths runs, and neither runs on a validation failure. */
  lemma ExactlyOnePath(
    d: Draft, g: Grammars, sheetId: Option<string>,
    appended: Outcome, uploaded: Result<string, string>, now: nat)
    ensures var effects := SubmitApplication(d, g, sheetId, appended, uploaded, now).0;
      && (effects == [] <==> !ApplicationOk(d, g))
      && !(exists i, j :: 0 <= i < |effects| && 0 <= j < |effects|
             && effects[i].AppendToSheet? && effects[j].UploadWorkbook?)
  {
  }

  // ---------------------------------------------------------------------
  // What the Sheets service receives
  // ---------------------------------------------------------------------

  /**
   * The parsed body as the Sheets service sees it: zod keeps only the
   * schema's keys, so D&A, the Admin Group answer, the files, the logo and
   * the business figures are all absent.
   */
  function SheetRecord(d: Draft): (s: GoogleSheets.SheetApplication)
    requires Parsed(d)
    ensures s.englishName == d.englishName.value && s.email == d.email.value
    ensures s.isDnA.None? && s.interestedInAdmin.None? && s.files.None? && s.logoFileUrl.None?
  {
    GoogleSheets.SheetApplication(
      d.englishName.value, d.companyName, d.chapter.value, d.profession.value,
      d.phone.value, d.email.value, d.yearsOfMembership.value,
      ParseYesNo(d.isGoldMember.value).value, None,
      d.weddingCategory.value, d.weddingServices.value, d.serviceArea,
      d.pastCasesCount, d.uniqueAdvantage, d.facebookLink, d.instagramLink,
      d.websiteLink, d.bniMemberDiscount, d.referrer,
      None, None, None, None, None, None, None)
  }

  /**
   * Every row the controller appends says "No" under D&A and leaves the
   * file, logo and Admin Group columns blank.
   */
  lemma ControllerRowGaps(d: Draft, g: Grammars, submittedAt: string)
    requires ApplicationOk(d, g)
    ensures var r := GoogleSheets.Row(SheetRecord(d), submittedAt);
      r[9] == "No" && r[18] == "" && r[19] == "" && r[23] == ""
  {
  }

  // ---------------------------------------------------------------------
  // Against the tRPC `submit` schema
  // ---------------------------------------------------------------------

  /** A body this schema accepts, sent with three files, passes the tRPC `submit` schema too. */
  lemma AcceptedByTrpc(d: Draft, g: Grammars, files: seq<FileDescriptor>)
    requires ApplicationOk(d, g) && |files| == 3
    ensures MembersApi.SubmitOk(d, Some(files), g)
  {
  }

  /** The converse fails: the tRPC schema takes any link text, this one only URLs. */
  lemma TrpcAcceptsWhatThisRejects()
    ensures exists d: Draft, g: Grammars, files: seq<FileDescriptor> ::
      MembersApi.SubmitOk(d, Some(files), g) && !ApplicationOk(d, g)
  {
    var g := Grammars(s => true, s => false);
    var d := Draft(
      Some("Ann"), None, Some("Taipei"), Some("Photo"), Some("0912"), Some("ann@example.com"),
      Some(3), Some("no"), Some("攝影"), Some("Weddings and receptions"), None, None, None,
      Some("facebook"), None, None, None, None);
    var f := FileDescriptor("k", "u", "n", 1, "image/png");
    var files := [f, f, f];
    assert g.isEmail(d.email.value) && !g.isUrl(d.facebookLink.value);
    assert MembersApi.SubmitOk(d, Some(files), g) && !ApplicationOk(d, g);
  }
}
