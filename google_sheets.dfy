/**
 * `appendToGoogleSheet` of the Express back end: the 26-cell data row built
 * from an application, the 26 headers, the choice of sheet, the decision to
 * write the header row, and the requests sent to the Sheets API.
 *
 * The submission time (`toLocaleString('zh-TW')`), the private-key
 * environment variable and the outcome of each Sheets call are parameters.
 */
module GoogleSheets {
  import opened Wrappers
  import opened Text
  import opened Schema
  import opened Forms
  import opened Calls
  import opened Cells

  /** The record the Sheets service is typed to receive. */
  datatype SheetApplication = SheetApplication(
    englishName: string,
    companyName: Option<string>,
    chapter: string,
    profession: string,
    phone: string,
    email: string,
    yearsOfMembership: int,
    isGoldMember: YesNo,
    isDnA: Option<YesNo>,
    weddingCategory: string,
    weddingServices: string,
    serviceArea: Option<string>,
    pastCasesCount: Option<int>,
    uniqueAdvantage: Option<string>,
    facebookLink: Option<string>,
    instagramLink: Option<string>,
    websiteLink: Option<string>,
    bniMemberDiscount: Option<string>,
    referrer: Option<string>,
    bniWeddingBusinessCount: Option<int>,
    bniBusinessAmount: Option<string>,
    bnwgGoals: Option<string>,
    interestedInAdmin: Option<YesNo>,
    files: Option<seq<FileDescriptor>>,
    logoFileKey: Option<string>,
    logoFileUrl: Option<string>)

  /** The header row, one title per column A to Z. */
  const SheetHeaders: seq<string> := [
    "提交時間", "英文名稱", "公司/品牌名稱", "所屬分會", "專業領域", "會員電話",
    "會員電郵", "入會年資", "金章會員", "D&A", "婚宴分類", "婚宴服務描述",
    "服務區域", "過往婚宴案例數量", "特色服務/差異化優勢", "Facebook 連結",
    "Instagram 連結", "網站連結", "Logo 連結", "綠燈證明文件連結",
    "在 BNI 所獲得的婚禮相關業務宗數", "生意成交金額",
    "最期望透過 BNI Wedding Group 完成的目標", "會否有興趣將來成為 Admin Group 成員",
    "BNI 會員折扣", "介紹人"]

  /** The data row for one application, submitted at `submittedAt`: one cell under each header. */
  function Row(d: SheetApplication, submittedAt: string): (r: seq<string>)
    ensures |r| == |SheetHeaders| == 26
  {
    [ submittedAt,
      d.englishName,
      OrEmpty(d.companyName),
      d.chapter,
      d.profession,
      d.phone,
      d.email,
      YearsText(d.yearsOfMembership),
      GoldLabel(d.isGoldMember),
      if d.isDnA == Some(Yes) then "Yes" else "No",
      d.weddingCategory,
      d.weddingServices,
      OrEmpty(d.serviceArea),
      OptionalNumber(d.pastCasesCount),
      OrEmpty(d.uniqueAdvantage),
      OrEmpty(d.facebookLink),
      OrEmpty(d.instagramLink),
      OrEmpty(d.websiteLink),
      OrEmpty(d.logoFileUrl),
      FileUrls(d.files),
      OptionalNumber(d.bniWeddingBusinessCount),
      OrEmpty(d.bniBusinessAmount),
      OrEmpty(d.bnwgGoals),
      TriState(d.interestedInAdmin),
      OrEmpty(d.bniMemberDiscount),
      OrEmpty(d.referrer) ]
  }

  /**
   * The flag columns: the gold cell is 是 exactly for a gold member; the
   * D&A cell is two-state, "Yes" only for an explicit yes and "No" otherwise
   * (absent included); the Admin Group cell is tri-state, blank when absent.
   */
  lemma RowFlags(d: SheetApplication, submittedAt: string)
    ensures var r := Row(d, submittedAt);
      && SheetHeaders[8] == "金章會員" && (r[8] == "是" <==> d.isGoldMember == Yes) && r[8] in {"是", "否"}
      && SheetHeaders[9] == "D&A" && (r[9] == "Yes" <==> d.isDnA == Some(Yes)) && r[9] in {"Yes", "No"}
      && SheetHeaders[23] == "會否有興趣將來成為 Admin Group 成員"
      && (r[23] == "" <==> d.interestedInAdmin.None?)
      && (r[23] == "Yes" <==> d.interestedInAdmin == Some(Yes))
  {
  }

  /** Every absent optional field leaves its column blank. */
  lemma AbsentFieldsBlank(d: SheetApplication, submittedAt: string)
    requires d.companyName.None? && d.serviceArea.None? && d.pastCasesCount.None?
    requires d.uniqueAdvantage.None? && d.facebookLink.None? && d.instagramLink.None?
    requires d.websiteLink.None? && d.logoFileUrl.None? && d.files.None?
    requires d.bniWeddingBusinessCount.None? && d.bniBusinessAmount.None? && d.bnwgGoals.None?
    requires d.interestedInAdmin.None? && d.bniMemberDiscount.None? && d.referrer.None?
    ensures var r := Row(d, submittedAt);
      forall i :: i in {2, 12, 13, 14, 15, 16, 17, 18, 19, 20, 21, 22, 23, 24, 25} ==> r[i] == ""
  {
  }

  // ---------------------------------------------------------------------
  // The requests `appendToGoogleSheet` sends
  // ---------------------------------------------------------------------

  /** What `spreadsheets.get` answers: the titles of the sheets, if the list is present. */
  datatype Spreadsheet = Spreadsheet(sheetTitles: Option<seq<Option<string>>>)

  /** A Sheets request: read the spreadsheet's sheets, read the first row, write the header row, or append rows. */
  datatype SheetRequest =
    | ReadSheets
    | ReadRange(range: string)
    | UpdateRange(range: string, values: seq<seq<string>>)
    | AppendRows(range: string, values: seq<seq<string>>)

  /** The spreadsheet has a first sheet. */
  predicate HasSheets(m: Spreadsheet)
  {
    m.sheetTitles.Some? && m.sheetTitles.value != []
  }

  const DefaultSheetName := "Sheet1"
  const KeyMissingMessage := "GOOGLE_DRIVE_PRIVATE_KEY 環境變數未設定"
  const NoSheetMessage := "找不到工作表"
  const WriteFailedPrefix := "寫入 Google Sheet 失敗: "

  /** The range of the header row of a sheet. */
  function HeaderRange(title: string): string
  {
    "'" + title + "'!A1:Z1"
  }

  /** The range rows are appended to. */
  function AppendRange(title: string): string
  {
    "'" + title + "'!A:A"
  }

  /** The failure of any step inside the service's `try`, wrapped with the service's prefix. */
  function Wrapped(t: Thrown): string
  {
    WriteFailedPrefix + MessageOr(t, "未知錯誤")
  }

  /** `firstSheet.properties?.title || sheetName`. */
  function SheetTitle(firstTitle: Option<string>, sheetName: string): (r: string)
    ensures Truthy(firstTitle) ==> r == firstTitle.value
    ensures !Truthy(firstTitle) ==> r == sheetName
  {
    if Truthy(firstTitle) then firstTitle.value else sheetName
  }

  /** Headers are needed when the first row could not be read, or came back without values or empty. */
  predicate NeedsHeaders(firstRow: Call<Option<seq<seq<string>>>>)
  {
    match firstRow
    case Threw(_) => true
    case Returned(values) => values.None? || |values.value| == 0 || |values.value[0]| == 0
  }

  /**
   * `appendToGoogleSheet(data, spreadsheetId, sheetName)`. `privateKey` is
   * the environment variable read before anything is sent; `metadata`,
   * `firstRow`, `headerWrite` and `append` are the outcomes of the four
   * Sheets calls. Returns the reads and writes issued, in order, and the
   * outcome; every failure after the key check carries the service's prefix.
   */
  method AppendToGoogleSheet(
    d: SheetApplication, sheetName: string, submittedAt: string, privateKey: Option<string>,
    metadata: Call<Spreadsheet>, firstRow: Call<Option<seq<seq<string>>>>,
    headerWrite: Call<()>, append: Call<()>)
    returns (requests: seq<SheetRequest>, outcome: Outcome)
    ensures !Truthy(privateKey) ==> requests == [] && outcome == Failed(KeyMissingMessage)
    ensures Truthy(privateKey) ==> |requests| >= 1 && requests[0] == ReadSheets
    ensures Truthy(privateKey) && metadata.Threw? ==> requests == [ReadSheets] && outcome == Failed(Wrapped(metadata.thrown))
    ensures Truthy(privateKey) && metadata.Returned? && !HasSheets(metadata.value) ==>
      requests == [ReadSheets] && outcome == Failed(WriteFailedPrefix + NoSheetMessage)
    ensures Truthy(privateKey) && metadata.Returned? && HasSheets(metadata.value) ==>
      var title := SheetTitle(metadata.value.sheetTitles.value[0], sheetName);
      var headers := if NeedsHeaders(firstRow) then [UpdateRange(HeaderRange(title), [SheetHeaders])] else [];
      && (NeedsHeaders(firstRow) && headerWrite.Threw? ==>
            requests == [ReadSheets, ReadRange(HeaderRange(title))] + headers
            && outcome == Failed(Wrapped(headerWrite.thrown)))
      && (!NeedsHeaders(firstRow) || headerWrite.Returned? ==>
            requests == [ReadSheets, ReadRange(HeaderRange(title))] + headers
                        + [AppendRows(AppendRange(title), [Row(d, submittedAt)])]
            && (outcome == Done <==> append.Returned?)
            && (append.Threw? ==> outcome == Failed(Wrapped(append.thrown))))
    ensures forall q :: q in requests && (q.UpdateRange? || q.AppendRows?) ==> forall row :: row in q.values ==> |row| == 26
  {
    requests := [];
    if !Truthy(privateKey) {
      return [], Failed(KeyMissingMessage);
    }
    var row := Row(d, submittedAt);

    requests := requests + [ReadSheets];
    if metadata.Threw? {
      return requests, Failed(Wrapped(metadata.thrown));
    }
    var titles := metadata.value.sheetTitles;
    if titles.None? || titles.value == [] {
      return requests, Failed(WriteFailedPrefix + NoSheetMessage);
    }
    var title := SheetTitle(titles.value[0], sheetName);

    var hasHeaders := false;
    requests := requests + [ReadRange(HeaderRange(title))];
    match firstRow {
      case Returned(values) =>
        hasHeaders := values.Some? && |values.value| > 0 && |values.value[0]| > 0;
      case Threw(_) =>
        hasHeaders := false;
    }

    if !hasHeaders {
      requests := requests + [UpdateRange(HeaderRange(title), [SheetHeaders])];
      if headerWrite.Threw? {
        return requests, Failed(Wrapped(headerWrite.thrown));
      }
    }

    requests := requests + [AppendRows(AppendRange(title), [row])];
    if append.Threw? {
      return requests, Failed(Wrapped(append.thrown));
    }
    outcome := Done;
  }
}
