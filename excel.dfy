/**
 * `createExcelFromData` of the Express back end: the worksheet of 29
 * label/value rows built from an application. Writing the workbook (column
 * widths, sheet name, the XLSX encoding) is not part of this model.
 */
module Excel {
  import opened Wrappers
  import opened Schema
  import opened Forms
  import opened Cells
  import GoogleSheets

  /** The record the Excel service is typed to receive: the name comes as first and last name. */
  datatype ExcelApplication = ExcelApplication(
    englishFirstName: string,
    englishLastName: string,
    companyName: Option<string>,
    chapter: string,
    profession: string,
    phone: string,
    email: string,
    yearsOfMembership: int,
    isGoldMember: YesNo,
    isDnA: Option<YesNo>,
    weddingCategory: string,
    weddingServices: string,
    serviceArea: Option<string>,
    pastCasesCount: Option<int>,
    uniqueAdvantage: Option<string>,
    facebookLink: Option<string>,
    instagramLink: Option<string>,
    websiteLink: Option<string>,
    bniMemberDiscount: Option<string>,
    referrer: Option<string>,
    bniWeddingBusinessCount: Option<int>,
    bniBusinessAmount: Option<string>,
    bnwgGoals: Option<string>,
    interestedInAdmin: Option<YesNo>,
    files: Option<seq<FileDescriptor>>,
    logoFileKey: Option<string>,
    logoFileUrl: Option<string>)

  /** The first column of the worksheet, top to bottom. */
  const Labels: seq<string> := [
    "欄位", "提交時間", "姓", "名", "全名", "公司/品牌名稱", "所屬分會", "專業領域",
    "會員電話", "會員電郵", "入會年資", "金章會員", "D&A", "婚宴分類", "婚宴服務描述",
    "服務區域", "過往婚宴案例數量", "特色服務/差異化優勢", "Facebook 連結",
    "Instagram 連結", "網站連結", "Company Logo 連結", "綠燈證明文件連結",
    "在 BNI 所獲得的婚禮相關業務宗數", "生意成交金額",
    "最期望透過 BNI Wedding Group 完成的目標", "會否有興趣將來成為 Admin Group 成員",
    "BNI 會員折扣", "介紹人"]

  /** The second column: the header "內容", then one value per label. */
  function Values(d: ExcelApplication, submittedAt: string): (v: seq<string>)
    ensures |v| == |Labels| == 29
  {
    [ "內容",
      submittedAt,
      d.englishLastName,
      d.englishFirstName,
      d.englishLastName + " " + d.englishFirstName,
      OrEmpty(d.companyName),
      d.chapter,
      d.profession,
      d.phone,
      d.email,
      YearsText(d.yearsOfMembership),
      GoldLabel(d.isGoldMember),
      TriState(d.isDnA),
      d.weddingCategory,
      d.weddingServices,
      OrEmpty(d.serviceArea),
      OptionalNumber(d.pastCasesCount),
      OrEmpty(d.uniqueAdvantage),
      OrEmpty(d.facebookLink),
      OrEmpty(d.instagramLink),
      OrEmpty(d.websiteLink),
      OrEmpty(d.logoFileUrl),
      FileUrls(d.files),
      OptionalNumber(d.bniWeddingBusinessCount),
      OrEmpty(d.bniBusinessAmount),
      OrEmpty(d.bnwgGoals),
      TriState(d.interestedInAdmin),
      OrEmpty(d.bniMemberDiscount),
      OrEmpty(d.referrer) ]
  }

  /** `worksheetData`: 29 rows of a label and its value; the labels do not depend on the application. */
  function WorksheetData(d: ExcelApplication, submittedAt: string): (rows: seq<seq<string>>)
    ensures |rows| == 29
    ensures rows[0] == ["欄位", "內容"]
    ensures forall i :: 0 <= i < |rows| ==> |rows[i]| == 2 && rows[i][0] == Labels[i]
  {
    var v := Values(d, submittedAt);
    seq(29, i requires 0 <= i < 29 => [Labels[i], v[i]])
  }

  /**
   * The name rows: surname, given name, and the full name as surname, one
   * space, given name.
   */
  lemma NameRows(d: ExcelApplication, submittedAt: string)
    ensures var rows := WorksheetData(d, submittedAt);
      && rows[2] == ["姓", d.englishLastName]
      && rows[3] == ["名", d.englishFirstName]
      && rows[4] == ["全名", d.englishLastName + " " + d.englishFirstName]
  {
  }

  /** Both yes/no flags are tri-state here: "Yes", "No", or blank when absent; gold is 是 or 否. */
  lemma FlagRows(d: ExcelApplication, submittedAt: string)
    ensures var rows := WorksheetData(d, submittedAt);
      && rows[10][0] == "入會年資" && rows[10][1] == YearsText(d.yearsOfMembership)
      && rows[11][0] == "金章會員" && (rows[11][1] == "是" <==> d.isGoldMember == Yes)
      && rows[12][0] == "D&A" && (rows[12][1] == "" <==> d.isDnA.None?)
      && (rows[12][1] == "Yes" <==> d.isDnA == Some(Yes))
      && rows[26][1] == TriState(d.interestedInAdmin)
      && (rows[26][1] == "" <==> d.interestedInAdmin.None?)
  {
  }

  /** Every absent optional field leaves its value blank. */
  lemma AbsentFieldsBlank(d: ExcelApplication, submittedAt: string)
    requires d.companyName.None? && d.isDnA.None? && d.serviceArea.None? && d.pastCasesCount.None?
    requires d.uniqueAdvantage.None? && d.facebookLink.None? && d.instagramLink.None?
    requires d.websiteLink.None? && d.logoFileUrl.None? && d.files.None?
    requires d.bniWeddingBusinessCount.None? && d.bniBusinessAmount.None? && d.bnwgGoals.None?
    requires d.interestedInAdmin.None? && d.bniMemberDiscount.None? && d.referrer.None?
    ensures var rows := WorksheetData(d, submittedAt);
      forall i :: i in {5, 12, 15, 16, 17, 18, 19, 20, 21, 22, 23, 24, 25, 26, 27, 28} ==> rows[i][1] == ""
  {
  }

  /**
   * The two serialisers disagree on an absent D&A answer: the sheet writes
   * "No" where the worksheet leaves the value blank.
   */
  lemma AbsentDnADiffers(s: GoogleSheets.SheetApplication, e: ExcelApplication, submittedAt: string)
    requires s.isDnA.None? && e.isDnA.None?
    ensures GoogleSheets.Row(s, submittedAt)[9] == "No"
    ensures WorksheetData(e, submittedAt)[12][1] == ""
  {
  }
}
