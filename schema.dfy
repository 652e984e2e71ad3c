/**
 * The relational schema of the member-registration service: the `users`
 * role column, the `members` table and the `memberFiles` table. Column
 * types become Dafny types (NOT NULL columns are plain values, nullable ones
 * are `Option`s, MySQL enums are datatypes); the column lengths and the
 * signed 32-bit range of `int` columns become the predicates `MemberFits` and
 * `FileFits`, which a row must satisfy to be stored.
 */
module Schema {
  import opened Wrappers

  /** `users.role`: an enum defaulting to `user`. */
  datatype Role = UserRole | AdminRole

  const DefaultRole: Role := UserRole

  /** `members.isGoldMember` (and every other 'yes' | 'no' flag of the forms). */
  datatype YesNo = Yes | No

  /** `members.status`: the review state of an application. */
  datatype Status = Pending | Approved | Rejected

  /** The column default of `members.status`. */
  const DefaultStatus: Status := Pending

  /** The enum's literal for each status. */
  function StatusName(s: Status): (r: string)
    ensures r in {"pending", "approved", "rejected"}
  {
    match s
    case Pending => "pending"
    case Approved => "approved"
    case Rejected => "rejected"
  }

  /** `z.enum(["pending", "approved", "rejected"])`: only the three literals parse. */
  function ParseStatus(s: string): (r: Option<Status>)
    ensures r.Some? <==> s in {"pending", "approved", "rejected"}
    ensures r.Some? ==> StatusName(r.value) == s
  {
    if s == "pending" then Some(Pending)
    else if s == "approved" then Some(Approved)
    else if s == "rejected" then Some(Rejected)
    else None
  }

  /** `z.enum(['yes', 'no'])`. */
  function ParseYesNo(s: string): (r: Option<YesNo>)
    ensures r.Some? <==> s in {"yes", "no"}
    ensures r == Some(Yes) <==> s == "yes"
  {
    if s == "yes" then Some(Yes) else if s == "no" then Some(No) else None
  }

  lemma {:induction false} StatusNameRoundTrip(s: Status)
    ensures ParseStatus(StatusName(s)) == Some(s)
  {
    match s
    case Pending =>
    case Approved =>
    case Rejected =>
  }

  /** A row of `members`. Timestamps are instants in milliseconds. */
  datatype Member = Member(
    id: nat,
    englishName: string,
    companyName: Option<string>,
    chapter: string,
    profession: string,
    phone: string,
    email: string,
    yearsOfMembership: int,
    isGoldMember: YesNo,
    weddingCategory: Option<string>,
    weddingServices: string,
    serviceArea: Option<string>,
    pastCasesCount: Option<int>,
    uniqueAdvantage: Option<string>,
    facebookLink: Option<string>,
    instagramLink: Option<string>,
    websiteLink: Option<string>,
    bniMemberDiscount: Option<string>,
    referrer: Option<string>,
    status: Status,
    createdAt: int,
    updatedAt: int)

  /** A row of `memberFiles`. */
  datatype MemberFile = MemberFile(
    id: nat,
    memberId: nat,
    fileKey: string,
    fileUrl: string,
    fileName: string,
    fileSize: Option<int>,
    mimeType: Option<string>,
    uploadedAt: int)

  /** MySQL `int`: signed 32 bits. */
  predicate IsInt32(x: int)
  {
    -0x8000_0000 <= x < 0x8000_0000
  }

  /** A `varchar(n)` value (MySQL counts characters). */
  predicate FitsVarchar(s: string, n: nat)
  {
    |s| <= n
  }

  predicate FitsNullableVarchar(o: Option<string>, n: nat)
  {
    o.None? || |o.value| <= n
  }

  predicate FitsNullableInt(o: Option<int>)
  {
    o.None? || IsInt32(o.value)
  }

  /** The column constraints of `members` that the Dafny types do not already enforce. */
  predicate MemberFits(m: Member)
  {
    && IsInt32(m.id)
    && FitsVarchar(m.englishName, 255)
    && FitsNullableVarchar(m.companyName, 255)
    && FitsVarchar(m.chapter, 255)
    && FitsVarchar(m.profession, 255)
    && FitsVarchar(m.phone, 50)
    && FitsVarchar(m.email, 320)
    && IsInt32(m.yearsOfMembership)
    && FitsNullableVarchar(m.serviceArea, 500)
    && FitsNullableInt(m.pastCasesCount)
    && FitsNullableVarchar(m.facebookLink, 500)
    && FitsNullableVarchar(m.instagramLink, 500)
    && FitsNullableVarchar(m.websiteLink, 500)
    && FitsNullableVarchar(m.bniMemberDiscount, 500)
    && FitsNullableVarchar(m.referrer, 255)
  }

  /** The column constraints of `memberFiles` that the Dafny types do not already enforce. */
  predicate FileFits(f: MemberFile)
  {
    && IsInt32(f.id)
    && IsInt32(f.memberId)
    && FitsVarchar(f.fileKey, 500)
    && FitsVarchar(f.fileUrl, 1000)
    && FitsVarchar(f.fileName, 255)
    && FitsNullableInt(f.fileSize)
    && FitsNullableVarchar(f.mimeType, 100)
  }
}
