/**
 * What the three submission validators share: the request body as it
 * arrives (every key may be missing), the names of its fields, the email
 * and URL grammars (left abstract), the individual zod rules, and the way a
 * schema reports the fields that fail.
 *
 * The three schemas themselves live with their source files:
 * `MembersApi.SubmitIssues` (the tRPC procedure), `Application.Issues` (the
 * Express controller) and `MemberForm.Issues` (the browser form).
 */
module Forms {
  import opened Wrappers

  /**
   * A submitted application body. A field is `None` when the key is absent;
   * present values already have the JavaScript type the schema asks for.
   */
  datatype Draft = Draft(
    englishName: Option<string>,
    companyName: Option<string>,
    chapter: Option<string>,
    profession: Option<string>,
    phone: Option<string>,
    email: Option<string>,
    yearsOfMembership: Option<int>,
    isGoldMember: Option<string>,
    weddingCategory: Option<string>,
    weddingServices: Option<string>,
    serviceArea: Option<string>,
    pastCasesCount: Option<int>,
    uniqueAdvantage: Option<string>,
    facebookLink: Option<string>,
    instagramLink: Option<string>,
    websiteLink: Option<string>,
    bniMemberDiscount: Option<string>,
    referrer: Option<string>)

  /** One uploaded file as the client describes it to the tRPC `submit` procedure. */
  datatype FileDescriptor = FileDescriptor(
    fileKey: string,
    fileUrl: string,
    fileName: string,
    fileSize: int,
    mimeType: string)

  /** The path of a field in a validation issue. */
  datatype Field =
    | EnglishName | CompanyName | Chapter | Profession | Phone | Email
    | YearsOfMembership | IsGoldMember | WeddingCategory | WeddingServices
    | ServiceArea | PastCasesCount | UniqueAdvantage | FacebookLink
    | InstagramLink | WebsiteLink | BniMemberDiscount | Referrer | Files

  /** The eighteen application fields in the order the schemas declare them. */
  const ApplicationFields: seq<Field> := [
    EnglishName, CompanyName, Chapter, Profession, Phone, Email,
    YearsOfMembership, IsGoldMember, WeddingCategory, WeddingServices,
    ServiceArea, PastCasesCount, UniqueAdvantage, FacebookLink,
    InstagramLink, WebsiteLink, BniMemberDiscount, Referrer]

  /** The application fields are every field but the file list. */
  lemma ApplicationFieldsAreAllButFiles()
    ensures forall f :: f in ApplicationFields <==> f != Files
  {
    forall f
      ensures f in ApplicationFields <==> f != Files
    {
      match f
      case EnglishName => assert f == ApplicationFields[0];
      case CompanyName => assert f == ApplicationFields[1];
      case Chapter => assert f == ApplicationFields[2];
      case Profession => assert f == ApplicationFields[3];
      case Phone => assert f == ApplicationFields[4];
      case Email => assert f == ApplicationFields[5];
      case YearsOfMembership => assert f == ApplicationFields[6];
      case IsGoldMember => assert f == ApplicationFields[7];
      case WeddingCategory => assert f == ApplicationFields[8];
      case WeddingServices => assert f == ApplicationFields[9];
      case ServiceArea => assert f == ApplicationFields[10];
      case PastCasesCount => assert f == ApplicationFields[11];
      case UniqueAdvantage => assert f == ApplicationFields[12];
      case FacebookLink => assert f == ApplicationFields[13];
      case InstagramLink => assert f == ApplicationFields[14];
      case WebsiteLink => assert f == ApplicationFields[15];
      case BniMemberDiscount => assert f == ApplicationFields[16];
      case Referrer => assert f == ApplicationFields[17];
      case Files =>
    }
  }

  /** zod's `.email()` and `.url()` grammars, left abstract. */
  datatype Grammars = Grammars(isEmail: string -> bool, isUrl: string -> bool)

  // ---------------------------------------------------------------------
  // zod rules on one field
  // ---------------------------------------------------------------------

  /** `z.string().min(n)`: present and at least `n` characters long. */
  predicate MinLength(o: Option<string>, n: nat)
  {
    o.Some? && |o.value| >= n
  }

  /** `z.string()`: present, any content. */
  predicate Present<T>(o: Option<T>)
  {
    o.Some?
  }

  /** `z.string().email()`. */
  predicate EmailOk(o: Option<string>, g: Grammars)
  {
    o.Some? && g.isEmail(o.value)
  }

  /** `z.number().min(1).max(25)`. */
  predicate YearsOk(o: Option<int>)
  {
    o.Some? && 1 <= o.value <= 25
  }

  /** `z.enum(['yes', 'no'])`. */
  predicate YesNoOk(o: Option<string>)
  {
    o.Some? && o.value in {"yes", "no"}
  }

  /** `z.string().url().optional().or(z.literal(''))`: absent, empty, or a URL. */
  predicate OptionalUrlOk(o: Option<string>, g: Grammars)
  {
    o.None? || o.value == "" || g.isUrl(o.value)
  }

  /**
   * The rules every schema applies to the fields it constrains beyond their
   * type: the required texts, the email, the years and the gold flag. The
   * optional plain-text fields accept anything of the right type.
   */
  predicate CommonFieldOk(d: Draft, f: Field, g: Grammars)
  {
    match f
    case EnglishName => MinLength(d.englishName, 1)
    case Chapter => MinLength(d.chapter, 1)
    case Profession => MinLength(d.profession, 1)
    case Phone => Present(d.phone)
    case Email => EmailOk(d.email, g)
    case YearsOfMembership => YearsOk(d.yearsOfMembership)
    case IsGoldMember => YesNoOk(d.isGoldMember)
    case WeddingCategory => MinLength(d.weddingCategory, 1)
    case WeddingServices => MinLength(d.weddingServices, 10)
    case _ => true
  }

  /** The keys every schema requires, and so every parsed body carries. */
  predicate Parsed(d: Draft)
  {
    && d.englishName.Some? && d.chapter.Some? && d.profession.Some? && d.phone.Some?
    && d.email.Some? && d.yearsOfMembership.Some? && YesNoOk(d.isGoldMember)
    && d.weddingCategory.Some? && d.weddingServices.Some?
  }

  // ---------------------------------------------------------------------
  // Reporting
  // ---------------------------------------------------------------------

  /** `r` can be obtained from `s` by deleting elements: its elements occur in `s` in the same order. */
  predicate Subsequence<T(==)>(r: seq<T>, s: seq<T>)
    decreases |s|
  {
    if r == [] then true
    else if s == [] then false
    else (r[0] == s[0] && Subsequence(r[1..], s[1..])) || Subsequence(r, s[1..])
  }

  /** The fields of `order` that fail `ok`, in schema order: the paths of a `ZodError`. */
  function Failing(order: seq<Field>, ok: Field -> bool): (r: seq<Field>)
    ensures forall f :: f in r <==> f in order && !ok(f)
    ensures Subsequence(r, order)
    ensures |r| <= |order|
  {
    if order == [] then []
    else
      var rest := Failing(order[1..], ok);
      if ok(order[0]) then
        assert rest == [] || Subsequence(rest, order[1..]);
        rest
      else
        assert ([order[0]] + rest)[1..] == rest;
        [order[0]] + rest
  }
}
