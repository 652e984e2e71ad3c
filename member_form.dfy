/**
 * The browser form `MemberForm`: its validation schema `formSchema`, the
 * default values it starts from, the years it offers and the wedding
 * categories it lists. Posting the body and showing the result are not part
 * of this model.
 */
module MemberForm {
  import opened Wrappers
  import opened Text
  import opened Forms
  import Application

  // ---------------------------------------------------------------------
  // The phone pattern `^[\d\s\-\+\(\)]+$`
  // ---------------------------------------------------------------------

  /** JavaScript's `\s`: the white-space and line-terminator code points. */
  predicate IsJsSpace(c: char)
  {
    || c in {'\t', '\n', '\U{000B}', '\U{000C}', '\r', ' ', '\U{00A0}', '\U{1680}'}
    || ('\U{2000}' <= c <= '\U{200A}')
    || c in {'\U{2028}', '\U{2029}', '\U{202F}', '\U{205F}', '\U{3000}', '\U{FEFF}'}
  }

  /** One character of the class `[\d\s\-\+\(\)]`. */
  predicate IsPhoneChar(c: char)
  {
    IsDigit(c) || IsJsSpace(c) || c in {'-', '+', '(', ')'}
  }

  /** The whole text, and at least one character of it, matches the class. */
  predicate PhonePattern(s: string)
  {
    |s| >= 1 && forall i :: 0 <= i < |s| ==> IsPhoneChar(s[i])
  }

  /** `z.string().regex(...)`: present and matching. */
  predicate PhoneOk(o: Option<string>)
  {
    o.Some? && PhonePattern(o.value)
  }

  /** A matching phone number is never empty and holds no ASCII letter. */
  lemma PhonePatternHasNoLetters(s: string)
    requires PhonePattern(s)
    ensures s != []
    ensures forall i :: 0 <= i < |s| ==> !('a' <= s[i] <= 'z') && !IsUpper(s[i])
  {
    forall i | 0 <= i < |s|
      ensures !('a' <= s[i] <= 'z') && !IsUpper(s[i])
    {
      assert IsPhoneChar(s[i]);
    }
  }

  // ---------------------------------------------------------------------
  // `formSchema`
  // ---------------------------------------------------------------------

  /** One field of the form schema: the shared rules, the phone pattern, and the three optional links. */
  predicate FieldOk(d: Draft, g: Grammars, f: Field)
  {
    if f == Phone then PhoneOk(d.phone)
    else if f == FacebookLink then OptionalUrlOk(d.facebookLink, g)
    else if f == InstagramLink then OptionalUrlOk(d.instagramLink, g)
    else if f == WebsiteLink then OptionalUrlOk(d.websiteLink, g)
    else CommonFieldOk(d, f, g)
  }

  /** Every rule of the form schema, spelled out. */
  predicate FormOk(d: Draft, g: Grammars)
  {
    && MinLength(d.englishName, 1) && MinLength(d.chapter, 1) && MinLength(d.profession, 1)
    && PhoneOk(d.phone) && EmailOk(d.email, g)
    && YearsOk(d.yearsOfMembership) && YesNoOk(d.isGoldMember)
    && MinLength(d.weddingCategory, 1) && MinLength(d.weddingServices, 10)
    && OptionalUrlOk(d.facebookLink, g) && OptionalUrlOk(d.instagramLink, g)
    && OptionalUrlOk(d.websiteLink, g)
  }

  lemma RulesAgree(d: Draft, g: Grammars)
    ensures (forall f :: FieldOk(d, g, f)) <==> FormOk(d, g)
  {
    if forall f :: FieldOk(d, g, f) {
      assert FieldOk(d, g, EnglishName) && FieldOk(d, g, Chapter) && FieldOk(d, g, Profession);
      assert FieldOk(d, g, Phone) && FieldOk(d, g, Email) && FieldOk(d, g, YearsOfMembership);
      assert FieldOk(d, g, IsGoldMember) && FieldOk(d, g, WeddingCategory) && FieldOk(d, g, WeddingServices);
      assert FieldOk(d, g, FacebookLink) && FieldOk(d, g, InstagramLink) && FieldOk(d, g, WebsiteLink);
    }
  }

  /** The fields the form marks as wrong, in schema order. */
  function Issues(d: Draft, g: Grammars): seq<Field>
  {
    Failing(ApplicationFields, f => FieldOk(d, g, f))
  }

  /** The marked fields are exactly those that break their rule. */
  lemma IssuesNameFailingFields(d: Draft, g: Grammars)
    ensures forall f :: f in Issues(d, g) <==> !FieldOk(d, g, f)
  {
    ApplicationFieldsAreAllButFiles();
    assert FieldOk(d, g, Files);
  }

  /** Nothing is marked exactly when the form may be posted. */
  lemma NoIssuesIffValid(d: Draft, g: Grammars)
    ensures Issues(d, g) == [] <==> FormOk(d, g)
  {
    IssuesNameFailingFields(d, g);
    RulesAgree(d, g);
    var r := Issues(d, g);
    assert r != [] ==> r[0] in r;
  }

  /**
   * A phone number holding any character outside digits, white space,
   * `-`, `+`, `(` and `)` (a letter, say) is marked, whatever else the form
   * holds.
   */
  lemma PhoneOutsideClassMarked(d: Draft, g: Grammars, i: nat)
    requires d.phone.Some? && i < |d.phone.value| && !IsPhoneChar(d.phone.value[i])
    ensures Phone in Issues(d, g) && !FormOk(d, g)
  {
    assert !FieldOk(d, g, Phone);
    IssuesNameFailingFields(d, g);
  }

  /** The phone field is marked exactly when it is absent, empty, or holds a character outside the class. */
  lemma PhoneMarkedIff(d: Draft, g: Grammars)
    ensures Phone in Issues(d, g) <==>
      d.phone.None? || |d.phone.value| == 0
      || exists i :: 0 <= i < |d.phone.value| && !IsPhoneChar(d.phone.value[i])
  {
    IssuesNameFailingFields(d, g);
    assert FieldOk(d, g, Phone) == PhoneOk(d.phone);
  }

  // ---------------------------------------------------------------------
  // Against the Express `applicationSchema`
  // ---------------------------------------------------------------------

  /** Everything the form lets through, the Express controller accepts. */
  lemma FormImpliesController(d: Draft, g: Grammars)
    requires FormOk(d, g)
    ensures Application.ApplicationOk(d, g)
  {
  }

  /** Only the form checks the phone pattern: the controller accepts "abc" as a phone number. */
  lemma ControllerAcceptsWhatFormRejects()
    ensures exists d: Draft, g: Grammars :: Application.ApplicationOk(d, g) && !FormOk(d, g)
  {
    var g := Grammars(s => true, s => true);
    var d := Draft(
      Some("Ann"), None, Some("Taipei"), Some("Photo"), Some("abc"), Some("ann@example.com"),
      Some(3), Some("no"), Some("攝影"), Some("Weddings and receptions"), None, None, None,
      None, None, None, None, None);
    assert !IsPhoneChar(d.phone.value[0]);
    assert Application.ApplicationOk(d, g) && !FormOk(d, g);
  }

  // ---------------------------------------------------------------------
  // Defaults and choices
  // ---------------------------------------------------------------------

  /** `defaultValues`: one year of membership, not a gold member; every other field starts absent. */
  const Defaults := Draft(
    None, None, None, None, None, None, Some(1), Some("no"),
    None, None, None, None, None, None, None, None, None, None)

  /** The seven required texts the defaults leave absent. */
  predicate LeftForTheMember(f: Field)
  {
    f == EnglishName || f == Chapter || f == Profession || f == Phone || f == Email
    || f == WeddingCategory || f == WeddingServices
  }

  /** The default draft breaks the rule of a field exactly when the field is one of the seven left for the member. */
  lemma DefaultFieldOk(g: Grammars, f: Field)
    ensures !FieldOk(Defaults, g, f) <==> LeftForTheMember(f)
  {
    match f {
      case EnglishName => assert !FieldOk(Defaults, g, EnglishName);
      case CompanyName => assert FieldOk(Defaults, g, CompanyName);
      case Chapter => assert !FieldOk(Defaults, g, Chapter);
      case Profession => assert !FieldOk(Defaults, g, Profession);
      case Phone => assert !FieldOk(Defaults, g, Phone);
      case Email => assert !FieldOk(Defaults, g, Email);
      case YearsOfMembership => assert FieldOk(Defaults, g, YearsOfMembership);
      case IsGoldMember => assert FieldOk(Defaults, g, IsGoldMember);
      case WeddingCategory => assert !FieldOk(Defaults, g, WeddingCategory);
      case WeddingServices => assert !FieldOk(Defaults, g, WeddingServices);
      case ServiceArea => assert FieldOk(Defaults, g, ServiceArea);
      case PastCasesCount => assert FieldOk(Defaults, g, PastCasesCount);
      case UniqueAdvantage => assert FieldOk(Defaults, g, UniqueAdvantage);
      case FacebookLink => assert FieldOk(Defaults, g, FacebookLink);
      case InstagramLink => assert FieldOk(Defaults, g, InstagramLink);
      case WebsiteLink => assert FieldOk(Defaults, g, WebsiteLink);
      case BniMemberDiscount => assert FieldOk(Defaults, g, BniMemberDiscount);
      case Referrer => assert FieldOk(Defaults, g, Referrer);
      case Files => assert FieldOk(Defaults, g, Files);
    }
  }

  /**
   * The defaults satisfy the rules of the two fields they fill: only the
   * seven required texts are marked.
   */
  lemma DefaultsMarked(g: Grammars)
    ensures forall f :: f in Issues(Defaults, g) <==> LeftForTheMember(f)
  {
    IssuesNameFailingFields(Defaults, g);
    forall f
      ensures !FieldOk(Defaults, g, f) <==> LeftForTheMember(f)
    {
      DefaultFieldOk(g, f);
    }
  }

  /** The years offered by the select: `Array.from({ length: 25 }, (_, i) => i + 1)`. */
  const YearOptions: seq<int> := seq(25, i => i + 1)

  /** The options are exactly the years the schema accepts. */
  lemma YearOptionsMatchRule(y: int)
    ensures y in YearOptions <==> YearsOk(Some(y))
  {
    if 1 <= y <= 25 {
      assert YearOptions[y - 1] == y;
    }
  }

  /** `WEDDING_CATEGORIES`, in the order the select lists them. */
  const WeddingCategories: seq<string> := [
    "場地", "攝影", "錄影", "化妝", "婚紗", "餐飲", "佈置", "主持",
    "音響燈光", "婚禮統籌", "婚禮小物", "喜帖設計", "婚禮蛋糕", "花藝", "婚車租賃", "其他"]

  /**
   * Every listed category passes the category rule, but the rule is looser
   * than the list: any non-empty text passes.
   */
  lemma CategoryRuleLooserThanList()
    ensures |WeddingCategories| == 16
    ensures forall c :: c in WeddingCategories ==> MinLength(Some(c), 1)
    ensures exists c :: MinLength(Some(c), 1) && c !in WeddingCategories
  {
    var c := "x";
    assert forall k :: 0 <= k < |WeddingCategories| ==> WeddingCategories[k][0] != 'x';
    assert MinLength(Some(c), 1) && c !in WeddingCategories;
  }
}
