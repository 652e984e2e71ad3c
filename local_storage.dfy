/**
 * The local-disk storage of the Express back end: the random name a file is
 * stored under, the per-day directory it goes to, and the key and URL
 * `uploadToLocalStorage` answers with.
 *
 * The clock (`Date.now()` and the local calendar date), the eight random
 * bytes, `API_BASE_URL`, the upload directory and the outcome of the file
 * system calls are parameters.
 */
module LocalStorage {
  import opened Wrappers
  import opened Text
  import opened Calls
  import opened Uri

  // ---------------------------------------------------------------------
  // `generateRandomFileName`
  // ---------------------------------------------------------------------

  /**
   * `${timestamp}-${randomString}${fileExtension}`: the time in
   * milliseconds, the 16 hex digits of eight random bytes, and the lower-cased
   * extension of the original name ("" when it has none).
   */
  function RandomFileName(now: nat, random: seq<Byte>, originalFileName: string): string
    requires |random| == 8
  {
    NatToString(now) + "-" + Hex(random) + Lower(Extname(originalFileName))
  }

  /** Splits a stored name into its time, its random bytes and its extension. The partner of `RandomFileName`. */
  function ParseStoredName(name: string): Option<(nat, seq<Byte>, string)>
  {
    var k := DigitRun(name);
    if k == 0 || |name| < k + 17 || name[k] != '-' then None
    else
      var h := name[k + 1..k + 17];
      if !(forall i :: 0 <= i < |h| ==> IsLowerHex(h[i])) then None
      else Some((DigitsValue(name[..k]), Unhex(h), name[k + 17..]))
  }

  /** The pieces of `d + "-" + h + e`, by position. */
  lemma DashPieces(d: string, h: string, e: string)
    ensures var n := d + "-" + h + e;
      && n == d + ("-" + h + e)
      && n[..|d|] == d && n[|d|] == '-'
      && n[|d| + 1..|d| + 1 + |h|] == h && n[|d| + 1 + |h|..] == e
  {
  }

  /** Any digits, a dash, 16 hex digits and a rest parse back into their pieces. */
  lemma ParseDashed(d: string, h: string, e: string)
    requires |d| >= 1 && IsDigits(d)
    requires |h| == 16 && forall i :: 0 <= i < |h| ==> IsLowerHex(h[i])
    ensures ParseStoredName(d + "-" + h + e) == Some((DigitsValue(d), Unhex(h), e))
  {
    DashPieces(d, h, e);
    DigitRunOfDigits(d, "-" + h + e);
  }

  /** The stored name gives back the time, the random bytes and the lower-cased extension it was made of. */
  lemma StoredNameRoundTrip(now: nat, random: seq<Byte>, originalFileName: string)
    requires |random| == 8
    ensures ParseStoredName(RandomFileName(now, random, originalFileName))
      == Some((now, random, Lower(Extname(originalFileName))))
  {
    var d, h, e := NatToString(now), Hex(random), Lower(Extname(originalFileName));
    assert RandomFileName(now, random, originalFileName) == d + "-" + h + e;
    ParseDashed(d, h, e);
    NatToStringRoundTrip(now);
    HexRoundTrip(random);
  }

  /** The two stored names of one clock tick differ unless the random bytes and the extensions agree. */
  lemma StoredNamesDiffer(now: nat, r1: seq<Byte>, r2: seq<Byte>, n1: string, n2: string)
    requires |r1| == 8 && |r2| == 8
    requires RandomFileName(now, r1, n1) == RandomFileName(now, r2, n2)
    ensures r1 == r2 && Lower(Extname(n1)) == Lower(Extname(n2))
  {
    StoredNameRoundTrip(now, r1, n1);
    StoredNameRoundTrip(now, r2, n2);
  }

  /** The text before the extension: the digits, the dash and the hex digits. */
  lemma StemPlain(now: nat, random: seq<Byte>)
    ensures var p := NatToString(now) + "-" + Hex(random);
      |p| >= 2 + 2 * |random| && '.' !in p && '/' !in p
      && forall i :: 0 <= i < |p| ==> IsUnreserved(p[i])
  {
    var d, h := NatToString(now), Hex(random);
    var p := d + "-" + h;
    forall i | 0 <= i < |p|
      ensures p[i] != '.' && p[i] != '/' && IsUnreserved(p[i])
    {
      if i < |d| {
        assert p[i] == d[i];
      } else if i > |d| {
        assert p[i] == h[i - |d| - 1];
      }
    }
  }

  /** After a stem with no dot and no slash, an extension-shaped tail is the extension. */
  lemma ExtnameAfterStem(p: string, e: string)
    requires |p| >= 2 && '.' !in p && '/' !in p
    requires e == [] || (e[0] == '.' && '.' !in e[1..] && '/' !in e)
    ensures Extname(p + e) == e
  {
    var name := p + e;
    assert '/' !in name;
    assert TrimTrailingSlashes(name) == name;
    LastSegmentWithout(name, '/');
    assert LastSegment(TrimTrailingSlashes(name), '/') == name;
    assert name != ".." by {
      assert name[0] == p[0] && p[0] != '.';
    }
    if e == [] {
      assert name == p;
      LastSegmentWithout(name, '.');
    } else {
      var x := e[1..];
      assert name == p + ['.'] + x by {
        assert e == ['.'] + x;
      }
      LastSegmentOfSuffix(p, '.', x);
      assert name[|name| - |x| - 1..] == e;
    }
  }

  /** The extension of the stored name is the lower-cased extension of the original name. */
  lemma StoredNameKeepsExtension(now: nat, random: seq<Byte>, originalFileName: string)
    requires |random| == 8
    ensures Extname(RandomFileName(now, random, originalFileName)) == Lower(Extname(originalFileName))
  {
    var p := NatToString(now) + "-" + Hex(random);
    var ext := Extname(originalFileName);
    var e := Lower(ext);
    StemPlain(now, random);
    LowerKeepsNonLetter(ext, '/');
    if e != [] {
      LowerSuffix(ext, 1);
      LowerKeepsNonLetter(ext[1..], '.');
    }
    ExtnameAfterStem(p, e);
  }

  // ---------------------------------------------------------------------
  // The date directory
  // ---------------------------------------------------------------------

  /**
   * `${year}-${month}-${day}`, the month counted from 1 and both month and
   * day padded to two digits; `month0` is `getMonth()`, counted from 0.
   */
  function DateDir(year: int, month0: nat, day: nat): string
    requires month0 < 12 && 1 <= day <= 31
  {
    IntToString(year) + "-" + Pad2(month0 + 1) + "-" + Pad2(day)
  }

  /** Reads `YYYY-MM-DD` back into year, month and day. The partner of `DateDir`. */
  function ParseDateDir(s: string): Option<(nat, nat, nat)>
  {
    var k := DigitRun(s);
    if k == 0 || |s| != k + 6 || s[k] != '-' || s[k + 3] != '-' then None
    else
      var mm, dd := s[k + 1..k + 3], s[k + 4..];
      if !IsDigits(mm) || !IsDigits(dd) then None
      else Some((DigitsValue(s[..k]), DigitsValue(mm), DigitsValue(dd)))
  }

  /** The pieces of `y + "-" + m + "-" + d` for a two-character month and day. */
  lemma DatePieces(y: string, m: string, d: string)
    requires |m| == 2 && |d| == 2
    ensures var s := y + "-" + m + "-" + d;
      && s == y + ("-" + m + "-" + d) && |s| == |y| + 6
      && s[..|y|] == y && s[|y|] == '-' && s[|y| + 3] == '-'
      && s[|y| + 1..|y| + 3] == m && s[|y| + 4..] == d
  {
  }

  /** The directory name gives back the year, the 1-based month and the day; each of the last two takes two digits. */
  lemma DateDirRoundTrip(year: nat, month0: nat, day: nat)
    requires month0 < 12 && 1 <= day <= 31
    ensures ParseDateDir(DateDir(year, month0, day)) == Some((year, month0 + 1, day))
    ensures |DateDir(year, month0, day)| == |NatToString(year)| + 6
  {
    var y, m, d := NatToString(year), Pad2(month0 + 1), Pad2(day);
    assert DateDir(year, month0, day) == y + "-" + m + "-" + d;
    DatePieces(y, m, d);
    DigitRunOfDigits(y, "-" + m + "-" + d);
    NatToStringRoundTrip(year);
    Pad2RoundTrip(month0 + 1);
    Pad2RoundTrip(day);
  }

  // ---------------------------------------------------------------------
  // `uploadToLocalStorage`
  // ---------------------------------------------------------------------

  const DefaultBaseUrl := "http://localhost:6137"

  /** `process.env.API_BASE_URL || 'http://localhost:6137'`. */
  function BaseUrl(apiBaseUrl: Option<string>): (r: string)
    ensures Truthy(apiBaseUrl) ==> r == apiBaseUrl.value
    ensures !Truthy(apiBaseUrl) ==> r == DefaultBaseUrl
  {
    if Truthy(apiBaseUrl) then apiBaseUrl.value else DefaultBaseUrl
  }

  /** What the upload answers with. */
  datatype StoredFile = StoredFile(filePath: string, fileUrl: string, fileKey: string, originalFileName: string)

  /**
   * `uploadToLocalStorage(buffer, fileName)`. `uploadDir` is the upload
   * directory, `now` the clock, `random` the random bytes, `year`, `month0`
   * and `day` the local date, `apiBaseUrl` the environment variable, and
   * `write` the outcome of creating the directories and writing the file,
   * whose failure the function passes on.
   */
  function UploadToLocalStorage(
    fileName: string, uploadDir: string, now: nat, random: seq<Byte>,
    year: int, month0: nat, day: nat, apiBaseUrl: Option<string>, write: Call<()>): (r: Result<StoredFile, Thrown>)
    requires |random| == 8 && month0 < 12 && 1 <= day <= 31
    ensures r.Err? <==> write.Threw?
    ensures r.Err? ==> r.error == write.thrown
    ensures r.Ok? ==> r.value.originalFileName == fileName
    ensures r.Ok? ==>
      var name, date := RandomFileName(now, random, fileName), DateDir(year, month0, day);
      && r.value.fileKey == "uploads/" + date + "/" + name
      && r.value.filePath == uploadDir + "/" + date + "/" + name
      && r.value.fileUrl == BaseUrl(apiBaseUrl) + "/static/uploads/" + date + "/" + EncodeURIComponent(name)
  {
    match write
    case Threw(t) => Err(t)
    case Returned(_) =>
      var name := RandomFileName(now, random, fileName);
      var date := DateDir(year, month0, day);
      Ok(StoredFile(
        uploadDir + "/" + date + "/" + name,
        BaseUrl(apiBaseUrl) + "/static/uploads/" + date + "/" + EncodeURIComponent(name),
        "uploads/" + date + "/" + name,
        fileName))
  }

  lemma UnreservedConcat(p: string, e: string)
    requires forall i :: 0 <= i < |p| ==> IsUnreserved(p[i])
    requires forall i :: 0 <= i < |e| ==> IsUnreserved(e[i])
    ensures forall i :: 0 <= i < |p + e| ==> IsUnreserved((p + e)[i])
  {
  }

  lemma StaticPath(base: string, date: string, name: string)
    ensures base + "/static/uploads/" + date + "/" + name == base + "/static/" + ("uploads/" + date + "/" + name)
  {
  }

  /**
   * The URL serves the key: its last segment decodes to the stored name, and
   * when the extension needs no escaping the URL is the base, `/static/` and
   * the key.
   */
  lemma UrlServesKey(
    fileName: string, uploadDir: string, now: nat, random: seq<Byte>,
    year: int, month0: nat, day: nat, apiBaseUrl: Option<string>)
    requires |random| == 8 && month0 < 12 && 1 <= day <= 31
    ensures var r := UploadToLocalStorage(fileName, uploadDir, now, random, year, month0, day, apiBaseUrl, Returned(()));
      var name := RandomFileName(now, random, fileName);
      && r.Ok?
      && DecodeURIComponent(EncodeURIComponent(name)) == Some(name)
      && ((forall i :: 0 <= i < |Extname(fileName)| ==> IsUnreserved(Lower(Extname(fileName))[i])) ==>
            r.value.fileUrl == BaseUrl(apiBaseUrl) + "/static/" + r.value.fileKey)
  {
    var name := RandomFileName(now, random, fileName);
    EncodeRoundTrip(name);
    var e := Lower(Extname(fileName));
    if forall i :: 0 <= i < |Extname(fileName)| ==> IsUnreserved(e[i]) {
      StemPlain(now, random);
      var p := NatToString(now) + "-" + Hex(random);
      assert name == p + e;
      UnreservedConcat(p, e);
      EncodeUnreservedUnchanged(name);
      var date := DateDir(year, month0, day);
      StaticPath(BaseUrl(apiBaseUrl), date, name);
    }
  }
}
