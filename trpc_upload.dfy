/**
 * The upload route of the tRPC server: `POST /api/upload` stores the file
 * multer received under a key made of the clock, a random suffix and the
 * original extension, and answers with the key and the storage URL.
 *
 * The clock, the `nanoid(10)` suffix and the outcome of `storagePut` are
 * parameters.
 */
module TrpcUpload {
  import opened Wrappers
  import opened Text
  import opened Calls

  const KeyPrefix := "member-files/"

  /**
   * `member-files/${Date.now()}-${randomSuffix}.${fileExtension}`, where the
   * extension is `originalname.split(".").pop()`: the text after the last
   * dot, or the whole name when it has none.
   */
  function FileKey(now: nat, suffix: string, originalname: string): string
  {
    KeyPrefix + NatToString(now) + "-" + suffix + "." + LastSegment(originalname, '.')
  }

  /** One character of `nanoid`'s alphabet: letters, digits, `_` and `-`. */
  predicate IsNanoIdChar(c: char)
  {
    IsDigit(c) || IsUpper(c) || ('a' <= c <= 'z') || c == '_' || c == '-'
  }

  /** What `nanoid(10)` produces. */
  predicate IsNanoId(s: string)
  {
    |s| == 10 && forall i :: 0 <= i < |s| ==> IsNanoIdChar(s[i])
  }

  /** Splits a key into its time, its suffix and its extension. The partner of `FileKey`. */
  function ParseFileKey(key: string): Option<(nat, string, string)>
  {
    if |key| < |KeyPrefix| || key[..|KeyPrefix|] != KeyPrefix then None
    else
      var rest := key[|KeyPrefix|..];
      var k := DigitRun(rest);
      if k == 0 || |rest| < k + 12 || rest[k] != '-' || rest[k + 11] != '.' then None
      else Some((DigitsValue(rest[..k]), rest[k + 1..k + 11], rest[k + 12..]))
  }

  /** The pieces of `d + "-" + s + "." + e` for a ten-character `s`. */
  lemma KeyPieces(d: string, s: string, e: string)
    requires |s| == 10
    ensures var n := d + "-" + s + "." + e;
      && n == d + ("-" + s + "." + e)
      && n[..|d|] == d && n[|d|] == '-' && n[|d| + 11] == '.'
      && n[|d| + 1..|d| + 11] == s && n[|d| + 12..] == e
  {
  }

  /** Digits, a dash, ten characters, a dot and a rest, after the prefix, parse back into their pieces. */
  lemma ParseKeyPieces(d: string, s: string, e: string)
    requires |d| >= 1 && IsDigits(d) && |s| == 10
    ensures ParseFileKey(KeyPrefix + (d + "-" + s + "." + e)) == Some((DigitsValue(d), s, e))
  {
    var rest := d + "-" + s + "." + e;
    var key := KeyPrefix + rest;
    assert key[..|KeyPrefix|] == KeyPrefix && key[|KeyPrefix|..] == rest;
    KeyPieces(d, s, e);
    DigitRunOfDigits(d, "-" + s + "." + e);
  }

  lemma KeyRegroup(p: string, d: string, s: string, e: string)
    ensures p + d + "-" + s + "." + e == p + (d + "-" + s + "." + e)
  {
  }

  /** The key gives back the time, the random suffix and the extension it was made of. */
  lemma FileKeyRoundTrip(now: nat, suffix: string, originalname: string)
    requires IsNanoId(suffix)
    ensures ParseFileKey(FileKey(now, suffix, originalname))
      == Some((now, suffix, LastSegment(originalname, '.')))
  {
    var d, e := NatToString(now), LastSegment(originalname, '.');
    KeyRegroup(KeyPrefix, d, suffix, e);
    ParseKeyPieces(d, suffix, e);
    NatToStringRoundTrip(now);
  }

  /** Two keys of one clock tick with different suffixes differ. */
  lemma KeysOfDistinctSuffixesDiffer(now: nat, s1: string, s2: string, n1: string, n2: string)
    requires IsNanoId(s1) && IsNanoId(s2) && s1 != s2
    ensures FileKey(now, s1, n1) != FileKey(now, s2, n2)
  {
    FileKeyRoundTrip(now, s1, n1);
    FileKeyRoundTrip(now, s2, n2);
  }

  /**
   * The key ends in the original extension: the text after its last dot is
   * the text after the last dot of the original name. A name without a dot
   * becomes the key's extension whole.
   */
  lemma KeyKeepsExtension(now: nat, suffix: string, originalname: string)
    ensures LastSegment(FileKey(now, suffix, originalname), '.') == LastSegment(originalname, '.')
    ensures '.' !in originalname ==> LastSegment(FileKey(now, suffix, originalname), '.') == originalname
  {
    var p := KeyPrefix + NatToString(now) + "-" + suffix;
    var e := LastSegment(originalname, '.');
    assert FileKey(now, suffix, originalname) == p + ['.'] + e;
    LastSegmentOfSuffix(p, '.', e);
    if '.' !in originalname {
      LastSegmentWithout(originalname, '.');
    }
  }

  // ---------------------------------------------------------------------
  // The route
  // ---------------------------------------------------------------------

  /** The JSON answers. */
  datatype Reply =
    | Stored(fileKey: string, fileUrl: string, fileName: string, fileSize: nat, mimeType: string)
    | NoFile
    | UploadFailed

  function StatusCode(r: Reply): (code: int)
    ensures code == 200 <==> r.Stored?
    ensures code == 400 <==> r == NoFile
    ensures code == 500 <==> r == UploadFailed
  {
    match r
    case Stored(_, _, _, _, _) => 200
    case NoFile => 400
    case UploadFailed => 500
  }

  /** The `error` text of a failed answer. */
  function ErrorText(r: Reply): (e: string)
    requires !r.Stored?
    ensures r == NoFile ==> e == "No file uploaded"
    ensures r == UploadFailed ==> e == "File upload failed"
  {
    if r == NoFile then "No file uploaded" else "File upload failed"
  }

  /** The `storagePut(fileKey, buffer, mimetype)` request. */
  datatype PutRequest = PutRequest(key: string, contentType: string)

  /**
   * The handler. `file` is `req.file`, `now` the clock, `suffix` the value
   * of `nanoid(10)`, and `put` the outcome of `storagePut` (the URL it
   * answered with). Returns the request made, if any, and the answer.
   */
  function Upload(file: Option<UploadedFile>, now: nat, suffix: string, put: Call<string>): (r: (Option<PutRequest>, Reply))
    ensures file.None? ==> r == (None, NoFile)
    ensures file.Some? ==> r.0 == Some(PutRequest(FileKey(now, suffix, file.value.originalname), file.value.mimetype))
    ensures file.Some? && put.Threw? ==> r.1 == UploadFailed
    ensures file.Some? && put.Returned? ==>
      r.1 == Stored(FileKey(now, suffix, file.value.originalname), put.value,
                    file.value.originalname, file.value.size, file.value.mimetype)
  {
    match file
    case None => (None, NoFile)
    case Some(f) =>
      var key := FileKey(now, suffix, f.originalname);
      var request := Some(PutRequest(key, f.mimetype));
      match put
      case Threw(_) => (request, UploadFailed)
      case Returned(url) => (request, Stored(key, url, f.originalname, f.size, f.mimetype))
  }

  /**
   * A stored answer echoes the file multer received, and its key is the one
   * the object was put under and reads back to the clock and the suffix.
   */
  lemma StoredAnswerDescribesFile(file: Option<UploadedFile>, now: nat, suffix: string, put: Call<string>)
    requires IsNanoId(suffix)
    ensures var (request, reply) := Upload(file, now, suffix, put);
      reply.Stored? ==>
        && file.Some? && put == Returned(reply.fileUrl)
        && reply.fileName == file.value.originalname && reply.fileSize == file.value.size
        && reply.mimeType == file.value.mimetype
        && request == Some(PutRequest(reply.fileKey, reply.mimeType))
        && ParseFileKey(reply.fileKey) == Some((now, suffix, LastSegment(file.value.originalname, '.')))
  {
    if file.Some? {
      FileKeyRoundTrip(now, suffix, file.value.originalname);
    }
  }
}
