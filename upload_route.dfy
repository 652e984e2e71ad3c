/**
 * The upload route of the Express back end: `POST /api/upload` stores the
 * file multer received on Google Drive when `STORAGE_TYPE` is `google`,
 * falls back to the local disk when the Drive upload fails, and uses the
 * local disk for every other storage type.
 *
 * `STORAGE_TYPE`, the clock, the outcome of the Drive upload and what the
 * local disk needs (its directory, clock, random bytes, date, base URL and
 * the outcome of the write) are parameters.
 */
module UploadRoute {
  import opened Wrappers
  import opened Text
  import opened Calls
  import LocalStorage

  /** `process.env.STORAGE_TYPE || 'local'`: only the exact text `google` selects Drive. */
  function UsesDrive(storageType: Option<string>): (b: bool)
    ensures b <==> storageType == Some("google")
  {
    var kind := if Truthy(storageType) then storageType.value else "local";
    assert "local" != "google";
    kind == "google"
  }

  /** `member-files/${Date.now()}-${file.originalname}`: the name the file gets on Drive. */
  function DriveName(now: nat, originalname: string): (r: string)
    ensures |r| == |"member-files/"| + |NatToString(now)| + 1 + |originalname|
    ensures r[|r| - |originalname|..] == originalname
  {
    "member-files/" + NatToString(now) + "-" + originalname
  }

  const DriveUrlPrefix := "https://drive.google.com/file/d/"
  const DriveUrlSuffix := "/view"

  /** `https://drive.google.com/file/d/${fileId}/view`. */
  function DriveViewUrl(fileId: string): string
  {
    DriveUrlPrefix + fileId + DriveUrlSuffix
  }

  /** Reads the file id back out of a Drive view link. The partner of `DriveViewUrl`. */
  function DriveFileIdOf(url: string): Option<string>
  {
    var n, m := |DriveUrlPrefix|, |DriveUrlSuffix|;
    if |url| < n + m || url[..n] != DriveUrlPrefix || url[|url| - m..] != DriveUrlSuffix then None
    else Some(url[n..|url| - m])
  }

  lemma DriveUrlRoundTrip(fileId: string)
    ensures DriveFileIdOf(DriveViewUrl(fileId)) == Some(fileId)
  {
    var url := DriveViewUrl(fileId);
    var n, m := |DriveUrlPrefix|, |DriveUrlSuffix|;
    assert url[..n] == DriveUrlPrefix;
    assert url[|url| - m..] == DriveUrlSuffix;
    assert url[n..|url| - m] == fileId;
  }

  /** What the local disk needs for one `uploadToLocalStorage` call. */
  datatype LocalDisk = LocalDisk(
    uploadDir: string, now: nat, random: seq<Byte>,
    year: int, month0: nat, day: nat, apiBaseUrl: Option<string>, write: Call<()>)
  {
    predicate Valid()
    {
      |random| == 8 && month0 < 12 && 1 <= day <= 31
    }
  }

  /** `uploadToLocalStorage(buffer, originalname)` on the given disk. */
  function StoreLocally(originalname: string, disk: LocalDisk): Result<LocalStorage.StoredFile, Thrown>
    requires disk.Valid()
  {
    LocalStorage.UploadToLocalStorage(
      originalname, disk.uploadDir, disk.now, disk.random,
      disk.year, disk.month0, disk.day, disk.apiBaseUrl, disk.write)
  }

  /** The calls the handler makes. */
  datatype Effect =
    | DriveUpload(name: string, mimeType: string)   // `uploadToGoogleDrive(buffer, fileName, mimetype)`
    | MakePublic(fileId: string)                    // `makeFilePublic(fileId)`
    | LocalWrite(fileName: string)                  // `uploadToLocalStorage(buffer, originalname)`

  /** The JSON answers: `success: true` with the file's description, or `success: false` with an error. */
  datatype Reply =
    | Uploaded(fileKey: string, fileUrl: string, fileName: string, fileSize: nat, mimeType: string)
    | NoFile
    | ServerError(error: string)

  const NoFileMessage := "No file uploaded"
  const FallbackMessage := "File upload failed"

  function StatusCode(r: Reply): (code: int)
    ensures code == 200 <==> r.Uploaded?
    ensures code == 400 <==> r == NoFile
    ensures code == 500 <==> r.ServerError?
  {
    match r
    case Uploaded(_, _, _, _, _) => 200
    case NoFile => 400
    case ServerError(_) => 500
  }

  /** The `error` text of an answer with `success: false`. */
  function ErrorText(r: Reply): (e: string)
    requires !r.Uploaded?
    ensures r == NoFile ==> e == NoFileMessage
    ensures r.ServerError? ==> e == r.error
  {
    if r == NoFile then NoFileMessage else r.error
  }

  /** The answer after a local write: the stored key and URL, or a 500 carrying the thrown message. */
  function LocalReply(file: UploadedFile, local: Result<LocalStorage.StoredFile, Thrown>): Reply
  {
    match local
    case Ok(s) => Uploaded(s.fileKey, s.fileUrl, s.originalFileName, file.size, file.mimetype)
    case Err(t) => ServerError(MessageOr(t, FallbackMessage))
  }

  /**
   * The handler. `file` is `req.file`, `storageType` the environment
   * variable, `now` the clock, `drive` what `uploadToGoogleDrive` produced
   * (the file id, or the message it threw) and `disk` what the local
   * storage needs. Returns the calls made, in order, and the answer.
   * `makeFilePublic` catches its own failures, so its outcome never reaches
   * the handler.
   */
  function Upload(
    file: Option<UploadedFile>, storageType: Option<string>, now: nat,
    drive: Result<string, string>, disk: LocalDisk): (r: (seq<Effect>, Reply))
    requires disk.Valid()
    ensures file.None? ==> r == ([], NoFile)
    ensures file.Some? && !UsesDrive(storageType) ==>
      r == ([LocalWrite(file.value.originalname)], LocalReply(file.value, StoreLocally(file.value.originalname, disk)))
    ensures file.Some? && UsesDrive(storageType) && drive.Ok? ==>
      && r.0 == [DriveUpload(DriveName(now, file.value.originalname), file.value.mimetype), MakePublic(drive.value)]
      && r.1 == Uploaded(drive.value, DriveViewUrl(drive.value), file.value.originalname, file.value.size, file.value.mimetype)
    ensures file.Some? && UsesDrive(storageType) && drive.Err? ==>
      && r.0 == [DriveUpload(DriveName(now, file.value.originalname), file.value.mimetype), LocalWrite(file.value.originalname)]
      && r.1 == LocalReply(file.value, StoreLocally(file.value.originalname, disk))
  {
    match file
    case None => ([], NoFile)
    case Some(f) =>
      if UsesDrive(storageType) then
        var upload := DriveUpload(DriveName(now, f.originalname), f.mimetype);
        match drive
        case Ok(fileId) =>
          ([upload, MakePublic(fileId)], Uploaded(fileId, DriveViewUrl(fileId), f.originalname, f.size, f.mimetype))
        case Err(_) =>
          ([upload, LocalWrite(f.originalname)], LocalReply(f, StoreLocally(f.originalname, disk)))
      else
        ([LocalWrite(f.originalname)], LocalReply(f, StoreLocally(f.originalname, disk)))
  }

  /** How often a call of the given kind occurs. */
  function Count(effects: seq<Effect>, p: Effect -> bool): nat
  {
    if effects == [] then 0 else (if p(effects[0]) then 1 else 0) + Count(effects[1..], p)
  }

  /** Counting over the lists of at most two calls the handler makes. */
  lemma CountPair(effects: seq<Effect>, p: Effect -> bool)
    requires |effects| <= 2
    ensures |effects| == 0 ==> Count(effects, p) == 0
    ensures |effects| == 1 ==> Count(effects, p) == (if p(effects[0]) then 1 else 0)
    ensures |effects| == 2 ==>
      Count(effects, p) == (if p(effects[0]) then 1 else 0) + (if p(effects[1]) then 1 else 0)
  {
    if |effects| > 0 {
      var rest := effects[1..];
      if |rest| > 0 {
        assert rest[1..] == [];
      }
    }
  }

  /**
   * Drive is tried at most once and only for `STORAGE_TYPE=google`; the local
   * disk is written at most once, and exactly when a file arrived and Drive
   * was not selected or failed.
   */
  lemma EachStoreTriedOnce(
    file: Option<UploadedFile>, storageType: Option<string>, now: nat,
    drive: Result<string, string>, disk: LocalDisk)
    requires disk.Valid()
    ensures var effects := Upload(file, storageType, now, drive, disk).0;
      && Count(effects, (e: Effect) => e.DriveUpload?) == (if file.Some? && UsesDrive(storageType) then 1 else 0)
      && Count(effects, (e: Effect) => e.LocalWrite?)
         == (if file.Some? && (!UsesDrive(storageType) || drive.Err?) then 1 else 0)
  {
    var effects := Upload(file, storageType, now, drive, disk).0;
    CountPair(effects, (e: Effect) => e.DriveUpload?);
    CountPair(effects, (e: Effect) => e.LocalWrite?);
  }

  /**
   * A successful answer echoes the name, size and type of the file multer
   * received; its URL is the Drive view link of its key when Drive took the
   * file, and the local static URL of the stored name otherwise.
   */
  lemma AnswerDescribesFile(
    file: Option<UploadedFile>, storageType: Option<string>, now: nat,
    drive: Result<string, string>, disk: LocalDisk)
    requires disk.Valid()
    ensures var reply := Upload(file, storageType, now, drive, disk).1;
      reply.Uploaded? ==>
        && file.Some?
        && reply.fileName == file.value.originalname
        && reply.fileSize == file.value.size && reply.mimeType == file.value.mimetype
        && (UsesDrive(storageType) && drive.Ok? ==> DriveFileIdOf(reply.fileUrl) == Some(reply.fileKey))
        && (!(UsesDrive(storageType) && drive.Ok?) ==>
              reply.fileKey == "uploads/" + LocalStorage.DateDir(disk.year, disk.month0, disk.day) + "/"
                               + LocalStorage.RandomFileName(disk.now, disk.random, file.value.originalname))
  {
    if file.Some? && UsesDrive(storageType) && drive.Ok? {
      DriveUrlRoundTrip(drive.value);
    }
  }

  /**
   * The answer is a 500 exactly when a file arrived and the local write it
   * ended up needing threw; the message is the thrown error's, or
   * `File upload failed` for a thrown non-`Error`.
   */
  lemma FailsOnlyOnLocalWrite(
    file: Option<UploadedFile>, storageType: Option<string>, now: nat,
    drive: Result<string, string>, disk: LocalDisk)
    requires disk.Valid()
    ensures var reply := Upload(file, storageType, now, drive, disk).1;
      && (reply.ServerError? <==>
            file.Some? && (!UsesDrive(storageType) || drive.Err?) && disk.write.Threw?)
      && (reply.ServerError? ==> reply.error == MessageOr(disk.write.thrown, FallbackMessage))
  {
  }
}
