/**
 * The Google Drive service of the Express back end: the MIME type inferred
 * from a file name, the shared-drive probe `isSharedDrive`, the decisions
 * `uploadToGoogleDrive` takes before it issues the create request, and
 * `makeFilePublic`, which swallows every failure.
 *
 * Configuration (`GOOGLE_DRIVE_FOLDER_ID`, `GOOGLE_DRIVE_SHARED_DRIVE_ID`)
 * and the outcome of every Drive API call are parameters.
 */
module GoogleDrive {
  import opened Wrappers
  import opened Text
  import opened Calls

  // ---------------------------------------------------------------------
  // `getMimeTypeFromFileName`
  // ---------------------------------------------------------------------

  const XlsxType := "application/vnd.openxmlformats-officedocument.spreadsheetml.sheet"
  const OctetStream := "application/octet-stream"

  /** The extension table, keyed by lower-case extension. */
  const MimeTypes: map<string, string> := map[
    "xlsx" := XlsxType,
    "xls" := "application/vnd.ms-excel",
    "pdf" := "application/pdf",
    "jpg" := "image/jpeg",
    "jpeg" := "image/jpeg",
    "png" := "image/png",
    "svg" := "image/svg+xml",
    "gif" := "image/gif"]

  /** The lower-cased text after the last `.` (the whole name when there is none). */
  function ExtensionOf(fileName: string): string
  {
    Lower(LastSegment(fileName, '.'))
  }

  /** The table's type for the name's extension, or `application/octet-stream`. */
  function MimeTypeFor(fileName: string): string
  {
    var ext := ExtensionOf(fileName);
    if ext in MimeTypes then MimeTypes[ext] else OctetStream
  }

  /** No entry of the table is `application/octet-stream`. */
  lemma TableTypeIsNotOctetStream(ext: string)
    requires ext in MimeTypes
    ensures MimeTypes[ext] != OctetStream
  {
    if ext == "xls" {
      assert MimeTypes[ext][12] != OctetStream[12];
    }
  }

  /** A name gets `application/octet-stream` exactly when its extension is not in the table. */
  lemma OctetStreamIffUnknown(fileName: string)
    ensures MimeTypeFor(fileName) == OctetStream <==> ExtensionOf(fileName) !in MimeTypes
  {
    var ext := ExtensionOf(fileName);
    if ext in MimeTypes {
      TableTypeIsNotOctetStream(ext);
    }
  }

  /** A name ending in `.<ext>` for a known extension gets that extension's type, whatever precedes it. */
  lemma KnownExtension(stem: string, ext: string)
    requires ext in MimeTypes
    ensures MimeTypeFor(stem + "." + ext) == MimeTypes[ext]
  {
    assert '.' !in ext;
    LastSegmentOfSuffix(stem, '.', ext);
    assert Lower(ext) == ext;
  }

  /** The lookup ignores the case of ASCII letters: "X.PDF" and "x.pdf" get the same type. */
  lemma MimeTypeIgnoresCase(a: string, b: string)
    requires SameIgnoringCase(a, b)
    ensures MimeTypeFor(a) == MimeTypeFor(b)
  {
    LowerLastSegment(a, '.');
    LowerLastSegment(b, '.');
  }

  /** `mimeType || getMimeTypeFromFileName(fileName)`: a non-empty type supplied by the caller wins. */
  function DetectedMimeType(mimeType: Option<string>, fileName: string): (r: string)
    ensures Truthy(mimeType) ==> r == mimeType.value
    ensures !Truthy(mimeType) ==> r == MimeTypeFor(fileName)
  {
    if Truthy(mimeType) then mimeType.value else MimeTypeFor(fileName)
  }

  // ---------------------------------------------------------------------
  // `isSharedDrive`
  // ---------------------------------------------------------------------

  /** The fields `files.get` returns for a folder: `driveId` and `capabilities.canMoveItemWithinDrive`. */
  datatype FolderInfo = FolderInfo(driveId: Option<string>, canMoveItemWithinDrive: Option<bool>)

  /** The probe's error test: the message mentions "not found", or the code is 404. */
  predicate LooksNotFound(t: Thrown)
  {
    t.JsError? && (Contains(t.message, "not found") || t.code == Some(404))
  }

  /**
   * Whether the folder lives in a shared drive, from the outcome of
   * `files.get` on it and, when that fails for another reason, of
   * `drives.get` on the same id. Every failure ends in `false`.
   */
  function IsSharedDrive(filesGet: Call<FolderInfo>, drivesGet: Call<Option<string>>): (r: bool)
    ensures filesGet.Returned? ==>
      (r <==> Truthy(filesGet.value.driveId) || filesGet.value.canMoveItemWithinDrive.Some?)
    ensures filesGet.Threw? && LooksNotFound(filesGet.thrown) ==> !r
    ensures filesGet.Threw? && !LooksNotFound(filesGet.thrown) ==>
      (r <==> drivesGet.Returned? && Truthy(drivesGet.value))
  {
    match filesGet
    case Returned(info) =>
      if Truthy(info.driveId) then true
      else info.canMoveItemWithinDrive.Some?
    case Threw(t) =>
      if LooksNotFound(t) then false
      else
        match drivesGet
        case Returned(id) => Truthy(id)
        case Threw(_) => false
  }

  /**
   * A folder is placed in a shared drive only on an answer from Drive: when
   * both calls fail, or the folder is not found, the answer is `false`.
   */
  lemma SharedOnlyOnAnswer(filesGet: Call<FolderInfo>, drivesGet: Call<Option<string>>)
    ensures IsSharedDrive(filesGet, drivesGet) ==> filesGet.Returned? || drivesGet.Returned?
    ensures filesGet.Threw? && (LooksNotFound(filesGet.thrown) || drivesGet.Threw?) ==> !IsSharedDrive(filesGet, drivesGet)
  {
  }

  // ---------------------------------------------------------------------
  // `uploadToGoogleDrive`
  // ---------------------------------------------------------------------

  /** The two environment variables the upload reads. */
  datatype DriveConfig = DriveConfig(folderId: Option<string>, sharedDriveId: Option<string>)

  /** The `files.create` request: the file name, its parent folder if any, and the media type. */
  datatype CreateRequest = CreateRequest(name: string, parents: Option<seq<string>>, mimeType: string)

  const NotConfiguredMessage := "GOOGLE_DRIVE_FOLDER_ID 或 GOOGLE_DRIVE_SHARED_DRIVE_ID 未設定"
  const SharedDriveRequiredMessage :=
    "Service Account 必須使用共享驅動器。請設置 GOOGLE_DRIVE_SHARED_DRIVE_ID 或確保 GOOGLE_DRIVE_FOLDER_ID 指向共享驅動器中的文件夾。\n"
    + "詳細說明請參考: GOOGLE_DRIVE_SHARED_DRIVE_SETUP.md"
  const UploadFailedPrefix := "上傳至 Google Drive 失敗: "
  const MissingIdMessage := "上傳失敗：無法取得檔案 ID"

  predicate Configured(cfg: DriveConfig)
  {
    Truthy(cfg.folderId) || Truthy(cfg.sharedDriveId)
  }

  /** `drives.get` on the configured shared-drive id answered with an id. */
  predicate SharedDriveConfirmed(cfg: DriveConfig, drivesGet: Call<Option<string>>)
  {
    Truthy(cfg.sharedDriveId) && drivesGet.Returned? && Truthy(drivesGet.value)
  }

  /**
   * Shared-drive mode is established by a confirmed shared-drive id, or by a
   * folder that `isSharedDrive` places in a shared drive. `isSharedDrive`
   * answers `false` on every failure and never throws, so its caller's
   * fallback for a failed check is never taken.
   */
  predicate SharedMode(
    cfg: DriveConfig, drivesGet: Call<Option<string>>,
    folderGet: Call<FolderInfo>, folderDrivesGet: Call<Option<string>>)
  {
    SharedDriveConfirmed(cfg, drivesGet) || (Truthy(cfg.folderId) && IsSharedDrive(folderGet, folderDrivesGet))
  }

  /**
   * The upload's decisions, step by step: refuse an unconfigured service,
   * try the shared-drive id, otherwise probe the folder, refuse unless
   * shared-drive mode was established, then build and issue the create
   * request. `drivesGet` is the outcome of `drives.get` on the shared-drive
   * id; `folderGet` and `folderDrivesGet` are the outcomes of the two calls
   * `isSharedDrive(folderId)` makes; `create` is that of `files.create` (the
   * id it answered with). Returns the request issued, if any, and the file
   * id or the error message.
   */
  method UploadToGoogleDrive(
    cfg: DriveConfig, fileName: string, mimeType: Option<string>,
    drivesGet: Call<Option<string>>, folderGet: Call<FolderInfo>, folderDrivesGet: Call<Option<string>>,
    create: Call<Option<string>>)
    returns (request: Option<CreateRequest>, r: Result<string, string>)
    ensures !Configured(cfg) ==> request == None && r == Err(NotConfiguredMessage)
    ensures Configured(cfg) && !SharedMode(cfg, drivesGet, folderGet, folderDrivesGet) ==>
      request == None && r == Err(SharedDriveRequiredMessage)
    ensures request.Some? <==> Configured(cfg) && SharedMode(cfg, drivesGet, folderGet, folderDrivesGet)
    ensures Truthy(cfg.folderId) && !SharedDriveConfirmed(cfg, drivesGet) && folderGet.Threw?
            && (LooksNotFound(folderGet.thrown) || folderDrivesGet.Threw?) ==>
      request == None && r == Err(SharedDriveRequiredMessage)
    ensures request.Some? ==>
      && request.value.name == fileName
      && request.value.mimeType == DetectedMimeType(mimeType, fileName)
      && (request.value.parents.Some? <==> Truthy(cfg.folderId))
      && (request.value.parents.Some? ==> request.value.parents.value == [cfg.folderId.value])
    ensures r.Ok? <==> request.Some? && create.Returned? && Truthy(create.value)
    ensures r.Ok? ==> r.value == create.value.value
    ensures request.Some? && create.Threw? ==>
      r == Err(UploadFailedPrefix + MessageOr(create.thrown, "未知錯誤"))
    ensures request.Some? && create.Returned? && !Truthy(create.value) ==>
      r == Err(UploadFailedPrefix + MissingIdMessage)
  {
    if !Truthy(cfg.folderId) && !Truthy(cfg.sharedDriveId) {
      return None, Err(NotConfiguredMessage);
    }
    var detected := DetectedMimeType(mimeType, fileName);

    var useSharedDrive := false;
    var targetFolderId: Option<string> := None;
    if Truthy(cfg.sharedDriveId) {
      if drivesGet.Returned? && Truthy(drivesGet.value) {
        useSharedDrive := true;
        targetFolderId := if Truthy(cfg.folderId) then cfg.folderId else None;
      }
    }
    if !useSharedDrive && Truthy(cfg.folderId) {
      var inShared := IsSharedDrive(folderGet, folderDrivesGet);
      if inShared {
        useSharedDrive := true;
      }
      targetFolderId := cfg.folderId;
    }
    if !useSharedDrive {
      return None, Err(SharedDriveRequiredMessage);
    }

    var parents := if Truthy(targetFolderId) then Some([targetFolderId.value]) else None;
    request := Some(CreateRequest(fileName, parents, detected));
    match create
    case Threw(t) =>
      r := Err(UploadFailedPrefix + MessageOr(t, "未知錯誤"));
    case Returned(id) =>
      if !Truthy(id) {
        r := Err(UploadFailedPrefix + MissingIdMessage);
      } else {
        r := Ok(id.value);
      }
  }

  // ---------------------------------------------------------------------
  // `makeFilePublic`
  // ---------------------------------------------------------------------

  /** The `permissions.create` request: always reader for anyone; the shared-drive flags only in shared mode. */
  datatype PermissionRequest = PermissionRequest(fileId: string, role: string, kind: string, supportsAllDrives: bool)

  /**
   * What `makeFilePublic` asks for, given `GOOGLE_DRIVE_SHARED_DRIVE_ID` and
   * the outcome of `files.get` on the file. The outcome of the request itself
   * is logged and dropped, so the operation has no failure to report.
   */
  function MakeFilePublic(fileId: string, sharedDriveId: Option<string>, filesGet: Call<Option<string>>): (p: PermissionRequest)
    ensures p.fileId == fileId && p.role == "reader" && p.kind == "anyone"
    ensures p.supportsAllDrives <==>
      Truthy(sharedDriveId) || (filesGet.Returned? && Truthy(filesGet.value))
  {
    var useSharedDrive :=
      if Truthy(sharedDriveId) then true
      else match filesGet
        case Returned(driveId) => Truthy(driveId)
        case Threw(_) => false;
    PermissionRequest(fileId, "reader", "anyone", useSharedDrive)
  }
}
