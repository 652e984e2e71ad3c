/**
 * The tRPC `members` router: the public `submit` procedure, which validates
 * an application, stores it as `pending` and attaches its three files, and
 * the administrator procedures `list`, `getById` and `updateStatus`.
 *
 * The database is the object `MemberStore`: a map of `members` rows by id,
 * the sequence of `memberFiles` rows in insertion order, and the two
 * auto-increment counters. A row that breaks a column constraint of the
 * schema is refused by the store (`PersistenceError`). The owner
 * notification is recorded in `outbox`.
 */
module MembersApi {
  import opened Wrappers
  import opened Schema
  import opened Forms

  /** The tRPC context's user; `Anonymous` when the request carries no session. */
  datatype Caller = Anonymous | SignedIn(role: Role)

  /** The errors the procedures raise. */
  datatype ApiError =
    | PleaseLogin                      // a protected procedure called without a session
    | BadRequest(issues: seq<Field>)   // the `submit` input did not parse
    | BadStatus                        // the `updateStatus` status is not one of the three literals
    | Unauthorized                     // a signed-in caller who is not an administrator
    | MemberNotFound                   // `getById` on an absent id
    | PersistenceError                 // the store refused a row

  // ---------------------------------------------------------------------
  // The `submit` input schema
  // ---------------------------------------------------------------------

  /** The fields of the `submit` schema, in declaration order. */
  const SubmitFields: seq<Field> := ApplicationFields + [Files]

  /** One field of the `submit` schema. The links are plain optional strings here. */
  predicate SubmitFieldOk(d: Draft, files: Option<seq<FileDescriptor>>, g: Grammars, f: Field)
  {
    if f == Files then files.Some? && |files.value| == 3 else CommonFieldOk(d, f, g)
  }

  /** Every rule of the `submit` schema, spelled out. */
  predicate SubmitOk(d: Draft, files: Option<seq<FileDescriptor>>, g: Grammars)
  {
    && MinLength(d.englishName, 1) && MinLength(d.chapter, 1) && MinLength(d.profession, 1)
    && Present(d.phone) && EmailOk(d.email, g)
    && YearsOk(d.yearsOfMembership) && YesNoOk(d.isGoldMember)
    && MinLength(d.weddingCategory, 1) && MinLength(d.weddingServices, 10)
    && files.Some? && |files.value| == 3
  }

  lemma SubmitRulesAgree(d: Draft, files: Option<seq<FileDescriptor>>, g: Grammars)
    ensures (forall f :: SubmitFieldOk(d, files, g, f)) <==> SubmitOk(d, files, g)
  {
    if forall f :: SubmitFieldOk(d, files, g, f) {
      assert SubmitFieldOk(d, files, g, EnglishName) && SubmitFieldOk(d, files, g, Chapter);
      assert SubmitFieldOk(d, files, g, Profession) && SubmitFieldOk(d, files, g, Phone);
      assert SubmitFieldOk(d, files, g, Email) && SubmitFieldOk(d, files, g, YearsOfMembership);
      assert SubmitFieldOk(d, files, g, IsGoldMember) && SubmitFieldOk(d, files, g, WeddingCategory);
      assert SubmitFieldOk(d, files, g, WeddingServices) && SubmitFieldOk(d, files, g, Files);
    }
  }

  /** The paths of the issues `submit`'s schema reports, in schema order; empty exactly when the input parses. */
  function SubmitIssues(d: Draft, files: Option<seq<FileDescriptor>>, g: Grammars): (r: seq<Field>)
    ensures forall f :: f in r <==> !SubmitFieldOk(d, files, g, f)
    ensures r == [] <==> SubmitOk(d, files, g)
  {
    var r := Failing(SubmitFields, f => SubmitFieldOk(d, files, g, f));
    ApplicationFieldsAreAllButFiles();
    assert forall f :: f in SubmitFields;
    SubmitRulesAgree(d, files, g);
    assert r != [] ==> r[0] in r;
    r
  }

  lemma ParsedWhenNoIssues(d: Draft, files: Option<seq<FileDescriptor>>, g: Grammars)
    requires SubmitIssues(d, files, g) == []
    ensures Parsed(d) && files.Some? && |files.value| == 3
  {
  }

  // ---------------------------------------------------------------------
  // Rows written by `submit`
  // ---------------------------------------------------------------------

  /** The `members` row `createMember` inserts: the input's fields, status `pending`, both timestamps `now`. */
  function NewMember(d: Draft, id: nat, now: int): (m: Member)
    requires Parsed(d)
    ensures m.id == id && m.status == Pending && m.status == DefaultStatus
    ensures m.createdAt == now && m.updatedAt == now
    ensures m.englishName == d.englishName.value && m.email == d.email.value
    ensures m.isGoldMember == ParseYesNo(d.isGoldMember.value).value
  {
    Member(
      id, d.englishName.value, d.companyName, d.chapter.value, d.profession.value,
      d.phone.value, d.email.value, d.yearsOfMembership.value,
      ParseYesNo(d.isGoldMember.value).value,
      d.weddingCategory, d.weddingServices.value, d.serviceArea, d.pastCasesCount,
      d.uniqueAdvantage, d.facebookLink, d.instagramLink, d.websiteLink,
      d.bniMemberDiscount, d.referrer,
      Pending, now, now)
  }

  /** The `memberFiles` row `createMemberFile` inserts for one descriptor. */
  function FileRow(memberId: nat, id: nat, f: FileDescriptor, now: int): MemberFile
  {
    MemberFile(id, memberId, f.fileKey, f.fileUrl, f.fileName, Some(f.fileSize), Some(f.mimeType), now)
  }

  /** The rows for all descriptors, with consecutive ids from `firstId`. */
  function FileRows(memberId: nat, firstId: nat, fs: seq<FileDescriptor>, now: int): (rows: seq<MemberFile>)
    ensures |rows| == |fs|
    ensures forall i :: 0 <= i < |fs| ==>
      && rows[i].memberId == memberId && rows[i].id == firstId + i
      && rows[i].fileKey == fs[i].fileKey && rows[i].fileUrl == fs[i].fileUrl
      && rows[i].fileName == fs[i].fileName && rows[i].fileSize == Some(fs[i].fileSize)
      && rows[i].mimeType == Some(fs[i].mimeType)
  {
    seq(|fs|, i requires 0 <= i < |fs| => FileRow(memberId, firstId + i, fs[i], now))
  }

  /** How many leading rows the store accepts before the first one it refuses. */
  function FittingPrefix(rows: seq<MemberFile>): (k: nat)
    ensures k <= |rows|
    ensures forall i :: 0 <= i < k ==> FileFits(rows[i])
    ensures k < |rows| ==> !FileFits(rows[k])
  {
    if rows == [] || !FileFits(rows[0]) then 0 else 1 + FittingPrefix(rows[1..])
  }

  /** The owner notification. */
  datatype Notification = Notification(title: string, content: string)

  /** `substring(0, n)`. */
  function Prefix(s: string, n: nat): (r: string)
    ensures |r| == if |s| < n then |s| else n
    ensures r <= s
  {
    if |s| <= n then s else s[..n]
  }

  /** The message `submit` sends to the owner once the files are attached. */
  function OwnerNotice(d: Draft): (n: Notification)
    requires Parsed(d)
  {
    Notification(
      "新會員資訊提交",
      "會員 " + d.englishName.value + " (" + d.email.value + ") 已提交資訊，請前往後台審核。\n\n專業領域："
        + d.profession.value + "\n所屬分會：" + d.chapter.value + "\n婚宴服務："
        + Prefix(d.weddingServices.value, 100) + "...")
  }

  // ---------------------------------------------------------------------
  // Queries and updates over the stored rows
  // ---------------------------------------------------------------------

  /** The files of member `id`, in insertion order (`getMemberFiles`). */
  function FilesOf(fs: seq<MemberFile>, id: int): (r: seq<MemberFile>)
  {
    if fs == [] then []
    else FilesOf(fs[..|fs| - 1], id) + (if fs[|fs| - 1].memberId == id then [fs[|fs| - 1]] else [])
  }

  /** `FilesOf` keeps exactly the rows of the member, in order. */
  lemma {:induction false} FilesOfSound(fs: seq<MemberFile>, id: int)
    ensures forall f :: f in FilesOf(fs, id) <==> f in fs && f.memberId == id
    ensures |FilesOf(fs, id)| <= |fs|
  {
    if fs != [] {
      FilesOfSound(fs[..|fs| - 1], id);
      assert fs == fs[..|fs| - 1] + [fs[|fs| - 1]];
    }
  }

  /** Appending rows adds their files of the member at the end. */
  lemma {:induction false} FilesOfAppend(a: seq<MemberFile>, b: seq<MemberFile>, id: int)
    ensures FilesOf(a + b, id) == FilesOf(a, id) + FilesOf(b, id)
  {
    if b != [] {
      FilesOfAppend(a, b[..|b| - 1], id);
      assert (a + b)[..|a + b| - 1] == a + b[..|b| - 1];
    } else {
      assert a + b == a;
    }
  }

  /** Rows that all belong to the member are all its files. */
  lemma {:induction false} FilesOfAll(b: seq<MemberFile>, id: int)
    requires forall i :: 0 <= i < |b| ==> b[i].memberId == id
    ensures FilesOf(b, id) == b
  {
    if b != [] {
      FilesOfAll(b[..|b| - 1], id);
      assert b == b[..|b| - 1] + [b[|b| - 1]];
    }
  }

  /** Rows none of which belongs to the member contribute no files. */
  lemma {:induction false} FilesOfNone(a: seq<MemberFile>, id: int)
    requires forall i :: 0 <= i < |a| ==> a[i].memberId != id
    ensures FilesOf(a, id) == []
  {
    if a != [] {
      FilesOfNone(a[..|a| - 1], id);
    }
  }

  /**
   * The store after `updateMemberStatus(id, s)`: the row's status becomes `s`;
   * `updatedAt` is refreshed only when the status changes (a MySQL
   * `ON UPDATE CURRENT_TIMESTAMP` column); an absent id changes nothing.
   */
  function WithStatus(ms: map<nat, Member>, id: int, s: Status, now: int): (r: map<nat, Member>)
    ensures r.Keys == ms.Keys
    ensures id in ms ==> r[id].status == s
    ensures id in ms ==> r[id] == ms[id] || r[id] == ms[id].(status := s, updatedAt := now)
    ensures forall k :: k in ms && k != id ==> r[k] == ms[k]
  {
    if id in ms && ms[id].status != s then ms[id as nat := ms[id].(status := s, updatedAt := now)] else ms
  }

  /** Setting the same status twice leaves the store as the first update left it. */
  lemma {:induction false} WithStatusIdempotent(ms: map<nat, Member>, id: int, s: Status, t1: int, t2: int)
    ensures WithStatus(WithStatus(ms, id, s, t1), id, s, t2) == WithStatus(ms, id, s, t1)
  {
    var once := WithStatus(ms, id, s, t1);
    assert id in once ==> once[id].status == s;
  }

  /** Only the status and `updatedAt` of the addressed row change, so column constraints survive. */
  lemma WithStatusFits(ms: map<nat, Member>, id: int, s: Status, now: int)
    requires forall k :: k in ms ==> ms[k].id == k && MemberFits(ms[k])
    ensures forall k :: k in WithStatus(ms, id, s, now) ==>
      WithStatus(ms, id, s, now)[k].id == k && MemberFits(WithStatus(ms, id, s, now)[k])
  {
  }

  /** What `getById` returns. */
  datatype MemberDetail = MemberDetail(member: Member, files: seq<MemberFile>)

  class MemberStore {
    var members: map<nat, Member>
    var files: seq<MemberFile>
    var nextMemberId: nat
    var nextFileId: nat
    var outbox: seq<Notification>

    /** Ids are assigned by the counters and never reused; every row fits the schema; files point at members. */
    ghost predicate Valid()
      reads this
    {
      && nextMemberId >= 1 && nextFileId >= 1
      && (forall id :: id in members ==> 1 <= id < nextMemberId && members[id].id == id && MemberFits(members[id]))
      && (forall i :: 0 <= i < |files| ==>
            files[i].memberId in members && FileFits(files[i]) && 1 <= files[i].id < nextFileId)
      && (forall i, j :: 0 <= i < j < |files| ==> files[i].id < files[j].id)
    }

    constructor ()
      ensures Valid()
      ensures members == map[] && files == [] && outbox == []
    {
      members := map[];
      files := [];
      nextMemberId := 1;
      nextFileId := 1;
      outbox := [];
    }

    /**
     * `members.submit`: validate, insert the member as `pending`, insert one
     * file row per descriptor, notify the owner, answer with the new id.
     */
    method Submit(d: Draft, descs: Option<seq<FileDescriptor>>, g: Grammars, now: int)
      returns (r: Result<nat, ApiError>)
      requires Valid()
      modifies this
      ensures Valid()
      ensures SubmitIssues(d, descs, g) != [] ==>
        && r == Err(BadRequest(SubmitIssues(d, descs, g)))
        && members == old(members) && files == old(files) && outbox == old(outbox)
        && nextMemberId == old(nextMemberId) && nextFileId == old(nextFileId)
      ensures SubmitIssues(d, descs, g) == [] && !MemberFits(NewMember(d, old(nextMemberId), now)) ==>
        && r == Err(PersistenceError)
        && members == old(members) && files == old(files) && outbox == old(outbox)
        && nextMemberId == old(nextMemberId) && nextFileId == old(nextFileId)
      ensures SubmitIssues(d, descs, g) == [] && MemberFits(NewMember(d, old(nextMemberId), now)) ==>
        var id := old(nextMemberId);
        var rows := FileRows(id, old(nextFileId), descs.value, now);
        var k := FittingPrefix(rows);
        && members == old(members)[id := NewMember(d, id, now)]
        && nextMemberId == id + 1
        && files == old(files) + rows[..k]
        && nextFileId == old(nextFileId) + k
        && (k == |rows| ==> r == Ok(id) && outbox == old(outbox) + [OwnerNotice(d)])
        && (k < |rows| ==> r == Err(PersistenceError) && outbox == old(outbox))
    {
      var issues := SubmitIssues(d, descs, g);
      if issues != [] {
        return Err(BadRequest(issues));
      }
      var id := nextMemberId;
      var row := NewMember(d, id, now);
      if !MemberFits(row) {
        return Err(PersistenceError);
      }
      InsertMember(row);
      var attached := AttachFiles(id, descs.value, now);
      if !attached {
        return Err(PersistenceError);
      }
      outbox := outbox + [OwnerNotice(d)];
      return Ok(id);
    }

    /** `createMember`: the row takes the next id, and the counter moves past it. */
    method InsertMember(row: Member)
      requires Valid() && row.id == nextMemberId && MemberFits(row)
      modifies this`members, this`nextMemberId
      ensures Valid()
      ensures members == old(members)[row.id := row] && nextMemberId == old(nextMemberId) + 1
    {
      members := members[row.id := row];
      nextMemberId := nextMemberId + 1;
    }

    /**
     * The loop of `submit` that calls `createMemberFile` once per descriptor,
     * in order; it stops at the first row the store refuses.
     */
    method AttachFiles(id: nat, fs: seq<FileDescriptor>, now: int) returns (attached: bool)
      requires Valid() && id in members
      modifies this`files, this`nextFileId
      ensures Valid()
      ensures var rows := FileRows(id, old(nextFileId), fs, now);
        && files == old(files) + rows[..FittingPrefix(rows)]
        && nextFileId == old(nextFileId) + FittingPrefix(rows)
        && (attached <==> FittingPrefix(rows) == |rows|)
    {
      ghost var rows := FileRows(id, nextFileId, fs, now);
      ghost var k := FittingPrefix(rows);
      var i := 0;
      while i < |fs|
        invariant 0 <= i <= |fs| && i <= k
        invariant files == old(files) + rows[..i]
        invariant nextFileId == old(nextFileId) + i
        invariant Valid()
      {
        var f := FileRow(id, nextFileId, fs[i], now);
        assert f == rows[i];
        if !FileFits(f) {
          return false;
        }
        files := files + [f];
        nextFileId := nextFileId + 1;
        i := i + 1;
        assert rows[..i] == rows[..i - 1] + [rows[i - 1]];
      }
      return true;
    }

    /** `members.list`: every stored member, in ascending id order, for an administrator only. */
    method List(caller: Caller) returns (r: Result<seq<Member>, ApiError>)
      requires Valid()
      ensures caller == Anonymous ==> r == Err(PleaseLogin)
      ensures caller.SignedIn? && caller.role != AdminRole ==> r == Err(Unauthorized)
      ensures caller == SignedIn(AdminRole) ==>
        && r.Ok?
        && (forall i :: 0 <= i < |r.value| ==> r.value[i].id in members && members[r.value[i].id] == r.value[i])
        && (forall id :: id in members ==> members[id] in r.value)
        && (forall i, j :: 0 <= i < j < |r.value| ==> r.value[i].id < r.value[j].id)
    {
      if caller == Anonymous {
        return Err(PleaseLogin);
      }
      if caller.role != AdminRole {
        return Err(Unauthorized);
      }
      var acc: seq<Member> := [];
      var id := 1;
      while id < nextMemberId
        invariant 1 <= id <= nextMemberId
        invariant forall i :: 0 <= i < |acc| ==> acc[i].id in members && members[acc[i].id] == acc[i] && acc[i].id < id
        invariant forall k :: k in members && k < id ==> members[k] in acc
        invariant forall i, j :: 0 <= i < j < |acc| ==> acc[i].id < acc[j].id
      {
        if id in members {
          acc := acc + [members[id]];
        }
        id := id + 1;
      }
      return Ok(acc);
    }

    /** `members.getById`: the member and exactly its files, for an administrator only. */
    method GetById(caller: Caller, id: int) returns (r: Result<MemberDetail, ApiError>)
      requires Valid()
      ensures caller == Anonymous ==> r == Err(PleaseLogin)
      ensures caller.SignedIn? && caller.role != AdminRole ==> r == Err(Unauthorized)
      ensures caller == SignedIn(AdminRole) && id !in members ==> r == Err(MemberNotFound)
      ensures caller == SignedIn(AdminRole) && id in members ==>
        r == Ok(MemberDetail(members[id], FilesOf(files, id)))
    {
      if caller == Anonymous {
        return Err(PleaseLogin);
      }
      if caller.role != AdminRole {
        return Err(Unauthorized);
      }
      if id !in members {
        return Err(MemberNotFound);
      }
      var found: seq<MemberFile> := [];
      for i := 0 to |files|
        invariant found == FilesOf(files[..i], id)
      {
        assert files[..i + 1][..i] == files[..i];
        if files[i].memberId == id {
          found := found + [files[i]];
        }
      }
      assert files[..|files|] == files;
      return Ok(MemberDetail(members[id], found));
    }

    /** `members.updateStatus`: set one member's status, for an administrator only. */
    method UpdateStatus(caller: Caller, id: int, status: string, now: int) returns (r: Result<(), ApiError>)
      requires Valid()
      modifies this
      ensures Valid()
      ensures files == old(files) && outbox == old(outbox)
      ensures nextMemberId == old(nextMemberId) && nextFileId == old(nextFileId)
      ensures caller == Anonymous ==> r == Err(PleaseLogin) && members == old(members)
      ensures caller.SignedIn? && ParseStatus(status).None? ==> r == Err(BadStatus) && members == old(members)
      ensures caller.SignedIn? && ParseStatus(status).Some? && caller.role != AdminRole ==>
        r == Err(Unauthorized) && members == old(members)
      ensures caller == SignedIn(AdminRole) && ParseStatus(status).Some? ==>
        r == Ok(()) && members == WithStatus(old(members), id, ParseStatus(status).value, now)
    {
      if caller == Anonymous {
        return Err(PleaseLogin);
      }
      var parsed := ParseStatus(status);
      if parsed.None? {
        return Err(BadStatus);
      }
      if caller.role != AdminRole {
        return Err(Unauthorized);
      }
      WithStatusFits(members, id, parsed.value, now);
      members := WithStatus(members, id, parsed.value, now);
      return Ok(());
    }
  }

  /**
   * After a successful `submit`, the new member's files are exactly the rows
   * made from its three descriptors: no earlier row can carry the fresh id.
   */
  lemma SubmittedFilesAreOwn(old_files: seq<MemberFile>, old_members: map<nat, Member>, id: nat, rows: seq<MemberFile>)
    requires forall i :: 0 <= i < |old_files| ==> old_files[i].memberId in old_members
    requires id !in old_members
    requires forall i :: 0 <= i < |rows| ==> rows[i].memberId == id
    ensures FilesOf(old_files + rows, id) == rows
  {
    FilesOfAppend(old_files, rows, id);
    FilesOfNone(old_files, id);
    FilesOfAll(rows, id);
  }
}
