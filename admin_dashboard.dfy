/**
 * The admin dashboard of the tRPC variant: the member list filtered by a
 * search term and a status, the CSV export of the filtered list, the status
 * labels, and the buttons that change a member's status.
 *
 * The locale rendering of `createdAt` and the clock's ISO timestamp are
 * parameters; downloading the blob is not part of this model.
 */
module AdminDashboard {
  import opened Wrappers
  import opened Text
  import opened Schema
  import opened Cells
  import MembersApi

  // ---------------------------------------------------------------------
  // `filteredMembers`
  // ---------------------------------------------------------------------

  /** The lower-cased term occurs in the lower-cased name, email or profession. */
  predicate MatchesSearch(m: Member, term: string)
  {
    var t := Lower(term);
    Contains(Lower(m.englishName), t) || Contains(Lower(m.email), t) || Contains(Lower(m.profession), t)
  }

  /** The filter is "all" or the member's status literal. */
  predicate MatchesStatus(m: Member, statusFilter: string)
  {
    statusFilter == "all" || StatusName(m.status) == statusFilter
  }

  predicate Keeps(m: Member, term: string, statusFilter: string)
  {
    MatchesSearch(m, term) && MatchesStatus(m, statusFilter)
  }

  /** `members.filter(...)`: the members the two conditions keep. */
  function Filter(ms: seq<Member>, term: string, statusFilter: string): seq<Member>
  {
    if ms == [] then []
    else (if Keeps(ms[0], term, statusFilter) then [ms[0]] else []) + Filter(ms[1..], term, statusFilter)
  }

  /** A member is shown exactly when it is in the list and both conditions keep it. */
  lemma {:induction false} FilterMembers(ms: seq<Member>, term: string, statusFilter: string)
    ensures forall m :: m in Filter(ms, term, statusFilter) <==> m in ms && Keeps(m, term, statusFilter)
    ensures |Filter(ms, term, statusFilter)| <= |ms|
  {
    if ms != [] {
      FilterMembers(ms[1..], term, statusFilter);
      assert forall m :: m in ms <==> m == ms[0] || m in ms[1..];
    }
  }

  /** `idx` places each entry of `r` at a position of `s`, positions strictly increasing. */
  predicate Embeds<T(==)>(idx: seq<nat>, r: seq<T>, s: seq<T>)
  {
    && |idx| == |r|
    && (forall k :: 0 <= k < |idx| ==> idx[k] < |s| && r[k] == s[idx[k]])
    && (forall k, l :: 0 <= k < l < |idx| ==> idx[k] < idx[l])
  }

  /** Every position moved one place on. */
  function Shifted(idx: seq<nat>): (r: seq<nat>)
    ensures |r| == |idx| && forall k :: 0 <= k < |idx| ==> r[k] == idx[k] + 1
  {
    seq(|idx|, k requires 0 <= k < |idx| => idx[k] + 1)
  }

  /** An embedding into the tail of `s` is one into `s`, one place on. */
  lemma EmbedsSkip<T>(idx: seq<nat>, r: seq<T>, s: seq<T>)
    requires s != [] && Embeds(idx, r, s[1..])
    ensures Embeds(Shifted(idx), r, s)
  {
  }

  /** ... and the head of `s` can be put in front of it. */
  lemma EmbedsKeep<T>(idx: seq<nat>, r: seq<T>, s: seq<T>)
    requires s != [] && Embeds(idx, r, s[1..])
    ensures Embeds([0] + Shifted(idx), [s[0]] + r, s)
  {
    var j := [0] + Shifted(idx);
    forall k | 0 < k < |j|
      ensures j[k] == idx[k - 1] + 1 && ([s[0]] + r)[k] == r[k - 1]
    {
    }
  }

  /** The filter keeps members in the order the list gives them: the result is a subsequence of the list. */
  lemma {:induction false} FilterKeepsOrder(ms: seq<Member>, term: string, statusFilter: string)
    ensures exists idx :: Embeds(idx, Filter(ms, term, statusFilter), ms)
  {
    if ms == [] {
      assert Embeds([], Filter(ms, term, statusFilter), ms);
    } else {
      FilterKeepsOrder(ms[1..], term, statusFilter);
      var rest := Filter(ms[1..], term, statusFilter);
      var tail :| Embeds(tail, rest, ms[1..]);
      if Keeps(ms[0], term, statusFilter) {
        assert Filter(ms, term, statusFilter) == [ms[0]] + rest;
        EmbedsKeep(tail, rest, ms);
      } else {
        assert Filter(ms, term, statusFilter) == rest;
        EmbedsSkip(tail, rest, ms);
      }
    }
  }

  /** The empty text occurs in every text, so an empty search keeps everyone. */
  lemma EmptySearchMatches(m: Member)
    ensures MatchesSearch(m, "")
  {
    assert Lower("") == "";
    assert OccursAt(Lower(m.englishName), "", 0);
  }

  /** With an empty search and the filter "all", the list is shown as it is. */
  lemma {:induction false} FilterNothing(ms: seq<Member>)
    ensures Filter(ms, "", "all") == ms
  {
    if ms != [] {
      EmptySearchMatches(ms[0]);
      FilterNothing(ms[1..]);
    }
  }

  /** Filtering the filtered list again changes nothing. */
  lemma {:induction false} FilterIdempotent(ms: seq<Member>, term: string, statusFilter: string)
    ensures Filter(Filter(ms, term, statusFilter), term, statusFilter) == Filter(ms, term, statusFilter)
  {
    if ms != [] {
      FilterIdempotent(ms[1..], term, statusFilter);
      var rest := Filter(ms[1..], term, statusFilter);
      if Keeps(ms[0], term, statusFilter) {
        assert Filter(ms, term, statusFilter) == [ms[0]] + rest;
        assert ([ms[0]] + rest)[1..] == rest;
        assert Filter([ms[0]] + rest, term, statusFilter) == [ms[0]] + Filter(rest, term, statusFilter);
      } else {
        assert Filter(ms, term, statusFilter) == rest;
      }
    }
  }

  /** Filtering by a status literal keeps only members in that status. */
  lemma FilterByStatus(ms: seq<Member>, term: string, s: Status)
    ensures forall m :: m in Filter(ms, term, StatusName(s)) ==> m.status == s
  {
    FilterMembers(ms, term, StatusName(s));
    forall m | m in Filter(ms, term, StatusName(s))
      ensures m.status == s
    {
      StatusNameRoundTrip(m.status);
      StatusNameRoundTrip(s);
    }
  }

  // ---------------------------------------------------------------------
  // `handleExportCSV`
  // ---------------------------------------------------------------------

  const CsvHeaders: seq<string> := [
    "ID", "英文名稱", "公司名稱", "所屬分會", "專業領域", "電話", "電郵",
    "入會年資", "金章會員", "婚宴分類", "服務區域", "案例數量", "狀態", "提交時間"]

  /** The status label, as in the export and on the status badge. */
  function StatusLabel(s: Status): (r: string)
    ensures r == "待審核" <==> s == Pending
    ensures r == "已批准" <==> s == Approved
    ensures r == "已拒絕" <==> s == Rejected
  {
    assert "已批准"[1] != "已拒絕"[1] && "待審核"[0] != "已批准"[0];
    match s
    case Pending => "待審核"
    case Approved => "已批准"
    case Rejected => "已拒絕"
  }

  /** `m.pastCasesCount || ""`: zero is falsy, so it exports blank like an absent count. */
  function CaseCount(o: Option<int>): (r: string)
    ensures r == "" <==> o.None? || o.value == 0
    ensures o.Some? && o.value != 0 ==> r == IntToString(o.value)
  {
    if o.None? || o.value == 0 then "" else IntToString(o.value)
  }

  /** The cells of one member's row; `formatTime` is `toLocaleString("zh-TW")` on the creation time. */
  function CsvCells(m: Member, formatTime: int -> string): (r: seq<string>)
    ensures |r| == |CsvHeaders| == 14
  {
    [ NatToString(m.id),
      m.englishName,
      OrEmpty(m.companyName),
      m.chapter,
      m.profession,
      m.phone,
      m.email,
      IntToString(m.yearsOfMembership),
      GoldLabel(m.isGoldMember),
      OrEmpty(m.weddingCategory),
      OrEmpty(m.serviceArea),
      CaseCount(m.pastCasesCount),
      StatusLabel(m.status),
      formatTime(m.createdAt) ]
  }

  /** What the cells under the headers say about the member. */
  lemma CsvColumns(m: Member, formatTime: int -> string)
    ensures var r := CsvCells(m, formatTime);
      && CsvHeaders[0] == "ID" && IsDigits(r[0]) && DigitsValue(r[0]) == m.id
      && CsvHeaders[2] == "公司名稱" && (r[2] == "" <==> !Truthy(m.companyName))
      && CsvHeaders[8] == "金章會員" && (r[8] == "是" <==> m.isGoldMember == Yes)
      && CsvHeaders[11] == "案例數量" && (r[11] == "" <==> m.pastCasesCount.None? || m.pastCasesCount == Some(0))
      && CsvHeaders[12] == "狀態" && (r[12] == "已批准" <==> m.status == Approved)
  {
    NatToStringRoundTrip(m.id);
  }

  /** `"${cell}"`: the cell between double quotes, with nothing inside escaped. */
  function Quote(cell: string): string
  {
    "\"" + cell + "\""
  }

  function QuotedCells(row: seq<string>): seq<string>
  {
    seq(|row|, i requires 0 <= i < |row| => Quote(row[i]))
  }

  /** One line: the quoted cells joined with ",". */
  function Line(row: seq<string>): string
  {
    Join(",", QuotedCells(row))
  }

  function Lines(table: seq<seq<string>>): seq<string>
  {
    seq(|table|, i requires 0 <= i < |table| => Line(table[i]))
  }

  /** The CSV text: the lines joined with "\n". */
  function Render(table: seq<seq<string>>): string
  {
    Join("\n", Lines(table))
  }

  /** The header row followed by one row per member, in list order. */
  function Table(ms: seq<Member>, formatTime: int -> string): (t: seq<seq<string>>)
    ensures |t| == |ms| + 1 && t[0] == CsvHeaders
    ensures forall i :: 0 <= i < |ms| ==> t[i + 1] == CsvCells(ms[i], formatTime)
    ensures forall i :: 0 <= i < |t| ==> |t[i]| == 14
  {
    [CsvHeaders] + seq(|ms|, i requires 0 <= i < |ms| => CsvCells(ms[i], formatTime))
  }

  /** The byte-order mark the blob starts with. */
  const Bom: char := '\U{FEFF}'

  const NothingToExport := "沒有可匯出的資料"

  /** The downloaded file: its name and its text. */
  datatype CsvFile = CsvFile(name: string, content: string)

  /** `bni-members-${new Date().toISOString().split("T")[0]}.csv`. */
  function FileName(isoNow: string): string
  {
    "bni-members-" + FirstSegment(isoNow, 'T') + ".csv"
  }

  /** The file is named after the date part of the ISO timestamp. */
  lemma FileNameIsDate(date: string, time: string)
    requires 'T' !in date
    ensures FileName(date + "T" + time) == "bni-members-" + date + ".csv"
  {
    FirstSegmentOfPrefix(date, 'T', time);
  }

  /**
   * The export of the filtered list (absent while the list is loading), at
   * the instant whose ISO form is `isoNow`: refused when there is nothing to
   * export, otherwise the BOM and the rendered table.
   */
  function ExportCsv(filtered: Option<seq<Member>>, formatTime: int -> string, isoNow: string): (r: Result<CsvFile, string>)
    ensures r.Err? <==> filtered.None? || filtered.value == []
    ensures r.Err? ==> r.error == NothingToExport
    ensures r.Ok? ==> r.value.name == FileName(isoNow)
    ensures r.Ok? ==> |r.value.content| >= 1 && r.value.content[0] == Bom
    ensures r.Ok? ==> r.value.content[1..] == Render(Table(filtered.value, formatTime))
  {
    if filtered.None? || |filtered.value| == 0 then Err(NothingToExport)
    else Ok(CsvFile(FileName(isoNow), [Bom] + Render(Table(filtered.value, formatTime))))
  }

  // ---------------------------------------------------------------------
  // Reading the CSV back
  // ---------------------------------------------------------------------

  /**
   * Reads a text of quoted cells separated by "," and "\n" back into rows:
   * a cell runs from its opening quote to the next quote. The partner of
   * `Render`.
   */
  function ParseCsv(s: string): (r: Option<seq<seq<string>>>)
    ensures r.Some? ==> |r.value| >= 1 && |r.value[0]| >= 1
    decreases |s|
  {
    if s == [] || s[0] != '"' then None
    else
      var cell := FirstSegment(s[1..], '"');
      if |cell| == |s| - 1 then None
      else
        var rest := s[|cell| + 2..];
        if rest == [] then Some([[cell]])
        else if rest[0] == ',' then
          match ParseCsv(rest[1..])
          case None => None
          case Some(t) => Some([[cell] + t[0]] + t[1..])
        else if rest[0] == '\n' then
          match ParseCsv(rest[1..])
          case None => None
          case Some(t) => Some([[cell]] + t)
        else None
  }

  /** No cell of the table holds a double quote. */
  predicate QuoteFree(table: seq<seq<string>>)
  {
    forall i, j :: 0 <= i < |table| && 0 <= j < |table[i]| ==> '"' !in table[i][j]
  }

  /** The first row of a quote-free table is quote-free, and so are the remaining rows. */
  lemma QuoteFreeParts(table: seq<seq<string>>)
    requires |table| >= 1 && QuoteFree(table)
    ensures forall j :: 0 <= j < |table[0]| ==> '"' !in table[0][j]
    ensures QuoteFree(table[1..])
  {
    var rest := table[1..];
    forall i, j | 0 <= i < |rest| && 0 <= j < |rest[i]| ensures '"' !in rest[i][j] {
      assert rest[i] == table[i + 1];
    }
  }

  /** What follows a line: nothing after the last, a newline and the next lines otherwise. */
  function After(t: seq<seq<string>>): string
  {
    if t == [] then "" else "\n" + Render(t)
  }

  /** A quoted cell followed by `tail`: the cell is read up to its closing quote, and the reader goes on with `tail`. */
  lemma ReadCell(c: string, tail: string)
    requires '"' !in c
    ensures var s := Quote(c) + tail;
      s != [] && s[0] == '"' && FirstSegment(s[1..], '"') == c && |c| < |s| - 1 && s[|c| + 2..] == tail
  {
    var s := Quote(c) + tail;
    assert s[1..] == c + ['"'] + tail;
    FirstSegmentOfPrefix(c, '"', tail);
  }

  /** The last cell of the text. */
  lemma ReadLastCell(c: string)
    requires '"' !in c
    ensures ParseCsv(Quote(c)) == Some([[c]])
  {
    ReadCell(c, "");
    assert Quote(c) + "" == Quote(c);
  }

  /** A cell that ends its line, the next line being read as `t`. */
  lemma ReadCellThenLine(c: string, x: string, t: seq<seq<string>>)
    requires '"' !in c && ParseCsv(x) == Some(t)
    ensures ParseCsv(Quote(c) + ("\n" + x)) == Some([[c]] + t)
  {
    ReadCell(c, "\n" + x);
    assert ("\n" + x)[1..] == x;
  }

  /** A cell followed by more cells of its line, the rest being read as `t`. */
  lemma ReadCellThenCell(c: string, x: string, t: seq<seq<string>>)
    requires '"' !in c && ParseCsv(x) == Some(t)
    ensures ParseCsv(Quote(c) + ("," + x)) == Some([[c] + t[0]] + t[1..])
  {
    ReadCell(c, "," + x);
    assert ("," + x)[1..] == x;
  }

  /** A line is its first quoted cell, then, if there are more, "," and the line of the rest. */
  lemma LineFirstCell(row: seq<string>)
    requires |row| >= 1
    ensures |row| == 1 ==> Line(row) == Quote(row[0])
    ensures |row| > 1 ==> Line(row) == Quote(row[0]) + "," + Line(row[1..])
  {
    if |row| > 1 {
      assert QuotedCells(row)[1..] == QuotedCells(row[1..]);
    }
  }

  /** A one-cell line and whatever follows it. */
  lemma ParseOneCellLineThen(c: string, t: seq<seq<string>>)
    requires '"' !in c
    requires t == [] || ParseCsv(Render(t)) == Some(t)
    ensures ParseCsv(Quote(c) + After(t)) == Some([[c]] + t)
  {
    if t == [] {
      ReadLastCell(c);
      assert Quote(c) + After(t) == Quote(c);
      assert [[c]] + t == [[c]];
    } else {
      ReadCellThenLine(c, Render(t), t);
    }
  }

  /** A line and whatever follows it. */
  lemma {:induction false} ParseLineThen(row: seq<string>, t: seq<seq<string>>)
    requires |row| >= 1 && forall j :: 0 <= j < |row| ==> '"' !in row[j]
    requires t == [] || ParseCsv(Render(t)) == Some(t)
    ensures ParseCsv(Line(row) + After(t)) == Some([row] + t)
  {
    var c := row[0];
    assert '"' !in c;
    if |row| == 1 {
      assert Line(row) == Quote(c) by { LineFirstCell(row); }
      ParseOneCellLineThen(c, t);
      assert [c] == row;
    } else {
      var x := Line(row[1..]) + After(t);
      assert ParseCsv(x) == Some([row[1..]] + t) by {
        ParseLineThen(row[1..], t);
      }
      assert ParseCsv(Quote(c) + ("," + x)) == Some([row] + t) by {
        ReadCellThenCell(c, x, [row[1..]] + t);
        assert [c] + row[1..] == row;
      }
      assert Line(row) + After(t) == Quote(c) + ("," + x) by {
        LineFirstCell(row);
      }
    }
  }

  /** The text of a table is its first line followed by the rest. */
  lemma RenderFirstLine(table: seq<seq<string>>)
    requires |table| >= 1
    ensures Render(table) == Line(table[0]) + After(table[1..])
  {
    if |table| > 1 {
      assert Lines(table)[1..] == Lines(table[1..]);
    }
  }

  /** A quote-free table with at least one row, and at least one cell per row, reads back as itself. */
  lemma {:induction false} CsvRoundTrip(table: seq<seq<string>>)
    requires |table| >= 1 && forall i :: 0 <= i < |table| ==> |table[i]| >= 1
    requires QuoteFree(table)
    ensures ParseCsv(Render(table)) == Some(table)
  {
    QuoteFreeParts(table);
    RenderFirstLine(table);
    var rest := table[1..];
    if rest != [] {
      CsvRoundTrip(rest);
    }
    ParseLineThen(table[0], rest);
    assert [table[0]] + rest == table;
  }

  /**
   * Quotes inside a cell are not doubled, so a cell holding `a","b` renders
   * exactly like two cells `a` and `b`: the text no longer determines the
   * table.
   */
  lemma QuoteInCellCollides()
    ensures exists t1, t2 :: t1 != t2 && Render(t1) == Render(t2)
  {
    var t1 := [["a\",\"b"]];
    var t2 := [["a", "b"]];
    assert Render(t1) == Line(t1[0]) == Quote("a\",\"b");
    assert QuotedCells(t2[0])[1..] == QuotedCells(["b"]);
    assert Render(t2) == Line(t2[0]) == Quote("a") + "," + Quote("b");
    assert t1[0] != t2[0] by {
      assert |t1[0]| == 1 && |t2[0]| == 2;
    }
    assert t1 != t2 && Render(t1) == Render(t2);
  }

  /**
   * An export whose cells hold no double quote reads back, after the BOM,
   * as the header row and one 14-cell row per exported member.
   */
  lemma ExportReadsBack(ms: seq<Member>, formatTime: int -> string, isoNow: string)
    requires ms != []
    requires forall i, j :: 0 <= i < |ms| && 0 <= j < 14 ==> '"' !in CsvCells(ms[i], formatTime)[j]
    ensures var r := ExportCsv(Some(ms), formatTime, isoNow);
      r.Ok? && ParseCsv(r.value.content[1..]) == Some(Table(ms, formatTime))
  {
    var t := Table(ms, formatTime);
    assert QuoteFree(t) by {
      forall i, j | 0 <= i < |t| && 0 <= j < |t[i]| ensures '"' !in t[i][j] {
        if i == 0 {
          assert '"' !in CsvHeaders[j];
        } else {
          assert t[i] == CsvCells(ms[i - 1], formatTime);
        }
      }
    }
    CsvRoundTrip(t);
  }

  // ---------------------------------------------------------------------
  // The status buttons
  // ---------------------------------------------------------------------

  /** A status button is disabled while an update is in flight, or when the member already has that status. */
  predicate ButtonDisabled(current: Status, target: Status, isPending: bool)
  {
    isPending || current == target
  }

  /** An enabled button asks for a real change: the member's status becomes the target and the row is stamped. */
  lemma EnabledButtonChangesStatus(ms: map<nat, Member>, id: nat, target: Status, now: int)
    requires id in ms && !ButtonDisabled(ms[id].status, target, false)
    ensures var after := MembersApi.WithStatus(ms, id, target, now);
      after[id] == ms[id].(status := target, updatedAt := now) && after != ms
  {
    var after := MembersApi.WithStatus(ms, id, target, now);
    assert after[id].status != ms[id].status;
  }

  /** The button a disabled status would offer asks for nothing: the update leaves the store as it is. */
  lemma DisabledButtonIsNoOp(ms: map<nat, Member>, id: nat, isPending: bool, now: int)
    requires id in ms
    ensures ButtonDisabled(ms[id].status, ms[id].status, isPending)
    ensures MembersApi.WithStatus(ms, id, ms[id].status, now) == ms
  {
  }
}
