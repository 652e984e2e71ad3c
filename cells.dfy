/**
 * The cell renderers shared by the Google Sheets row and the Excel
 * worksheet of the Express back end: the gold-member label, the tri-state
 * yes/no label, the years cell, optional numbers, and the file-URL list.
 */
module Cells {
  import opened Wrappers
  import opened Text
  import opened Schema
  import opened Forms

  /** `isGoldMember === 'yes' ? '是' : '否'`. */
  function GoldLabel(g: YesNo): (r: string)
    ensures r in {"是", "否"}
    ensures r == "是" <==> g == Yes
  {
    if g == Yes then "是" else "否"
  }

  /** `x === 'yes' ? 'Yes' : x === 'no' ? 'No' : ''`: absent renders blank. */
  function TriState(o: Option<YesNo>): (r: string)
    ensures r in {"Yes", "No", ""}
    ensures r == "" <==> o.None?
    ensures r == "Yes" <==> o == Some(Yes)
  {
    match o
    case None => ""
    case Some(Yes) => "Yes"
    case Some(No) => "No"
  }

  /** `${years} 年`. */
  function YearsText(n: int): (r: string)
    ensures |r| >= 3 && r[|r| - 2..] == " 年"
    ensures r[..|r| - 2] == IntToString(n)
  {
    IntToString(n) + " 年"
  }

  /** `n?.toString() || ''`: blank exactly when absent (zero renders as "0"). */
  function OptionalNumber(o: Option<int>): (r: string)
    ensures r == "" <==> o.None?
    ensures o.Some? ==> r == IntToString(o.value)
  {
    if o.Some? then IntToString(o.value) else ""
  }

  /** The `fileUrl` of each descriptor, in order. */
  function UrlsOf(fs: seq<FileDescriptor>): (urls: seq<string>)
    ensures |urls| == |fs| && forall i :: 0 <= i < |fs| ==> urls[i] == fs[i].fileUrl
  {
    seq(|fs|, i requires 0 <= i < |fs| => fs[i].fileUrl)
  }

  /** `files?.map(f => f.fileUrl).join('; ') || ''`. */
  function FileUrls(files: Option<seq<FileDescriptor>>): (r: string)
    ensures files.None? || files.value == [] ==> r == ""
  {
    if files.None? then "" else Join("; ", UrlsOf(files.value))
  }

  /** Splits a `"; "`-joined list back into its items (the partner of `FileUrls`). */
  function SplitUrls(s: string): (r: seq<string>)
    ensures |r| >= 1
    decreases |s|
  {
    var head := FirstSegment(s, ';');
    if |head| == |s| then [s]
    else if |head| + 1 < |s| && s[|head| + 1] == ' ' then [head] + SplitUrls(s[|head| + 2..])
    else [head] + SplitUrls(s[|head| + 1..])
  }

  lemma {:induction false} SplitJoinedUrls(urls: seq<string>)
    requires |urls| >= 1
    requires forall i :: 0 <= i < |urls| ==> ';' !in urls[i]
    ensures SplitUrls(Join("; ", urls)) == urls
  {
    var u := urls[0];
    assert ';' !in u;
    if |urls| == 1 {
      assert Join("; ", urls) == u;
      assert |FirstSegment(u, ';')| == |u|;
      assert SplitUrls(u) == [u];
    } else {
      var rest := Join("; ", urls[1..]);
      var s := u + [';'] + ([' '] + rest);
      assert Join("; ", urls) == s;
      FirstSegmentOfPrefix(u, ';', [' '] + rest);
      assert s[|u| + 1] == ' ';
      assert s[|u| + 2..] == rest;
      assert SplitUrls(s) == [u] + SplitUrls(rest);
      SplitJoinedUrls(urls[1..]);
      assert urls == [u] + urls[1..];
    }
  }

  /** The file cell lists every URL, in input order, and nothing else, when no URL contains `;`. */
  lemma FileUrlsRoundTrip(fs: seq<FileDescriptor>)
    requires |fs| >= 1
    requires forall i :: 0 <= i < |fs| ==> ';' !in fs[i].fileUrl
    ensures SplitUrls(FileUrls(Some(fs))) == UrlsOf(fs)
  {
    SplitJoinedUrls(UrlsOf(fs));
  }
}
