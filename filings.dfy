/** SEC filing reports: the classifier that names the kind of financial
    statement a report's long name describes, and the table from each kind
    to the address of the report's HTML document. */
module Filings {

  import opened Wrappers
  import opened JsString
  import opened JsValue

  /** What the report names are split on. */
  const Separator := " - "

  /** The classification rules in the order they are tried: the phrase the
      last part of the name must contain, and the label it gives. */
  const Rules: seq<(string, string)> := [
    ("statements of cash flows", "cash flow"),
    ("statements of operations", "profit and loss"),
    ("balance sheets", "balance sheet"),
    ("income", "income statement"),
    ("property, plant and equipment", "profit, plant and equipment")
  ]

  /** The five labels a report can be given. */
  const Labels: seq<string> := ["cash flow", "profit and loss", "balance sheet", "income statement",
                                "profit, plant and equipment"]

  /** `s.split(sep).pop()`: the split scans from the left, so each
      separator found is skipped whole before the search goes on. */
  function LastPiece(s: string, sep: string): (r: string)
    requires |sep| > 0
    ensures |r| <= |s|
    decreases |s|
  {
    match IndexOf(s, sep, 0)
    case None => s
    case Some(i) => LastPiece(s[i + |sep|..], sep)
  }

  /** The last piece is a suffix of the text that holds no separator, and
      a text without a separator is its own last piece. */
  lemma {:induction false} LastPieceShape(s: string, sep: string)
    requires |sep| > 0
    ensures var r := LastPiece(s, sep);
      && r == s[|s| - |r|..]
      && !Contains(r, sep)
      && (!Contains(s, sep) ==> r == s)
    decreases |s|
  {
    match IndexOf(s, sep, 0)
    case None =>
      assert LastPiece(s, sep) == s;
      assert s[|s| - |s|..] == s;
    case Some(i) =>
      var tail := s[i + |sep|..];
      LastPieceShape(tail, sep);
      var r := LastPiece(tail, sep);
      assert LastPiece(s, sep) == r;
      assert tail[|tail| - |r|..] == s[|s| - |r|..];
  }

  /** The `if` chain over the rules from `k` on: the first phrase contained
      in `piece` gives the label. */
  function FirstRule(piece: string, k: nat): (r: Option<string>)
    requires k <= |Rules|
    ensures r.Some? <==> exists i | k <= i < |Rules| :: Contains(piece, Rules[i].0)
    ensures r.Some? ==> exists i | k <= i < |Rules| ::
      Contains(piece, Rules[i].0) && r.value == Rules[i].1
      && forall j | k <= j < i :: !Contains(piece, Rules[j].0)
    decreases |Rules| - k
  {
    if k == |Rules| then None
    else if Contains(piece, Rules[k].0) then Some(Rules[k].1)
    else FirstRule(piece, k + 1)
  }

  /** `getFilingType(name)`: nothing for a name without `statement` or with
      `parenthetical`; otherwise the first rule whose phrase occurs in the
      part of the name after the last separator. */
  function GetFilingType(name: string): (r: Option<string>)
    ensures !Contains(name, "statement") || Contains(name, "parenthetical") ==> r.None?
    ensures r.Some? ==> r.value in Labels
    ensures Contains(name, "statement") && !Contains(name, "parenthetical") ==>
      r == FirstRule(LastPiece(name, Separator), 0)
  {
    if !Contains(name, "statement") || Contains(name, "parenthetical") then None
    else FirstRule(LastPiece(name, Separator), 0)
  }

  /** A text contained in a suffix is contained in the whole. */
  lemma ContainsInSuffix(s: string, k: nat, sub: string)
    requires k <= |s| && Contains(s[k..], sub)
    ensures Contains(s, sub)
  {
    var i :| 0 <= i <= |s[k..]| - |sub| && OccursAt(s[k..], sub, i);
    assert s[k + i..k + i + |sub|] == s[k..][i..i + |sub|];
    assert OccursAt(s, sub, k + i);
  }

  /** Every label is given only to a name that mentions a statement, does
      not mention `parenthetical`, and contains the label's phrase. */
  lemma GetFilingTypeSound(name: string)
    ensures GetFilingType(name).Some? ==>
      && Contains(name, "statement") && !Contains(name, "parenthetical")
      && exists i | 0 <= i < |Rules| :: GetFilingType(name).value == Rules[i].1 && Contains(name, Rules[i].0)
  {
    if GetFilingType(name).Some? {
      var piece := LastPiece(name, Separator);
      LastPieceShape(name, Separator);
      var i :| 0 <= i < |Rules| && Contains(piece, Rules[i].0) && GetFilingType(name).value == Rules[i].1;
      ContainsInSuffix(name, |name| - |piece|, Rules[i].0);
    }
  }

  /** Splitting a name joined from parts gives its last part back, as long
      as no part contains the separator and no part but the last ends with
      `" -"` (which would hide a separator across the join). */
  lemma {:induction false} LastPieceOfJoin(parts: seq<string>)
    requires |parts| >= 1
    requires forall i | 0 <= i < |parts| :: !Contains(parts[i], Separator)
    requires forall i | 0 <= i < |parts| - 1 :: !EndsWithDash(parts[i])
    ensures LastPiece(Join(parts, Separator), Separator) == parts[|parts| - 1]
  {
    if |parts| > 1 {
      var p := parts[0];
      var rest := Join(parts[1..], Separator);
      var s := Join(parts, Separator);
      assert s == p + Separator + rest;
      FirstSeparator(p, rest);
      assert s[|p| + |Separator|..] == rest;
      LastPieceOfJoin(parts[1..]);
    }
  }

  /** `s` ends with a space and a dash. */
  predicate EndsWithDash(s: string)
  {
    |s| >= 2 && s[|s| - 2..] == " -"
  }

  /** The first separator in `p + " - " + rest` is the one after `p`. */
  lemma FirstSeparator(p: string, rest: string)
    requires !Contains(p, Separator) && !EndsWithDash(p)
    ensures IndexOf(p + Separator + rest, Separator, 0) == Some(|p|)
  {
    var s := p + Separator + rest;
    assert OccursAt(s, Separator, |p|);
    forall j | 0 <= j < |p|
      ensures !OccursAt(s, Separator, j)
    {
      NoSeparatorBefore(p, rest, j);
    }
  }

  /** No separator starts inside `p`: one wholly inside would be in `p`,
      and one across the join would need `p` to end with `" -"` or a
      dash where the join has a space. */
  lemma NoSeparatorBefore(p: string, rest: string, j: nat)
    requires !Contains(p, Separator) && !EndsWithDash(p)
    requires j < |p|
    ensures !OccursAt(p + Separator + rest, Separator, j)
  {
    var s := p + Separator + rest;
    if j + 3 <= |p| {
      assert !OccursAt(p, Separator, j);
      assert s[j..j + 3] == p[j..j + 3];
    } else if j == |p| - 1 {
      assert s[j + 1] == ' ';
    } else {
      assert s[j] == p[|p| - 2] && s[j + 1] == p[|p| - 1];
      assert p[|p| - 2..] == [s[j], s[j + 1]];
    }
  }

  // ---------------------------------------------------------------------
  // parseFilingReport
  // ---------------------------------------------------------------------

  /** One entry of a filing summary: `LongName._text` and
      `HtmlFileName._text`, either of which may be missing. */
  datatype Report = Report(longName: Option<string>, htmlFileName: Option<string>)

  /** What reading the type of a report without a long name throws: the
      optional chain yields `undefined`, and `getFilingType` reads
      `includes` from it. */
  const MissingNameError := "Cannot read properties of undefined (reading 'includes')"

  /** `${baseURL}/${report.HtmlFileName?._text}` */
  function Document(report: Report, baseURL: string): (d: string)
    ensures report.htmlFileName.Some? ==> d == baseURL + "/" + report.htmlFileName.value
    ensures report.htmlFileName.None? ==> d == baseURL + "/undefined"
  {
    baseURL + "/" + match report.htmlFileName { case Some(f) => f case None => "undefined" }
  }

  /** The kind of a report with a long name, from its lower-cased name.
      The reduction below takes the classifier as a parameter, so that what
      is proved about the table holds for any classifier and does not need
      to look inside `getFilingType`; the source's table is the one built
      with `GetFilingType`. */
  function TypeOf(report: Report, classify: string -> Option<string>): Option<string>
    requires report.longName.Some?
  {
    classify(ToLower(report.longName.value))
  }

  /** The reduction over the reports: each classified report assigns its
      document to its kind; the first report without a long name throws. */
  function ReportTable(reports: seq<Report>, baseURL: string, classify: string -> Option<string>): Result<seq<Field>>
  {
    if reports == [] then Ok([])
    else
      match ReportTable(reports[..|reports| - 1], baseURL, classify)
      case Err(m) => Err(m)
      case Ok(total) =>
        var report := reports[|reports| - 1];
        if report.longName.None? then Err(MissingNameError)
        else
          match TypeOf(report, classify)
          case Some(kind) => Ok(Put(total, kind, Str(Document(report, baseURL))))
          case None => Ok(total)
  }

  /** Once a report has thrown, the reports after it change nothing. */
  lemma {:induction false} ReportTableSticks(reports: seq<Report>, baseURL: string,
                                             classify: string -> Option<string>, n: nat)
    requires n <= |reports| && ReportTable(reports[..n], baseURL, classify).Err?
    ensures ReportTable(reports, baseURL, classify) == ReportTable(reports[..n], baseURL, classify)
    decreases |reports| - n
  {
    if n < |reports| {
      assert reports[..n + 1][..n] == reports[..n];
      ReportTableSticks(reports, baseURL, classify, n + 1);
    } else {
      assert reports[..n] == reports;
    }
  }

  /** `parseFilingReport(report, baseURL)`: assigns into the accumulator
      object report by report. */
  method ParseFilingReport(reports: seq<Report>, baseURL: string) returns (r: Result<seq<Field>>)
    ensures r == ReportTable(reports, baseURL, GetFilingType)
  {
    var total: seq<Field> := [];
    for i := 0 to |reports|
      invariant ReportTable(reports[..i], baseURL, GetFilingType) == Ok(total)
    {
      assert reports[..i + 1][..i] == reports[..i];
      var report := reports[i];
      if report.longName.None? {
        ReportTableSticks(reports, baseURL, GetFilingType, i + 1);
        return Err(MissingNameError);
      }
      var name := ToLower(report.longName.value);
      var document := baseURL + "/" + match report.htmlFileName { case Some(f) => f case None => "undefined" };
      var kind := GetFilingType(name);
      if kind.Some? {
        total := Put(total, kind.value, Str(document));
      }
    }
    assert reports[..|reports|] == reports;
    r := Ok(total);
  }

  /** The document of the last report of a given kind, if any. */
  function LatestDocument(reports: seq<Report>, baseURL: string, classify: string -> Option<string>,
                          kind: string): Value
    requires forall i | 0 <= i < |reports| :: reports[i].longName.Some?
  {
    if reports == [] then Undefined
    else
      var report := reports[|reports| - 1];
      if TypeOf(report, classify) == Some(kind) then Str(Document(report, baseURL))
      else LatestDocument(reports[..|reports| - 1], baseURL, classify, kind)
  }

  /** The table throws exactly when some report lacks a long name, and
      then with the error of reading its type. */
  lemma {:induction false} ReportTableFails(reports: seq<Report>, baseURL: string, classify: string -> Option<string>)
    ensures ReportTable(reports, baseURL, classify).Ok? <==> forall i | 0 <= i < |reports| :: reports[i].longName.Some?
    ensures ReportTable(reports, baseURL, classify).Err? ==>
      ReportTable(reports, baseURL, classify).message == MissingNameError
  {
    if reports != [] {
      var init := reports[..|reports| - 1];
      ReportTableFails(init, baseURL, classify);
      assert forall i | 0 <= i < |init| :: init[i] == reports[i];
    }
  }

  /** Each kind maps to the document of the LAST report of that kind: a
      later report overwrites an earlier one. */
  lemma {:induction false} ReportTableLatest(reports: seq<Report>, baseURL: string,
                                             classify: string -> Option<string>, kind: string)
    requires ReportTable(reports, baseURL, classify).Ok?
    ensures forall i | 0 <= i < |reports| :: reports[i].longName.Some?
    ensures Get(ReportTable(reports, baseURL, classify).value, kind) == LatestDocument(reports, baseURL, classify, kind)
  {
    ReportTableFails(reports, baseURL, classify);
    if reports != [] {
      var init := reports[..|reports| - 1];
      ReportTableLatest(init, baseURL, classify, kind);
      var report := reports[|reports| - 1];
      var total := ReportTable(init, baseURL, classify).value;
      if TypeOf(report, classify).Some? && TypeOf(report, classify).value != kind {
        PutOther(total, TypeOf(report, classify).value, Str(Document(report, baseURL)), kind);
      }
    }
  }

  /** Only what the classifier can return ever becomes a key of the table:
      with `GetFilingType`, only the five labels. */
  lemma {:induction false} ReportTableKeys(reports: seq<Report>, baseURL: string, classify: string -> Option<string>)
    requires forall name :: classify(name).Some? ==> classify(name).value in Labels
    requires ReportTable(reports, baseURL, classify).Ok?
    ensures forall k | k in Keys(ReportTable(reports, baseURL, classify).value) :: k in Labels
  {
    if reports != [] {
      ReportTableKeys(reports[..|reports| - 1], baseURL, classify);
    }
  }

  /** `getFilingType` gives only labels, so the source's table has only
      labels for keys. */
  lemma FilingTableKeys(reports: seq<Report>, baseURL: string)
    requires ReportTable(reports, baseURL, GetFilingType).Ok?
    ensures forall k | k in Keys(ReportTable(reports, baseURL, GetFilingType).value) :: k in Labels
  {
    ReportTableKeys(reports, baseURL, GetFilingType);
  }
}
