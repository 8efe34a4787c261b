/**
 * The reports screen: the task list narrowed by type, by user and by
 * period, and the spreadsheet export of the narrowed list (a header row,
 * one row per task, every cell quoted, a byte-order mark in front).
 */
module Reports {
  import opened Wrappers
  import opened Seqs
  import opened Text
  import opened Types
  import opened Csv
  import opened SheetSync

  /** The value of a filter that lets everything through. */
  const AllFilter: string := "all"

  /** The period options of the date filter. */
  datatype Period = AllTime | Daily | Weekly | Monthly

  /** `7 * 24 * 60 * 60 * 1000`. */
  const WeekMillis: int := 604800000

  /**
   * The date condition. An unparseable `createdAt` is an invalid date: its
   * day string never equals today's, and comparisons with it and its
   * month and year are false.
   */
  predicate DateMatch(period: Period, cal: Calendar, clock: Clock, createdAt: string)
    ensures period == AllTime ==> DateMatch(period, cal, clock, createdAt)
    ensures cal.parse(createdAt).None? && period != AllTime ==> !DateMatch(period, cal, clock, createdAt)
  {
    match period
    case AllTime => true
    case Daily => IsToday(cal, clock, createdAt)
    case Weekly =>
      (match cal.parse(createdAt)
       case None => false
       case Some(ms) => ms >= clock.nowMillis - WeekMillis)
    case Monthly =>
      (match cal.parse(createdAt)
       case None => false
       case Some(ms) => cal.month(ms) == cal.month(clock.nowMillis) && cal.year(ms) == cal.year(clock.nowMillis))
  }

  /** The three conditions a task must meet to stay in the report. */
  predicate Keeps(typeFilter: string, userFilter: string, period: Period, cal: Calendar, clock: Clock, t: Task) {
    (typeFilter == AllFilter || t.taskType == typeFilter)
    && (userFilter == AllFilter || t.userId == userFilter)
    && DateMatch(period, cal, clock, t.createdAt)
  }

  /** `filteredTasks`. */
  function FilteredTasks(tasks: seq<Task>, typeFilter: string, userFilter: string, period: Period,
                         cal: Calendar, clock: Clock): (r: seq<Task>)
    ensures IsSubseq(r, tasks)
    ensures forall i :: 0 <= i < |r| && typeFilter != AllFilter ==> r[i].taskType == typeFilter
    ensures forall i :: 0 <= i < |r| && userFilter != AllFilter ==> r[i].userId == userFilter
    ensures forall i :: 0 <= i < |r| ==> DateMatch(period, cal, clock, r[i].createdAt)
    ensures forall i :: 0 <= i < |tasks| && Keeps(typeFilter, userFilter, period, cal, clock, tasks[i]) ==> tasks[i] in r
  {
    Filter(t => Keeps(typeFilter, userFilter, period, cal, clock, t), tasks)
  }

  /** With every filter at its widest, the report lists every task in order. */
  lemma NoFilterKeepsAll(tasks: seq<Task>, cal: Calendar, clock: Clock)
    ensures FilteredTasks(tasks, AllFilter, AllFilter, AllTime, cal, clock) == tasks
  {
    FilterAll(t => Keeps(AllFilter, AllFilter, AllTime, cal, clock, t), tasks);
  }

  /** Filtering the report again with the same settings changes nothing. */
  lemma RefilterNoOp(tasks: seq<Task>, typeFilter: string, userFilter: string, period: Period, cal: Calendar, clock: Clock)
    ensures var r := FilteredTasks(tasks, typeFilter, userFilter, period, cal, clock);
            FilteredTasks(r, typeFilter, userFilter, period, cal, clock) == r
  {
    FilterIdempotent(t => Keeps(typeFilter, userFilter, period, cal, clock, t), tasks);
  }

  /** A task whose creation time does not parse appears only under the all-time period. */
  lemma InvalidDateOnlyAllTime(cal: Calendar, clock: Clock, createdAt: string, period: Period)
    requires cal.parse(createdAt).None?
    ensures DateMatch(period, cal, clock, createdAt) <==> period == AllTime
  {
    if period == Daily {
      InvalidNeverToday(cal, clock, createdAt);
    }
  }

  /** The header row of the export. */
  const Headers: seq<string> := ["نوع المهمة", "الطالب", "المدة (د)", "التاريخ", "المسؤول", "التقييم"]
  const Unspecified: string := "غير محدد"
  const Unrated: string := "بدون تقييم"
  /** The UTF-8 byte-order mark put before the content. */
  const Bom: char := '\U{FEFF}'

  /** One exported row: type, student, duration, date, owner, rating. */
  function ExportRow(t: Task, cal: Calendar): (cells: seq<string>)
    ensures |cells| == |Headers|
    ensures cells[0] == t.taskType && cells[3] == LocaleDate(cal, t.createdAt) && cells[4] == t.username
    ensures cells[2] == IntToString(t.duration)
    ensures t.studentName.None? || t.studentName == Some("") ==> cells[1] == Unspecified
    ensures t.studentName.Some? && t.studentName.value != "" ==> cells[1] == t.studentName.value
    ensures t.rating.None? || t.rating == Some(0) ==> cells[5] == Unrated
    ensures t.rating.Some? && t.rating.value != 0 ==> cells[5] == IntToString(t.rating.value) && cells[5] != Unrated
  {
    [ t.taskType,
      if t.studentName.Some? && t.studentName.value != "" then t.studentName.value else Unspecified,
      IntToString(t.duration),
      LocaleDate(cal, t.createdAt),
      t.username,
      if t.rating.Some? && t.rating.value != 0 then IntToString(t.rating.value) else Unrated ]
  }

  /** `[headers, ...rows]`. */
  function ExportRows(tasks: seq<Task>, cal: Calendar): (rows: seq<seq<string>>)
    ensures |rows| == |tasks| + 1 && rows[0] == Headers
    ensures forall i :: 0 <= i < |tasks| ==> rows[i + 1] == ExportRow(tasks[i], cal)
    ensures forall i :: 0 <= i < |rows| ==> |rows[i]| == |Headers|
  {
    var body := seq(|tasks|, i requires 0 <= i < |tasks| => ExportRow(tasks[i], cal));
    assert forall i :: 0 <= i < |body| ==> |body[i]| == |Headers|;
    [Headers] + body
  }

  /** Each row as one line of quoted cells. */
  function ExportLines(tasks: seq<Task>, cal: Calendar): (lines: seq<string>)
    ensures |lines| == |tasks| + 1
    ensures lines[0] == QuotedRow(Headers)
    ensures forall i :: 0 <= i < |tasks| ==> lines[i + 1] == QuotedRow(ExportRow(tasks[i], cal))
  {
    var rows := ExportRows(tasks, cal);
    var lines := seq(|rows|, i requires 0 <= i < |rows| => QuotedRow(rows[i]));
    lines
  }

  /** `csvContent`: the lines joined with `\n`. */
  function CsvContent(tasks: seq<Task>, cal: Calendar): (content: string)
    ensures QuotedRow(Headers) <= content
  {
    Join(ExportLines(tasks, cal), '\n')
  }

  /** What is written to the downloaded file: the byte-order mark, then the content. */
  function ExportText(tasks: seq<Task>, cal: Calendar): (text: string)
    ensures |text| >= 1 && text[0] == Bom && text[1..] == CsvContent(tasks, cal)
  {
    [Bom] + CsvContent(tasks, cal)
  }

  predicate OneLine(cells: seq<string>) {
    forall i :: 0 <= i < |cells| ==> '\n' !in cells[i]
  }

  lemma QuotedRowOneLine(cells: seq<string>)
    requires |cells| >= 1 && OneLine(cells)
    ensures '\n' !in QuotedRow(cells)
  {
    var quoted := QuoteAll(cells);
    forall i | 0 <= i < |quoted| ensures '\n' !in quoted[i] {
      assert quoted[i] == "\"" + cells[i] + "\"";
    }
    JoinAvoids(quoted, ',', '\n');
  }

  /**
   * When no cell holds a line break, splitting the content at `\n` gives the
   * quoted header row first and then one quoted row per task, in order.
   */
  lemma ExportLayout(tasks: seq<Task>, cal: Calendar)
    requires forall i :: 0 <= i < |tasks| ==> OneLine(ExportRow(tasks[i], cal))
    ensures var lines := Lines(CsvContent(tasks, cal));
            |lines| == |tasks| + 1 && lines[0] == QuotedRow(Headers)
            && forall i :: 0 <= i < |tasks| ==> lines[i + 1] == QuotedRow(ExportRow(tasks[i], cal))
  {
    var lines := ExportLines(tasks, cal);
    forall i | 0 <= i < |lines| ensures '\n' !in lines[i] {
      ExportLineOneLine(tasks, cal, i);
    }
    SplitJoinOnChar(lines, '\n');
    assert Lines(CsvContent(tasks, cal)) == lines;
  }

  /** One line of the export holds no line break when no cell does. */
  lemma ExportLineOneLine(tasks: seq<Task>, cal: Calendar, i: nat)
    requires forall i :: 0 <= i < |tasks| ==> OneLine(ExportRow(tasks[i], cal))
    requires i < |tasks| + 1
    ensures '\n' !in ExportLines(tasks, cal)[i]
  {
    var rows := ExportRows(tasks, cal);
    if i == 0 {
      assert OneLine(Headers);
    } else {
      assert rows[i] == ExportRow(tasks[i - 1], cal);
    }
    QuotedRowOneLine(rows[i]);
  }

  /** Dropping the quotes and the surrounding spaces from every field of a line. */
  function CleanAll(fields: seq<string>): (cleaned: seq<string>)
    ensures |cleaned| == |fields|
    ensures forall i :: 0 <= i < |fields| ==> cleaned[i] == Clean(fields[i])
  {
    seq(|fields|, i requires 0 <= i < |fields| => Clean(fields[i]))
  }

  /**
   * An exported row whose cells hold no quote and no surrounding spaces is
   * read back cell for cell by the quote-aware split and the cleaning of
   * the sheet reader.
   */
  lemma ExportRowRoundTrip(cells: seq<string>)
    requires |cells| >= 1
    requires forall i :: 0 <= i < |cells| ==> '"' !in cells[i] && NoOuterSpace(cells[i])
    ensures CleanAll(Split(QuotedRow(cells), OnUnquotedComma)) == cells
  {
    SplitQuotedRow(cells);
    forall i | 0 <= i < |cells| ensures Clean(QuoteAll(cells)[i]) == cells[i] {
      CleanQuote(cells[i]);
    }
  }

  /**
   * The export's column order is not the order the sheet reader expects:
   * reading an exported row back puts the task type in the student column
   * and, the fourth cell being a quoted date, falls back to a 15-minute
   * duration; the owner's column receives the rating cell.
   */
  lemma ReimportShiftsColumns(t: Task, cal: Calendar, index: nat, clock: Clock)
    requires var cells := ExportRow(t, cal);
             forall i :: 0 <= i < |cells| ==> '"' !in cells[i] && NoOuterSpace(cells[i]) && cells[i] != ""
    ensures var cells := ExportRow(t, cal);
            var back := RemoteRow(QuotedRow(cells), index, clock);
            back.studentName == Some(t.taskType) && back.taskType == cells[1]
            && back.duration == 15 && back.username == cells[5]
  {
    var cells := ExportRow(t, cal);
    var values := Split(QuotedRow(cells), OnUnquotedComma);
    SplitQuotedRow(cells);
    assert values == QuoteAll(cells);
    CleanQuote(cells[0]);
    CleanQuote(cells[1]);
    CleanQuote(cells[5]);
    ParseIntQuoted(values[3]);
  }
}
