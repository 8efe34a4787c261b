/**
 * Bulk import of tasks from a published spreadsheet: the URL is rewritten
 * to its CSV export, every non-blank line after the header becomes a task
 * owned by the importing user, and the form reports success or one
 * generic error.
 */
module TaskImport {
  import opened Wrappers
  import opened Seqs
  import opened Text
  import opened Types
  import opened Constants
  import opened Csv
  import opened SheetSync

  const ImportPrefix: string := "import-"
  const ImportDescription: string := "استيراد جماعي"
  const MissingUrlError: string := "يرجى إدخال رابط CSV الخاص بملف Google Sheet"
  const ImportError: string := "حدث خطأ أثناء الاستيراد. تأكد من أن الملف \"منشور على الويب\" بصيغة CSV."

  /** `import-${Date.now()}-${index}`. */
  function ImportId(clock: Clock, index: nat): (id: string)
    ensures StartsWith(id, ImportPrefix)
  {
    ImportPrefix + NatToString(clock.nowMillis) + "-" + NatToString(index)
  }

  /**
   * One data line as a task: the first five columns give student name,
   * type, description, duration and creation time; the owner is the
   * importing user, whatever the sheet says.
   */
  function ImportRow(line: string, index: nat, user: User, clock: Clock): (t: Task)
    ensures t.id == ImportId(clock, index)
    ensures t.userId == user.id && t.username == user.username
    ensures t.studentName.Some? && '"' !in t.studentName.value && NoOuterSpace(t.studentName.value)
    ensures t.taskType != "" && '"' !in t.taskType && NoOuterSpace(t.taskType)
    ensures t.description != "" && '"' !in t.description && NoOuterSpace(t.description)
    ensures t.createdAt == clock.nowIso || (t.createdAt != "" && '"' !in t.createdAt && NoOuterSpace(t.createdAt))
    ensures t.duration != 0
    ensures t.rating.None? && t.ratingComment.None?
  {
    var values := Split(line, OnUnquotedComma);
    assert OtherType != "" && '"' !in OtherType && NoOuterSpace(OtherType);
    assert ImportDescription != "" && '"' !in ImportDescription && NoOuterSpace(ImportDescription);
    Task(
      id := ImportId(clock, index),
      studentName := Some(Clean(values[0])),
      taskType := CleanFieldOr(values, 1, OtherType),
      description := CleanFieldOr(values, 2, ImportDescription),
      duration := DurationField(values, 3),
      createdAt := CleanFieldOr(values, 4, clock.nowIso),
      userId := user.id,
      username := user.username,
      rating := None,
      ratingComment := None)
  }

  /**
   * Which column feeds which field: the student name is the cleaned first
   * column; type, description and creation time are their cleaned column
   * when that is not empty, and their default otherwise; the duration is
   * read from the fourth column.
   */
  lemma ImportRowColumns(line: string, index: nat, user: User, clock: Clock)
    ensures var t := ImportRow(line, index, user, clock);
            var v := Split(line, OnUnquotedComma);
            t.studentName == Some(Clean(v[0]))
            && CleanedOr(v, 1, OtherType, t.taskType) && CleanedOr(v, 2, ImportDescription, t.description)
            && t.duration == DurationField(v, 3) && CleanedOr(v, 4, clock.nowIso, t.createdAt)
  {
    var t := ImportRow(line, index, user, clock);
    var v := Split(line, OnUnquotedComma);
    assert t.taskType == CleanFieldOr(v, 1, OtherType) && t.description == CleanFieldOr(v, 2, ImportDescription);
    assert t.createdAt == CleanFieldOr(v, 4, clock.nowIso);
  }

  /**
   * A line of plain cells (no comma, no quote, no surrounding whitespace,
   * none empty) is read column by column for the first five columns; any
   * further column, a username included, is ignored.
   */
  lemma ImportRowReadsCells(cells: seq<string>, index: nat, user: User, clock: Clock)
    requires |cells| >= 5
    requires forall i :: 0 <= i < |cells| ==> cells[i] != "" && ',' !in cells[i] && '"' !in cells[i] && NoOuterSpace(cells[i])
    ensures var t := ImportRow(Join(cells, ','), index, user, clock);
            t.studentName == Some(cells[0]) && t.taskType == cells[1] && t.description == cells[2]
            && t.duration == DurationField(cells, 3) && t.createdAt == cells[4]
            && t.username == user.username
  {
    PlainRowCells(cells);
    ImportRowColumns(Join(cells, ','), index, user, clock);
  }

  /** One task per data line, in file order. */
  function ImportBatch(text: string, user: User, clock: Clock): (batch: seq<Task>)
    ensures |batch| == |DataLines(text)|
    ensures forall i :: 0 <= i < |batch| ==> batch[i] == ImportRow(DataLines(text)[i], i, user, clock)
  {
    var rows := DataLines(text);
    seq(|rows|, i requires 0 <= i < |rows| => ImportRow(rows[i], i, user, clock))
  }

  /**
   * What the import hands to the dashboard: nothing when the fetch fails,
   * the response is not ok, the text has no second line or no data line;
   * otherwise the whole batch.
   */
  function ImportOutcome(response: Response, user: User, clock: Clock): (r: Option<seq<Task>>)
    ensures r.Some? <==> response.Response? && response.ok && '\n' in response.body
                         && |DataLines(response.body)| > 0
    ensures r.Some? ==> r.value == ImportBatch(response.body, user, clock) && |r.value| > 0
  {
    match response
    case NetworkError => None
    case Response(ok, body) =>
      if !ok then None
      else if |Lines(body)| <= 1 then None
      else
        var batch := ImportBatch(body, user, clock);
        if |batch| > 0 then Some(batch) else None
  }

  /** Imported tasks are never taken for remote ones, so a later synchronisation keeps them. */
  lemma ImportedNotRemote(line: string, index: nat, user: User, clock: Clock)
    ensures IsLocal(ImportRow(line, index, user, clock))
  {
    var id := ImportRow(line, index, user, clock).id;
    assert id[0] == 'i';
  }

  /** Every task of an imported batch survives any synchronisation, in the same relative order. */
  lemma ImportSurvivesSync(batch: seq<Task>, tasks: seq<Task>, response: Response, clock: Clock, syncClock: Clock,
                           user: User, text: string)
    requires batch == ImportBatch(text, user, clock)
    ensures forall i :: 0 <= i < |batch| ==> batch[i] in SyncedTasks(batch + tasks, response, syncClock)
  {
    forall i | 0 <= i < |batch| ensures batch[i] in SyncedTasks(batch + tasks, response, syncClock) {
      ImportedNotRemote(DataLines(text)[i], i, user, clock);
      assert (batch + tasks)[i] == batch[i];
      SyncKeepsLocal(batch + tasks, response, syncClock);
      assert batch[i] in Filter(IsLocal, batch + tasks);
    }
  }

  /** Two rows of one import never share an id: they differ in the index after the last '-'. */
  lemma ImportIdsDistinct(clock: Clock, i: nat, j: nat)
    requires i != j
    ensures ImportId(clock, i) != ImportId(clock, j)
  {
    var p := ImportPrefix + NatToString(clock.nowMillis) + "-";
    if ImportId(clock, i) == ImportId(clock, j) {
      assert ImportId(clock, i) == p + NatToString(i);
      assert ImportId(clock, j) == p + NatToString(j);
      assert (p + NatToString(i))[|p|..] == NatToString(i);
      assert (p + NatToString(j))[|p|..] == NatToString(j);
      NatToStringInjective(i, j);
    }
  }

  /** The import form's state. */
  class ImportForm {
    var sheetUrl: string
    var loading: bool
    var error: string
    var success: bool

    constructor ()
      ensures sheetUrl == "" && !loading && error == "" && !success
    {
      sheetUrl := "";
      loading := false;
      error := "";
      success := false;
    }

    /** The URL input. */
    method SetSheetUrl(url: string)
      modifies this`sheetUrl
      ensures sheetUrl == url
    {
      sheetUrl := url;
    }

    /**
     * `handleImport`: an empty URL sets its own error and fetches nothing.
     * Otherwise the rewritten URL is fetched; a usable batch is returned (to
     * be added to the task list), success is set and the URL cleared; every
     * other outcome sets the one generic error and keeps the URL.
     */
    method HandleImport(fetch: string -> Response, user: User, clock: Clock) returns (imported: Option<seq<Task>>)
      modifies this
      ensures old(sheetUrl) == "" ==> imported.None? && error == MissingUrlError
                                      && sheetUrl == old(sheetUrl) && loading == old(loading) && success == old(success)
      ensures old(sheetUrl) != "" ==> imported == ImportOutcome(fetch(FetchUrl(old(sheetUrl))), user, clock) && !loading
      ensures old(sheetUrl) != "" && imported.Some? ==> success && error == "" && sheetUrl == ""
      ensures old(sheetUrl) != "" && imported.None? ==> !success && error == ImportError && sheetUrl == old(sheetUrl)
    {
      if sheetUrl == "" {
        error := MissingUrlError;
        return None;
      }
      Begin();
      imported := ImportOutcome(fetch(FetchUrl(sheetUrl)), user, clock);
      Settle(imported.Some?);
    }

    /** The start of an import attempt: loading, no error, no success yet. */
    method Begin()
      modifies this`loading, this`error, this`success
      ensures loading && error == "" && !success
    {
      loading := true;
      error := "";
      success := false;
    }

    /** The end of an import attempt: success clears the URL, failure sets the generic error; loading stops. */
    method Settle(succeeded: bool)
      modifies this
      ensures !loading
      ensures succeeded ==> success && error == old(error) && sheetUrl == ""
      ensures !succeeded ==> success == old(success) && error == ImportError && sheetUrl == old(sheetUrl)
    {
      if succeeded {
        success := true;
        sheetUrl := "";
      } else {
        error := ImportError;
      }
      loading := false;
    }
  }
}
