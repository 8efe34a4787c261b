/**
 * The pure half of the dashboard's spreadsheet synchronisation: reading
 * the published sheet's CSV text into a batch of remote tasks, and
 * reconciling that batch with the tasks already held, where every task
 * whose id starts with "remote-" is replaced by the new batch and every
 * other task is kept in its order.
 */
module SheetSync {
  import opened Wrappers
  import opened Seqs
  import opened Text
  import opened Types
  import opened Constants
  import opened Csv

  const RemotePrefix: string := "remote-"
  const RemoteUserId: string := "remote-system"
  const RemoteDescription: string := "بيانات مستوردة"
  const RemoteUsername: string := "نظام خارجي"

  /** The default texts are non-empty and already clean. */
  lemma RemoteDefaultsClean()
    ensures CallCenterType != "" && '"' !in CallCenterType && NoOuterSpace(CallCenterType)
    ensures RemoteDescription != "" && '"' !in RemoteDescription && NoOuterSpace(RemoteDescription)
    ensures RemoteUsername != "" && '"' !in RemoteUsername && NoOuterSpace(RemoteUsername)
  {
  }

  /** A task that came from the sheet, recognised by its id alone. */
  predicate IsRemote(t: Task) {
    StartsWith(t.id, RemotePrefix)
  }

  predicate IsLocal(t: Task) {
    !IsRemote(t)
  }

  /** The part of a remote id after the index: the raw fifth field, or `Date.now()` when it is missing or empty. */
  function IdStamp(values: seq<string>, clock: Clock): string {
    if 4 < |values| && values[4] != "" then values[4] else NatToString(clock.nowMillis)
  }

  /** `remote-${index}-${stamp}`. */
  function RemoteId(index: nat, stamp: string): (id: string)
    ensures StartsWith(id, RemotePrefix)
  {
    RemotePrefix + NatToString(index) + "-" + stamp
  }

  /**
   * One data line of the sheet as a task: the columns are student name,
   * type, description, duration, creation time and username; every text
   * column is cleaned and the empty ones fall back to their defaults.
   */
  function RemoteRow(line: string, index: nat, clock: Clock): (t: Task)
    ensures IsRemote(t) && t.userId == RemoteUserId
    ensures t.studentName.Some? && '"' !in t.studentName.value && NoOuterSpace(t.studentName.value)
    ensures t.taskType != "" && '"' !in t.taskType && NoOuterSpace(t.taskType)
    ensures t.description != "" && '"' !in t.description && NoOuterSpace(t.description)
    ensures t.username != "" && '"' !in t.username && NoOuterSpace(t.username)
    ensures t.createdAt == clock.nowIso || (t.createdAt != "" && '"' !in t.createdAt && NoOuterSpace(t.createdAt))
    ensures t.duration != 0
    ensures t.rating.None? && t.ratingComment.None?
  {
    var values := Split(line, OnUnquotedComma);
    RemoteDefaultsClean();
    Task(
      id := RemoteId(index, IdStamp(values, clock)),
      studentName := Some(Clean(values[0])),
      taskType := CleanFieldOr(values, 1, CallCenterType),
      description := CleanFieldOr(values, 2, RemoteDescription),
      duration := DurationField(values, 3),
      createdAt := CleanFieldOr(values, 4, clock.nowIso),
      userId := RemoteUserId,
      username := CleanFieldOr(values, 5, RemoteUsername),
      rating := None,
      ratingComment := None)
  }

  /**
   * Which column feeds which field: the student name is the cleaned first
   * column; type, description, creation time and username are their cleaned
   * column when that is not empty, and their default otherwise; the duration
   * is read from the fourth column; the id carries the row's index and the
   * raw fifth column, or the current time.
   */
  lemma RemoteRowColumns(line: string, index: nat, clock: Clock)
    ensures var t := RemoteRow(line, index, clock);
            var v := Split(line, OnUnquotedComma);
            t.id == RemoteId(index, IdStamp(v, clock)) && t.studentName == Some(Clean(v[0]))
            && CleanedOr(v, 1, CallCenterType, t.taskType) && CleanedOr(v, 2, RemoteDescription, t.description)
            && t.duration == DurationField(v, 3) && CleanedOr(v, 4, clock.nowIso, t.createdAt)
            && CleanedOr(v, 5, RemoteUsername, t.username)
  {
    var t := RemoteRow(line, index, clock);
    var v := Split(line, OnUnquotedComma);
    assert t.taskType == CleanFieldOr(v, 1, CallCenterType) && t.description == CleanFieldOr(v, 2, RemoteDescription);
    assert t.createdAt == CleanFieldOr(v, 4, clock.nowIso) && t.username == CleanFieldOr(v, 5, RemoteUsername);
  }

  /**
   * A line of six plain cells (no comma, no quote, no surrounding
   * whitespace, none empty) is read column by column: student name, type,
   * description, duration, creation time and username, the creation time
   * also ending the id.
   */
  lemma RemoteRowReadsCells(cells: seq<string>, index: nat, clock: Clock)
    requires |cells| == 6
    requires forall i :: 0 <= i < |cells| ==> cells[i] != "" && ',' !in cells[i] && '"' !in cells[i] && NoOuterSpace(cells[i])
    ensures var t := RemoteRow(Join(cells, ','), index, clock);
            t.studentName == Some(cells[0]) && t.taskType == cells[1] && t.description == cells[2]
            && t.duration == DurationField(cells, 3) && t.createdAt == cells[4] && t.username == cells[5]
            && t.id == RemoteId(index, cells[4])
  {
    PlainRowCells(cells);
    RemoteRowColumns(Join(cells, ','), index, clock);
  }

  /** `lines.slice(1).filter(...).map((line, index) => ...)`: one task per data line, indexed among the kept lines. */
  function RemoteBatch(text: string, clock: Clock): (batch: seq<Task>)
    ensures |batch| == |DataLines(text)|
    ensures forall i :: 0 <= i < |batch| ==> batch[i] == RemoteRow(DataLines(text)[i], i, clock)
    ensures forall i :: 0 <= i < |batch| ==> IsRemote(batch[i])
  {
    var rows := DataLines(text);
    seq(|rows|, i requires 0 <= i < |rows| => RemoteRow(rows[i], i, clock))
  }

  /**
   * The batch read from a fetched document, or `None` when the document
   * has at most one line (`lines.length > 1` fails) and nothing is imported.
   */
  function ParseRemoteSheet(text: string, clock: Clock): (r: Option<seq<Task>>)
    ensures r.None? <==> '\n' !in text
    ensures r.Some? ==> r.value == RemoteBatch(text, clock)
  {
    if |Lines(text)| > 1 then Some(RemoteBatch(text, clock)) else None
  }

  /** `[...remoteTasks, ...prevTasks.filter(t => !t.id.startsWith('remote-'))]`. */
  function Reconcile(batch: seq<Task>, prev: seq<Task>): (combined: seq<Task>)
    ensures |batch| <= |combined| <= |batch| + |prev|
    ensures combined[..|batch|] == batch
    ensures forall i :: |batch| <= i < |combined| ==> IsLocal(combined[i]) && combined[i] in prev
    ensures forall i :: 0 <= i < |prev| && IsLocal(prev[i]) ==> prev[i] in combined
  {
    batch + Filter(IsLocal, prev)
  }

  /** The tasks after one synchronisation with the fetched response. */
  function SyncedTasks(tasks: seq<Task>, response: Response, clock: Clock): (synced: seq<Task>)
    ensures !(response.Response? && response.ok && '\n' in response.body) ==> synced == tasks
    ensures response.Response? && response.ok && '\n' in response.body
            ==> synced == Reconcile(RemoteBatch(response.body, clock), tasks)
  {
    match response
    case NetworkError => tasks
    case Response(ok, body) =>
      if !ok then tasks
      else
        match ParseRemoteSheet(body, clock)
        case None => tasks
        case Some(batch) => Reconcile(batch, tasks)
  }

  /** The header line never becomes a task: a document of a header and blank lines yields an empty batch. */
  lemma {:induction false} HeaderOnlyEmpty(text: string, clock: Clock)
    requires '\n' in text
    requires forall i :: 1 <= i < |Lines(text)| ==> AllSpace(Lines(text)[i])
    ensures ParseRemoteSheet(text, clock) == Some([])
  {
    var tail := Lines(text)[1..];
    forall i | 0 <= i < |tail| ensures !IsContentLine(tail[i]) {
      TrimEmptyIffBlank(tail[i]);
    }
    FilterNone(IsContentLine, tail);
  }

  /** No task from an earlier synchronisation survives the next one, and local tasks keep their order. */
  lemma ReconcileReplacesRemote(batch: seq<Task>, prev: seq<Task>)
    ensures forall i :: 0 <= i < |Reconcile(batch, prev)| && IsRemote(Reconcile(batch, prev)[i])
                        ==> Reconcile(batch, prev)[i] in batch
    ensures Filter(IsLocal, Reconcile(batch, prev)) == Filter(IsLocal, batch) + Filter(IsLocal, prev)
  {
    FilterAppend(IsLocal, batch, Filter(IsLocal, prev));
    FilterIdempotent(IsLocal, prev);
  }

  /** With a batch of remote tasks, the local tasks after reconciliation are exactly the local tasks before, in order. */
  lemma ReconcileKeepsLocal(batch: seq<Task>, prev: seq<Task>)
    requires forall i :: 0 <= i < |batch| ==> IsRemote(batch[i])
    ensures Filter(IsLocal, Reconcile(batch, prev)) == Filter(IsLocal, prev)
  {
    ReconcileReplacesRemote(batch, prev);
    FilterNone(IsLocal, batch);
  }

  /** Reconciling twice with the same batch of remote tasks is reconciling once. */
  lemma ReconcileIdempotent(batch: seq<Task>, prev: seq<Task>)
    requires forall i :: 0 <= i < |batch| ==> IsRemote(batch[i])
    ensures Reconcile(batch, Reconcile(batch, prev)) == Reconcile(batch, prev)
  {
    ReconcileKeepsLocal(batch, prev);
  }

  /** A synchronisation with the same response, repeated, changes nothing more. */
  lemma SyncIdempotent(tasks: seq<Task>, response: Response, clock: Clock)
    ensures SyncedTasks(SyncedTasks(tasks, response, clock), response, clock) == SyncedTasks(tasks, response, clock)
  {
    if response.Response? && response.ok && ParseRemoteSheet(response.body, clock).Some? {
      ReconcileIdempotent(RemoteBatch(response.body, clock), tasks);
    }
  }

  /** A task that is not remote is still there, at the same relative place, after any synchronisation. */
  lemma SyncKeepsLocal(tasks: seq<Task>, response: Response, clock: Clock)
    ensures Filter(IsLocal, SyncedTasks(tasks, response, clock)) == Filter(IsLocal, tasks)
  {
    if response.Response? && response.ok && ParseRemoteSheet(response.body, clock).Some? {
      ReconcileKeepsLocal(RemoteBatch(response.body, clock), tasks);
    }
  }

  /** A failed fetch, a non-ok response or a one-line document leaves the tasks as they were. */
  lemma SyncFailureKeepsTasks(tasks: seq<Task>, response: Response, clock: Clock)
    requires response.NetworkError? || !response.ok || '\n' !in response.body
    ensures SyncedTasks(tasks, response, clock) == tasks
  {
  }

  lemma NoDashBeforeSame(a: string, x: string, b: string, y: string)
    requires forall i :: 0 <= i < |a| ==> a[i] != '-'
    requires forall i :: 0 <= i < |b| ==> b[i] != '-'
    requires a + "-" + x == b + "-" + y
    ensures a == b
  {
    var s := a + "-" + x;
    assert s[..|a|] == a && s[|a|] == '-';
    assert s[..|b|] == b && s[|b|] == '-';
  }

  lemma NatToStringInjective(m: nat, n: nat)
    requires NatToString(m) == NatToString(n)
    ensures m == n
  {
    NatToStringValue(m);
    NatToStringValue(n);
  }

  /** The index of a remote id can be read back from the id. */
  lemma RemoteIdInjective(i: nat, si: string, j: nat, sj: string)
    requires RemoteId(i, si) == RemoteId(j, sj)
    ensures i == j
  {
    var di := NatToString(i);
    var dj := NatToString(j);
    var x := di + "-" + si;
    var y := dj + "-" + sj;
    assert RemoteId(i, si) == RemotePrefix + x;
    assert RemoteId(j, sj) == RemotePrefix + y;
    assert (RemotePrefix + x)[|RemotePrefix|..] == x;
    assert (RemotePrefix + y)[|RemotePrefix|..] == y;
    NoDashBeforeSame(di, si, dj, sj);
    NatToStringInjective(i, j);
  }

  /** Two rows of one batch never share an id: the index, up to its first '-', tells them apart. */
  lemma RemoteIdsDistinct(text: string, clock: Clock, i: nat, j: nat)
    requires i < j < |RemoteBatch(text, clock)|
    ensures RemoteBatch(text, clock)[i].id != RemoteBatch(text, clock)[j].id
  {
    var rows := DataLines(text);
    var si := IdStamp(Split(rows[i], OnUnquotedComma), clock);
    var sj := IdStamp(Split(rows[j], OnUnquotedComma), clock);
    if RemoteId(i, si) == RemoteId(j, sj) {
      RemoteIdInjective(i, si, j, sj);
    }
  }
}
