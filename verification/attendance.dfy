/**
 * The attendance screen: the shift preselected from the hour, the student
 * directory built from earlier check-ins, the capped search suggestions
 * and the keyboard selection among them, the same-day same-shift duplicate
 * check, and the form that records one check-in.
 */
module Attendance {
  import opened Wrappers
  import opened Seqs
  import opened Text
  import opened Types
  import opened Constants

  /** `SHIFTS.find(s => hour >= s.start && hour < s.end)`. */
  function FindShift(shifts: seq<Shift>, hour: int): (found: Option<Shift>)
    ensures found.Some? ==> found.value in shifts && Covers(found.value, hour)
    ensures found.None? <==> forall i :: 0 <= i < |shifts| ==> !Covers(shifts[i], hour)
    ensures forall i :: (0 <= i < |shifts| && Covers(shifts[i], hour)
                         && forall j :: 0 <= j < i ==> !Covers(shifts[j], hour)) ==> found == Some(shifts[i])
    decreases |shifts|
  {
    if |shifts| == 0 then None
    else if Covers(shifts[0], hour) then Some(shifts[0])
    else
      var rest := FindShift(shifts[1..], hour);
      assert forall i :: 1 <= i < |shifts| ==> shifts[i] == shifts[1..][i - 1];
      rest
  }

  /** The shift label preselected at `hour`: the covering shift's, or the first shift's outside working hours. */
  function DefaultShift(hour: int): (caption: string)
    ensures exists i :: 0 <= i < |SHIFTS| && caption == SHIFTS[i].caption
  {
    match FindShift(SHIFTS, hour)
    case Some(s) => s.caption
    case None => SHIFTS[0].caption
  }

  /** Between 9 and 15 the shift that covers the hour is preselected; at any other hour the first one. */
  lemma DefaultShiftChoice(hour: int)
    ensures 9 <= hour < 11 ==> DefaultShift(hour) == "9:00 - 11:00"
    ensures 11 <= hour < 13 ==> DefaultShift(hour) == "11:00 - 1:00"
    ensures 13 <= hour < 15 ==> DefaultShift(hour) == "1:00 - 3:00"
    ensures hour < 9 || 15 <= hour ==> DefaultShift(hour) == SHIFTS[0].caption
  {
    if hour < 9 || 15 <= hour {
      assert forall i :: 0 <= i < |SHIFTS| ==> !Covers(SHIFTS[i], hour);
    } else if hour < 11 {
      assert Covers(SHIFTS[0], hour);
    } else if hour < 13 {
      assert Covers(SHIFTS[1], hour) && !Covers(SHIFTS[0], hour);
    } else {
      assert Covers(SHIFTS[2], hour) && !Covers(SHIFTS[0], hour) && !Covers(SHIFTS[1], hour);
    }
  }

  /** A directory entry: `{ id: r.studentId, name: r.studentName }`. */
  datatype Student = Student(id: Option<string>, name: string)

  function StudentOf(r: Attendance): Student {
    Student(r.studentId, r.studentName)
  }

  /** `(s.id || s.name).toLowerCase()`: the id when it is non-empty, else the name, lower-cased. */
  function StudentKey(s: Student): string {
    Lower(if s.id.Some? && s.id.value != "" then s.id.value else s.name)
  }

  function KeyOf(r: Attendance): string {
    StudentKey(StudentOf(r))
  }

  /** The keys of the entries. */
  function KeySet(students: seq<Student>): set<string>
    decreases |students|
  {
    if |students| == 0 then {}
    else KeySet(students[..|students| - 1]) + {StudentKey(students[|students| - 1])}
  }

  lemma {:induction false} KeySetMembers(students: seq<Student>, k: string)
    ensures k in KeySet(students) <==> exists i :: 0 <= i < |students| && StudentKey(students[i]) == k
    decreases |students|
  {
    if |students| > 0 {
      var init := students[..|students| - 1];
      KeySetMembers(init, k);
      assert forall i :: 0 <= i < |init| ==> init[i] == students[i];
    }
  }

  /** `[...s].reverse()`. */
  function Reverse<T>(s: seq<T>): (r: seq<T>)
    ensures |r| == |s|
    ensures forall i :: 0 <= i < |s| ==> r[i] == s[|s| - 1 - i]
  {
    seq(|s|, i requires 0 <= i < |s| => s[|s| - 1 - i])
  }

  /** The first record of each key, in the order the records are visited. */
  function Directory(visited: seq<Attendance>): (students: seq<Student>)
    ensures |students| <= |visited|
    decreases |visited|
  {
    if |visited| == 0 then []
    else
      var d := Directory(visited[..|visited| - 1]);
      var s := StudentOf(visited[|visited| - 1]);
      if StudentKey(s) in KeySet(d) then d else d + [s]
  }

  predicate DistinctKeys(students: seq<Student>) {
    forall i, j :: 0 <= i < j < |students| ==> StudentKey(students[i]) != StudentKey(students[j])
  }

  /** No two directory entries share a key. */
  lemma {:induction false} DirectoryDistinct(visited: seq<Attendance>)
    ensures DistinctKeys(Directory(visited))
    decreases |visited|
  {
    if |visited| > 0 {
      var init := visited[..|visited| - 1];
      var d := Directory(init);
      DirectoryDistinct(init);
      var s := StudentOf(visited[|visited| - 1]);
      if StudentKey(s) in KeySet(d) {
        assert Directory(visited) == d;
      } else {
        KeySetMembers(d, StudentKey(s));
        var e := d + [s];
        assert Directory(visited) == e;
        assert DistinctKeys(d);
        forall i, j | 0 <= i < j < |e| ensures StudentKey(e[i]) != StudentKey(e[j]) {
          assert e[i] == d[i];
          if j < |d| {
            assert e[j] == d[j];
          } else {
            assert e[j] == s;
            assert StudentKey(d[i]) != StudentKey(s);
          }
        }
      }
    }
  }

  /** Every visited record's key has an entry. */
  lemma {:induction false} DirectoryCovers(visited: seq<Attendance>)
    ensures forall i :: 0 <= i < |visited| ==> KeyOf(visited[i]) in KeySet(Directory(visited))
    decreases |visited|
  {
    if |visited| > 0 {
      var init := visited[..|visited| - 1];
      var d := Directory(init);
      DirectoryCovers(init);
      assert forall i :: 0 <= i < |init| ==> init[i] == visited[i];
      var s := StudentOf(visited[|visited| - 1]);
      if StudentKey(s) !in KeySet(d) {
        assert (d + [s])[..|d + [s]| - 1] == d;
      }
    }
  }

  /** One more visited record: its entry is added exactly when its key is new. */
  lemma DirectoryStep(visited: seq<Attendance>, k: nat)
    requires k < |visited|
    ensures var d := Directory(visited[..k]);
            Directory(visited[..k + 1]) == (if KeyOf(visited[k]) in KeySet(d) then d else d + [StudentOf(visited[k])])
            && KeySet(d + [StudentOf(visited[k])]) == KeySet(d) + {KeyOf(visited[k])}
  {
    var prefix := visited[..k + 1];
    assert prefix[..k] == visited[..k] && prefix[k] == visited[k];
    var d := Directory(visited[..k]);
    assert (d + [StudentOf(visited[k])])[..|d|] == d;
  }

  /** `knownStudents` as a value: the records visited newest first, one entry per key. */
  function KnownStudentsOf(records: seq<Attendance>): (students: seq<Student>)
    ensures |students| <= |records|
    ensures DistinctKeys(students)
  {
    DirectoryDistinct(Reverse(records));
    Directory(Reverse(records))
  }

  /** `knownStudents`: the reversed records fill a map keyed by the lower-cased id or name, first entry kept. */
  method KnownStudents(records: seq<Attendance>) returns (students: seq<Student>)
    ensures students == KnownStudentsOf(records)
  {
    students := FirstPerKey(Reverse(records));
  }

  /** The map-filling loop over the visited records: a key seen before is skipped. */
  method FirstPerKey(visited: seq<Attendance>) returns (students: seq<Student>)
    ensures students == Directory(visited)
  {
    var seen: set<string> := {};
    students := [];
    var k := 0;
    while k < |visited|
      invariant 0 <= k <= |visited|
      invariant students == Directory(visited[..k])
      invariant seen == KeySet(students)
    {
      DirectoryStep(visited, k);
      var key := KeyOf(visited[k]);
      if key !in seen {
        seen := seen + {key};
        students := students + [StudentOf(visited[k])];
      }
      k := k + 1;
    }
    assert visited[..|visited|] == visited;
  }

  /** Every directory entry is the first visited record of its key. */
  lemma {:induction false} DirectoryFirst(visited: seq<Attendance>, i: nat)
    requires i < |Directory(visited)|
    ensures exists j :: 0 <= j < |visited| && Directory(visited)[i] == StudentOf(visited[j])
                        && forall j' :: 0 <= j' < j ==> KeyOf(visited[j']) != KeyOf(visited[j])
    decreases |visited|
  {
    var init := visited[..|visited| - 1];
    var d := Directory(init);
    assert forall m :: 0 <= m < |visited| - 1 ==> visited[m] == init[m];
    DirectoryCovers(init);
    if i < |d| {
      DirectoryFirst(init, i);
      var j :| 0 <= j < |init| && d[i] == StudentOf(init[j])
               && forall j' :: 0 <= j' < j ==> KeyOf(init[j']) != KeyOf(init[j]);
      assert Directory(visited)[i] == StudentOf(visited[j]);
    } else {
      var last := |visited| - 1;
      assert Directory(visited) == d + [StudentOf(visited[last])];
      forall j' | 0 <= j' < last ensures KeyOf(visited[j']) != KeyOf(visited[last]) {
        assert KeyOf(init[j']) in KeySet(d);
      }
      assert Directory(visited)[i] == StudentOf(visited[last]);
    }
  }

  /** No record after the `j`-th has its key. */
  predicate NewestOfKey(records: seq<Attendance>, j: nat)
    requires j < |records|
  {
    forall j' :: j < j' < |records| ==> KeyOf(records[j']) != KeyOf(records[j])
  }

  /** A record with no earlier record of its key in the reversed list has no later one in the list. */
  lemma ReversedNoLaterKey(records: seq<Attendance>, visited: seq<Attendance>, j: nat)
    requires |visited| == |records|
    requires forall k :: 0 <= k < |records| ==> visited[k] == records[|records| - 1 - k]
    requires j < |visited| && forall j' :: 0 <= j' < j ==> KeyOf(visited[j']) != KeyOf(visited[j])
    ensures NewestOfKey(records, |records| - 1 - j)
  {
    var n := |records|;
    forall j' | n - 1 - j < j' < n ensures KeyOf(records[j']) != KeyOf(records[n - 1 - j]) {
      var v := n - 1 - j';
      assert 0 <= v < j && records[j'] == visited[v];
      assert records[n - 1 - j] == visited[j];
    }
  }

  /**
   * The directory keeps, for each key, the newest record: the entry comes
   * from a record after which no record has the same key.
   */
  lemma LatestRecordWins(records: seq<Attendance>, i: nat)
    requires i < |KnownStudentsOf(records)|
    ensures exists j :: 0 <= j < |records| && KnownStudentsOf(records)[i] == StudentOf(records[j])
                        && NewestOfKey(records, j)
  {
    var n := |records|;
    var visited := Reverse(records);
    assert KnownStudentsOf(records) == Directory(visited);
    DirectoryFirst(visited, i);
    var j :| 0 <= j < n && Directory(visited)[i] == StudentOf(visited[j])
             && forall j' :: 0 <= j' < j ==> KeyOf(visited[j']) != KeyOf(visited[j]);
    ReversedNoLaterKey(records, visited, j);
    var m := n - 1 - j;
    assert records[m] == visited[j];
    assert KnownStudentsOf(records)[i] == StudentOf(records[m]);
  }

  /** Every key of the records has an entry, and no key has two. */
  lemma KnownStudentsComplete(records: seq<Attendance>)
    ensures forall i :: 0 <= i < |records| ==> KeyOf(records[i]) in KeySet(KnownStudentsOf(records))
    ensures DistinctKeys(KnownStudentsOf(records))
  {
    var visited := Reverse(records);
    DirectoryCovers(visited);
    DirectoryDistinct(visited);
    assert KnownStudentsOf(records) == Directory(visited);
    forall i | 0 <= i < |records| ensures KeyOf(records[i]) in KeySet(KnownStudentsOf(records)) {
      assert records[i] == visited[|records| - 1 - i];
      assert KeyOf(visited[|records| - 1 - i]) in KeySet(Directory(visited));
    }

  }

  /** Whether a student matches the search term: the lower-cased name or the id contains it. */
  predicate MatchesTerm(s: Student, term: string) {
    Contains(Lower(s.name), term) || (s.id.Some? && s.id.value != "" && Contains(s.id.value, term))
  }

  const MaxSuggestions: nat := 6

  function Min(a: nat, b: nat): nat {
    if a < b then a else b
  }

  /** The students whose name or id contains `term`, in directory order. */
  function Matching(term: string, known: seq<Student>): seq<Student> {
    Filter(s => MatchesTerm(s, term), known)
  }

  /** `suggestions`: nothing for a blank term, else the first six matching students in directory order. */
  function Suggestions(searchTerm: string, known: seq<Student>): (r: seq<Student>)
    ensures |r| <= MaxSuggestions
    ensures Trim(searchTerm) == "" ==> r == []
    ensures Trim(searchTerm) != "" ==> r <= Matching(Lower(Trim(searchTerm)), known)
    ensures Trim(searchTerm) != "" ==> |r| == Min(|Matching(Lower(Trim(searchTerm)), known)|, MaxSuggestions)
    ensures forall i :: 0 <= i < |r| ==> r[i] in known
    ensures forall i :: 0 <= i < |r| ==> MatchesTerm(r[i], Lower(Trim(searchTerm)))
    ensures Trim(searchTerm) != "" && |Matching(Lower(Trim(searchTerm)), known)| <= MaxSuggestions
            ==> forall i :: 0 <= i < |known| && MatchesTerm(known[i], Lower(Trim(searchTerm))) ==> known[i] in r
  {
    var term := Lower(Trim(searchTerm));
    if term == [] then
      assert Trim(searchTerm) == [];
      []
    else
      var matching := Matching(term, known);
      var r := Take(matching, MaxSuggestions);
      assert forall i :: 0 <= i < |r| ==> r[i] == matching[i];
      r
  }

  /** A record that makes the form's student a duplicate: today, the same shift, and the same non-empty id or name. */
  predicate Clashes(r: Attendance, cal: Calendar, clock: Clock, shift: string, studentId: string, studentName: string) {
    IsToday(cal, clock, r.date) && r.shift == shift
    && ((studentId != "" && r.studentId == Some(studentId)) || (studentName != "" && r.studentName == studentName))
  }

  /** `isAlreadyRecorded`: `records.some(...)`, with the raw, untrimmed form values. */
  function IsAlreadyRecorded(records: seq<Attendance>, cal: Calendar, clock: Clock,
                             shift: string, studentId: string, studentName: string): (b: bool)
    ensures b <==> exists i :: 0 <= i < |records| && Clashes(records[i], cal, clock, shift, studentId, studentName)
    decreases |records|
  {
    if |records| == 0 then false
    else if Clashes(records[0], cal, clock, shift, studentId, studentName) then true
    else
      var rest := IsAlreadyRecorded(records[1..], cal, clock, shift, studentId, studentName);
      assert forall i :: 1 <= i < |records| ==> records[i] == records[1..][i - 1];
      rest
  }

  predicate DatedToday(cal: Calendar, clock: Clock, r: Attendance) {
    IsToday(cal, clock, r.date)
  }

  /** `todayRecords`: exactly the records dated today, in list order. */
  function TodayRecords(records: seq<Attendance>, cal: Calendar, clock: Clock): (today: seq<Attendance>)
    ensures IsSubseq(today, records)
    ensures forall i :: 0 <= i < |today| ==> IsToday(cal, clock, today[i].date)
    ensures forall i :: 0 <= i < |records| && IsToday(cal, clock, records[i].date) ==> records[i] in today
  {
    Filter(r => DatedToday(cal, clock, r), records)
  }

  /** The record `handleSubmit` creates from the form. */
  function NewRecord(studentId: string, studentName: string, shift: string, user: User, clock: Clock): (r: Attendance)
    ensures r.id == NatToString(clock.nowMillis) && r.date == clock.nowIso
    ensures r.studentName == Trim(studentName) && r.shift == shift
    ensures r.studentId == (if Trim(studentId) == "" then None else Some(Trim(studentId)))
    ensures r.recordedBy == user.id && r.recordedByName == user.username
  {
    Attendance(
      id := NatToString(clock.nowMillis),
      studentId := if Trim(studentId) == "" then None else Some(Trim(studentId)),
      studentName := Trim(studentName),
      shift := shift,
      date := clock.nowIso,
      recordedBy := user.id,
      recordedByName := user.username)
  }

  /**
   * The duplicate check compares the raw form value with the trimmed stored
   * one: a name typed with a leading or trailing space is recorded, and typed
   * again the same way in the same shift on the same day it is not seen as
   * a duplicate.
   */
  lemma PaddedNameAdmittedTwice(cal: Calendar, clock: Clock, user: User, shift: string, name: string)
    requires !NoOuterSpace(name)
    ensures !IsAlreadyRecorded([NewRecord("", name, shift, user, clock)], cal, clock, shift, "", name)
  {
    var first := NewRecord("", name, shift, user, clock);
    assert first.studentName != name;
    assert !Clashes(first, cal, clock, shift, "", name);
  }

  /** A name typed without surrounding spaces is caught the second time. */
  lemma CleanNameCaughtTwice(cal: Calendar, clock: Clock, user: User, shift: string, name: string, records: seq<Attendance>)
    requires Trim(name) != "" && NoOuterSpace(name)
    requires cal.parse(clock.nowIso) == Some(clock.nowMillis)
    ensures IsAlreadyRecorded([NewRecord("", name, shift, user, clock)] + records, cal, clock, shift, "", name)
  {
    TrimNoOp(name);
    var first := NewRecord("", name, shift, user, clock);
    assert Clashes(([first] + records)[0], cal, clock, shift, "", name);
  }

  /** The keys of the search box that do something. */
  datatype Key = ArrowDown | ArrowUp | Enter | Escape | OtherKey

  /**
   * `prev < n - 1 ? prev + 1 : 0`: from no selection or any selection the
   * next index is in range, one further down, or back at the top from the
   * last entry (or from an index left over from a longer list).
   */
  function NextIndex(prev: int, n: nat): (next: int)
    requires n > 0
    ensures -1 <= prev ==> 0 <= next < n
    ensures prev < n - 1 ==> next == prev + 1
    ensures n - 1 <= prev ==> next == 0
  {
    if prev < n - 1 then prev + 1 else 0
  }

  /**
   * `prev > 0 ? prev - 1 : n - 1`: one further up, or the last entry from
   * the top or from no selection. An index left over from a longer list
   * (`prev > n`) is only decremented and can stay out of range.
   */
  function PrevIndex(prev: int, n: nat): (next: int)
    requires n > 0
    ensures prev <= n ==> 0 <= next < n
    ensures 0 < prev ==> next == prev - 1
    ensures prev <= 0 ==> next == n - 1
  {
    if prev > 0 then prev - 1 else n - 1
  }

  /** Up from an index two or more past the end of the list leaves the index out of range. */
  lemma PrevIndexLeftover(prev: int, n: nat)
    requires n > 0 && prev > n
    ensures PrevIndex(prev, n) >= n
  {
  }

  /** Within range, the two arrows undo each other. */
  lemma ArrowsInverse(i: int, n: nat)
    requires n > 0 && 0 <= i < n
    ensures PrevIndex(NextIndex(i, n), n) == i
    ensures NextIndex(PrevIndex(i, n), n) == i
  {
  }

  function NextIndexTimes(i: int, n: nat, k: nat): (r: int)
    requires n > 0
    decreases k
  {
    if k == 0 then i else NextIndex(NextIndexTimes(i, n, k - 1), n)
  }

  /** Pressing the down arrow k times from a selected suggestion moves k places round the list, wrapping once. */
  lemma {:induction false} ArrowDownCycles(i: int, n: nat, k: nat)
    requires n > 0 && 0 <= i < n && k <= n
    ensures NextIndexTimes(i, n, k) == (if i + k < n then i + k else i + k - n)
    decreases k
  {
    if k > 0 {
      ArrowDownCycles(i, n, k - 1);
    }
  }

  /** n presses of the down arrow bring the selection back where it was. */
  lemma ArrowDownFullCircle(i: int, n: nat)
    requires n > 0 && 0 <= i < n
    ensures NextIndexTimes(i, n, n) == i
  {
    ArrowDownCycles(i, n, n);
  }

  /** The attendance form and its search box. */
  class AttendanceForm {
    var studentId: string
    var studentName: string
    var selectedShift: string
    var searchTerm: string
    var showSuggestions: bool
    var selectedIndex: int

    /** The form opens empty, with the shift of the current hour selected. */
    constructor (hour: int)
      ensures studentId == "" && studentName == "" && searchTerm == ""
      ensures selectedShift == DefaultShift(hour)
      ensures !showSuggestions && selectedIndex == -1
    {
      studentId := "";
      studentName := "";
      selectedShift := DefaultShift(hour);
      searchTerm := "";
      showSuggestions := false;
      selectedIndex := -1;
    }

    /** `handleSelectStudent`: the entry fills the form and the search closes. */
    method SelectStudent(student: Student)
      modifies this
      ensures studentId == (if student.id.Some? then student.id.value else "")
      ensures studentName == student.name
      ensures searchTerm == "" && !showSuggestions && selectedIndex == -1
      ensures selectedShift == old(selectedShift)
    {
      studentId := if student.id.Some? then student.id.value else "";
      studentName := student.name;
      searchTerm := "";
      showSuggestions := false;
      selectedIndex := -1;
    }

    /**
     * `handleKeyDown` over the current suggestions. With none, every key is
     * ignored. The arrows move the selection round the list; Enter takes the
     * selected entry; Escape closes the list. Enter on an index past the end
     * (left over from a longer list) fails in the source before any state
     * changes, and changes nothing here.
     */
    method KeyDown(key: Key, records: seq<Attendance>)
      modifies this
      ensures var n := |Suggestions(old(searchTerm), KnownStudentsOf(records))|;
              n == 0 ==> selectedIndex == old(selectedIndex) && showSuggestions == old(showSuggestions)
                         && searchTerm == old(searchTerm) && studentId == old(studentId) && studentName == old(studentName)
      ensures var sugg := Suggestions(old(searchTerm), KnownStudentsOf(records));
              |sugg| > 0 && key == ArrowDown ==> selectedIndex == NextIndex(old(selectedIndex), |sugg|)
      ensures var sugg := Suggestions(old(searchTerm), KnownStudentsOf(records));
              |sugg| > 0 && key == ArrowUp ==> selectedIndex == PrevIndex(old(selectedIndex), |sugg|)
      ensures var sugg := Suggestions(old(searchTerm), KnownStudentsOf(records));
              |sugg| > 0 && (key == ArrowDown || key == ArrowUp) ==>
                showSuggestions == old(showSuggestions) && searchTerm == old(searchTerm)
                && studentId == old(studentId) && studentName == old(studentName)
      ensures var sugg := Suggestions(old(searchTerm), KnownStudentsOf(records));
              |sugg| > 0 && key == Enter && 0 <= old(selectedIndex) < |sugg| ==>
                var chosen := sugg[old(selectedIndex)];
                studentId == (if chosen.id.Some? then chosen.id.value else "") && studentName == chosen.name
                && searchTerm == "" && !showSuggestions && selectedIndex == -1
      ensures var sugg := Suggestions(old(searchTerm), KnownStudentsOf(records));
              |sugg| > 0 && key == Enter && !(0 <= old(selectedIndex) < |sugg|) ==>
                selectedIndex == old(selectedIndex) && showSuggestions == old(showSuggestions)
                && searchTerm == old(searchTerm) && studentId == old(studentId) && studentName == old(studentName)
      ensures var sugg := Suggestions(old(searchTerm), KnownStudentsOf(records));
              |sugg| > 0 && key == Escape ==>
                !showSuggestions && selectedIndex == old(selectedIndex)
                && searchTerm == old(searchTerm) && studentId == old(studentId) && studentName == old(studentName)
      ensures key == OtherKey ==>
                selectedIndex == old(selectedIndex) && showSuggestions == old(showSuggestions)
                && searchTerm == old(searchTerm) && studentId == old(studentId) && studentName == old(studentName)
      ensures 0 <= old(selectedIndex) ==> -1 <= selectedIndex
      ensures selectedShift == old(selectedShift)
    {
      var known := KnownStudents(records);
      var sugg := Suggestions(searchTerm, known);
      if |sugg| == 0 {
        return;
      }
      match key {
        case ArrowDown => selectedIndex := NextIndex(selectedIndex, |sugg|);
        case ArrowUp => selectedIndex := PrevIndex(selectedIndex, |sugg|);
        case Enter =>
          if 0 <= selectedIndex < |sugg| {
            SelectStudent(sugg[selectedIndex]);
          }
        case Escape => showSuggestions := false;
        case OtherKey =>
      }
    }

    /** Typing in the search box opens the list and clears the selection. */
    method SetSearchTerm(value: string)
      modifies this`searchTerm, this`showSuggestions, this`selectedIndex
      ensures searchTerm == value && showSuggestions && selectedIndex == -1
    {
      searchTerm := value;
      showSuggestions := true;
      selectedIndex := -1;
    }

    /** Focusing the search box opens the list. */
    method Focus()
      modifies this`showSuggestions
      ensures showSuggestions
    {
      showSuggestions := true;
    }

    /** The clear button of the search box. */
    method ClearSearch()
      modifies this`searchTerm
      ensures searchTerm == ""
    {
      searchTerm := "";
    }

    /** Hovering over a suggestion selects it. */
    method Hover(index: int)
      modifies this`selectedIndex
      ensures selectedIndex == index
    {
      selectedIndex := index;
    }

    method SetStudentId(value: string)
      modifies this`studentId
      ensures studentId == value
    {
      studentId := value;
    }

    method SetStudentName(value: string)
      modifies this`studentName
      ensures studentName == value
    {
      studentName := value;
    }

    method SetShift(value: string)
      modifies this`selectedShift
      ensures selectedShift == value
    {
      selectedShift := value;
    }

    /** `resetForm`. */
    method ResetForm()
      modifies this`studentId, this`studentName, this`searchTerm
      ensures studentId == "" && studentName == "" && searchTerm == ""
    {
      studentId := "";
      studentName := "";
      searchTerm := "";
    }

    /**
     * `handleSubmit`: a blank name or a duplicate changes nothing; otherwise
     * exactly one record is produced (to be added to the list), the student
     * fields and the search are cleared, and focus moves to the search field,
     * which lies outside the form, so its focus handler shows the list.
     */
    method Submit(records: seq<Attendance>, user: User, cal: Calendar, clock: Clock) returns (added: Option<Attendance>)
      modifies this
      ensures var blocked := Trim(old(studentName)) == ""
                || IsAlreadyRecorded(records, cal, clock, old(selectedShift), old(studentId), old(studentName));
              (blocked ==> added.None? && studentId == old(studentId) && studentName == old(studentName)
                           && searchTerm == old(searchTerm) && showSuggestions == old(showSuggestions))
              && (!blocked ==> added == Some(NewRecord(old(studentId), old(studentName), old(selectedShift), user, clock))
                               && studentId == "" && studentName == "" && searchTerm == "" && showSuggestions)
      ensures selectedShift == old(selectedShift) && selectedIndex == old(selectedIndex)
    {
      if Trim(studentName) == "" || IsAlreadyRecorded(records, cal, clock, selectedShift, studentId, studentName) {
        return None;
      }
      added := Some(NewRecord(studentId, studentName, selectedShift, user, clock));
      studentId := "";
      studentName := "";
      searchTerm := "";
      showSuggestions := true;
    }
  }
}
