/**
 * The call-centre statistics screen: its own spreadsheet reader (a naive
 * comma split, quotes removed but fields not trimmed), the choice between
 * the local call-centre tasks and the last fetched sheet, and the figures
 * computed over the chosen tasks: the number of calls, the rounded average
 * duration, the calls per staff member and the calls per topic.
 */
module CallCenter {
  import opened Wrappers
  import opened Seqs
  import opened Text
  import opened Types
  import opened Constants
  import opened Csv
  import opened Tally
  import opened Averages

  const SheetUserId: string := "remote"
  const SheetUsername: string := "موظف عن بعد"
  const SavedUrlKey: string := "cc_sheet_url"
  const MissingUrlError: string := "يرجى إدخال رابط CSV الخاص بجوجل شيت"
  const FetchError: string := "فشل جلب البيانات. تأكد من أن الملف \"منشور على الويب\" بصيغة CSV"

  /** Where the statistics come from. */
  datatype Source = Local | GoogleSheet

  /** One data line of the call-centre sheet, cut at every comma. */
  function SheetRow(line: string, index: nat, clock: Clock): (t: Task)
    ensures t.id == "sheet-" + NatToString(index) && t.userId == SheetUserId
    ensures t.studentName == Some(RemoveQuotes(Split(line, OnChar(','))[0]))
    ensures '"' !in t.taskType && '"' !in t.description && '"' !in t.username
    ensures t.taskType != "" && t.username != ""
    ensures t.createdAt == clock.nowIso || (t.createdAt != "" && '"' !in t.createdAt)
    ensures t.duration != 0
  {
    var values := Split(line, OnChar(','));
    Task(
      id := "sheet-" + NatToString(index),
      studentName := Some(RemoveQuotes(values[0])),
      taskType := UntrimmedFieldOr(values, 1, CallCenterType),
      description := UntrimmedFieldOr(values, 2, ""),
      duration := DurationField(values, 3),
      createdAt := UntrimmedFieldOr(values, 4, clock.nowIso),
      userId := SheetUserId,
      username := UntrimmedFieldOr(values, 5, SheetUsername),
      rating := None,
      ratingComment := None)
  }

  /**
   * Which column feeds which field: type, description, creation time and
   * username are their column without quotes when that is not empty, and
   * their default otherwise; the duration is read from the fourth column.
   */
  lemma SheetRowColumns(line: string, index: nat, clock: Clock)
    ensures var t := SheetRow(line, index, clock);
            var v := Split(line, OnChar(','));
            UnquotedOr(v, 1, CallCenterType, t.taskType) && UnquotedOr(v, 2, "", t.description)
            && t.duration == DurationField(v, 3) && UnquotedOr(v, 4, clock.nowIso, t.createdAt)
            && UnquotedOr(v, 5, SheetUsername, t.username)
  {
    var t := SheetRow(line, index, clock);
    var v := Split(line, OnChar(','));
    assert t.taskType == UntrimmedFieldOr(v, 1, CallCenterType) && t.description == UntrimmedFieldOr(v, 2, "");
    assert t.createdAt == UntrimmedFieldOr(v, 4, clock.nowIso) && t.username == UntrimmedFieldOr(v, 5, SheetUsername);
  }

  /**
   * A line of six cells holding no comma and no quote, none empty, is read
   * column by column, surrounding spaces included.
   */
  lemma SheetRowReadsCells(cells: seq<string>, index: nat, clock: Clock)
    requires |cells| == 6
    requires forall i :: 0 <= i < |cells| ==> cells[i] != "" && ',' !in cells[i] && '"' !in cells[i]
    ensures var t := SheetRow(Join(cells, ','), index, clock);
            t.studentName == Some(cells[0]) && t.taskType == cells[1] && t.description == cells[2]
            && t.duration == DurationField(cells, 3) && t.createdAt == cells[4] && t.username == cells[5]
  {
    SplitJoinOnChar(cells, ',');
    forall i | 0 <= i < |cells| ensures RemoveQuotes(cells[i]) == cells[i] {
      RemoveQuotesNoOp(cells[i]);
    }
  }

  /** Every non-blank line after the header becomes one call, in file order. */
  function SheetRows(text: string, clock: Clock): (rows: seq<Task>)
    ensures |rows| == |DataLines(text)|
    ensures forall i :: 0 <= i < |rows| ==> rows[i] == SheetRow(DataLines(text)[i], i, clock)
  {
    var lines := DataLines(text);
    seq(|lines|, i requires 0 <= i < |lines| => SheetRow(lines[i], i, clock))
  }

  /** The naive split cuts at every comma, so a comma inside quotes breaks the field in two. */
  lemma NaiveSplitFields(line: string)
    ensures |Split(line, OnChar(','))| == CountChar(line, ',') + 1
    ensures forall i :: 0 <= i < |Split(line, OnChar(','))| ==> ',' !in Split(line, OnChar(','))[i]
  {
    SplitOnCharCount(line, ',');
  }

  predicate IsCallCenterTask(t: Task) {
    t.taskType == CallCenterType
  }

  /** `activeTasks`: the local call-centre tasks, or the fetched sheet. */
  function ActiveTasks(source: Source, tasks: seq<Task>, sheetData: seq<Task>): (active: seq<Task>)
    ensures source == Local ==> IsSubseq(active, tasks)
    ensures source == Local ==> forall i :: 0 <= i < |active| ==> active[i].taskType == CallCenterType
    ensures source == Local ==> forall i :: 0 <= i < |tasks| && tasks[i].taskType == CallCenterType ==> tasks[i] in active
    ensures source == GoogleSheet ==> active == sheetData
  {
    if source == Local then Filter(IsCallCenterTask, tasks) else sheetData
  }

  datatype Topic = Technical | GeneralInquiry | Complaint | OtherTopic

  /** A topic and the words that put a call into it. */
  datatype TopicRule = TopicRule(topic: Topic, words: seq<string>)

  /** The rules in the order they are tried. */
  const TopicRules: seq<TopicRule> := [
    TopicRule(Technical, ["مشكلة", "عطل"]),
    TopicRule(GeneralInquiry, ["كيف", "متى"]),
    TopicRule(Complaint, ["شكوى", "بطيء"])
  ]

  predicate Matches(rule: TopicRule, desc: string) {
    exists w :: w in rule.words && Contains(desc, w)
  }

  predicate NoneMatchBefore(rules: seq<TopicRule>, i: nat, desc: string)
    requires i <= |rules|
  {
    forall j :: 0 <= j < i ==> !Matches(rules[j], desc)
  }

  /** The topic of the first rule with a word in `desc`, or the catch-all topic. */
  function FirstMatch(rules: seq<TopicRule>, desc: string): (topic: Topic)
    ensures (forall i :: 0 <= i < |rules| ==> !Matches(rules[i], desc)) ==> topic == OtherTopic
    ensures forall i :: 0 <= i < |rules| && Matches(rules[i], desc) && NoneMatchBefore(rules, i, desc)
                        ==> topic == rules[i].topic
    decreases |rules|
  {
    if |rules| == 0 then OtherTopic
    else if Matches(rules[0], desc) then rules[0].topic
    else
      var t := FirstMatch(rules[1..], desc);
      assert forall i :: 1 <= i < |rules| ==> rules[i] == rules[1..][i - 1];
      t
  }

  /** The description, lower-cased, decides the topic: the first rule with a matching word wins. */
  function Classify(t: Task): (topic: Topic)
    ensures Matches(TopicRules[0], Lower(t.description)) ==> topic == Technical
    ensures topic == OtherTopic <==> forall i :: 0 <= i < |TopicRules| ==> !Matches(TopicRules[i], Lower(t.description))
  {
    FirstMatch(TopicRules, Lower(t.description))
  }

  /** A description with a technical word counts as technical, whatever other words it holds. */
  lemma FirstRuleWins(t: Task)
    requires Contains(Lower(t.description), "مشكلة")
    ensures Classify(t) == Technical
  {
    assert Matches(TopicRules[0], Lower(t.description));
  }

  /** How many of the tasks fall into `topic`. */
  function TopicCount(tasks: seq<Task>, topic: Topic): (n: nat)
    ensures n <= |tasks|
    decreases |tasks|
  {
    if |tasks| == 0 then 0
    else TopicCount(tasks[..|tasks| - 1], topic) + (if Classify(tasks[|tasks| - 1]) == topic then 1 else 0)
  }

  /** The four topic counters, in the order the chart lists them. */
  datatype TopicCounts = TopicCounts(technical: nat, general: nat, complaints: nat, other: nat)

  function TopicTotal(c: TopicCounts): nat {
    c.technical + c.general + c.complaints + c.other
  }

  /** Every call is in exactly one topic, so the topic counters add up to the number of calls. */
  lemma {:induction false} TopicCountsSum(tasks: seq<Task>)
    ensures TopicCount(tasks, Technical) + TopicCount(tasks, GeneralInquiry)
            + TopicCount(tasks, Complaint) + TopicCount(tasks, OtherTopic) == |tasks|
    decreases |tasks|
  {
    if |tasks| > 0 {
      TopicCountsSum(tasks[..|tasks| - 1]);
    }
  }

  /** The figures of the statistics screen. */
  datatype CallStats = CallStats(
    totalCalls: nat,
    avgCallDuration: int,
    staff: seq<string>,
    callsPerUser: map<string, nat>,
    topics: TopicCounts)

  function Usernames(tasks: seq<Task>): (names: seq<string>)
    ensures |names| == |tasks|
    ensures forall i :: 0 <= i < |tasks| ==> names[i] == tasks[i].username
  {
    seq(|tasks|, i requires 0 <= i < |tasks| => tasks[i].username)
  }

  /** `stats`: the per-user counters come from the counting loop, the topics from a loop over the calls. */
  method ComputeStats(active: seq<Task>) returns (s: CallStats)
    ensures s.totalCalls == |active|
    ensures s.avgCallDuration == RoundedAverage(SumDurations(active), |active|)
    ensures s.staff == Distinct(Usernames(active))
    ensures forall name :: name in s.callsPerUser <==> name in Usernames(active)
    ensures forall name :: name in s.callsPerUser ==> s.callsPerUser[name] == Occurrences(Usernames(active), name)
    ensures s.topics == TopicCounts(TopicCount(active, Technical), TopicCount(active, GeneralInquiry),
                                    TopicCount(active, Complaint), TopicCount(active, OtherTopic))
    ensures TopicTotal(s.topics) == s.totalCalls
    ensures SumCounts(s.staff, Usernames(active)) == s.totalCalls
  {
    var staff, calls := Count(Usernames(active));
    var topics := CountTopics(active);
    TopicCountsSum(active);
    CountsSumToTotal(Usernames(active));
    s := CallStats(|active|, RoundedAverage(SumDurations(active), |active|), staff, calls, topics);
  }

  /** The `forEach` over the calls that bumps one topic counter per call. */
  method CountTopics(active: seq<Task>) returns (c: TopicCounts)
    ensures c == TopicCounts(TopicCount(active, Technical), TopicCount(active, GeneralInquiry),
                             TopicCount(active, Complaint), TopicCount(active, OtherTopic))
  {
    var technical, general, complaints, other := 0, 0, 0, 0;
    var i := 0;
    while i < |active|
      invariant 0 <= i <= |active|
      invariant technical == TopicCount(active[..i], Technical)
      invariant general == TopicCount(active[..i], GeneralInquiry)
      invariant complaints == TopicCount(active[..i], Complaint)
      invariant other == TopicCount(active[..i], OtherTopic)
    {
      assert active[..i + 1][..i] == active[..i];
      match Classify(active[i]) {
        case Technical => technical := technical + 1;
        case GeneralInquiry => general := general + 1;
        case Complaint => complaints := complaints + 1;
        case OtherTopic => other := other + 1;
      }
      i := i + 1;
    }
    assert active[..|active|] == active;
    c := TopicCounts(technical, general, complaints, other);
  }

  /** The statistics screen's own state. */
  class CallCenterView {
    var sourceType: Source
    var sheetUrl: string
    var sheetData: seq<Task>
    var loading: bool
    var error: string
    /** The browser store, as far as this screen uses it. */
    var savedUrls: map<string, string>

    /** The URL field starts from the saved URL, or empty. */
    constructor (store: map<string, string>)
      ensures sourceType == Local && sheetData == [] && !loading && error == ""
      ensures sheetUrl == (if SavedUrlKey in store then store[SavedUrlKey] else "")
      ensures savedUrls == store
    {
      sourceType := Local;
      sheetUrl := if SavedUrlKey in store then store[SavedUrlKey] else "";
      sheetData := [];
      loading := false;
      error := "";
      savedUrls := store;
    }

    /**
     * `fetchSheetData`: an empty URL only sets the error. Otherwise the
     * rewritten URL is fetched; any text that arrives, whatever the HTTP
     * status, replaces the sheet data and the URL is saved; a failed fetch
     * sets the error and keeps the old data.
     */
    method FetchSheetData(fetch: string -> Response, clock: Clock)
      modifies this
      ensures sourceType == old(sourceType) && sheetUrl == old(sheetUrl)
      ensures old(sheetUrl) == "" ==> error == MissingUrlError && loading == old(loading)
                                      && sheetData == old(sheetData) && savedUrls == old(savedUrls)
      ensures old(sheetUrl) != "" ==> !loading
      ensures old(sheetUrl) != "" && fetch(FetchUrl(old(sheetUrl))).NetworkError? ==>
                error == FetchError && sheetData == old(sheetData) && savedUrls == old(savedUrls)
      ensures old(sheetUrl) != "" && fetch(FetchUrl(old(sheetUrl))).Response? ==>
                error == "" && sheetData == SheetRows(fetch(FetchUrl(old(sheetUrl))).body, clock)
                && savedUrls == old(savedUrls)[SavedUrlKey := old(sheetUrl)]
    {
      if sheetUrl == "" {
        error := MissingUrlError;
        return;
      }
      loading := true;
      error := "";
      var response := fetch(FetchUrl(sheetUrl));
      match response {
        case NetworkError =>
          error := FetchError;
        case Response(_, body) =>
          sheetData := SheetRows(body, clock);
          savedUrls := savedUrls[SavedUrlKey := sheetUrl];
      }
      loading := false;
    }

    /** The source toggle. */
    method SetSource(source: Source)
      modifies this`sourceType
      ensures sourceType == source
    {
      sourceType := source;
    }

    /** The URL input. */
    method SetSheetUrl(url: string)
      modifies this`sheetUrl
      ensures sheetUrl == url
    {
      sheetUrl := url;
    }
  }
}
