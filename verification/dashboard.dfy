/**
 * The dashboard's figures: the tasks a user's dashboard counts, the
 * number of tasks, the rounded average duration, the average rating
 * (only its no-rating case is kept; see README), the tasks per type and
 * the tasks of the last seven date labels.
 */
module Dashboard {
  import opened Seqs
  import opened Types
  import opened Tally
  import opened Averages

  predicate Owns(user: User, t: Task) {
    t.userId == user.id
  }

  /** A regular user's dashboard counts only their own tasks; the other roles count all of them. */
  function DashboardTasks(tasks: seq<Task>, user: User): (r: seq<Task>)
    ensures user.role != RegularUser ==> r == tasks
    ensures user.role == RegularUser ==> IsSubseq(r, tasks)
    ensures user.role == RegularUser ==> forall i :: 0 <= i < |r| ==> r[i].userId == user.id
    ensures user.role == RegularUser ==> forall i :: 0 <= i < |tasks| && tasks[i].userId == user.id ==> tasks[i] in r
  {
    if user.role == RegularUser then Filter(t => Owns(user, t), tasks) else tasks
  }

  /** `reduce((acc, t) => acc + (t.rating || 0), 0)`. */
  function RatingSum(tasks: seq<Task>): int
    decreases |tasks|
  {
    if |tasks| == 0 then 0
    else (if HasRating(tasks[0]) then tasks[0].rating.value else 0) + RatingSum(tasks[1..])
  }

  /** Unrated tasks add nothing: the sum over all tasks is the sum over the rated ones. */
  lemma {:induction false} RatingSumOfRated(tasks: seq<Task>)
    ensures RatingSum(tasks) == RatingSum(Filter(HasRating, tasks))
    decreases |tasks|
  {
    if |tasks| > 0 {
      RatingSumOfRated(tasks[1..]);
      if HasRating(tasks[0]) {
        var rest := Filter(HasRating, tasks[1..]);
        assert ([tasks[0]] + rest)[1..] == rest;
      }
    }
  }

  /** The average rating before formatting: none, or a sum over a positive count. */
  datatype AvgRating = NoRatings | Mean(sum: int, count: nat)

  /** `avgRating`: the rating sum over the number of tasks with a truthy rating. */
  function AverageRating(tasks: seq<Task>): (a: AvgRating)
    ensures a.NoRatings? <==> forall i :: 0 <= i < |tasks| ==> !HasRating(tasks[i])
    ensures a.Mean? ==> a.count == |Filter(HasRating, tasks)| && a.count > 0
    ensures a.Mean? ==> a.sum == RatingSum(Filter(HasRating, tasks))
  {
    var rated := Filter(HasRating, tasks);
    RatingSumOfRated(tasks);
    if |rated| == 0 then
      NoRatings
    else
      assert rated[0] in tasks && HasRating(rated[0]);
      Mean(RatingSum(tasks), |rated|)
  }

  /** What the rating card shows when no task is rated; the other case is floating-point formatting. */
  const NoRatingText: string := "0.0"

  /** One bar or point of a chart: a key and how many tasks carry it. */
  datatype Entry = Entry(key: string, count: nat)

  function TaskTypes(tasks: seq<Task>): (keys: seq<string>)
    ensures |keys| == |tasks| && forall i :: 0 <= i < |tasks| ==> keys[i] == tasks[i].taskType
  {
    seq(|tasks|, i requires 0 <= i < |tasks| => tasks[i].taskType)
  }

  function DateLabels(tasks: seq<Task>, cal: Calendar): (keys: seq<string>)
    ensures |keys| == |tasks| && forall i :: 0 <= i < |tasks| ==> keys[i] == LocaleDate(cal, tasks[i].createdAt)
  {
    seq(|tasks|, i requires 0 <= i < |tasks| => LocaleDate(cal, tasks[i].createdAt))
  }

  /** The entries of the counted keys, in first-seen order, each with its number of occurrences. */
  predicate EntriesOf(entries: seq<Entry>, order: seq<string>, keys: seq<string>) {
    |entries| == |order|
    && forall i :: 0 <= i < |order| ==> entries[i] == Entry(order[i], Occurrences(keys, order[i]))
  }

  /** `Object.entries(acc).map(...)`. */
  method Entries(keys: seq<string>) returns (entries: seq<Entry>)
    ensures EntriesOf(entries, Distinct(keys), keys)
  {
    var order, counts := Count(keys);
    entries := seq(|order|, i requires 0 <= i < |order| && order[i] in counts => Entry(order[i], counts[order[i]]));
  }

  /** The dashboard's figures. */
  datatype DashboardStats = DashboardStats(
    total: nat,
    avgDuration: int,
    avgRating: AvgRating,
    pieData: seq<Entry>,
    lineData: seq<Entry>)

  /** `stats`: the counters come from the counting loop; the line chart keeps the last seven date labels. */
  method ComputeStats(tasks: seq<Task>, cal: Calendar) returns (s: DashboardStats)
    ensures s.total == |tasks|
    ensures s.avgDuration == RoundedAverage(SumDurations(tasks), |tasks|)
    ensures s.avgRating == AverageRating(tasks)
    ensures EntriesOf(s.pieData, Distinct(TaskTypes(tasks)), TaskTypes(tasks))
    ensures SumCounts(Distinct(TaskTypes(tasks)), TaskTypes(tasks)) == s.total
    ensures |s.lineData| <= 7
    ensures EntriesOf(s.lineData, TakeLast(Distinct(DateLabels(tasks, cal)), 7), DateLabels(tasks, cal))
  {
    var pie := Entries(TaskTypes(tasks));
    var dates := Entries(DateLabels(tasks, cal));
    CountsSumToTotal(TaskTypes(tasks));
    var line := TakeLast(dates, 7);
    s := DashboardStats(|tasks|, RoundedAverage(SumDurations(tasks), |tasks|), AverageRating(tasks), pie, line);
  }
}
