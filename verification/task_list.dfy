/**
 * The task table: which tasks a user sees, which rows may still be
 * changed, and the star-rating dialog that sends a rated copy of a task
 * back to the dashboard.
 */
module TaskList {
  import opened Wrappers
  import opened Seqs
  import opened Types

  /** Admins and supervisors see every task; anyone else only the tasks they own. */
  predicate SeesTask(user: User, t: Task) {
    user.role == Admin || user.role == Supervisor || t.userId == user.id
  }

  /** `filteredTasks`: the visible tasks, in list order. */
  function VisibleTasks(tasks: seq<Task>, user: User): (r: seq<Task>)
    ensures IsSubseq(r, tasks)
    ensures user.role == Admin || user.role == Supervisor ==> r == tasks
    ensures user.role == RegularUser ==> forall i :: 0 <= i < |r| ==> r[i].userId == user.id
    ensures forall i :: 0 <= i < |tasks| && tasks[i].userId == user.id ==> tasks[i] in r
  {
    if user.role == Admin || user.role == Supervisor then
      FilterAll(t => SeesTask(user, t), tasks);
      Filter(t => SeesTask(user, t), tasks)
    else Filter(t => SeesTask(user, t), tasks)
  }

  /** A regular user's view holds exactly their own tasks: nothing of anyone else's and all of theirs. */
  lemma RegularUserSeesOwnOnly(tasks: seq<Task>, user: User, t: Task)
    requires user.role == RegularUser && t in tasks
    ensures t in VisibleTasks(tasks, user) <==> t.userId == user.id
  {
    var r := VisibleTasks(tasks, user);
    if t in r {
      var i :| 0 <= i < |r| && r[i] == t;
    }
  }

  /** `isEditable`: the task was created on today's calendar day. */
  predicate IsEditable(cal: Calendar, clock: Clock, createdAt: string)
    ensures IsEditable(cal, clock, createdAt) ==> cal.parse(createdAt).Some?
  {
    IsToday(cal, clock, createdAt)
  }

  /** The actions a row offers. */
  datatype RowActions = RowActions(canEdit: bool, canDelete: bool, canRate: bool)

  /** Edit and delete appear only on tasks created today; the rate button only on tasks without a truthy rating. */
  function ActionsFor(cal: Calendar, clock: Clock, t: Task): (a: RowActions)
    ensures a.canDelete <==> IsToday(cal, clock, t.createdAt)
    ensures a.canEdit == a.canDelete
    ensures a.canRate <==> t.rating.None? || t.rating == Some(0)
  {
    RowActions(IsEditable(cal, clock, t.createdAt), IsEditable(cal, clock, t.createdAt), !HasRating(t))
  }

  /** A task whose creation time does not parse is archived: it can never be deleted from the table. */
  lemma InvalidDateArchived(cal: Calendar, clock: Clock, t: Task)
    requires cal.parse(t.createdAt).None?
    ensures !ActionsFor(cal, clock, t).canDelete
  {
    InvalidNeverToday(cal, clock, t.createdAt);
  }

  /** `tasks.find(t => t.id === id)`. */
  function FindTask(tasks: seq<Task>, id: string): (found: Option<Task>)
    ensures found.None? <==> forall i :: 0 <= i < |tasks| ==> tasks[i].id != id
    ensures found.Some? ==> exists i :: 0 <= i < |tasks| && tasks[i] == found.value
                                         && found.value.id == id
                                         && forall j :: 0 <= j < i ==> tasks[j].id != id
    decreases |tasks|
  {
    if |tasks| == 0 then None
    else if tasks[0].id == id then Some(tasks[0])
    else
      var rest := FindTask(tasks[1..], id);
      assert forall i :: 1 <= i < |tasks| ==> tasks[i] == tasks[1..][i - 1];
      if rest.Some? then
        var i :| 0 <= i < |tasks[1..]| && tasks[1..][i] == rest.value && rest.value.id == id
                 && forall j :: 0 <= j < i ==> tasks[1..][j].id != id;
        assert tasks[i + 1] == rest.value;
        rest
      else rest
  }

  /** The task with only its rating replaced. */
  function Rated(t: Task, stars: int): (r: Task)
    ensures r.rating == Some(stars)
    ensures r.id == t.id && r.studentName == t.studentName && r.taskType == t.taskType
            && r.description == t.description && r.duration == t.duration && r.createdAt == t.createdAt
            && r.userId == t.userId && r.username == t.username && r.ratingComment == t.ratingComment
  {
    t.(rating := Some(stars))
  }

  /** Confirming without choosing a star stores a rating of 0, which leaves the task unrated. */
  lemma ZeroStarsStayUnrated(t: Task)
    ensures !HasRating(Rated(t, 0))
  {
  }

  /** The rating dialog's state. */
  class RatingDialog {
    /** The id of the task being rated; the dialog is open when it is set and not empty. */
    var ratingTarget: Option<string>
    var stars: int

    constructor ()
      ensures ratingTarget.None? && stars == 0
    {
      ratingTarget := None;
      stars := 0;
    }

    predicate IsOpen()
      reads this
    {
      ratingTarget.Some? && ratingTarget.value != ""
    }

    /** The rate button of a row. */
    method Open(taskId: string)
      modifies this`ratingTarget
      ensures ratingTarget == Some(taskId)
      ensures IsOpen() <==> taskId != ""
    {
      ratingTarget := Some(taskId);
    }

    /** Clicking the i-th of the five stars. */
    method ClickStar(i: int)
      requires 1 <= i <= 5
      modifies this`stars
      ensures stars == i && 1 <= stars <= 5
    {
      stars := i;
    }

    /** The cancel button. */
    method Cancel()
      modifies this`ratingTarget
      ensures ratingTarget.None? && !IsOpen()
    {
      ratingTarget := None;
    }

    /**
     * `handleRatingSubmit`: the target task, with only its rating set to
     * the chosen stars, is handed back for the update; the stars reset and
     * the dialog closes. A target no longer in the list hands back nothing.
     */
    method Confirm(tasks: seq<Task>) returns (edited: Option<Task>)
      requires IsOpen()
      modifies this
      ensures var found := FindTask(tasks, old(ratingTarget).value);
              (found.None? ==> edited.None?)
              && (found.Some? ==> edited == Some(Rated(found.value, old(stars))))
      ensures edited.Some? ==> edited.value.id == old(ratingTarget).value
      ensures ratingTarget.None? && stars == 0
    {
      var found := FindTask(tasks, ratingTarget.value);
      edited := if found.Some? then Some(Rated(found.value, stars)) else None;
      ratingTarget := None;
      stars := 0;
    }
  }
}
