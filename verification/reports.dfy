/** The values derived from a snapshot of one client's tasks: `tasks_stats` and
    `get_notifications`. Nothing here changes the collection. */
module Reports {
  import opened Results
  import opened Tasks
  import opened Filtering
  import opened Collections

  datatype Stats = Stats(total: nat, completed: nat, pending: int, overdue: nat)

  function IsCompleted(): Task -> bool { (t: Task) => t.completed }
  function IsPending(): Task -> bool { (t: Task) => !t.completed }

  /** Not completed, and due strictly before `now`. */
  predicate IsOverdue(t: Task, now: Time)
  {
    t.due_date.Some? && t.due_date.value < now && !t.completed
  }

  function OverdueAt(now: Time): Task -> bool { (t: Task) => IsOverdue(t, now) }

  /** `tasks_stats`: pending is what is not completed, and only pending tasks can be overdue. */
  function TaskStats(c: Collection, now: Time): (r: Stats)
    ensures r.total == |c| && r.total == r.completed + r.pending
    ensures r.pending == |Where(c, IsPending())|
    ensures 0 <= r.overdue <= r.pending
  {
    var total := |c|;
    var completed := |Where(c, IsCompleted())|;
    WherePartition(c, IsCompleted(), IsPending());
    WhereMonotone(c, OverdueAt(now), IsPending());
    Stats(total, completed, total - completed, |Where(c, OverdueAt(now))|)
  }

  /** The window, in seconds, within which an upcoming due date is announced. */
  const OneHour: int := 3600

  /** A notice about one task, naming its id and title. */
  datatype Notification = Overdue(id: Id, title: string) | DueSoon(id: Id, title: string)

  /** The notice for one task, if any: none for a completed or undated task;
      overdue once `now` is past the due date; due soon while the due date is
      less than an hour ahead, the due instant itself included. */
  function NotificationFor(t: Task, now: Time): Option<Notification>
  {
    if t.due_date.None? || t.completed then None
    else if now > t.due_date.value then Some(Overdue(t.id, t.title))
    else if t.due_date.value - now < OneHour then Some(DueSoon(t.id, t.title))
    else None
  }

  function Notified(now: Time): Task -> bool
  {
    (t: Task) => NotificationFor(t, now).Some?
  }

  /** `get_notifications`: every notice is that of a stored task and every stored
      task's notice is there; `NotificationsInOrder` gives the exact list. */
  function Notifications(c: Collection, now: Time): (r: seq<Notification>)
    ensures |r| <= |c|
    ensures forall n :: n in r ==> exists t :: t in c && NotificationFor(t, now) == Some(n)
    ensures forall t :: t in c && NotificationFor(t, now).Some? ==> NotificationFor(t, now).value in r
    decreases |c|
  {
    if |c| == 0 then []
    else
      assert c == [c[0]] + c[1..];
      match NotificationFor(c[0], now)
      case Some(n) => [n] + Notifications(c[1..], now)
      case None => Notifications(c[1..], now)
  }

  /** The notices of the tasks `w`, each of which has one, in the order of `w`. */
  function NoticesOf(w: seq<Task>, now: Time): seq<Notification>
    requires forall t :: t in w ==> NotificationFor(t, now).Some?
    decreases |w|
  {
    if |w| == 0 then []
    else
      assert w[0] in w;
      assert forall t :: t in w[1..] ==> t in w;
      [NotificationFor(w[0], now).value] + NoticesOf(w[1..], now)
  }

  /** The notices are those of the tasks that have one, taken in collection order:
      exactly one for each such task. */
  lemma {:induction false} NotificationsInOrder(c: Collection, now: Time)
    ensures Notifications(c, now) == NoticesOf(Where(c, Notified(now)), now)
    decreases |c|
  {
    if |c| > 0 {
      var rest := c[1..];
      NotificationsInOrder(rest, now);
      var w := Where(c, Notified(now));
      var w' := Where(rest, Notified(now));
      if NotificationFor(c[0], now).Some? {
        assert w == [c[0]] + w';
        assert w[1..] == w';
      } else {
        assert w == w';
      }
    }
  }

  function IsOverdueNotice(): Notification -> bool { (n: Notification) => n.Overdue? }

  /** The statistics and the notifications agree: `overdue` counts exactly the
      overdue notices, since `due < now` and `now > due` are the same test. */
  lemma {:induction false} StatsAgreeWithNotifications(c: Collection, now: Time)
    ensures TaskStats(c, now).overdue == |Where(Notifications(c, now), IsOverdueNotice())|
    decreases |c|
  {
    OverdueCount(c, now);
  }

  lemma {:induction false} OverdueCount(c: Collection, now: Time)
    ensures |Where(c, OverdueAt(now))| == |Where(Notifications(c, now), IsOverdueNotice())|
    decreases |c|
  {
    if |c| > 0 {
      var rest := c[1..];
      OverdueCount(rest, now);
      match NotificationFor(c[0], now)
      case Some(n) =>
        assert Notifications(c, now) == [n] + Notifications(rest, now);
        assert ([n] + Notifications(rest, now))[1..] == Notifications(rest, now);
        assert IsOverdue(c[0], now) == n.Overdue?;
      case None =>
        assert Notifications(c, now) == Notifications(rest, now);
        assert !IsOverdue(c[0], now);
    }
  }

  /** With distinct ids, a task is announced as overdue exactly when it is not
      completed and `now` is past its due date. */
  lemma NotifiedOverdueIff(c: Collection, now: Time, t: Task)
    requires DistinctIds(c) && t in c
    ensures Overdue(t.id, t.title) in Notifications(c, now) <==>
      !t.completed && t.due_date.Some? && now > t.due_date.value
  {
    var r := Notifications(c, now);
    if Overdue(t.id, t.title) in r {
      var u :| u in c && NotificationFor(u, now) == Some(Overdue(t.id, t.title));
      SameIdSameTask(c, t, u);
    }
    if !t.completed && t.due_date.Some? && now > t.due_date.value {
      assert NotificationFor(t, now) == Some(Overdue(t.id, t.title));
    }
  }

  /** With distinct ids, a task is announced as due soon exactly when it is not
      completed and its due date lies in `[now, now + OneHour)`. */
  lemma NotifiedDueSoonIff(c: Collection, now: Time, t: Task)
    requires DistinctIds(c) && t in c
    ensures DueSoon(t.id, t.title) in Notifications(c, now) <==>
      !t.completed && t.due_date.Some? && now <= t.due_date.value < now + OneHour
  {
    var r := Notifications(c, now);
    if DueSoon(t.id, t.title) in r {
      var u :| u in c && NotificationFor(u, now) == Some(DueSoon(t.id, t.title));
      SameIdSameTask(c, t, u);
    }
    if !t.completed && t.due_date.Some? && now <= t.due_date.value < now + OneHour {
      assert NotificationFor(t, now) == Some(DueSoon(t.id, t.title));
    }
  }
}
