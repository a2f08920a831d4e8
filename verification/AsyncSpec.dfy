/** The asynchronous worker as a transition system: tasks in progress, delayed results, the
    channel results are sent on, and the main thread that reads it. */
module AsyncSpec {
  import opened Frames

  datatype Task = Task(id: Content, remainingSteps: int)

  /** `accepted` and `delivered` are histories: the ids taken in and those read by the main
      thread. */
  datatype World = World(
    tasks: seq<Task>, queue: seq<Content>, channel: seq<Content>,
    accepted: seq<Content>, delivered: seq<Content>)

  datatype Turn =
    | Timeout(room: seq<bool>)          // for each finished task: did the channel take its result?
    | PollOut                           // the channel can take a result
    | PollIn(id: Content, steps: int)   // a new task arrives
    | Deliver                           // the main thread reads a result
    | Nothing

  function Decremented(tasks: seq<Task>): seq<Task> {
    seq(|tasks|, i requires 0 <= i < |tasks| => tasks[i].(remainingSteps := tasks[i].remainingSteps - 1))
  }

  /** The tasks that go on, in order. */
  function Unfinished(tasks: seq<Task>): seq<Task> {
    if tasks == [] then []
    else Unfinished(tasks[..|tasks| - 1]) +
         (if tasks[|tasks| - 1].remainingSteps == 0 then [] else [tasks[|tasks| - 1]])
  }

  /** The ids of the finished ones, in order. */
  function Finished(tasks: seq<Task>): seq<Content> {
    if tasks == [] then []
    else Finished(tasks[..|tasks| - 1]) +
         (if tasks[|tasks| - 1].remainingSteps == 0 then [tasks[|tasks| - 1].id] else [])
  }

  /** The results for which there was (`want`) or was not room; room not stated is none. */
  function Sorted(ids: seq<Content>, room: seq<bool>, want: bool): seq<Content> {
    if ids == [] then []
    else
      var n := |ids| - 1;
      Sorted(ids[..n], room, want) + (if (n < |room| && room[n]) == want then [ids[n]] else [])
  }

  function RunTasks(w: World, room: seq<bool>): World {
    var tasks := Decremented(w.tasks);
    var ids := Finished(tasks);
    w.(tasks := Unfinished(tasks),
       channel := w.channel + Sorted(ids, room, true),
       queue := w.queue + Sorted(ids, room, false))
  }

  /** New tasks are polled for only while no result is delayed, room for results only while
      one is; the result delayed last is sent first. */
  function Next(w: World, s: Turn): World {
    match s
    case Timeout(room) => RunTasks(w, room)
    case PollOut =>
      if w.queue == [] then w
      else w.(queue := w.queue[..|w.queue| - 1], channel := w.channel + [w.queue[|w.queue| - 1]])
    case PollIn(id, steps) =>
      if w.queue != [] then w
      else w.(tasks := w.tasks + [Task(id, steps)], accepted := w.accepted + [id])
    case Deliver =>
      if w.channel == [] then w
      else w.(channel := w.channel[1..], delivered := w.delivered + [w.channel[0]])
    case Nothing => w
  }

  function RunTurns(w: World, steps: seq<Turn>): World {
    if steps == [] then w else Next(RunTurns(w, steps[..|steps| - 1]), steps[|steps| - 1])
  }

  /** Tasks have at least one step, as the worker draws them. */
  predicate ProperSteps(steps: seq<Turn>) {
    forall s :: s in steps && s.PollIn? ==> s.steps >= 1
  }

  predicate Proper(tasks: seq<Task>) {
    forall i :: 0 <= i < |tasks| ==> tasks[i].remainingSteps >= 1
  }

  const START := World([], [], [], [], [])

  // --- nothing is lost or duplicated --------------------------------------------------

  function Ids(tasks: seq<Task>): seq<Content> {
    seq(|tasks|, i requires 0 <= i < |tasks| => tasks[i].id)
  }

  /** Every accepted id is in exactly one place. */
  predicate Conserved(w: World) {
    multiset(w.accepted) ==
    multiset(Ids(w.tasks)) + multiset(w.queue) + multiset(w.channel) + multiset(w.delivered)
  }

  lemma {:induction false} FinishedOrNot(tasks: seq<Task>)
    ensures multiset(Ids(tasks)) == multiset(Ids(Unfinished(tasks))) + multiset(Finished(tasks))
    ensures |tasks| == |Unfinished(tasks)| + |Finished(tasks)|
  {
    if tasks != [] {
      var t, last := tasks[..|tasks| - 1], tasks[|tasks| - 1];
      FinishedOrNot(t);
      IdsSnoc(t, last);
      IdsSnoc(Unfinished(t), last);
      assert tasks == t + [last];
      assert Unfinished(t) + [] == Unfinished(t) && Finished(t) + [] == Finished(t);
    }
  }

  lemma IdsSnoc(tasks: seq<Task>, t: Task)
    ensures Ids(tasks + [t]) == Ids(tasks) + [t.id]
  {
  }

  /** Tasks finish in the order of the list. */
  lemma {:induction false} FinishedInOrder(t: Task, tasks: seq<Task>)
    ensures Finished([t] + tasks) == (if t.remainingSteps == 0 then [t.id] else []) + Finished(tasks)
    ensures Unfinished([t] + tasks) == (if t.remainingSteps == 0 then [] else [t]) + Unfinished(tasks)
  {
    if tasks == [] {
      assert [t] + tasks == [t];
    } else {
      assert ([t] + tasks)[..|tasks|] == [t] + tasks[..|tasks| - 1];
      FinishedInOrder(t, tasks[..|tasks| - 1]);
    }
  }

  /** Results are sent and delayed in the order the tasks finish, each as there was room. */
  lemma {:induction false} SortedInOrder(id: Content, ids: seq<Content>, r: bool, room: seq<bool>, want: bool)
    requires |ids| == |room|
    ensures Sorted([id] + ids, [r] + room, want) == (if r == want then [id] else []) + Sorted(ids, room, want)
  {
    if ids == [] {
      assert [id] + ids == [id] && [id][..0] == [];
    } else {
      var n := |ids| - 1;
      assert ([id] + ids)[..n + 1] == [id] + ids[..n];
      assert room == room[..n] + [room[n]] && [r] + room == ([r] + room[..n]) + [room[n]];
      SortedInOrder(id, ids[..n], r, room[..n], want);
      SortedIgnoresMore([id] + ids[..n], [r] + room[..n], [room[n]], want);
      SortedIgnoresMore(ids[..n], room[..n], [room[n]], want);
    }
  }

  lemma {:induction false} SentOrDelayed(ids: seq<Content>, room: seq<bool>)
    ensures multiset(ids) == multiset(Sorted(ids, room, true)) + multiset(Sorted(ids, room, false))
    ensures |ids| == |Sorted(ids, room, true)| + |Sorted(ids, room, false)|
  {
    if ids != [] {
      var t := ids[..|ids| - 1];
      SentOrDelayed(t, room);
      LastOut(ids);
      assert Sorted(t, room, true) + [] == Sorted(t, room, true);
      assert Sorted(t, room, false) + [] == Sorted(t, room, false);
    }
  }

  lemma TimeoutConserves(w: World, room: seq<bool>)
    requires Conserved(w)
    ensures Conserved(RunTasks(w, room))
    ensures var q := RunTasks(w, room);
            q.accepted == w.accepted && |q.tasks| + |q.queue| <= |w.tasks| + |w.queue|
  {
    var tasks := Decremented(w.tasks);
    var ids := Finished(tasks);
    assert Ids(tasks) == Ids(w.tasks);
    FinishedOrNot(tasks);
    SentOrDelayed(ids, room);
  }

  lemma PollOutConserves(w: World)
    requires Conserved(w) && w.queue != []
    ensures Conserved(Next(w, PollOut))
  {
    hide Ids;
    var x := w.queue[|w.queue| - 1];
    LastOut(w.queue);
    assert multiset(w.channel + [x]) == multiset(w.channel) + multiset{x};
  }

  lemma StepConserves(w: World, s: Turn)
    requires Conserved(w)
    ensures Conserved(Next(w, s))
  {
    match s {
      case Timeout(room) =>
        TimeoutConserves(w, room);
      case PollOut =>
        if w.queue != [] {
          PollOutConserves(w);
        }
      case PollIn(id, steps) =>
        IdsSnoc(w.tasks, Task(id, steps));
        hide Ids;
      case Deliver =>
        hide Ids;
        if w.channel != [] {
          assert w.channel == [w.channel[0]] + w.channel[1..];
        }
      case Nothing =>
    }
  }

  lemma LastOut(q: seq<Content>)
    requires q != []
    ensures multiset(q) == multiset(q[..|q| - 1]) + multiset{q[|q| - 1]}
  {
    assert q == q[..|q| - 1] + [q[|q| - 1]];
  }

  /** The main thread reads results one by one in the order the channel took them; nothing else
      touches what it has read. */
  lemma ReadInOrder(w: World, s: Turn)
    ensures var q := Next(w, s);
            && w.delivered + w.channel <= q.delivered + q.channel && w.delivered <= q.delivered
            && |q.delivered| == |w.delivered| + (if s == Deliver && w.channel != [] then 1 else 0)
  {
    if s.Deliver? && w.channel != [] {
      assert w.channel == [w.channel[0]] + w.channel[1..];
      assert w.delivered + w.channel == (w.delivered + [w.channel[0]]) + w.channel[1..];
    } else if s.Timeout? {
      var more := Sorted(Finished(Decremented(w.tasks)), s.room, true);
      assert w.delivered + (w.channel + more) == (w.delivered + w.channel) + more;
    } else if s.PollOut? && w.queue != [] {
      var x := [w.queue[|w.queue| - 1]];
      assert w.delivered + (w.channel + x) == (w.delivered + w.channel) + x;
    }
  }

  /** In every reachable state each accepted task is in progress, delayed, on the channel or
      delivered, as often as it was accepted. */
  lemma {:induction false} NothingLost(steps: seq<Turn>)
    ensures Conserved(RunTurns(START, steps))
  {
    if steps != [] {
      NothingLost(steps[..|steps| - 1]);
      StepConserves(RunTurns(START, steps[..|steps| - 1]), steps[|steps| - 1]);
    }
  }

  /** One more finished task, and whether there was room for its result. */
  lemma {:induction false} SortedIgnoresMore(ids: seq<Content>, room: seq<bool>, more: seq<bool>, want: bool)
    requires |ids| <= |room|
    ensures Sorted(ids, room + more, want) == Sorted(ids, room, want)
  {
    if ids != [] {
      SortedIgnoresMore(ids[..|ids| - 1], room, more, want);
    }
  }

  lemma SortedSnoc(ids: seq<Content>, id: Content, room: seq<bool>, r: bool, want: bool)
    requires |ids| == |room|
    ensures Sorted(ids + [id], room + [r], want) == Sorted(ids, room, want) + (if r == want then [id] else [])
  {
    SortedIgnoresMore(ids, room, [r], want);
    assert (ids + [id])[..|ids|] == ids;
  }

  lemma SortedNext(ids: seq<Content>, id: Content, room: seq<bool>, r: bool)
    requires |ids| == |room|
    ensures Sorted(ids + [id], room + [r], r) == Sorted(ids, room, r) + [id]
    ensures Sorted(ids + [id], room + [r], !r) == Sorted(ids, room, !r)
  {
    hide Sorted;
    SortedSnoc(ids, id, room, r, r);
    SortedSnoc(ids, id, room, r, !r);
  }

  /** Before going through the list, and where the next task is while doing so. */
  lemma GoNowhere(tasks: seq<Task>, room: seq<bool>)
    ensures Unfinished(tasks[..0]) == [] && Finished(tasks[..0]) == []
    ensures Sorted([], room, true) == [] && Sorted([], room, false) == []
  {
  }

  lemma NextTask(all: seq<Task>, k: nat, gone: seq<Task>, tasks: seq<Task>)
    requires k <= |all| && tasks == gone + all[k..]
    ensures |gone| < |tasks| <==> k < |all|
    ensures k < |all| ==>
              var i := |gone|;
              && tasks[i] == all[k] && tasks[..i] + tasks[i + 1..] == gone + all[k + 1..]
              && tasks == (gone + [all[k]]) + all[k + 1..]
    ensures k == |all| ==> tasks == gone && all[..k] == all
  {
  }

  /** Taking one more task into account while going through the list. */
  lemma GoThrough(tasks: seq<Task>, k: nat)
    requires k < |tasks|
    ensures var done, next := tasks[..k], tasks[..k + 1];
            if tasks[k].remainingSteps == 0 then
              Unfinished(next) == Unfinished(done) && Finished(next) == Finished(done) + [tasks[k].id]
            else
              Unfinished(next) == Unfinished(done) + [tasks[k]] && Finished(next) == Finished(done)
  {
    assert tasks[..k + 1][..k] == tasks[..k];
    assert Unfinished(tasks[..k]) + [] == Unfinished(tasks[..k]);
    assert Finished(tasks[..k]) + [] == Finished(tasks[..k]);
  }

  lemma {:induction false} FinishedPrefix(tasks: seq<Task>, k: nat)
    requires k <= |tasks|
    ensures Finished(tasks[..k]) <= Finished(tasks)
  {
    if k < |tasks| {
      var t := tasks[..|tasks| - 1];
      assert t[..k] == tasks[..k];
      FinishedPrefix(t, k);
    } else {
      assert tasks[..k] == tasks;
    }
  }

  // --- back-pressure ------------------------------------------------------------------

  /** Some result is delayed after each of the steps. */
  ghost predicate DelayedThroughout(w: World, steps: seq<Turn>) {
    forall k :: 0 < k <= |steps| ==> RunTurns(w, steps[..k]).queue != []
  }

  lemma DelayedStep(w: World, s: Turn)
    requires w.queue != [] || Next(w, s).queue != []
    ensures Next(w, s).accepted == w.accepted
    ensures |Next(w, s).tasks| + |Next(w, s).queue| <= |w.tasks| + |w.queue|
  {
    if s.Timeout? {
      var tasks := Decremented(w.tasks);
      FinishedOrNot(tasks);
      SentOrDelayed(Finished(tasks), s.room);
    }
  }

  /** As long as results are delayed nothing is accepted, and the tasks in progress and the
      delayed results together never become more. So, counted from a state without delayed
      results, the queue never holds more than the tasks that were in progress then. */
  lemma {:induction false} BackPressure(w: World, steps: seq<Turn>)
    requires DelayedThroughout(w, steps)
    ensures var q := RunTurns(w, steps);
            && q.accepted == w.accepted
            && |q.tasks| + |q.queue| <= |w.tasks| + |w.queue|
            && (w.queue == [] ==> |q.queue| <= |w.tasks|)
  {
    if steps != [] {
      var n := |steps| - 1;
      assert forall k :: 0 < k <= n ==> steps[..n][..k] == steps[..k];
      BackPressure(w, steps[..n]);
      assert steps[..n + 1] == steps;
      DelayedStep(RunTurns(w, steps[..n]), steps[n]);
    }
  }

  // --- progress -----------------------------------------------------------------------

  function Timeouts(steps: seq<Turn>): nat {
    if steps == [] then 0
    else Timeouts(steps[..|steps| - 1]) + (if steps[|steps| - 1].Timeout? then 1 else 0)
  }

  /** A task `k` timeouts later, if it is still in progress. */
  function Later(t: Task, k: nat): seq<Task> {
    if 0 < t.remainingSteps <= k then [] else [t.(remainingSteps := t.remainingSteps - k)]
  }

  /** Tasks `k` timeouts later: those with more steps than that, each having lost so many. */
  function Aged(tasks: seq<Task>, k: nat): seq<Task> {
    if tasks == [] then []
    else Aged(tasks[..|tasks| - 1], k) + Later(tasks[|tasks| - 1], k)
  }

  /** The `i`-th turn takes in a task. */
  predicate Accepts(w: World, steps: seq<Turn>, i: nat)
    requires i < |steps|
  {
    steps[i].PollIn? && RunTurns(w, steps[..i]).queue == []
  }

  /** Of the tasks taken in during the first `m` steps, those in progress after all of them:
      each has aged by the timeouts since it came. */
  function Newer(w: World, steps: seq<Turn>, m: nat): seq<Task>
    requires m <= |steps|
  {
    if m == 0 then []
    else
      Newer(w, steps, m - 1) +
      (if Accepts(w, steps, m - 1)
       then Later(Task(steps[m - 1].id, steps[m - 1].steps), Timeouts(steps[m..])) else [])
  }

  function AfterTimeout(tasks: seq<Task>): seq<Task> {
    Unfinished(Decremented(tasks))
  }

  lemma AfterTimeoutSnoc(tasks: seq<Task>, t: Task)
    ensures t.remainingSteps == 1 ==> AfterTimeout(tasks + [t]) == AfterTimeout(tasks)
    ensures t.remainingSteps != 1 ==>
              AfterTimeout(tasks + [t]) == AfterTimeout(tasks) + [t.(remainingSteps := t.remainingSteps - 1)]
  {
    var u := t.(remainingSteps := t.remainingSteps - 1);
    assert Decremented(tasks + [t]) == Decremented(tasks) + [u];
    assert (Decremented(tasks) + [u])[..|tasks|] == Decremented(tasks);
    assert AfterTimeout(tasks) + [] == AfterTimeout(tasks);
  }

  lemma AfterTimeoutLater(tasks: seq<Task>, t: Task, k: nat)
    ensures AfterTimeout(tasks + Later(t, k)) == AfterTimeout(tasks) + Later(t, k + 1)
  {
    hide AfterTimeout;
    if 0 < t.remainingSteps <= k {
      assert tasks + [] == tasks;
    } else {
      AfterTimeoutSnoc(tasks, t.(remainingSteps := t.remainingSteps - k));
    }
    assert AfterTimeout(tasks) + [] == AfterTimeout(tasks);
  }

  /** One timeout ages every task by one. */
  lemma {:induction false} TimeoutAges(tasks: seq<Task>, k: nat)
    ensures AfterTimeout(Aged(tasks, k)) == Aged(tasks, k + 1)
  {
    if tasks != [] {
      var ts, t := tasks[..|tasks| - 1], tasks[|tasks| - 1];
      TimeoutAges(ts, k);
      AfterTimeoutLater(Aged(ts, k), t, k);
    }
  }

  lemma {:induction false} AfterTimeoutConcat(a: seq<Task>, b: seq<Task>)
    ensures AfterTimeout(a + b) == AfterTimeout(a) + AfterTimeout(b)
  {
    if b == [] {
      assert a + b == a;
    } else {
      hide AfterTimeout;
      var bs, t := b[..|b| - 1], b[|b| - 1];
      assert b == bs + [t] && a + b == (a + bs) + [t];
      AfterTimeoutConcat(a, bs);
      AfterTimeoutSnoc(a + bs, t);
      AfterTimeoutSnoc(bs, t);
    }
  }

  lemma {:induction false} AgedByNone(tasks: seq<Task>)
    ensures Aged(tasks, 0) == tasks
  {
    if tasks != [] {
      AgedByNone(tasks[..|tasks| - 1]);
      assert tasks == tasks[..|tasks| - 1] + [tasks[|tasks| - 1]];
    }
  }

  lemma TimeoutsSnoc(t: seq<Turn>, s: Turn)
    ensures Timeouts(t + [s]) == if s.Timeout? then Timeouts(t) + 1 else Timeouts(t)
  {
    assert (t + [s])[..|t|] == t;
  }

  /** What one more turn does to a task that came before it. */
  lemma OneNewer(w: World, steps: seq<Turn>, s: Turn, i: nat)
    requires i < |steps|
    ensures var all := steps + [s];
            && Accepts(w, all, i) == Accepts(w, steps, i) && all[i] == steps[i]
            && Timeouts(all[i + 1..]) ==
               if s.Timeout? then Timeouts(steps[i + 1..]) + 1 else Timeouts(steps[i + 1..])
  {
    hide RunTurns, Timeouts;
    assert (steps + [s])[..i] == steps[..i];
    assert (steps + [s])[i + 1..] == steps[i + 1..] + [s];
    TimeoutsSnoc(steps[i + 1..], s);
  }

  /** And to all of them. */
  lemma {:induction false} NewerStep(w: World, steps: seq<Turn>, s: Turn, m: nat)
    requires m <= |steps|
    ensures var next, now := Newer(w, steps + [s], m), Newer(w, steps, m);
            next == if s.Timeout? then AfterTimeout(now) else now
  {
    hide AfterTimeout, Later, RunTurns, Timeouts;
    NoTasks();
    if m > 0 {
      NewerStep(w, steps, s, m - 1);
      OneNewer(w, steps, s, m - 1);
      if Accepts(w, steps, m - 1) {
        AfterTimeoutLater(Newer(w, steps, m - 1), Task(steps[m - 1].id, steps[m - 1].steps), Timeouts(steps[m..]));
      } else {
        assert Newer(w, steps, m - 1) + [] == Newer(w, steps, m - 1);
      }
    }
  }

  lemma NoTasks()
    ensures AfterTimeout([]) == []
  {
  }

  lemma OneStepOnTime(older: seq<Task>, k: nat, newer: seq<Task>, v: World, s: Turn)
    requires v.tasks == Aged(older, k) + newer
    ensures Next(v, s).tasks ==
            Aged(older, if s.Timeout? then k + 1 else k) + (if s.Timeout? then AfterTimeout(newer) else newer) +
            (if s.PollIn? && v.queue == [] then [Task(s.id, s.steps)] else [])
  {
    hide Aged, Unfinished, Decremented, Finished, Sorted;
    if s.Timeout? {
      AfterTimeoutConcat(Aged(older, k), newer);
      TimeoutAges(older, k);
    }
  }

  /** Turn by turn, what is on the list and what has been accepted. */
  lemma NewerSnoc(w: World, t: seq<Turn>, s: Turn)
    ensures RunTurns(w, t + [s]) == Next(RunTurns(w, t), s)
    ensures Timeouts(t + [s]) == if s.Timeout? then Timeouts(t) + 1 else Timeouts(t)
    ensures var now := Newer(w, t, |t|);
            Newer(w, t + [s], |t| + 1) ==
            (if s.Timeout? then AfterTimeout(now) else now) +
            (if s.PollIn? && RunTurns(w, t).queue == [] then [Task(s.id, s.steps)] else [])
  {
    hide Next, AfterTimeout;
    var all := t + [s];
    assert all[..|t|] == t && all[|t| + 1..] == [];
    TimeoutsSnoc(t, s);
    NewerStep(w, t, s, |t|);
    if Accepts(w, all, |t|) {
      assert Later(Task(s.id, s.steps), 0) == [Task(s.id, s.steps)];
    }
  }

  lemma NoTurns(w: World)
    ensures RunTurns(w, []) == w && Aged(w.tasks, Timeouts([])) == w.tasks && Newer(w, [], 0) == []
  {
    AgedByNone(w.tasks);
  }

  lemma AcceptedNext(v: World, s: Turn)
    ensures Next(v, s).accepted == v.accepted + (if s.PollIn? && v.queue == [] then [s.id] else [])
  {
  }

  /** The tasks in progress after any steps are exactly the earlier ones with more steps than
      there were timeouts, then the newer ones with more steps than there were timeouts since
      they came, in order; each has lost one step per timeout. So a task of `n` steps leaves
      at the `n`-th timeout, and nothing else is on the list. */
  lemma {:induction false} LeavesOnTime(w: World, steps: seq<Turn>)
    ensures var q, a := RunTurns(w, steps), Aged(w.tasks, Timeouts(steps));
            && q.tasks == a + Newer(w, steps, |steps|)
            && w.accepted <= q.accepted && (q.accepted == w.accepted ==> q.tasks == a)
  {
    hide RunTurns, Timeouts, Newer, Next, Aged, AfterTimeout;
    if steps == [] {
      NoTurns(w);
    } else {
      var t, s := steps[..|steps| - 1], steps[|steps| - 1];
      assert steps == t + [s];
      LeavesOnTime(w, t);
      NoTasks();
      NewerSnoc(w, t, s);
      OneStepOnTime(w.tasks, Timeouts(t), Newer(w, t, |t|), RunTurns(w, t), s);
      AcceptedNext(RunTurns(w, t), s);
    }
  }

  /** A task of `n` steps is there for `n - 1` timeouts and gone with the `n`-th. */
  lemma LeavesAtItsTime(w: World, id: Content, n: nat, steps: seq<Turn>)
    requires w.tasks == [Task(id, n)] && n >= 1
    requires RunTurns(w, steps).accepted == w.accepted
    ensures RunTurns(w, steps).tasks ==
            if Timeouts(steps) < n then [Task(id, n - Timeouts(steps))] else []
  {
    hide RunTurns, Timeouts, Newer;
    LeavesOnTime(w, steps);
    assert w.tasks[..0] == [];
  }

  /** Between timeouts every task in progress has a step left: none is ever skipped. */
  lemma {:induction false} StepsStayPositive(steps: seq<Turn>)
    requires ProperSteps(steps)
    ensures Proper(RunTurns(START, steps).tasks)
  {
    if steps != [] {
      StepsStayPositive(steps[..|steps| - 1]);
      var w := RunTurns(START, steps[..|steps| - 1]);
      if steps[|steps| - 1].Timeout? {
        StillPositive(w.tasks);
      }
    }
  }

  lemma {:induction false} StillPositive(tasks: seq<Task>)
    requires Proper(tasks)
    ensures Proper(AfterTimeout(tasks))
  {
    if tasks != [] {
      var ts, t := tasks[..|tasks| - 1], tasks[|tasks| - 1];
      assert tasks == ts + [t];
      StillPositive(ts);
      AfterTimeoutSnoc(ts, t);
    }
  }
}
