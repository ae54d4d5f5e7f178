/** Telling renames from removals: every path that is moved away gets a timer, which is called off
    when the other half of the rename shows up and otherwise reports the path as removed. */
module RenameControl {
  import opened Wrappers
  import opened Paths

  /** `timer` in Expire records which timer sent it; the handler does not look at it. */
  datatype Message = From(path: Path) | Decline(path: Path) | Expire(path: Path, timer: nat)

  /** A timer sleeps, then posts the removal, then sends Expire; aborting it works only while it sleeps. */
  datatype Status = Sleeping | Posting | Finished | Aborted

  datatype Timer = Timer(path: Path, status: Status)

  datatype Removal = Removal(path: Path, timer: nat)

  /** The actor, its timers and two logs: the From messages handled and the removals posted.
      Timers are numbered in the order they are spawned.  `inserting` is a timer that runs already
      while its handle is still on the way into `tasks`. */
  datatype Control = Control(
    mailbox: seq<Message>, inserting: Option<nat>, tasks: map<Path, nat>, timers: seq<Timer>,
    handled: seq<Path>, posted: seq<Removal>)

  const START: Control := Control([], None, map[], [], [], [])

  /** The actor itself: what one message does to the handles and the timers. */
  class RenameControl {
    var tasks: map<Path, nat>
    var timers: seq<Timer>

    constructor ()
      ensures tasks == map[] && timers == []
    {
      tasks, timers := map[], [];
    }

    method Handle(message: Message)
      requires forall p :: p in tasks ==> tasks[p] < |timers|
      modifies this
      ensures forall p :: p in tasks ==> tasks[p] < |timers|
      ensures var s := Control([message], None, old(tasks), old(timers), [], []);
              var s' := if message.From? then Insert(Receive(s)) else Receive(s);
              tasks == s'.tasks && timers == s'.timers
    {
      match message {
        case From(path) =>
          var handle := |timers|;
          timers := timers + [Timer(path, Sleeping)];
          tasks := tasks[path := handle];
        case Decline(path) =>
          if path in tasks {
            var handle := tasks[path];
            tasks := tasks - {path};
            if timers[handle].status == Sleeping {
              timers := timers[handle := Timer(timers[handle].path, Aborted)];
            }
          }
        case Expire(path, _) =>
          tasks := tasks - {path};
      }
    }
  }

  // ---------- the interleavings ----------

  function Receive(s: Control): Control
    requires s.mailbox != [] && s.inserting.None?
    requires forall p :: p in s.tasks ==> s.tasks[p] < |s.timers|
  {
    var rest := s.(mailbox := s.mailbox[1..]);
    match s.mailbox[0]
    case From(path) =>
      rest.(timers := s.timers + [Timer(path, Sleeping)], inserting := Some(|s.timers|), handled := s.handled + [path])
    case Decline(path) =>
      if path !in s.tasks then rest
      else
        var i := s.tasks[path];
        var timer := s.timers[i];
        rest.(tasks := s.tasks - {path},
              timers := if timer.status.Sleeping? then s.timers[i := timer.(status := Aborted)] else s.timers)
    case Expire(path, _) => rest.(tasks := s.tasks - {path})
  }

  function Insert(s: Control): Control
    requires s.inserting.Some? && s.inserting.value < |s.timers|
  {
    s.(inserting := None, tasks := s.tasks[s.timers[s.inserting.value].path := s.inserting.value])
  }

  function Wake(s: Control, i: nat): Control
    requires i < |s.timers|
  {
    s.(timers := s.timers[i := s.timers[i].(status := Posting)], posted := s.posted + [Removal(s.timers[i].path, i)])
  }

  function Finish(s: Control, i: nat): Control
    requires i < |s.timers|
  {
    s.(timers := s.timers[i := s.timers[i].(status := Finished)], mailbox := s.mailbox + [Expire(s.timers[i].path, i)])
  }

  /** A step of the actor or of a timer. */
  ghost predicate Internal(s: Control, s': Control) {
    || (s.mailbox != [] && s.inserting.None? && (forall p :: p in s.tasks ==> s.tasks[p] < |s.timers|) && s' == Receive(s))
    || (s.inserting.Some? && s.inserting.value < |s.timers| && s' == Insert(s))
    || (exists i: nat :: i < |s.timers| && s.timers[i].status.Sleeping? && s' == Wake(s, i))
    || (exists i: nat :: i < |s.timers| && s.timers[i].status.Posting? && s' == Finish(s, i))
  }

  /** The event watcher sends From and Decline. */
  ghost predicate Sent(s: Control, s': Control) {
    exists m: Message :: !m.Expire? && s' == s.(mailbox := s.mailbox + [m])
  }

  ghost predicate Next(s: Control, s': Control) {
    Internal(s, s') || Sent(s, s')
  }

  ghost predicate StepAt(states: seq<Control>, i: nat)
    requires i < |states| - 1
  {
    Next(states[i], states[i + 1])
  }

  ghost predicate Run(states: seq<Control>) {
    states != [] && states[0] == START && forall i: nat :: i < |states| - 1 ==> StepAt(states, i)
  }

  ghost predicate Drained(s: Control) {
    && s.mailbox == [] && s.inserting.None?
    && forall i :: 0 <= i < |s.timers| ==> s.timers[i].status.Finished? || s.timers[i].status.Aborted?
  }

  // ---------- the invariant ----------

  /** The timer is live, or its own Expire is still in the mailbox. */
  ghost predicate Accounted(s: Control, i: nat) {
    && i < |s.timers|
    && (s.timers[i].status.Sleeping? || s.timers[i].status.Posting?
        || (s.timers[i].status.Finished? && Expire(s.timers[i].path, i) in s.mailbox))
  }

  ghost predicate TasksAccounted(s: Control) {
    && (forall p :: p in s.tasks ==> Accounted(s, s.tasks[p]) && s.timers[s.tasks[p]].path == p)
    && (s.inserting.Some? ==> Accounted(s, s.inserting.value) && s.inserting.value !in s.tasks.Values)
  }

  ghost predicate ExpiresGenuine(s: Control) {
    forall m :: m in s.mailbox && m.Expire? ==> m.timer < |s.timers| && s.timers[m.timer] == Timer(m.path, Finished)
  }

  /** The handle of a path is its newest timer, apart from one whose handle is still on the way. */
  ghost predicate HandlesNewest(s: Control) {
    && (s.inserting.Some? ==> s.inserting.value == |s.timers| - 1)
    && (forall p :: p in s.tasks ==>
          forall i :: s.tasks[p] < i < |s.timers| && s.timers[i].path == p ==> s.inserting == Some(i))
  }

  /** Timer i was spawned for the i-th From message. */
  ghost predicate HandledInOrder(s: Control) {
    |s.handled| == |s.timers| && forall i :: 0 <= i < |s.timers| ==> s.handled[i] == s.timers[i].path
  }

  /** Removals come from distinct timers that have woken up, each for its own path. */
  ghost predicate RemovalsGenuine(s: Control) {
    && (forall r :: r in s.posted ==>
          r.timer < |s.timers| && s.timers[r.timer].path == r.path
          && (s.timers[r.timer].status.Posting? || s.timers[r.timer].status.Finished?))
    && (forall i, j :: 0 <= i < j < |s.posted| ==> s.posted[i].timer != s.posted[j].timer)
    && (forall p :: CountRemovals(s.posted, p) == CountTimers(s.timers, p, {Posting, Finished}))
  }

  ghost predicate InOrder(s: Control) {
    TasksAccounted(s) && ExpiresGenuine(s) && HandledInOrder(s) && RemovalsGenuine(s)
  }

  ghost predicate Inv(s: Control) {
    InOrder(s) && HandlesNewest(s)
  }

  // ---------- counting ----------

  ghost function CountTimers(timers: seq<Timer>, p: Path, statuses: set<Status>): nat {
    if timers == [] then 0
    else
      var last := timers[|timers| - 1];
      CountTimers(timers[..|timers| - 1], p, statuses) + if last.path == p && last.status in statuses then 1 else 0
  }

  ghost function CountRemovals(posted: seq<Removal>, p: Path): nat {
    if posted == [] then 0
    else CountRemovals(posted[..|posted| - 1], p) + if posted[|posted| - 1].path == p then 1 else 0
  }

  ghost function CountPaths(paths: seq<Path>, p: Path): nat {
    if paths == [] then 0
    else CountPaths(paths[..|paths| - 1], p) + if paths[|paths| - 1] == p then 1 else 0
  }

  lemma {:induction false} CountTimersUpdate(timers: seq<Timer>, i: nat, x: Timer, p: Path, statuses: set<Status>)
    requires i < |timers|
    ensures CountTimers(timers[i := x], p, statuses) + CountTimers([timers[i]], p, statuses) ==
            CountTimers(timers, p, statuses) + CountTimers([x], p, statuses)
  {
    var front := timers[..|timers| - 1];
    assert [timers[i]][..0] == [] && [x][..0] == [];
    if i == |front| {
      assert timers[i := x][..|front|] == front;
    } else {
      CountTimersUpdate(front, i, x, p, statuses);
      assert timers[i := x][..|front|] == front[i := x];
    }
  }

  lemma CountTimersAppend(timers: seq<Timer>, x: Timer, p: Path, statuses: set<Status>)
    ensures CountTimers(timers + [x], p, statuses) == CountTimers(timers, p, statuses) + CountTimers([x], p, statuses)
  {
    assert (timers + [x])[..|timers|] == timers;
    assert [x][..0] == [];
  }

  lemma {:induction false} CountSplits(timers: seq<Timer>, handled: seq<Path>, p: Path)
    requires |handled| == |timers| && forall i :: 0 <= i < |timers| ==> handled[i] == timers[i].path
    ensures CountPaths(handled, p) ==
            CountTimers(timers, p, {Sleeping}) + CountTimers(timers, p, {Aborted}) + CountTimers(timers, p, {Posting, Finished})
  {
    if timers != [] {
      CountSplits(timers[..|timers| - 1], handled[..|timers| - 1], p);
      var last := timers[|timers| - 1];
      assert handled[|handled| - 1] == last.path;
      assert last.status in {Sleeping} <==> last.status.Sleeping?;
      assert last.status in {Aborted} <==> last.status.Aborted?;
      assert last.status in {Posting, Finished} <==> last.status.Posting? || last.status.Finished?;
    }
  }

  // ---------- every step keeps the invariant ----------

  lemma ReceiveKeeps(s: Control)
    requires InOrder(s) && s.mailbox != [] && s.inserting.None?
    ensures InOrder(Receive(s))
  {
    assert s.mailbox == [s.mailbox[0]] + s.mailbox[1..];
    match s.mailbox[0]
    case From(path) => FromKeeps(s, path);
    case Decline(path) => DeclineKeeps(s, path);
    case Expire(_, _) =>
  }

  lemma FromKeeps(s: Control, path: Path)
    requires InOrder(s) && s.mailbox != [] && s.inserting.None? && s.mailbox == [From(path)] + s.mailbox[1..]
    ensures InOrder(Receive(s))
  {
    var s' := Receive(s);
    forall p
      ensures CountRemovals(s'.posted, p) == CountTimers(s'.timers, p, {Posting, Finished})
    {
      CountTimersAppend(s.timers, Timer(path, Sleeping), p, {Posting, Finished});
    }
    assert forall p :: p in s'.tasks ==> Accounted(s, s.tasks[p]);
  }

  lemma DeclineKeeps(s: Control, path: Path)
    requires InOrder(s) && s.mailbox != [] && s.inserting.None? && s.mailbox == [Decline(path)] + s.mailbox[1..]
    ensures InOrder(Receive(s))
  {
    DeclineCounts(s, path);
    assert forall p :: p in Receive(s).tasks ==> Accounted(s, s.tasks[p]);
  }

  /** Aborting posts nothing. */
  lemma DeclineCounts(s: Control, path: Path)
    requires InOrder(s) && s.mailbox != [] && s.inserting.None? && s.mailbox[0] == Decline(path)
    ensures var s' := Receive(s);
            forall p :: CountRemovals(s'.posted, p) == CountTimers(s'.timers, p, {Posting, Finished})
  {
    var s' := Receive(s);
    if path in s.tasks && s.timers[s.tasks[path]].status.Sleeping? {
      var i := s.tasks[path];
      forall p
        ensures CountRemovals(s'.posted, p) == CountTimers(s'.timers, p, {Posting, Finished})
      {
        CountTimersUpdate(s.timers, i, s'.timers[i], p, {Posting, Finished});
      }
    }
  }

  lemma InsertKeeps(s: Control)
    requires InOrder(s) && s.inserting.Some?
    ensures InOrder(Insert(s))
  {
  }

  lemma WakeKeeps(s: Control, i: nat)
    requires InOrder(s) && i < |s.timers| && s.timers[i].status.Sleeping?
    ensures InOrder(Wake(s, i))
  {
    var s' := Wake(s, i);
    forall p
      ensures CountRemovals(s'.posted, p) == CountTimers(s'.timers, p, {Posting, Finished})
    {
      CountTimersUpdate(s.timers, i, s'.timers[i], p, {Posting, Finished});
      assert s'.posted[..|s.posted|] == s.posted;
      assert [s.timers[i]][..0] == [] && [s'.timers[i]][..0] == [];
    }
  }

  lemma FinishKeeps(s: Control, i: nat)
    requires InOrder(s) && i < |s.timers| && s.timers[i].status.Posting?
    ensures InOrder(Finish(s, i))
  {
    var s' := Finish(s, i);
    forall p
      ensures CountRemovals(s'.posted, p) == CountTimers(s'.timers, p, {Posting, Finished})
    {
      CountTimersUpdate(s.timers, i, s'.timers[i], p, {Posting, Finished});
      assert [s.timers[i]][..0] == [] && [s'.timers[i]][..0] == [];
    }
  }

  lemma NextKeeps(s: Control, s': Control)
    requires Inv(s) && Next(s, s')
    ensures Inv(s')
  {
    NewestKeeps(s, s');
    if Sent(s, s') {
    } else if s.mailbox != [] && s.inserting.None? && s' == Receive(s) {
      ReceiveKeeps(s);
    } else if s.inserting.Some? && s' == Insert(s) {
      InsertKeeps(s);
    } else if i: nat :| i < |s.timers| && s.timers[i].status.Sleeping? && s' == Wake(s, i) {
      WakeKeeps(s, i);
    } else {
      var i: nat :| i < |s.timers| && s.timers[i].status.Posting? && s' == Finish(s, i);
      FinishKeeps(s, i);
    }
  }

  lemma NewestKeeps(s: Control, s': Control)
    requires TasksAccounted(s) && HandlesNewest(s) && Next(s, s')
    ensures HandlesNewest(s')
  {
    if s.mailbox != [] && s.inserting.None? && s' == Receive(s) {
      NewestReceived(s);
    } else if s.inserting.Some? && s' == Insert(s) {
    } else if !Sent(s, s') {
      assert forall i :: 0 <= i < |s.timers| ==> s'.timers[i].path == s.timers[i].path;
    }
  }

  lemma NewestReceived(s: Control)
    requires TasksAccounted(s) && HandlesNewest(s) && s.mailbox != [] && s.inserting.None?
    ensures HandlesNewest(Receive(s))
  {
    var s' := Receive(s);
    assert forall i :: 0 <= i < |s.timers| ==> s'.timers[i].path == s.timers[i].path;
  }

  lemma {:induction false} RunKeeps(states: seq<Control>, n: nat)
    requires Run(states) && n < |states|
    ensures Inv(states[n])
  {
    if n > 0 {
      RunKeeps(states, n - 1);
      assert StepAt(states, n - 1);
      NextKeeps(states[n - 1], states[n]);
    }
  }

  // ---------- the main results ----------

  /** In every interleaving, for every path: the From messages handled are the timers sleeping, the
      timers aborted and the removals posted; every removal has its own earlier From. */
  lemma TimerAccounting(states: seq<Control>, n: nat, p: Path)
    requires Run(states) && n < |states|
    ensures var s := states[n];
            && CountPaths(s.handled, p) ==
               CountTimers(s.timers, p, {Sleeping}) + CountTimers(s.timers, p, {Aborted}) + CountRemovals(s.posted, p)
            && (forall r :: r in s.posted ==> r.timer < |s.handled| && s.handled[r.timer] == r.path)
            && (forall i, j :: 0 <= i < j < |s.posted| ==> s.posted[i].timer != s.posted[j].timer)
            && (forall r :: r in s.posted ==> r.timer < |s.timers| && !s.timers[r.timer].status.Aborted?)
  {
    RunKeeps(states, n);
    CountSplits(states[n].timers, states[n].handled, p);
  }

  /** An aborted timer stays aborted, so it never posts a removal afterwards. */
  lemma {:induction false} AbortedForever(states: seq<Control>, n: nat, m: nat, i: nat)
    requires Run(states) && n <= m < |states|
    requires i < |states[n].timers| && states[n].timers[i].status.Aborted?
    ensures i < |states[m].timers| && states[m].timers[i].status.Aborted?
    ensures forall r :: r in states[m].posted ==> r.timer != i
  {
    RunKeeps(states, m);
    if n < m {
      AbortedForever(states, n, m - 1, i);
      assert StepAt(states, m - 1);
      AbortedStays(states[m - 1], states[m], i);
    }
  }

  lemma AbortedStays(s: Control, s': Control, i: nat)
    requires Next(s, s') && i < |s.timers| && s.timers[i].status.Aborted?
    ensures i < |s'.timers| && s'.timers[i].status.Aborted?
  {
  }

  /** A path in `tasks` has its own timer live or its own Expire under way, so nothing is left over
      once mailbox and timers are drained. */
  lemma NoLeakedTasks(states: seq<Control>, n: nat)
    requires Run(states) && n < |states|
    ensures forall p :: p in states[n].tasks ==>
              Accounted(states[n], states[n].tasks[p]) && states[n].timers[states[n].tasks[p]].path == p
    ensures Drained(states[n]) ==> states[n].tasks == map[]
  {
    RunKeeps(states, n);
  }

  // ---------- draining ends ----------

  ghost function MailWork(mailbox: seq<Message>): nat {
    if mailbox == [] then 0
    else MailWork(mailbox[..|mailbox| - 1]) + if mailbox[|mailbox| - 1].From? then 5 else 1
  }

  ghost function TimerWork(timers: seq<Timer>): nat {
    if timers == [] then 0
    else
      TimerWork(timers[..|timers| - 1]) +
      match timers[|timers| - 1].status case Sleeping => 3 case Posting => 2 case _ => 0
  }

  ghost function Work(s: Control): nat {
    MailWork(s.mailbox) + TimerWork(s.timers) + if s.inserting.Some? then 1 else 0
  }

  lemma {:induction false} TimerWorkUpdate(timers: seq<Timer>, i: nat, x: Timer)
    requires i < |timers|
    ensures TimerWork(timers[i := x]) + TimerWork([timers[i]]) == TimerWork(timers) + TimerWork([x])
  {
    var front := timers[..|timers| - 1];
    assert [timers[i]][..0] == [] && [x][..0] == [];
    if i == |front| {
      assert timers[i := x][..|front|] == front;
    } else {
      TimerWorkUpdate(front, i, x);
      assert timers[i := x][..|front|] == front[i := x];
    }
  }

  lemma {:induction false} MailWorkTail(mailbox: seq<Message>)
    requires mailbox != []
    ensures MailWork(mailbox) == MailWork(mailbox[1..]) + if mailbox[0].From? then 5 else 1
  {
    if |mailbox| > 1 {
      MailWorkTail(mailbox[..|mailbox| - 1]);
      assert mailbox[..|mailbox| - 1][1..] == mailbox[1..][..|mailbox| - 2];
    } else {
      assert mailbox[..0] == [] == mailbox[1..];
    }
  }

  /** Every internal step leaves less work, and while the system is not drained some step is possible. */
  lemma DrainsAway(s: Control, s': Control)
    requires Inv(s)
    ensures Internal(s, s') ==> Work(s') < Work(s)
    ensures !Drained(s) ==> exists next :: Internal(s, next)
  {
    if s.mailbox != [] && s.inserting.None? {
      MailWorkTail(s.mailbox);
      ReceiveWork(s);
      assert Internal(s, Receive(s));
    }
    if s.inserting.Some? {
      assert Internal(s, Insert(s));
    }
    forall i: nat | i < |s.timers|
      ensures s.timers[i].status.Sleeping? ==> Work(Wake(s, i)) < Work(s) && Internal(s, Wake(s, i))
      ensures s.timers[i].status.Posting? ==> Work(Finish(s, i)) < Work(s) && Internal(s, Finish(s, i))
    {
      TimerStepWork(s, i);
    }
  }

  lemma TimerStepWork(s: Control, i: nat)
    requires i < |s.timers|
    ensures s.timers[i].status.Sleeping? ==> Work(Wake(s, i)) < Work(s)
    ensures s.timers[i].status.Posting? ==> Work(Finish(s, i)) < Work(s)
  {
    TimerWorkUpdate(s.timers, i, s.timers[i].(status := Posting));
    TimerWorkUpdate(s.timers, i, s.timers[i].(status := Finished));
    assert [s.timers[i]][..0] == [];
    assert forall x: Timer :: [x][..0] == [];
    assert (s.mailbox + [Expire(s.timers[i].path, i)])[..|s.mailbox|] == s.mailbox;
  }

  lemma ReceiveWork(s: Control)
    requires Inv(s) && s.mailbox != [] && s.inserting.None?
    ensures Work(Receive(s)) < Work(s)
  {
    MailWorkTail(s.mailbox);
    match s.mailbox[0]
    case From(path) =>
      assert Receive(s).timers[..|s.timers|] == s.timers;
    case Decline(path) =>
      if path in s.tasks && s.timers[s.tasks[path]].status.Sleeping? {
        var i := s.tasks[path];
        TimerWorkUpdate(s.timers, i, s.timers[i].(status := Aborted));
        assert [s.timers[i]][..0] == [] && [s.timers[i].(status := Aborted)][..0] == [];
      }
    case Expire(_, _) =>
  }

  // ---------- what declining a path achieves ----------

  /** A sleeping timer of the path that its handle does not lead to. */
  ghost predicate Astray(s: Control, p: Path, i: nat) {
    i < |s.timers| && s.timers[i] == Timer(p, Sleeping) && !(p in s.tasks && s.tasks[p] == i)
  }

  ghost predicate SomeAstray(s: Control, p: Path) {
    exists i: nat :: Astray(s, p, i)
  }

  ghost predicate Asleep(timers: seq<Timer>, p: Path) {
    exists i :: 0 <= i < |timers| && timers[i] == Timer(p, Sleeping)
  }

  ghost predicate Declined(s: Control, s': Control, p: Path) {
    && s.inserting.None? && s.mailbox != [] && s.mailbox[0] == Decline(p)
    && (forall q :: q in s.tasks ==> s.tasks[q] < |s.timers|) && s' == Receive(s)
  }

  /** Declining a path calls off its newest timer, if the handle still leads to it and it sleeps, and no
      other: no timer of the path sleeps on exactly if none was astray. */
  lemma DeclineLeaves(s: Control, s': Control, p: Path)
    requires Inv(s) && Declined(s, s', p)
    ensures Asleep(s'.timers, p) <==> SomeAstray(s, p)
    ensures |s'.timers| == |s.timers|
    ensures forall i: nat :: i < |s.timers| ==> (s'.timers[i] == Timer(p, Sleeping) <==> Astray(s, p, i))
    ensures p in s.tasks ==> forall i :: s.tasks[p] < i < |s.timers| ==> s.timers[i].path != p
    ensures s'.handled == s.handled && s'.posted == s.posted
  {
    assert p in s.tasks ==> s.timers[s.tasks[p]].path == p;
    forall i: nat | i < |s.timers|
      ensures s'.timers[i] == Timer(p, Sleeping) <==> Astray(s, p, i)
    {
    }
    if i: nat :| Astray(s, p, i) {
      assert s'.timers[i] == Timer(p, Sleeping);
    }
  }

  ghost function Last(states: seq<Control>): Control
    requires states != []
  {
    states[|states| - 1]
  }

  /** A removal of the path has been posted in between, although no From of it was handled. */
  ghost predicate Reported(s: Control, s': Control, p: Path) {
    CountPaths(s.handled, p) == CountPaths(s'.handled, p) && CountRemovals(s.posted, p) < CountRemovals(s'.posted, p)
  }

  /** Unless a From of the path has been handled in between, its timers do not sleep and nothing is reported. */
  ghost predicate QuietSince(s: Control, s': Control, p: Path) {
    && CountPaths(s.handled, p) <= CountPaths(s'.handled, p)
    && (CountPaths(s.handled, p) == CountPaths(s'.handled, p) ==>
          !Asleep(s'.timers, p) && CountRemovals(s.posted, p) == CountRemovals(s'.posted, p))
  }

  /** A step without a new timer of a path whose timers do not sleep. */
  lemma QuietStep(s: Control, s': Control, p: Path)
    requires Next(s, s') && !Asleep(s.timers, p)
    ensures QuietSince(s, s', p)
  {
    assert forall i :: 0 <= i < |s.timers| ==> s.timers[i] != Timer(p, Sleeping);
    if Sent(s, s') {
    } else if s.mailbox != [] && s.inserting.None? && (forall q :: q in s.tasks ==> s.tasks[q] < |s.timers|) && s' == Receive(s) {
      QuietReceive(s, p);
    } else if s.inserting.Some? && s.inserting.value < |s.timers| && s' == Insert(s) {
    } else if i: nat :| i < |s.timers| && s.timers[i].status.Sleeping? && s' == Wake(s, i) {
      assert s'.posted[..|s.posted|] == s.posted;
      assert s.timers[i].path != p;
    }
  }

  lemma QuietReceive(s: Control, p: Path)
    requires s.mailbox != [] && s.inserting.None? && (forall q :: q in s.tasks ==> s.tasks[q] < |s.timers|)
    requires forall i :: 0 <= i < |s.timers| ==> s.timers[i] != Timer(p, Sleeping)
    ensures CountPaths(s.handled, p) <= CountPaths(Receive(s).handled, p)
    ensures CountPaths(Receive(s).handled, p) == CountPaths(s.handled, p) ==> !Asleep(Receive(s).timers, p)
  {
    match s.mailbox[0]
    case From(path) => assert (s.handled + [path])[..|s.handled|] == s.handled;
    case _ =>
  }

  lemma HandledGrows(s: Control, s': Control, p: Path)
    requires Next(s, s')
    ensures CountPaths(s.handled, p) <= CountPaths(s'.handled, p)
  {
    if s'.handled != s.handled {
      assert s'.handled[..|s.handled|] == s.handled;
    }
  }

  lemma QuietOn(s0: Control, s: Control, s': Control, p: Path)
    requires QuietSince(s0, s, p) && Next(s, s')
    ensures QuietSince(s0, s', p)
  {
    HandledGrows(s, s', p);
    if !Asleep(s.timers, p) {
      QuietStep(s, s', p);
    }
  }

  lemma {:induction false} QuietRun(states: seq<Control>, n: nat, m: nat, p: Path)
    requires Run(states) && n <= m < |states| && !Asleep(states[n].timers, p)
    ensures QuietSince(states[n], states[m], p)
  {
    if n < m {
      QuietRun(states, n, m - 1, p);
      assert StepAt(states, m - 1);
      QuietOn(states[n], states[m - 1], states[m], p);
    }
  }

  ghost predicate GoesOn(states: seq<Control>, longer: seq<Control>) {
    Run(longer) && states <= longer
  }

  /** Some way on reports the path as removed without a new From of it. */
  ghost predicate CanReport(states: seq<Control>, p: Path)
    requires states != []
  {
    exists longer :: GoesOn(states, longer) && Reported(Last(states), Last(longer), p)
  }

  lemma SleeperReports(states: seq<Control>, p: Path)
    requires Run(states) && Asleep(Last(states).timers, p)
    ensures CanReport(states, p)
  {
    var s := Last(states);
    var i: nat :| i < |s.timers| && s.timers[i] == Timer(p, Sleeping);
    var s' := Wake(s, i);
    var longer := RunOn(states, s');
    assert s'.posted[..|s.posted|] == s.posted;
    assert GoesOn(states, longer) && Reported(s, Last(longer), p);
  }

  lemma WakefulIsQuiet(states: seq<Control>, longer: seq<Control>, p: Path)
    requires states != [] && GoesOn(states, longer) && !Asleep(Last(states).timers, p)
    ensures !Reported(Last(states), Last(longer), p)
  {
    assert longer[|states| - 1] == Last(states);
    QuietRun(longer, |states| - 1, |longer| - 1, p);
  }

  /** Once a Decline has been handled, some way on still reports its path as removed, without a new From
      of it, exactly if some sleeping timer of the path was not the one its handle led to. */
  lemma DeclineExact(states: seq<Control>, s': Control, p: Path)
    requires Run(states) && Declined(Last(states), s', p)
    ensures Run(states + [s'])
    ensures CanReport(states + [s'], p) <==> SomeAstray(Last(states), p)
  {
    RunKeeps(states, |states| - 1);
    DeclineLeaves(Last(states), s', p);
    var declined := RunOn(states, s');
    assert Last(states + [s']) == s';
    if Asleep(s'.timers, p) {
      SleeperReports(states + [s'], p);
    } else {
      forall longer | GoesOn(states + [s'], longer)
        ensures !Reported(s', Last(longer), p)
      {
        WakefulIsQuiet(states + [s'], longer, p);
      }
    }
  }

  lemma RunOn(states: seq<Control>, s: Control) returns (longer: seq<Control>)
    requires Run(states) && Next(states[|states| - 1], s)
    ensures Run(longer) && longer[|longer| - 1] == s && longer == states + [s]
  {
    longer := states + [s];
    forall i: nat | i < |longer| - 1
      ensures StepAt(longer, i)
    {
      assert i < |states| - 1 ==> StepAt(states, i);
    }
  }

  /** A first timer for the path wakes up and posts its removal while a second From is waiting. */
  lemma MovedTwice(p: Path) returns (states: seq<Control>)
    ensures Run(states)
    ensures states[|states| - 1] ==
            Control([From(p), Expire(p, 0)], None, map[p := 0], [Timer(p, Finished)], [p], [Removal(p, 0)])
  {
    var s1 := Control([From(p)], None, map[], [], [], []);
    assert s1 == START.(mailbox := START.mailbox + [From(p)]);
    states := RunOn([START], s1);
    var s2 := Control([], Some(0), map[], [Timer(p, Sleeping)], [p], []);
    assert s2 == Receive(s1);
    states := RunOn(states, s2);
    var s3 := Control([], None, map[p := 0], [Timer(p, Sleeping)], [p], []);
    assert s3 == Insert(s2);
    states := RunOn(states, s3);
    var s4 := Control([From(p)], None, map[p := 0], [Timer(p, Sleeping)], [p], []);
    assert s4 == s3.(mailbox := s3.mailbox + [From(p)]);
    states := RunOn(states, s4);
    var s5 := Control([From(p)], None, map[p := 0], [Timer(p, Posting)], [p], [Removal(p, 0)]);
    assert s5 == Wake(s4, 0);
    states := RunOn(states, s5);
    var s6 := Control([From(p), Expire(p, 0)], None, map[p := 0], [Timer(p, Finished)], [p], [Removal(p, 0)]);
    assert s6 == Finish(s5, 0);
    states := RunOn(states, s6);
  }

  /** A path moved away twice: the first timer's Expire drops the handle of the second, and the
      second timer can no longer be called off. */
  lemma StaleExpire(p: Path) returns (states: seq<Control>)
    ensures Run(states)
    ensures var s := states[|states| - 1];
            && s.mailbox == [Decline(p)] && s.inserting.None? && |s.timers| == 2
            && s.timers[1] == Timer(p, Sleeping) && s.tasks == map[] && Astray(s, p, 1)
  {
    states := MovedTwice(p);
    var s6, timers, r := states[|states| - 1], [Timer(p, Finished), Timer(p, Sleeping)], [Removal(p, 0)];
    var s7 := Control([Expire(p, 0)], Some(1), map[p := 0], timers, [p, p], r);
    assert s7 == Receive(s6);
    states := RunOn(states, s7);
    var s8 := Control([Expire(p, 0)], None, map[p := 1], timers, [p, p], r);
    assert s8 == Insert(s7);
    states := RunOn(states, s8);
    var s9 := Control([], None, map[], timers, [p, p], r);
    assert s9 == Receive(s8);
    states := RunOn(states, s9);
    var s10 := Control([Decline(p)], None, map[], timers, [p, p], r);
    assert s10 == s9.(mailbox := s9.mailbox + [Decline(p)]);
    states := RunOn(states, s10);
  }

  /** A path moved away twice and declined once: the handle leads to the second timer, the first one
      sleeps on and reports the path as removed. */
  lemma OlderTimer(p: Path) returns (states: seq<Control>)
    ensures Run(states)
    ensures var s := states[|states| - 1];
            && s.mailbox == [Decline(p)] && s.inserting.None? && s.tasks == map[p := 1]
            && s.timers == [Timer(p, Sleeping), Timer(p, Sleeping)] && Astray(s, p, 0)
  {
    var t1, t2 := [Timer(p, Sleeping)], [Timer(p, Sleeping), Timer(p, Sleeping)];
    var s1 := Control([From(p)], None, map[], [], [], []);
    assert s1 == START.(mailbox := START.mailbox + [From(p)]);
    states := RunOn([START], s1);
    var s2 := Control([], Some(0), map[], t1, [p], []);
    assert s2 == Receive(s1);
    states := RunOn(states, s2);
    var s3 := Control([], None, map[p := 0], t1, [p], []);
    assert s3 == Insert(s2);
    states := RunOn(states, s3);
    var s4 := Control([From(p)], None, map[p := 0], t1, [p], []);
    assert s4 == s3.(mailbox := s3.mailbox + [From(p)]);
    states := RunOn(states, s4);
    var s5 := Control([], Some(1), map[p := 0], t2, [p, p], []);
    assert s5 == Receive(s4);
    states := RunOn(states, s5);
    var s6 := Control([], None, map[p := 1], t2, [p, p], []);
    assert s6 == Insert(s5);
    states := RunOn(states, s6);
    var s7 := Control([Decline(p)], None, map[p := 1], t2, [p, p], []);
    assert s7 == s6.(mailbox := s6.mailbox + [Decline(p)]);
    states := RunOn(states, s7);
  }
}
