/** The lease protocol on the shared SQLite connection, as interleaved steps of threads over
    one re-entrant lock.  A statement with a result set keeps the lock, through its cursor,
    until the cursor's first use; every other operation holds it for its own duration.
    Threads use only cursors they created. */
module SharedConnection {
  import opened Wrappers

  type Thread = nat
  type CursorId = nat

  /** What happens on the connection, in the order in which it happens. */
  datatype Event =
    | Executed(thread: Thread, cursor: CursorId, rows: bool)
    | Used(thread: Thread, cursor: CursorId)      // fetch, close, next or leaving a `with`
    | Statement(thread: Thread)                   // commit, rollback, a failed or retried attempt
    | LeaseEnded(thread: Thread, cursor: CursorId, dropped: bool)

  datatype Cursor = Cursor(owner: Thread, rows: bool, leased: bool)

  /** What runs inside a `with lock` block. */
  datatype Op = Execute | Use(cursor: CursorId) | Exit(cursor: CursorId) | Plain

  datatype Pc =
    | Idle
    | Inside(op: Op)                              // the block is entered
    | Leaving(release: Option<CursorId>)          // its work is done
    | Releasing(cursor: CursorId)                 // about to give up a lease

  datatype State = State(owner: Option<Thread>, depth: nat, pcs: map<Thread, Pc>, cursors: map<CursorId, Cursor>, log: seq<Event>)

  const Initial := State(None, 0, map[], map[], [])

  function At(s: State, t: Thread): Pc { if t in s.pcs then s.pcs[t] else Idle }

  function Leased(s: State): set<CursorId> {
    set c | c in s.cursors && s.cursors[c].leased
  }

  predicate Owns(s: State, t: Thread, c: CursorId) { c in s.cursors && s.cursors[c].owner == t }

  // -------------------------------------------------------------------- the lock

  predicate CanAcquire(s: State, t: Thread) { s.owner == None || s.owner == Some(t) }

  function Acquire(s: State, t: Thread): State { s.(owner := Some(t), depth := s.depth + 1) }

  function Unlock(s: State): State
    requires s.depth > 0
  {
    s.(depth := s.depth - 1, owner := if s.depth == 1 then None else s.owner)
  }

  function Goto(s: State, t: Thread, pc: Pc): State { s.(pcs := s.pcs[t := pc]) }

  function Log(s: State, e: Event): State { s.(log := s.log + [e]) }

  /** `_release_lease`: the flag first, then the lock. */
  function EndLease(s: State, t: Thread, c: CursorId, dropped: bool): State
    requires s.depth > 0 && c in s.cursors
  {
    Unlock(Log(s.(cursors := s.cursors[c := s.cursors[c].(leased := false)]), LeaseEnded(t, c, dropped)))
  }

  // ------------------------------------------------------------------- the steps

  datatype Step =
    | Enter(t: Thread, op: Op)
    | Attempt(t: Thread)                                     // execute fails and is retried
    | Fail(t: Thread)                                        // execute fails for good
    | Create(t: Thread, c: CursorId, rows: bool)             // execute succeeds
    | Work(t: Thread)                                        // the work of any other block
    | Leave(t: Thread)
    | UseLeased(t: Thread, c: CursorId)
    | Release(t: Thread)
    | Drop(t: Thread, c: CursorId)                           // the cursor is discarded unfetched

  predicate Enabled(s: State, step: Step) {
    match step
    case Enter(t, op) =>
      At(s, t) == Idle && CanAcquire(s, t)
      && (op.Use? ==> Owns(s, t, op.cursor) && !s.cursors[op.cursor].leased)
      && (op.Exit? ==> Owns(s, t, op.cursor))
    case Attempt(t) => At(s, t) == Inside(Execute)
    case Fail(t) => At(s, t) == Inside(Execute)
    case Create(t, c, rows) => At(s, t) == Inside(Execute) && c !in s.cursors
    case Work(t) => At(s, t).Inside? && !At(s, t).op.Execute?
    case Leave(t) => At(s, t).Leaving? && s.depth > 0
    case UseLeased(t, c) => At(s, t) == Idle && Owns(s, t, c) && s.cursors[c].leased
    case Release(t) => At(s, t).Releasing? && At(s, t).cursor in s.cursors && s.depth > 0
    case Drop(t, c) => At(s, t) == Idle && Owns(s, t, c) && s.cursors[c].leased && s.depth > 0
  }

  function Do(s: State, step: Step): State
    requires Enabled(s, step)
  {
    match step
    case Enter(t, op) => Goto(Acquire(s, t), t, Inside(op))
    case Attempt(t) => Log(s, Statement(t))
    case Fail(t) => Goto(Log(s, Statement(t)), t, Leaving(None))
    case Create(t, c, rows) =>
      var created := Goto(Log(s.(cursors := s.cursors[c := Cursor(t, rows, rows)]), Executed(t, c, rows)), t, Leaving(None));
      if rows then Acquire(created, t) else created
    case Work(t) =>
      (match At(s, t).op
       case Use(c) => Goto(Log(s, Used(t, c)), t, Leaving(None))
       case Exit(c) => Goto(Log(s, Used(t, c)), t, Leaving(Some(c)))
       case _ => Goto(Log(s, Statement(t)), t, Leaving(None)))
    case Leave(t) =>
      var release := At(s, t).release;
      Goto(Unlock(s), t, if release.Some? && release.value in s.cursors && s.cursors[release.value].leased
                         then Releasing(release.value) else Idle)
    case UseLeased(t, c) => Goto(Log(s, Used(t, c)), t, Releasing(c))
    case Release(t) => Goto(EndLease(s, t, At(s, t).cursor, false), t, Idle)
    case Drop(t, c) => EndLease(s, t, c, true)
  }

  /** The state after an interleaving of the threads' steps, if every step was possible. */
  function Run(steps: seq<Step>): Option<State> {
    if steps == [] then Some(Initial)
    else
      match Run(steps[..|steps| - 1])
      case None => None
      case Some(s) => if Enabled(s, steps[|steps| - 1]) then Some(Do(s, steps[|steps| - 1])) else None
  }

  // ---------------------------------------------------------------------- invariants

  predicate InBlock(pc: Pc) { pc.Inside? || pc.Leaving? }

  /** The owner's open critical sections. */
  function OpenBlocks(s: State): nat {
    if s.owner.Some? && InBlock(At(s, s.owner.value)) then 1 else 0
  }

  /** The cursor a thread is in the middle of using. */
  predicate PcSound(s: State, t: Thread) {
    match At(s, t)
    case Idle => true
    case Inside(op) => s.owner == Some(t) && (op.Use? || op.Exit? ==> Owns(s, t, op.cursor))
    case Leaving(release) => s.owner == Some(t) && (release.Some? ==> Owns(s, t, release.value))
    case Releasing(c) => s.owner == Some(t) && Owns(s, t, c) && s.cursors[c].leased
  }

  /** Lock depth is the number of outstanding leases plus the owner's open blocks; whoever
      has a lease or is at work is the owner. */
  ghost predicate LockInv(s: State) {
    && s.depth == |Leased(s)| + OpenBlocks(s)
    && (s.owner == None <==> s.depth == 0)
    && (forall c: CursorId :: c in s.cursors && s.cursors[c].leased ==> s.owner == Some(s.cursors[c].owner))
    && (forall t: Thread :: PcSound(s, t))
  }

  lemma LeasedAdd(s: State, c: CursorId, cursor: Cursor)
    requires c !in s.cursors
    ensures |Leased(s.(cursors := s.cursors[c := cursor]))| == |Leased(s)| + if cursor.leased then 1 else 0
  {
    var s' := s.(cursors := s.cursors[c := cursor]);
    assert Leased(s') == Leased(s) + if cursor.leased then {c} else {};
  }

  lemma LeasedEnd(s: State, c: CursorId)
    requires c in s.cursors && s.cursors[c].leased
    ensures |Leased(s.(cursors := s.cursors[c := s.cursors[c].(leased := false)]))| == |Leased(s)| - 1
  {
    var s' := s.(cursors := s.cursors[c := s.cursors[c].(leased := false)]);
    assert Leased(s') == Leased(s) - {c};
  }

  lemma SameLeases(s: State, s': State)
    requires s.cursors == s'.cursors
    ensures Leased(s) == Leased(s')
  {
  }

  lemma LeaseHasOwner(s: State, c: CursorId)
    requires LockInv(s) && c in s.cursors && s.cursors[c].leased
    ensures s.depth > 0 && s.owner == Some(s.cursors[c].owner)
  {
    assert c in Leased(s);
  }

  lemma CreateKeepsLock(s: State, t: Thread, c: CursorId, rows: bool)
    requires LockInv(s) && Enabled(s, Create(t, c, rows))
    ensures LockInv(Do(s, Create(t, c, rows)))
  {
    var s' := Do(s, Create(t, c, rows));
    LeasedAdd(s, c, Cursor(t, rows, rows));
    SameLeases(s', s.(cursors := s.cursors[c := Cursor(t, rows, rows)]));
    assert PcSound(s, t);
    forall u: Thread ensures PcSound(s', u) { assert PcSound(s, u); }
  }

  lemma EndKeepsLock(s: State, t: Thread, c: CursorId, dropped: bool)
    requires LockInv(s) && Owns(s, t, c) && s.cursors[c].leased && s.depth > 0
    requires At(s, t) == Idle || At(s, t) == Releasing(c)
    ensures LockInv(Goto(EndLease(s, t, c, dropped), t, Idle))
  {
    var s' := Goto(EndLease(s, t, c, dropped), t, Idle);
    LeasedEnd(s, c);
    SameLeases(s', s.(cursors := s.cursors[c := s.cursors[c].(leased := false)]));
    LeaseHasOwner(s, c);
    forall u: Thread ensures PcSound(s', u) { assert PcSound(s, u); }
    forall d: CursorId | d in s'.cursors && s'.cursors[d].leased ensures s'.owner == Some(s'.cursors[d].owner) {
      assert d in s.cursors && s.cursors[d].leased;
      assert d in Leased(s');
    }
  }

  lemma LeaveKeepsLock(s: State, t: Thread)
    requires LockInv(s) && Enabled(s, Leave(t))
    ensures LockInv(Do(s, Leave(t)))
  {
    var s' := Do(s, Leave(t));
    assert PcSound(s, t);
    SameLeases(s, s');
    forall u: Thread ensures PcSound(s', u) {
      assert PcSound(s, u);
      if At(s', u).Releasing? { assert At(s', u).cursor in Leased(s); }
    }
    forall d: CursorId | d in s'.cursors && s'.cursors[d].leased ensures s'.owner == Some(s'.cursors[d].owner) {
      assert d in Leased(s);
    }
  }

  /** Every step keeps the lock invariant. */
  lemma StepKeepsLock(s: State, step: Step)
    requires LockInv(s) && Enabled(s, step)
    ensures LockInv(Do(s, step))
  {
    var s' := Do(s, step);
    assert PcSound(s, step.t);
    match step
    case Create(t, c, rows) => CreateKeepsLock(s, t, c, rows);
    case Release(t) => EndKeepsLock(s, t, At(s, t).cursor, false);
    case Drop(t, c) =>
      EndKeepsLock(s, t, c, true);
      DropSame(s, t, c);
    case Leave(t) => LeaveKeepsLock(s, t);
    case UseLeased(t, c) =>
      LeaseHasOwner(s, c);
      SameLeases(s, s');
      forall u: Thread ensures PcSound(s', u) { assert PcSound(s, u); }
    case Enter(t, op) =>
      SameLeases(s, s');
      forall u: Thread ensures PcSound(s', u) { assert PcSound(s, u); }
    case Attempt(t) =>
      SameLeases(s, s');
      forall u: Thread ensures PcSound(s', u) { assert PcSound(s, u); }
    case Fail(t) =>
      SameLeases(s, s');
      forall u: Thread ensures PcSound(s', u) { assert PcSound(s, u); }
    case Work(t) =>
      SameLeases(s, s');
      forall u: Thread ensures PcSound(s', u) { assert PcSound(s, u); }
  }

  lemma DropSame(s: State, t: Thread, c: CursorId)
    requires Enabled(s, Drop(t, c)) && LockInv(Goto(EndLease(s, t, c, true), t, Idle))
    ensures LockInv(EndLease(s, t, c, true))
  {
    var a, b := EndLease(s, t, c, true), Goto(EndLease(s, t, c, true), t, Idle);
    SameLeases(a, b);
    forall u: Thread ensures At(a, u) == At(b, u) {}
    forall u: Thread ensures PcSound(a, u) { assert PcSound(b, u); }
  }

  // ------------------------------------------------------------------ what the log shows

  function Ends(log: seq<Event>, c: CursorId): nat {
    if log == [] then 0 else
      var last := log[|log| - 1];
      Ends(log[..|log| - 1], c) + (if last.LeaseEnded? && last.cursor == c then 1 else 0)
  }

  predicate EndOf(e: Event, c: CursorId) { e.LeaseEnded? && e.cursor == c }

  /** The lease of the cursor created at `i` ends before position `k`. */
  ghost predicate EndedWithin(log: seq<Event>, i: nat, k: nat)
    requires i < k <= |log| && log[i].Executed?
  {
    exists j :: i < j < k && EndOf(log[j], log[i].cursor)
  }

  predicate Recorded(s: State, e: Event) {
    e.Executed? ==> Owns(s, e.thread, e.cursor) && s.cursors[e.cursor].rows == e.rows
  }

  /** Another thread's event after a result-bearing execute comes after the end of its lease. */
  ghost predicate Exclusive(log: seq<Event>) {
    forall i, k :: 0 <= i < k < |log| && log[i].Executed? && log[i].rows && log[k].thread != log[i].thread
      ==> EndedWithin(log, i, k)
  }

  /** A lease that is not dropped with its cursor ends right after a use of the cursor. */
  ghost predicate EndsFollowUses(log: seq<Event>) {
    forall j :: 0 <= j < |log| && log[j].LeaseEnded? && !log[j].dropped
      ==> j > 0 && log[j - 1] == Used(log[j].thread, log[j].cursor)
  }

  /** The lease of `c` has ended as often as it was taken and given up: once, or not yet. */
  predicate Balanced(s: State, c: CursorId) {
    Ends(s.log, c) == if c in s.cursors && s.cursors[c].rows && !s.cursors[c].leased then 1 else 0
  }

  predicate LastUse(s: State, t: Thread) {
    match At(s, t)
    case Releasing(c) => s.log != [] && s.log[|s.log| - 1] == Used(t, c)
    case Leaving(Some(c)) => s.log != [] && s.log[|s.log| - 1] == Used(t, c)
    case _ => true
  }

  ghost predicate LogInv(s: State) {
    && (forall i :: 0 <= i < |s.log| ==> Recorded(s, s.log[i]))
    && (forall i :: 0 <= i < |s.log| && s.log[i].Executed? && s.log[i].rows && !s.cursors[s.log[i].cursor].leased
          ==> EndedWithin(s.log, i, |s.log|))
    && (forall c: CursorId :: c in s.cursors && s.cursors[c].leased ==> s.cursors[c].rows)
    && (forall c: CursorId :: Balanced(s, c))
    && (forall t: Thread :: LastUse(s, t))
    && Exclusive(s.log)
    && EndsFollowUses(s.log)
  }

  lemma EndedLater(log: seq<Event>, e: Event, i: nat, k: nat)
    requires i < k <= |log| && log[i].Executed? && EndedWithin(log, i, k)
    ensures EndedWithin(log + [e], i, k) && EndedWithin(log + [e], i, |log| + 1)
  {
    var j :| i < j < k && EndOf(log[j], log[i].cursor);
    assert EndOf((log + [e])[j], log[i].cursor);
  }

  /** The lock's owner may log: every other thread's lease has ended. */
  lemma OwnerLogs(s: State, e: Event)
    requires LockInv(s) && LogInv(s) && s.owner == Some(e.thread)
    ensures Exclusive(s.log + [e])
  {
    var log := s.log + [e];
    forall i, k | 0 <= i < k < |log| && log[i].Executed? && log[i].rows && log[k].thread != log[i].thread
      ensures EndedWithin(log, i, k)
    {
      assert Recorded(s, s.log[i]);
      if k < |s.log| {
        EndedLater(s.log, e, i, k);
      } else {
        EndedLater(s.log, e, i, |s.log|);
      }
    }
  }

  /** Logging an event that neither creates a cursor nor ends a lease. */
  lemma PlainEventKeepsLog(s: State, s': State, e: Event)
    requires LockInv(s) && LogInv(s) && s.owner == Some(e.thread) && (e.Used? || e.Statement?)
    requires s'.log == s.log + [e] && s'.cursors == s.cursors
    requires forall t: Thread :: LastUse(s', t)
    ensures LogInv(s')
  {
    OwnerLogs(s, e);
    forall i | 0 <= i < |s'.log| ensures Recorded(s', s'.log[i]) {
      if i < |s.log| { assert Recorded(s, s.log[i]); }
    }
    forall i | 0 <= i < |s'.log| && s'.log[i].Executed? && s'.log[i].rows && !s'.cursors[s'.log[i].cursor].leased
      ensures EndedWithin(s'.log, i, |s'.log|)
    {
      EndedLater(s.log, e, i, |s.log|);
    }
    forall c: CursorId ensures Balanced(s', c) { assert Balanced(s, c); }
    forall j | 0 <= j < |s'.log| && s'.log[j].LeaseEnded? && !s'.log[j].dropped
      ensures j > 0 && s'.log[j - 1] == Used(s'.log[j].thread, s'.log[j].cursor)
    {
      assert s.log[j].LeaseEnded?;
    }
  }

  lemma CreateKeepsLog(s: State, t: Thread, c: CursorId, rows: bool)
    requires LockInv(s) && LogInv(s) && Enabled(s, Create(t, c, rows))
    ensures LogInv(Do(s, Create(t, c, rows)))
  {
    var s' := Do(s, Create(t, c, rows));
    var e := Executed(t, c, rows);
    assert PcSound(s, t);
    assert s'.log == s.log + [e];
    OwnerLogs(s, e);
    forall i | 0 <= i < |s'.log| ensures Recorded(s', s'.log[i]) {
      if i < |s.log| { assert Recorded(s, s.log[i]); }
    }
    forall i | 0 <= i < |s'.log| && s'.log[i].Executed? && s'.log[i].rows && !s'.cursors[s'.log[i].cursor].leased
      ensures EndedWithin(s'.log, i, |s'.log|)
    {
      assert Recorded(s, s.log[i]);
      EndedLater(s.log, e, i, |s.log|);
    }
    forall d: CursorId ensures Balanced(s', d) { assert Balanced(s, d); }
    forall u: Thread ensures LastUse(s', u) {
      if u != t { OthersAreIdle(s, t, u); }
    }
    forall j | 0 <= j < |s'.log| && s'.log[j].LeaseEnded? && !s'.log[j].dropped
      ensures j > 0 && s'.log[j - 1] == Used(s'.log[j].thread, s'.log[j].cursor)
    {
      assert s.log[j].LeaseEnded?;
    }
  }

  lemma OthersAreIdle(s: State, t: Thread, u: Thread)
    requires LockInv(s) && s.owner == Some(t) && u != t
    ensures At(s, u) == Idle
  {
    assert PcSound(s, u);
  }

  lemma EndFollowsUse(s: State, t: Thread, c: CursorId, dropped: bool)
    requires LogInv(s) && (dropped || At(s, t) == Releasing(c))
    ensures EndsFollowUses(s.log + [LeaseEnded(t, c, dropped)])
  {
    var log := s.log + [LeaseEnded(t, c, dropped)];
    assert LastUse(s, t);
    forall j | 0 <= j < |log| && log[j].LeaseEnded? && !log[j].dropped
      ensures j > 0 && log[j - 1] == Used(log[j].thread, log[j].cursor)
    {
      if j < |s.log| { assert s.log[j].LeaseEnded?; }
    }
  }

  lemma EndedAtLast(s: State, t: Thread, c: CursorId, dropped: bool, i: nat)
    requires LogInv(s) && c in s.cursors
    requires i < |s.log| && s.log[i].Executed? && s.log[i].rows
    requires s.log[i].cursor == c || !s.cursors[s.log[i].cursor].leased
    ensures EndedWithin(s.log + [LeaseEnded(t, c, dropped)], i, |s.log| + 1)
  {
    var e := LeaseEnded(t, c, dropped);
    assert Recorded(s, s.log[i]);
    if s.log[i].cursor == c {
      assert EndOf((s.log + [e])[|s.log|], c);
    } else {
      EndedLater(s.log, e, i, |s.log|);
    }
  }

  lemma EndKeepsLog(s: State, t: Thread, c: CursorId, dropped: bool)
    requires LockInv(s) && LogInv(s)
    requires Owns(s, t, c) && s.cursors[c].leased && s.depth > 0
    requires if dropped then At(s, t) == Idle else At(s, t) == Releasing(c)
    ensures LogInv(Goto(EndLease(s, t, c, dropped), t, Idle))
  {
    var s' := Goto(EndLease(s, t, c, dropped), t, Idle);
    var e := LeaseEnded(t, c, dropped);
    LeaseHasOwner(s, c);
    OwnerLogs(s, e);
    EndFollowsUse(s, t, c, dropped);
    forall i | 0 <= i < |s'.log| ensures Recorded(s', s'.log[i]) {
      if i < |s.log| { assert Recorded(s, s.log[i]); }
    }
    forall i | 0 <= i < |s'.log| && s'.log[i].Executed? && s'.log[i].rows && !s'.cursors[s'.log[i].cursor].leased
      ensures EndedWithin(s'.log, i, |s'.log|)
    {
      EndedAtLast(s, t, c, dropped, i);
    }
    forall d: CursorId ensures Balanced(s', d) { assert Balanced(s, d); }
    forall u: Thread ensures LastUse(s', u) {
      if u != t { OthersAreIdle(s, t, u); }
    }
  }

  /** A step that logs nothing and leaves the cursors alone. */
  lemma QuietStepKeepsLog(s: State, s': State)
    requires LogInv(s) && s'.log == s.log && s'.cursors == s.cursors
    requires forall t: Thread :: LastUse(s', t)
    ensures LogInv(s')
  {
    forall i | 0 <= i < |s'.log| ensures Recorded(s', s'.log[i]) { assert Recorded(s, s.log[i]); }
    forall c: CursorId ensures Balanced(s', c) { assert Balanced(s, c); }
  }

  lemma LastUseAfter(s: State, step: Step)
    requires LockInv(s) && LogInv(s) && Enabled(s, step) && !step.Create? && !step.Release? && !step.Drop?
    ensures forall u: Thread :: LastUse(Do(s, step), u)
  {
    var s' := Do(s, step);
    forall u: Thread ensures LastUse(s', u) {
      assert PcSound(s, step.t) && LastUse(s, step.t) && LastUse(s, u);
      if u != step.t {
        if step.UseLeased? {
          LeaseHasOwner(s, step.c);
          OthersAreIdle(s, step.t, u);
        } else if !step.Enter? {
          OthersAreIdle(s, step.t, u);
        }
      }
    }
  }

  /** Every step keeps what the log shows. */
  lemma StepKeepsLog(s: State, step: Step)
    requires LockInv(s) && LogInv(s) && Enabled(s, step)
    ensures LogInv(Do(s, step))
  {
    var s' := Do(s, step);
    assert PcSound(s, step.t);
    match step
    case Create(t, c, rows) => CreateKeepsLog(s, t, c, rows);
    case Release(t) => EndKeepsLog(s, t, At(s, t).cursor, false);
    case Drop(t, c) =>
      EndKeepsLog(s, t, c, true);
      var s1 := Goto(s', t, Idle);
      forall u: Thread ensures LastUse(s', u) { assert LastUse(s1, u); }
      QuietStepKeepsLog(s1, s');
    case Enter(t, op) => LastUseAfter(s, step); QuietStepKeepsLog(s, s');
    case Leave(t) => LastUseAfter(s, step); QuietStepKeepsLog(s, s');
    case UseLeased(t, c) =>
      LeaseHasOwner(s, c);
      LastUseAfter(s, step);
      PlainEventKeepsLog(s, s', Used(t, c));
    case Attempt(t) => LastUseAfter(s, step); PlainEventKeepsLog(s, s', Statement(t));
    case Fail(t) => LastUseAfter(s, step); PlainEventKeepsLog(s, s', Statement(t));
    case Work(t) => LastUseAfter(s, step); PlainEventKeepsLog(s, s', s'.log[|s.log|]);
  }

  // ------------------------------------------------------------------ every interleaving

  lemma {:induction false} RunIsSafe(steps: seq<Step>)
    ensures Run(steps).Some? ==> LockInv(Run(steps).value) && LogInv(Run(steps).value)
  {
    if steps == [] {
      assert Leased(Initial) == {};
    } else if Run(steps).Some? {
      RunIsSafe(steps[..|steps| - 1]);
      var s := Run(steps[..|steps| - 1]).value;
      StepKeepsLock(s, steps[|steps| - 1]);
      StepKeepsLog(s, steps[|steps| - 1]);
    }
  }

  /** In every interleaving: between a result-bearing execute and the cursor's first use,
      nothing happens on the connection that the executing thread does not do itself. */
  lemma ExecuteAndFetchAreAtomic(steps: seq<Step>, i: nat, k: nat)
    requires Run(steps).Some?
    requires var log := Run(steps).value.log; i < k < |log| && log[i].Executed? && log[i].rows
    requires var log := Run(steps).value.log; forall j :: i < j < k ==> !EndOf(log[j], log[i].cursor)
    ensures Run(steps).value.log[k].thread == Run(steps).value.log[i].thread
  {
    RunIsSafe(steps);
    var log := Run(steps).value.log;
    assert !EndedWithin(log, i, k);
  }

  /** ... and the lease ends only right after such a use, unless the cursor is discarded. */
  lemma LeaseEndsAfterUse(steps: seq<Step>, j: nat)
    requires Run(steps).Some?
    requires var log := Run(steps).value.log; j < |log| && log[j].LeaseEnded? && !log[j].dropped
    ensures var log := Run(steps).value.log; j > 0 && log[j - 1] == Used(log[j].thread, log[j].cursor)
  {
    RunIsSafe(steps);
  }

  /** Each lease is given up exactly once: never twice, and once as soon as it is not held. */
  lemma LeaseEndsOnce(steps: seq<Step>, c: CursorId)
    requires Run(steps).Some?
    ensures var s := Run(steps).value;
            && Ends(s.log, c) <= 1
            && (c in s.cursors && s.cursors[c].rows ==> (Ends(s.log, c) == 1 <==> !s.cursors[c].leased))
  {
    RunIsSafe(steps);
    assert Balanced(Run(steps).value, c);
  }

  /** Nobody waits for ever on a finished operation: a thread that cannot enter is kept out
      by another thread's outstanding lease or open block. */
  lemma BlockedBySomeone(steps: seq<Step>, t: Thread)
    requires Run(steps).Some? && !CanAcquire(Run(steps).value, t)
    ensures var s := Run(steps).value;
            exists u: Thread :: u != t && (InBlock(At(s, u)) || exists c: CursorId :: Owns(s, u, c) && s.cursors[c].leased)
  {
    RunIsSafe(steps);
    var s := Run(steps).value;
    var u := s.owner.value;
    if !InBlock(At(s, u)) {
      assert Leased(s) != {};
      var c :| c in Leased(s);
      assert Owns(s, u, c) && s.cursors[c].leased;
    }
  }

  // ------------------------------------------------------------------ no deadlock

  /** The steps that bring a begun operation or a lease to its end: all but entering, retrying, a
      successful execute, and discarding a cursor. */
  predicate Finishes(step: Step) { step.Fail? || step.Work? || step.Leave? || step.UseLeased? || step.Release? }

  function Stage(pc: Pc): nat {
    match pc
    case Inside(_) => 3
    case Leaving(_) => 2
    case Idle => 1
    case Releasing(_) => 0
  }

  /** How many such steps the owner can still take at most. */
  function Remaining(s: State): nat {
    2 * |Leased(s)| + if s.owner.Some? then Stage(At(s, s.owner.value)) else 0
  }

  lemma OwnerSteps(s: State, step: Step)
    requires LockInv(s) && Enabled(s, step) && Finishes(step)
    ensures s.owner == Some(step.t)
  {
    assert PcSound(s, step.t);
  }

  lemma LeasesAfter(s: State, step: Step)
    requires LockInv(s) && Enabled(s, step) && Finishes(step)
    ensures |Leased(Do(s, step))| == |Leased(s)| - if step.Release? then 1 else 0
  {
    var s' := Do(s, step);
    assert PcSound(s, step.t);
    if step.Release? {
      var c := At(s, step.t).cursor;
      LeasedEnd(s, c);
      SameLeases(s', s.(cursors := s.cursors[c := s.cursors[c].(leased := false)]));
    } else {
      SameLeases(s, s');
    }
  }

  /** Whichever of these steps the owner takes, it comes closer to giving up the lock. */
  lemma FinishingCounts(s: State, step: Step)
    requires LockInv(s) && Enabled(s, step) && Finishes(step)
    ensures Remaining(Do(s, step)) < Remaining(s)
    ensures Do(s, step).owner == None || Do(s, step).owner == s.owner
  {
    OwnerSteps(s, step);
    LeasesAfter(s, step);
  }

  /** The owner always has such a step. */
  lemma OwnerGoesOn(s: State) returns (step: Step)
    requires LockInv(s) && s.owner.Some?
    ensures Enabled(s, step) && Finishes(step) && s.owner == Some(step.t)
  {
    var t := s.owner.value;
    assert PcSound(s, t);
    match At(s, t)
    case Inside(op) => step := if op.Execute? then Fail(t) else Work(t);
    case Leaving(_) => step := Leave(t);
    case Releasing(_) => step := Release(t);
    case Idle =>
      assert Leased(s) != {};
      var c :| c in Leased(s);
      step := UseLeased(t, c);
  }

  lemma RunNext(steps: seq<Step>, step: Step)
    requires Run(steps).Some? && Enabled(Run(steps).value, step)
    ensures Run(steps + [step]) == Some(Do(Run(steps).value, step))
  {
    assert (steps + [step])[..|steps|] == steps;
  }

  lemma RunGoesOn(steps: seq<Step>) returns (step: Step)
    requires Run(steps).Some? && Run(steps).value.owner.Some?
    ensures Finishes(step) && Run(steps).value.owner == Some(step.t) && Run(steps + [step]).Some?
    ensures
      var s, s' := Run(steps).value, Run(steps + [step]).value;
      Remaining(s') < Remaining(s) && (s'.owner == None || s'.owner == s.owner)
  {
    RunIsSafe(steps);
    step := OwnerGoesOn(Run(steps).value);
    RunNext(steps, step);
    FinishingCounts(Run(steps).value, step);
  }

  /** No deadlock: from every reachable state the lock's owner alone, by finishing what it has begun,
      frees the lock for everyone. */
  lemma {:induction false} LockIsFreed(steps: seq<Step>) returns (more: seq<Step>)
    requires Run(steps).Some?
    ensures Run(steps + more).Some? && Run(steps + more).value.owner == None
    ensures |more| <= Remaining(Run(steps).value)
    ensures forall i :: 0 <= i < |more| ==> Finishes(more[i]) && Run(steps).value.owner == Some(more[i].t)
    decreases Remaining(Run(steps).value)
  {
    if Run(steps).value.owner == None {
      more := [];
      assert steps + more == steps;
    } else {
      var step := RunGoesOn(steps);
      var rest := LockIsFreed(steps + [step]);
      more := [step] + rest;
      assert steps + more == steps + [step] + rest;
    }
  }

  lemma RunSplit(steps: seq<Step>)
    requires steps != [] && Run(steps).Some?
    ensures
      var before := Run(steps[..|steps| - 1]);
      before.Some? && Enabled(before.value, steps[|steps| - 1]) && Run(steps).value == Do(before.value, steps[|steps| - 1])
  {
  }

  /** And it cannot go on for ever without doing so: finishing steps, whichever are taken, are no more
      than remain. */
  lemma {:induction false} FinishingEnds(steps: seq<Step>, more: seq<Step>)
    requires Run(steps + more).Some? && forall i :: 0 <= i < |more| ==> Finishes(more[i])
    ensures Run(steps).Some? && Remaining(Run(steps + more).value) + |more| <= Remaining(Run(steps).value)
    decreases |more|
  {
    if more == [] {
      assert steps + more == steps;
    } else {
      var front, last := more[..|more| - 1], more[|more| - 1];
      assert (steps + more)[..|steps + more| - 1] == steps + front;
      RunSplit(steps + more);
      FinishingEnds(steps, front);
      RunIsSafe(steps + front);
      FinishingCounts(Run(steps + front).value, last);
    }
  }

  // ------------------------------------------------------------------ what the steps come to

  /** The threads that act, in order: everything but entering and leaving a block is on record. */
  function Actors(steps: seq<Step>): seq<Thread> {
    if steps == [] then []
    else
      var step := steps[|steps| - 1];
      Actors(steps[..|steps| - 1]) + if step.Enter? || step.Leave? then [] else [step.t]
  }

  function Recorders(log: seq<Event>): seq<Thread> { seq(|log|, i requires 0 <= i < |log| => log[i].thread) }

  lemma RecordersNext(log: seq<Event>, e: Event)
    ensures Recorders(log + [e]) == Recorders(log) + [e.thread]
  {
  }

  lemma StepRecorded(s: State, step: Step)
    requires Enabled(s, step)
    ensures
      Do(s, step).log == s.log
      || exists e: Event :: e.thread == step.t && Do(s, step).log == s.log + [e]
    ensures Do(s, step).log == s.log <==> step.Enter? || step.Leave?
  {
    var s' := Do(s, step);
    if !step.Enter? && !step.Leave? {
      assert s'.log == s.log + [s'.log[|s.log|]];
    }
  }

  /** The record is complete: who acts, in which order, is what it shows. */
  lemma {:induction false} LogIsComplete(steps: seq<Step>)
    requires Run(steps).Some?
    ensures Recorders(Run(steps).value.log) == Actors(steps)
  {
    if steps != [] {
      var before, step := steps[..|steps| - 1], steps[|steps| - 1];
      RunSplit(steps);
      LogIsComplete(before);
      var s := Run(before).value;
      StepRecorded(s, step);
      if !step.Enter? && !step.Leave? {
        var e: Event :| e.thread == step.t && Do(s, step).log == s.log + [e];
        RecordersNext(s.log, e);
      }
    }
  }

  /** What each kind of step puts on record, and what of it stays true. */
  ghost predicate Told(steps: seq<Step>, s: State) {
    && (forall t, c, rows :: Create(t, c, rows) in steps <==> Executed(t, c, rows) in s.log)
    && (forall t, c :: Drop(t, c) in steps <==> LeaseEnded(t, c, true) in s.log)
    && (forall t, c :: UseLeased(t, c) in steps ==> Used(t, c) in s.log)
    && (forall t, c :: Drop(t, c) in steps ==> Owns(s, t, c) && !s.cursors[c].leased)
    && (forall c :: c in s.cursors ==> Executed(s.cursors[c].owner, c, s.cursors[c].rows) in s.log)
  }

  lemma {:induction false} StepsAreTold(steps: seq<Step>)
    requires Run(steps).Some?
    ensures Told(steps, Run(steps).value)
  {
    if steps != [] {
      var before, step := steps[..|steps| - 1], steps[|steps| - 1];
      RunSplit(steps);
      StepsAreTold(before);
      RunIsSafe(before);
      assert steps == before + [step];
      ToldNext(before, Run(before).value, step);
    }
  }

  lemma ToldNext(before: seq<Step>, s: State, step: Step)
    requires LockInv(s) && Enabled(s, step) && Told(before, s)
    ensures Told(before + [step], Do(s, step))
  {
    var s' := Do(s, step);
    assert PcSound(s, step.t);
    CursorsKept(s, step);
    match step
    case Create(t, c, rows) => ToldWith(before, s, step, s', [Executed(t, c, rows)]);
    case Drop(t, c) => ToldWith(before, s, step, s', [LeaseEnded(t, c, true)]);
    case Release(t) => ToldWith(before, s, step, s', [LeaseEnded(t, At(s, t).cursor, false)]);
    case UseLeased(t, c) => ToldWith(before, s, step, s', [Used(t, c)]);
    case Attempt(t) => ToldWith(before, s, step, s', [Statement(t)]);
    case Fail(t) => ToldWith(before, s, step, s', [Statement(t)]);
    case Work(t) => ToldWith(before, s, step, s', [s'.log[|s.log|]]);
    case Enter(_, _) => ToldWith(before, s, step, s', []);
    case Leave(_) => ToldWith(before, s, step, s', []);
  }

  lemma CursorsKept(s: State, step: Step)
    requires LockInv(s) && Enabled(s, step)
    ensures CursorsGrow(s, step, Do(s, step))
  {
    assert PcSound(s, step.t);
  }

  /** No cursor changes hands or regains its lease, and only a successful execute makes one. */
  ghost predicate CursorsGrow(s: State, step: Step, s': State) {
    && (forall c :: c in s.cursors ==>
          && c in s'.cursors && s'.cursors[c].owner == s.cursors[c].owner && s'.cursors[c].rows == s.cursors[c].rows
          && (s'.cursors[c].leased ==> s.cursors[c].leased))
    && (forall c :: c in s'.cursors && c !in s.cursors ==> step == Create(s'.cursors[c].owner, c, s'.cursors[c].rows))
    && (step.Drop? ==> Owns(s', step.t, step.c) && !s'.cursors[step.c].leased)
  }

  /** The events fit the step. */
  ghost predicate Fits(step: Step, es: seq<Event>) {
    && (forall t, c, rows :: step == Create(t, c, rows) <==> Executed(t, c, rows) in es)
    && (forall t, c :: step == Drop(t, c) <==> LeaseEnded(t, c, true) in es)
    && (forall t, c :: step == UseLeased(t, c) ==> Used(t, c) in es)
  }

  lemma ToldWith(before: seq<Step>, s: State, step: Step, s': State, es: seq<Event>)
    requires Told(before, s) && CursorsGrow(s, step, s') && Fits(step, es) && s'.log == s.log + es
    ensures Told(before + [step], s')
  {
    var steps := before + [step];
    assert forall x :: x in steps <==> x in before || x == step;
    assert forall e :: e in s'.log <==> e in s.log || e in es;
  }

  /** A discarded cursor gives up its lease there and then: the lock is one less deep, and free if
      this was all that held it. */
  lemma DropEndsLease(steps: seq<Step>, t: Thread, c: CursorId)
    requires Run(steps + [Drop(t, c)]).Some?
    ensures
      var all := steps + [Drop(t, c)];
      Run(steps).Some? &&
      var s, s' := Run(steps).value, Run(all).value;
      && Owns(s, t, c) && s.cursors[c].leased && Owns(s', t, c) && !s'.cursors[c].leased
      && Ends(s'.log, c) == 1 && s'.depth == s.depth - 1
      && (s'.owner == None <==> s.depth == 1) && At(s', t) == Idle
  {
    var all := steps + [Drop(t, c)];
    assert all[..|all| - 1] == steps;
    RunSplit(all);
    StepsAreTold(all);
    RunIsSafe(steps);
    RunIsSafe(all);
    var s' := Run(all).value;
    assert Drop(t, c) in all;
    assert Balanced(s', c);
    LeaseHasOwner(Run(steps).value, c);
  }

  /** A cursor that was used but still holds its lease is just being released; an operation that is no
      release works on a cursor without a lease. */
  ghost predicate UsesReleased(s: State) {
    && (forall t, c :: Used(t, c) in s.log ==> Owns(s, t, c) && (s.cursors[c].leased ==> OnItsWay(s, t, c)))
    && (forall t: Thread :: UsesUnleased(s, t))
  }

  predicate UsesUnleased(s: State, t: Thread) {
    var pc := At(s, t);
    pc.Inside? && pc.op.Use? ==> pc.op.cursor in s.cursors && !s.cursors[pc.op.cursor].leased
  }

  predicate OnItsWay(s: State, t: Thread, c: CursorId) {
    At(s, t) == Releasing(c) || At(s, t) == Leaving(Some(c))
  }

  lemma {:induction false} UsesAreReleased(steps: seq<Step>)
    requires Run(steps).Some?
    ensures UsesReleased(Run(steps).value)
  {
    if steps != [] {
      var before, step := steps[..|steps| - 1], steps[|steps| - 1];
      RunSplit(steps);
      UsesAreReleased(before);
      RunIsSafe(before);
      UsesReleasedNext(Run(before).value, step);
    }
  }

  lemma UsesReleasedNext(s: State, step: Step)
    requires LockInv(s) && Enabled(s, step) && UsesReleased(s)
    ensures UsesReleased(Do(s, step))
  {
    var s' := Do(s, step);
    assert PcSound(s, step.t) && UsesUnleased(s, step.t);
    CursorsKept(s, step);
    forall t: Thread ensures UsesUnleased(s', t) {
      assert UsesUnleased(s, t) && PcSound(s, t);
    }
    forall t, c | Used(t, c) in s'.log
      ensures Owns(s', t, c) && (s'.cursors[c].leased ==> OnItsWay(s', t, c))
    {
      if Used(t, c) in s.log {
        assert Owns(s, t, c) && (s.cursors[c].leased ==> OnItsWay(s, t, c));
        assert PcSound(s, t);
      }
    }
  }

  /** A thread that is done with each of its result-bearing cursors, having used it or discarded it,
      and is in no operation, holds no lease and not the lock. */
  lemma DoneIsFree(steps: seq<Step>, t: Thread)
    requires Run(steps).Some? && At(Run(steps).value, t) == Idle
    requires
      forall c :: Create(t, c, true) in steps ==> Used(t, c) in Run(steps).value.log || Drop(t, c) in steps
    ensures
      var s := Run(steps).value;
      s.owner != Some(t) && forall c :: Owns(s, t, c) ==> !s.cursors[c].leased
  {
    RunIsSafe(steps);
    StepsAreTold(steps);
    UsesAreReleased(steps);
    var s := Run(steps).value;
    forall c | Owns(s, t, c) ensures !s.cursors[c].leased {
      assert Executed(t, c, s.cursors[c].rows) in s.log;
    }
    assert s.owner == Some(t) ==> Leased(s) != {};
    assert forall c :: c in Leased(s) ==> s.owner.Some? && Owns(s, s.owner.value, c);
  }
}
