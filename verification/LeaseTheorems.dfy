/** What holds of every run of the lease system. */
module LeaseTheorems {
  import opened Wrappers
  import opened LeaseSystem

  // ---------- The invariant ----------

  /** The lock is held by exactly the process inside Acquire or with the lease. */
  predicate LockOk(s: Sys) {
    && (s.lock.Some? ==> s.lock.value in s.procs && Holding(s.procs[s.lock.value]))
    && (forall p :: p in s.procs && Holding(s.procs[p]) ==> s.lock == Some(p))
  }

  predicate MayOwn(stage: Stage) {
    stage.Recorded? || Acquired(stage) || stage.Unlocking? || stage.Ended? || stage.Dead?
  }

  /** Whoever has acquired owns the record, and nobody about to create it sees one. */
  predicate RecordOk(s: Sys) {
    && (forall p :: p in s.procs && (s.procs[p].Recorded? || Acquired(s.procs[p])) ==> s.record == Some(p))
    && (s.record.Some? ==> s.record.value in s.procs && MayOwn(s.procs[s.record.value]))
    && (forall p :: p in s.procs && s.procs[p].Recording? ==> s.record.None?)
  }

  /** A living child belongs to the owner of the record, who supervises it or died. */
  predicate ChildrenOk(s: Sys) {
    forall p :: p in s.children ==>
      s.record == Some(p) && p in s.procs && (s.procs[p].Running? || s.procs[p].Dead?)
  }

  predicate Inv(s: Sys) {
    match s
    case Sys(_, _, _, _) => LockOk(s) && RecordOk(s) && ChildrenOk(s)
  }

  lemma StepLock(s: Sys, a: Action)
    requires LockOk(s) && Step(s, a).Some?
    ensures LockOk(Step(s, a).value)
  {
  }

  /** While `p` holds the lock nobody else can touch the record. */
  lemma StepRecord(s: Sys, a: Action)
    requires LockOk(s) && RecordOk(s) && Step(s, a).Some?
    ensures RecordOk(Step(s, a).value)
  {
    if !a.Spawn? && !a.OrphanExits? && Holding(s.procs[a.p]) {
      OnlyHolder(s, a.p);
      HolderRecord(s, a);
    }
  }

  lemma HolderRecord(s: Sys, a: Action)
    requires RecordOk(s) && Step(s, a).Some? && !a.Spawn? && !a.OrphanExits? && Holding(s.procs[a.p])
    requires forall q :: q in s.procs && q != a.p ==> !Holding(s.procs[q])
    ensures RecordOk(Step(s, a).value)
  {
  }

  lemma OnlyHolder(s: Sys, p: int)
    requires LockOk(s) && p in s.procs && Holding(s.procs[p])
    ensures forall q :: q in s.procs && q != p ==> !Holding(s.procs[q])
  {
  }

  lemma StepChildren(s: Sys, a: Action)
    requires Inv(s) && Step(s, a).Some?
    ensures ChildrenOk(Step(s, a).value)
  {
  }

  lemma {:induction false} RunInv(actions: seq<Action>)
    requires Run(actions).Some?
    ensures Inv(Run(actions).value)
  {
    if actions != [] {
      var before, a := actions[..|actions| - 1], actions[|actions| - 1];
      RunInv(before);
      var s := Run(before).value;
      StepLock(s, a);
      StepRecord(s, a);
      StepChildren(s, a);
    }
  }

  // ---------- Mutual exclusion ----------

  /** At most one direct agent child is alive at any moment of any run, and while it
      lives the lease record is there: its supervisor waits for it, or is dead. */
  lemma OneChild(actions: seq<Action>, p: int, q: int)
    requires Run(actions).Some? && p in Run(actions).value.children && q in Run(actions).value.children
    ensures p == q
    ensures var s := Run(actions).value;
            s.record == Some(p) && p in s.procs && (s.procs[p].Running? || s.procs[p].Dead?)
  {
    RunInv(actions);
  }

  /** At most one process has acquired and not yet removed its record. */
  lemma OneLease(actions: seq<Action>, p: int, q: int)
    requires Run(actions).Some? && p in Run(actions).value.procs && q in Run(actions).value.procs
    requires Acquired(Run(actions).value.procs[p]) && Acquired(Run(actions).value.procs[q])
    ensures p == q && Run(actions).value.lock == Some(p)
  {
    RunInv(actions);
  }

  // ---------- Orphans ----------

  /** A record whose creator is over: it died, failed to write it out, or failed to
      remove it. */
  predicate Orphan(s: Sys) {
    s.record.Some? && s.record.value in s.procs && Over(s.procs[s.record.value])
  }

  lemma OrphanStep(s: Sys, a: Action)
    requires Inv(s) && Orphan(s) && Step(s, a).Some?
    ensures Step(s, a).value.record == s.record && Orphan(Step(s, a).value)
  {
  }

  lemma OrphanAlone(s: Sys, q: int)
    requires Inv(s)
    ensures Orphan(s) ==> (q in s.procs ==> !Acquired(s.procs[q])) && s.children <= {s.record.value}
  {
    forall p | p in s.children
      ensures s.record == Some(p)
    {
    }
  }

  lemma {:induction false} OrphanStays(first: seq<Action>, more: seq<Action>, s: Sys) returns (t: Sys)
    requires Run(first) == Some(s) && Orphan(s) && Run(first + more).Some?
    ensures Run(first + more) == Some(t) && Orphan(t) && t.record == s.record
    decreases |more|
  {
    if more == [] {
      assert first + more == first;
      t := s;
    } else {
      var init, a, all := more[..|more| - 1], more[|more| - 1], first + more;
      assert all[..|all| - 1] == first + init && all[|all| - 1] == a;
      var u := OrphanStays(first, init, s);
      RunInv(first + init);
      OrphanStep(u, a);
      t := Step(u, a).value;
    }
  }

  /** Once a holder has died or left its record behind, no later Acquire ever
      succeeds and no other child is ever started. */
  lemma OrphanForever(first: seq<Action>, more: seq<Action>, q: int)
    requires Run(first).Some? && Orphan(Run(first).value) && Run(first + more).Some?
    ensures var s, t := Run(first).value, Run(first + more).value;
      && Orphan(t) && t.record == s.record
      && (q in t.procs ==> !Acquired(t.procs[q]))
      && t.children <= {s.record.value}
  {
    var t := OrphanStays(first, more, Run(first).value);
    RunInv(first + more);
    OrphanAlone(t, q);
  }

  /** Death frees the lock but not the record. */
  lemma CrashLeavesRecord(actions: seq<Action>, p: int)
    requires Run(actions).Some? && Step(Run(actions).value, Crash(p)).Some?
    ensures var s := Run(actions).value; var t := Step(s, Crash(p)).value;
      && t.lock != Some(p) && t.record == s.record && t.children == s.children
      && (s.record == Some(p) ==> Orphan(t))
  {
    RunInv(actions);
  }

  // ---------- Detection ----------

  /** DetectAbandoned reports when its probe finds the lock free. The report is of a
      true orphan exactly when the record seen before is still there at the probe. */
  lemma DetectExact(actions: seq<Action>, p: int)
    requires Run(actions).Some? && Step(Run(actions).value, ProbeLock(p)).Some?
    ensures var s := Run(actions).value; var t := Step(s, ProbeLock(p)).value;
      && (t.procs[p].Abandoned? <==> s.lock.None?)
      && (t.procs[p].Abandoned? ==> (Orphan(t) <==> s.record.Some?))
  {
    RunInv(actions);
    var s := Run(actions).value;
    if s.lock.None? && s.record.Some? {
      HolderHasLock(s, s.record.value);
    }
  }

  lemma HolderHasLock(s: Sys, p: int)
    requires LockOk(s) && p in s.procs && s.lock.None?
    ensures !Holding(s.procs[p])
  {
  }

  /** An orphan with nobody at work on the lease is always reported. */
  lemma OrphanReported(s: Sys, p: int)
    requires s.lock.None? && Orphan(s) && p in s.procs && s.procs[p].Detecting?
    ensures var t := Step(s, DetectRecord(p));
      && t.Some? && Step(t.value, ProbeLock(p)).Some?
      && Step(t.value, ProbeLock(p)).value.procs[p].Abandoned?
  {
  }

  lemma Then(actions: seq<Action>, s: Sys, a: Action, t: Sys)
    requires Run(actions) == Some(s) && Step(s, a) == Some(t)
    ensures Run(actions + [a]) == Some(t)
  {
    var all := actions + [a];
    assert all[..|all| - 1] == actions;
  }

  /** Process 1 has acquired. */
  lemma FirstAcquires() returns (actions: seq<Action>)
    ensures Run(actions) == Some(Sys(Some(1), Some(1), {}, map[1 := Leased]))
  {
    var s1 := Moved(INIT, 1, Detecting);
    var s2 := Moved(s1, 1, Acquiring);
    var s3 := Moved(s2, 1, Examining).(lock := Some(1));
    var s4 := Moved(s3, 1, Recording);
    var s5 := Moved(s4, 1, Recorded).(record := Some(1));
    var s6 := Moved(s5, 1, Leased);
    assert s6.procs == map[1 := Leased];
    actions := [];
    Then(actions, INIT, Spawn(1), s1);
    Then(actions + [Spawn(1)], s1, DetectRecord(1), s2);
    actions := actions + [Spawn(1)] + [DetectRecord(1)];
    Then(actions, s2, TryLock(1), s3);
    Then(actions + [TryLock(1)], s3, ExamineRecord(1), s4);
    actions := actions + [TryLock(1)] + [ExamineRecord(1)];
    Then(actions, s4, CreateRecord(1), s5);
    Then(actions + [CreateRecord(1)], s5, WriteRecord(1, true), s6);
    actions := actions + [CreateRecord(1)] + [WriteRecord(1, true)];
  }

  /** A report can be a false alarm: the holder released between the two looks. */
  lemma FalseAlarm() returns (actions: seq<Action>, t: Sys)
    ensures Run(actions) == Some(t) && 2 in t.procs && t.procs[2].Abandoned? && t.record.None? && t.children == {}
  {
    actions := FirstAcquires();
    var s0 := Sys(Some(1), Some(1), {}, map[1 := Leased]);
    var s1 := Moved(s0, 2, Detecting);
    var s2 := Moved(s1, 2, Probing);
    var s3 := Moved(s2, 1, Releasing);
    var s4 := Moved(s3, 1, Unlocking).(record := None);
    var s5 := Freed(s4, 1, Ended);
    t := Moved(s5, 2, Abandoned);
    Then(actions, s0, Spawn(2), s1);
    Then(actions + [Spawn(2)], s1, DetectRecord(2), s2);
    actions := actions + [Spawn(2)] + [DetectRecord(2)];
    Then(actions, s2, GiveUp(1), s3);
    Then(actions + [GiveUp(1)], s3, RemoveRecord(1, true), s4);
    actions := actions + [GiveUp(1)] + [RemoveRecord(1, true)];
    Then(actions, s4, Unlock(1), s5);
    Then(actions + [Unlock(1)], s5, ProbeLock(2), t);
    actions := actions + [Unlock(1)] + [ProbeLock(2)];
  }
}
