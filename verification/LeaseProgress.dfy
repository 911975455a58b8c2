/** `agent run` left alone: when it starts its child, and what it leaves behind. */
module LeaseProgress {
  import opened Wrappers
  import opened LeaseSystem
  import opened LeaseTheorems

  function Steps(s: Sys, actions: seq<Action>): Option<Sys> {
    if actions == [] then Some(s)
    else
      match Steps(s, actions[..|actions| - 1])
      case None => None
      case Some(t) => Step(t, actions[|actions| - 1])
  }

  /** A step of this process in which everything it tries succeeds. */
  predicate Smooth(a: Action, p: int) {
    match a
    case DetectRecord(q) => q == p
    case ProbeLock(q) => q == p
    case TryLock(q) => q == p
    case ExamineRecord(q) => q == p
    case CreateRecord(q) => q == p
    case WriteRecord(q, ok) => q == p && ok
    case StartChild(q, ok) => q == p && ok
    case Reap(q) => q == p
    case BeginRelease(q) => q == p
    case RemoveRecord(q, ok) => q == p && ok
    case Unlock(q) => q == p
    case _ => false
  }

  predicate AllSmooth(actions: seq<Action>, p: int) {
    forall i :: 0 <= i < |actions| ==> Smooth(actions[i], p)
  }

  /** At some moment of the run the child of this process was alive. */
  ghost predicate HadChild(s: Sys, actions: seq<Action>, p: int) {
    exists k :: 0 <= k <= |actions| && ChildAt(s, actions[..k], p)
  }

  predicate ChildAt(s: Sys, actions: seq<Action>, p: int) {
    Steps(s, actions).Some? && p in Steps(s, actions).value.children
  }

  predicate Shared(s: Sys, lock: Option<int>, record: Option<int>, children: set<int>) {
    s.lock == lock && s.record == record && s.children == children
  }

  /** Where an agent that began in `s` with lock and record free stands in `t`. */
  predicate FreeAlong(s: Sys, t: Sys, p: int, started: bool) {
    p in t.procs &&
    match t.procs[p]
    case Detecting => !started && Shared(t, None, None, s.children)
    case Acquiring => !started && Shared(t, None, None, s.children)
    case Examining => !started && Shared(t, Some(p), None, s.children)
    case Recording => !started && Shared(t, Some(p), None, s.children)
    case Recorded => !started && Shared(t, Some(p), Some(p), s.children)
    case Leased => !started && Shared(t, Some(p), Some(p), s.children)
    case Running => started && Shared(t, Some(p), Some(p), s.children + {p})
    case Reaped => started && Shared(t, Some(p), Some(p), s.children)
    case Releasing => started && Shared(t, Some(p), Some(p), s.children)
    case Unlocking => started && Shared(t, Some(p), None, s.children)
    case Ended => started && Shared(t, None, None, s.children)
    case _ => false
  }

  /** Where one stands that began with the lock held or a record there. */
  predicate BarredAlong(s: Sys, t: Sys, p: int, started: bool) {
    p in t.procs && !started && Shared(t, s.lock, s.record, s.children) &&
    match t.procs[p]
    case Detecting => true
    case Probing => s.record.Some?
    case Abandoned => s.record.Some? && s.lock.None?
    case Acquiring => s.lock.Some?
    case Ended => s.lock.Some?
    case _ => false
  }

  predicate Along(s: Sys, t: Sys, p: int, started: bool) {
    if s.lock.None? && s.record.None? then FreeAlong(s, t, p, started) else BarredAlong(s, t, p, started)
  }

  lemma FreeStep(s: Sys, t: Sys, p: int, started: bool, a: Action)
    requires FreeAlong(s, t, p, started) && p !in s.children && Smooth(a, p) && Step(t, a).Some?
    ensures FreeAlong(s, Step(t, a).value, p, started || p in Step(t, a).value.children)
  {
    if a.Reap? {
      assert s.children + {p} - {p} == s.children;
    }
  }

  lemma BarredStep(s: Sys, t: Sys, p: int, started: bool, a: Action)
    requires BarredAlong(s, t, p, started) && (s.lock.Some? || s.record.Some?) && p !in s.children
    requires Smooth(a, p) && Step(t, a).Some?
    ensures BarredAlong(s, Step(t, a).value, p, started || p in Step(t, a).value.children)
  {
  }

  lemma HadChildNext(s: Sys, before: seq<Action>, a: Action, p: int)
    ensures HadChild(s, before + [a], p) <==> HadChild(s, before, p) || ChildAt(s, before + [a], p)
  {
    var all, n := before + [a], |before|;
    assert all[..n + 1] == all;
    forall k | 0 <= k <= n
      ensures all[..k] == before[..k]
    {
    }
    if HadChild(s, before, p) {
      var k :| 0 <= k <= n && ChildAt(s, before[..k], p);
      assert ChildAt(s, all[..k], p);
    }
    if HadChild(s, all, p) && !ChildAt(s, all, p) {
      var k :| 0 <= k <= n + 1 && ChildAt(s, all[..k], p);
      assert ChildAt(s, before[..k], p);
    }
  }

  lemma {:induction false} AlongRun(s: Sys, actions: seq<Action>, p: int)
    requires p in s.procs && s.procs[p].Detecting? && p !in s.children
    requires AllSmooth(actions, p) && Steps(s, actions).Some?
    ensures Along(s, Steps(s, actions).value, p, HadChild(s, actions, p))
  {
    if actions == [] {
      assert actions[..0] == [];
    } else {
      var n := |actions| - 1;
      var before, a := actions[..n], actions[n];
      AlongRun(s, before, p);
      assert actions == before + [a];
      HadChildNext(s, before, a, p);
      var t := Steps(s, before).value;
      if s.lock.None? && s.record.None? {
        FreeStep(s, t, p, HadChild(s, before, p), a);
      } else {
        BarredStep(s, t, p, HadChild(s, before, p), a);
      }
    }
  }

  lemma OwnChild(s: Sys, p: int)
    requires ChildrenOk(s) && p in s.procs && s.procs[p].Detecting?
    ensures p !in s.children
  {
  }

  /** Every run of an agent's own steps in which nothing fails ends the same way. With lock
      and record free its child has lived, and lock, record and children are left as they
      were. Otherwise it starts none and changes nothing: a record under a free lock is
      reported, a held lock ends it. */
  lemma SoloAgent(s: Sys, actions: seq<Action>, p: int)
    requires Inv(s) && p in s.procs && s.procs[p].Detecting?
    requires AllSmooth(actions, p) && Steps(s, actions).Some?
    requires var t := Steps(s, actions).value; p in t.procs && (t.procs[p].Ended? || t.procs[p].Abandoned?)
    ensures var t := Steps(s, actions).value;
      && t.lock == s.lock && t.record == s.record && t.children == s.children
      && (HadChild(s, actions, p) <==> s.lock.None? && s.record.None?)
      && (t.procs[p].Abandoned? <==> s.lock.None? && s.record.Some?)
  {
    OwnChild(s, p);
    AlongRun(s, actions, p);
  }

  // ---------- Such a run exists ----------

  function Remaining(stage: Stage): nat {
    match stage
    case Detecting => 11
    case Probing => 10
    case Acquiring => 9
    case Examining => 8
    case Recording => 7
    case Recorded => 6
    case Leased => 5
    case Running => 4
    case Reaped => 3
    case Releasing => 2
    case Unlocking => 1
    case _ => 0
  }

  function NextAction(stage: Stage, p: int): Action {
    match stage
    case Detecting => DetectRecord(p)
    case Probing => ProbeLock(p)
    case Acquiring => TryLock(p)
    case Examining => ExamineRecord(p)
    case Recording => CreateRecord(p)
    case Recorded => WriteRecord(p, true)
    case Leased => StartChild(p, true)
    case Running => Reap(p)
    case Reaped => BeginRelease(p)
    case Releasing => RemoveRecord(p, true)
    case _ => Unlock(p)
  }

  lemma NextNearer(s: Sys, p: int)
    requires p in s.procs && !Over(s.procs[p])
    ensures var a := NextAction(s.procs[p], p); Smooth(a, p) && Step(s, a).Some?
    ensures var t := Step(s, NextAction(s.procs[p], p)).value;
            p in t.procs && !t.procs[p].Dead? && Remaining(t.procs[p]) < Remaining(s.procs[p])
  {
  }

  lemma {:induction false} AfterFirst(s: Sys, a: Action, u: Sys, more: seq<Action>)
    requires Step(s, a) == Some(u)
    ensures Steps(s, [a] + more) == Steps(u, more)
    decreases |more|
  {
    var all := [a] + more;
    if more == [] {
      assert all[..|all| - 1] == [];
    } else {
      var n := |more| - 1;
      AfterFirst(s, a, u, more[..n]);
      assert all[..|all| - 1] == [a] + more[..n];
    }
  }

  /** An agent at any stage has a run of its own steps that ends it. */
  lemma {:induction false} AgentEnds(s: Sys, p: int) returns (actions: seq<Action>, t: Sys)
    requires p in s.procs && !s.procs[p].Dead?
    ensures AllSmooth(actions, p) && Steps(s, actions) == Some(t)
    ensures p in t.procs && (t.procs[p].Ended? || t.procs[p].Abandoned?)
    decreases Remaining(s.procs[p])
  {
    if Over(s.procs[p]) {
      actions, t := [], s;
    } else {
      var a := NextAction(s.procs[p], p);
      NextNearer(s, p);
      var u := Step(s, a).value;
      var more;
      more, t := AgentEnds(u, p);
      AfterFirst(s, a, u, more);
      actions := [a] + more;
    }
  }
}
