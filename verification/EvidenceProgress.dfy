/** An `Add` left alone: when it succeeds, and what it leaves behind. */
module EvidenceProgress {
  import opened Wrappers
  import opened Manifest
  import opened Evidence
  import opened EvidenceStore

  ghost function Steps(f: Format, s: Sys, actions: seq<Action>): Option<Sys>
    requires Faithful(f)
  {
    if actions == [] then Some(s)
    else
      match Steps(f, s, actions[..|actions| - 1])
      case None => None
      case Some(t) => Step(f, t, actions[|actions| - 1])
  }

  /** A step of this process that is no error, its time read from this clock. */
  predicate Own(a: Action, p: int, now: Instant) {
    match a
    case Stamp(q, t) => q == p && t == now
    case Link(q) => q == p
    case Sync(q) => q == p
    case _ => false
  }

  predicate Alone(actions: seq<Action>, p: int, now: Instant) {
    forall i :: 0 <= i < |actions| ==> Own(actions[i], p, now)
  }

  /** Nothing else is installed under the hash. */
  ghost predicate Free(f: Format, s: Sys, r: Receipt)
    requires Faithful(f)
  {
    CanonicalHash(f, r) in s.disk ==> s.disk[CanonicalHash(f, r)] == ReceiptBytes(f, r)
  }

  /** Where an add that began in `s` stands in `t`. */
  ghost predicate Along(f: Format, s: Sys, t: Sys, p: int, input: Receipt, now: Instant)
    requires Faithful(f)
  {
    var r := input.(timestamp := now);
    var h := CanonicalHash(f, r);
    p in t.procs &&
    match t.procs[p]
    case Stamping(i) => i == input && t.disk == s.disk
    case Staged(i, at) => i == input && at == now && ReceiptValid(r) && t.disk == s.disk
    case Linked(i, at) =>
      i == input && at == now && ReceiptValid(r) && Free(f, s, r) && t.disk == s.disk[h := ReceiptBytes(f, r)]
    case Added(i, at, reference) =>
      i == input && at == now && ReceiptValid(r) && Free(f, s, r) && reference == h
      && t.disk == s.disk[h := ReceiptBytes(f, r)]
    case Failed => !(ReceiptValid(r) && Free(f, s, r)) && t.disk == s.disk
    case Dead => false
  }

  lemma AlongStep(f: Format, s: Sys, t: Sys, p: int, input: Receipt, now: Instant, a: Action)
    requires Faithful(f) && Along(f, s, t, p, input, now) && Own(a, p, now) && Step(f, t, a).Some?
    ensures Along(f, s, Step(f, t, a).value, p, input, now)
  {
    if a.Link? {
      LinkAlong(f, s, t, p, input, now, CanonicalHash(f, input.(timestamp := now)));
    }
  }

  lemma LinkAlong(f: Format, s: Sys, t: Sys, p: int, input: Receipt, now: Instant, h: string)
    requires Faithful(f) && Along(f, s, t, p, input, now) && t.procs[p].Staged?
    requires h == CanonicalHash(f, input.(timestamp := now))
    ensures Along(f, s, LinkStep(f, t, p, input, now), p, input, now)
  {
    if h in s.disk && s.disk[h] == ReceiptBytes(f, input.(timestamp := now)) {
      assert s.disk[h := s.disk[h]] == s.disk;
    }
  }

  lemma {:induction false} AlongRun(f: Format, s: Sys, actions: seq<Action>, p: int, input: Receipt, now: Instant)
    requires Faithful(f) && p in s.procs && s.procs[p] == Stamping(input)
    requires Alone(actions, p, now) && Steps(f, s, actions).Some?
    ensures Along(f, s, Steps(f, s, actions).value, p, input, now)
  {
    if actions != [] {
      var n := |actions| - 1;
      assert Own(actions[n], p, now);
      AlongRun(f, s, actions[..n], p, input, now);
      AlongStep(f, s, Steps(f, s, actions[..n]).value, p, input, now, actions[n]);
    }
  }

  /** Every run of its own steps that ends an add ends it the same way: it succeeds exactly
      when the receipt with the time of the store is valid and nothing else is installed
      under its hash. Then its bytes are installed and the hash is returned; otherwise
      nothing has changed. */
  lemma SoloAdd(f: Format, s: Sys, actions: seq<Action>, p: int, input: Receipt, now: Instant)
    requires Faithful(f) && p in s.procs && s.procs[p] == Stamping(input)
    requires Alone(actions, p, now) && Steps(f, s, actions).Some?
    requires var t := Steps(f, s, actions).value; p in t.procs && (t.procs[p].Added? || t.procs[p].Failed?)
    ensures var t := Steps(f, s, actions).value;
      var r := input.(timestamp := now);
      var h := CanonicalHash(f, r);
      if ReceiptValid(r) && (h in s.disk ==> s.disk[h] == ReceiptBytes(f, r)) then
        t.procs[p] == Added(input, now, h) && t.disk == s.disk[h := ReceiptBytes(f, r)]
      else t.procs[p] == Failed && t.disk == s.disk
  {
    AlongRun(f, s, actions, p, input, now);
  }

  function Remaining(stage: Stage): nat {
    match stage
    case Stamping(_) => 3
    case Staged(_, _) => 2
    case Linked(_, _) => 1
    case _ => 0
  }

  function NextAction(stage: Stage, p: int, now: Instant): Action {
    match stage
    case Stamping(_) => Stamp(p, now)
    case Staged(_, _) => Link(p)
    case _ => Sync(p)
  }

  lemma NextNearer(f: Format, s: Sys, p: int, now: Instant)
    requires Faithful(f) && p in s.procs && Remaining(s.procs[p]) > 0
    ensures Step(f, s, NextAction(s.procs[p], p, now)).Some?
    ensures var t := Step(f, s, NextAction(s.procs[p], p, now)).value;
            p in t.procs && !t.procs[p].Dead? && Remaining(t.procs[p]) < Remaining(s.procs[p])
  {
  }

  lemma {:induction false} AfterFirst(f: Format, s: Sys, a: Action, u: Sys, more: seq<Action>)
    requires Faithful(f) && Step(f, s, a) == Some(u)
    ensures Steps(f, s, [a] + more) == Steps(f, u, more)
    decreases |more|
  {
    var all := [a] + more;
    if more == [] {
      assert all[..|all| - 1] == [];
    } else {
      var n := |more| - 1;
      AfterFirst(f, s, a, u, more[..n]);
      assert all[..|all| - 1] == [a] + more[..n];
    }
  }

  /** An add at any stage has a run of its own steps that ends it. */
  lemma {:induction false} AddEnds(f: Format, s: Sys, p: int, now: Instant) returns (actions: seq<Action>, t: Sys)
    requires Faithful(f) && p in s.procs && !s.procs[p].Dead?
    ensures Alone(actions, p, now) && Steps(f, s, actions) == Some(t)
    ensures p in t.procs && (t.procs[p].Added? || t.procs[p].Failed?)
    decreases Remaining(s.procs[p])
  {
    if Remaining(s.procs[p]) == 0 {
      actions, t := [], s;
    } else {
      var a := NextAction(s.procs[p], p, now);
      NextNearer(f, s, p, now);
      var u := Step(f, s, a).value;
      var more;
      more, t := AddEnds(f, u, p, now);
      AfterFirst(f, s, a, u, more);
      actions := [a] + more;
    }
  }

  // ---------- Where the time comes from ----------

  /** What a process has was given to it: the input when it was spawned, the time when it
      read the clock. */
  predicate Given(actions: seq<Action>, p: int, stage: Stage) {
    match stage
    case Stamping(input) => Spawn(p, input) in actions
    case Staged(input, stamp) => Spawn(p, input) in actions && Stamp(p, stamp) in actions
    case Linked(input, stamp) => Spawn(p, input) in actions && Stamp(p, stamp) in actions
    case Added(input, stamp, _) => Spawn(p, input) in actions && Stamp(p, stamp) in actions
    case _ => true
  }

  lemma GivenStep(f: Format, s: Sys, a: Action, actions: seq<Action>, p: int)
    requires Faithful(f) && Step(f, s, a).Some? && (p in s.procs ==> Given(actions, p, s.procs[p]))
    ensures var t := Step(f, s, a).value; p in t.procs ==> Given(actions + [a], p, t.procs[p])
  {
    assert forall x :: x in actions ==> x in actions + [a];
    assert (actions + [a])[|actions|] == a;
  }

  lemma {:induction false} GivenRun(f: Format, actions: seq<Action>, p: int)
    requires Faithful(f) && Run(f, actions).Some? && p in Run(f, actions).value.procs
    ensures Given(actions, p, Run(f, actions).value.procs[p])
  {
    var n := |actions| - 1;
    var before := Run(f, actions[..n]).value;
    if p in before.procs {
      GivenRun(f, actions[..n], p);
    }
    GivenStep(f, before, actions[n], actions[..n], p);
    assert actions == actions[..n] + [actions[n]];
  }

  /** In every run the reference an add returned loads what that add was spawned with, at
      the time that it read from the clock. */
  lemma AddedAsGiven(f: Format, actions: seq<Action>, p: int)
    requires Faithful(f) && Run(f, actions).Some?
    requires p in Run(f, actions).value.procs && Run(f, actions).value.procs[p].Added?
    ensures var s := Run(f, actions).value; var stage := s.procs[p];
      && Spawn(p, stage.input) in actions && Stamp(p, stage.stamp) in actions
      && Load(f, s, stage.reference) == Some(stage.input.(timestamp := stage.stamp))
  {
    GivenRun(f, actions, p);
    LoadAfterAdd(f, actions, p);
  }
}
