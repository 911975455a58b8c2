/** `lane open` left alone: exactly when it succeeds, and the lane it leaves. */
module LaneOpening {
  import opened Wrappers
  import opened Manifest
  import opened LaneLog
  import opened LaneSystem
  import opened LaneProgress
  import opened LaneOrigins
  import L = Lifecycle

  predicate Nonempty(o: Option<seq<string>>) {
    o.Some? && forall i :: 0 <= i < |o.value| ==> o.value[i] != ""
  }

  /** A dispatch that a lane can be opened with: every text filled in, every list given
      and without empty entries, no limit below zero. */
  predicate FilledIn(d: Dispatch) {
    && "" !in {d.workspace, d.sourceControl, d.writer, d.adapter, d.family, d.seatId, d.costClass, d.reviewPolicy}
    && Nonempty(d.allowedPaths) && Nonempty(d.forbiddenPaths) && Nonempty(d.nonGoals) && Nonempty(d.requiredChecks)
    && 0 <= d.maxSeconds && 0 <= d.maxOutputBytes && 0 <= d.maxMemoryBytes
  }

  /** When `lane open` succeeds. */
  predicate Opens(s: Sys, id: string, d: Dispatch) {
    FilledIn(d) && id != "" && s.hasher(d) != "" && s.file.None? && s.temps == {}
  }

  predicate JobIs(job: Job, id: string, d: Dispatch) {
    job == CreateJob(OpenManifest(id, d)) && FilledIn(d)
  }

  predicate NextIs(s: Sys, id: string, d: Dispatch, next: Manifest) {
    NewLane(s.hasher, id, d, next) && id != "" && s.hasher(d) != "" && s.file.None?
  }

  predicate PhaseIs(s: Sys, t: Sys, p: int, phase: Phase, next: Manifest) {
    match phase
    case Checked => Untouched(s, t)
    case Scanned => s.temps == {} && Untouched(s, t)
    case Staged => s.temps == {} && t.file == s.file && t.temps == {p}
    case Linked => s.temps == {} && t.file == Some(next) && t.temps == {p}
    case Installed => s.temps == {} && t.file == Some(next) && t.temps == {}
  }

  /** Where an opening that began in `s` stands in `t`. */
  ghost predicate OpenAlong(s: Sys, t: Sys, p: int, id: string, d: Dispatch) {
    p in t.procs && t.hasher == s.hasher &&
    match t.procs[p]
    case Starting(c) => c == LaneOpen(id, d) && Untouched(s, t) && t.lock.None?
    case Waiting(job, _) => JobIs(job, id, d) && Untouched(s, t) && t.lock.None?
    case Locked(job, _) => JobIs(job, id, d) && Untouched(s, t) && t.lock == Some(p)
    case Writing(phase, job, next, _) =>
      JobIs(job, id, d) && NextIs(s, id, d, next) && t.lock == Some(p) && PhaseIs(s, t, p, phase, next)
    case Succeeded(job, next) =>
      JobIs(job, id, d) && NextIs(s, id, d, next) && s.temps == {} && t.file == Some(next) && t.temps == {}
      && t.lock.None?
    case Failed => !Opens(s, id, d) && Untouched(s, t) && t.lock.None?
    case _ => false
  }

  lemma CompleteIs(d: Dispatch)
    ensures CompleteDispatch(d) <==> FilledIn(d)
  {
  }

  /** The opening content is valid when lane name and dispatch hash are there. */
  lemma OpeningValid(hasher: Hasher, id: string, d: Dispatch, now: Instant)
    requires FilledIn(d)
    ensures Created(hasher, OpenManifest(id, d), now).Some? <==> id != "" && hasher(d) != ""
    ensures Created(hasher, OpenManifest(id, d), now).Some? ==>
              NewLane(hasher, id, d, Created(hasher, OpenManifest(id, d), now).value)
  {
    var m := OpenManifest(id, d).(createdAt := now, updatedAt := now, dispatchHash := hasher(d));
    ValidateIff(hasher, m);
  }

  lemma OpenStarts(s: Sys, t: Sys, p: int, id: string, d: Dispatch)
    requires OpenAlong(s, t, p, id, d) && t.procs[p].Starting?
    ensures OpenAlong(s, Moved(t, p, Start(LaneOpen(id, d), t.file)), p, id, d)
  {
    CompleteIs(d);
  }

  lemma OpenChecks(s: Sys, t: Sys, p: int, id: string, d: Dispatch, now: Instant)
    requires OpenAlong(s, t, p, id, d) && t.procs[p].Locked?
    ensures OpenAlong(s, CheckUpdateStep(t, p, t.procs[p], now), p, id, d)
  {
    OpeningValid(s.hasher, id, d, now);
  }

  lemma OpenWrites(s: Sys, t: Sys, p: int, id: string, d: Dispatch, a: Action)
    requires OpenAlong(s, t, p, id, d) && t.procs[p].Writing? && Own(a, p) && Step(t, a).Some?
    ensures OpenAlong(s, Step(t, a).value, p, id, d)
  {
    if t.procs[p].phase.Linked? {
      assert t.temps - {p} == {};
    }
  }

  lemma OpenStep(s: Sys, t: Sys, p: int, id: string, d: Dispatch, a: Action)
    requires OpenAlong(s, t, p, id, d) && Own(a, p) && Step(t, a).Some?
    ensures OpenAlong(s, Step(t, a).value, p, id, d)
  {
    var stage := t.procs[p];
    if stage.Starting? {
      OpenStarts(s, t, p, id, d);
    } else if stage.Locked? {
      OpenChecks(s, t, p, id, d, a.now);
    } else if stage.Writing? {
      OpenWrites(s, t, p, id, d, a);
    }
  }

  lemma {:induction false} OpenRun(s: Sys, actions: seq<Action>, p: int, id: string, d: Dispatch)
    requires OpenAlong(s, s, p, id, d) && Alone(actions, p) && Steps(s, actions).Some?
    ensures OpenAlong(s, Steps(s, actions).value, p, id, d)
  {
    if actions != [] {
      var n := |actions| - 1;
      assert Own(actions[n], p);
      OpenRun(s, actions[..n], p, id, d);
      OpenStep(s, Steps(s, actions[..n]).value, p, id, d, actions[n]);
    }
  }

  /** Every run of its own steps that ends a `lane open` ends it the same way: it succeeds
      exactly when there is no lane, the name and the dispatch are filled in, and there is
      no residue. Then the lane is ACTIVE, with this dispatch and nothing recorded. */
  lemma SoloOpen(s: Sys, p: int, id: string, d: Dispatch, actions: seq<Action>)
    requires s.lock.None? && p in s.procs && s.procs[p] == Starting(LaneOpen(id, d))
    requires Alone(actions, p) && Steps(s, actions).Some?
    requires p in Steps(s, actions).value.procs && Ended(Steps(s, actions).value.procs[p])
    ensures var t := Steps(s, actions).value;
      && t.lock.None?
      && if Opens(s, id, d) then
           && t.procs[p].Succeeded? && t.file == Some(t.procs[p].result) && t.temps == {}
           && var m := t.procs[p].result;
              m == Manifest(1, id, L.Active, L.Other(""), d, s.hasher(d), None, None, [], [],
                            m.createdAt, m.createdAt, true)
         else t.procs[p] == Failed && t.file == s.file && t.temps == s.temps
  {
    OpenRun(s, actions, p, id, d);
  }
}
