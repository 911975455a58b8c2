/** The content-addressed receipt store: its encoding, and any number of `Add`
    calls that interleave step by step and may fail or die at any of them. */
module EvidenceStore {
  import opened Wrappers
  import opened Manifest
  import opened Evidence
  import opened JsonDecoder
  import opened CanonParse
  import opened CanonValue
  import opened CanonBytes

  // ---------- Encoding ----------

  /** How receipts become JSON values, and back, and the hash of a text. */
  datatype Format = Format(
    payload: Receipt -> Json, full: (Receipt, string) -> Json, read: Json -> Option<(Receipt, string)>,
    hash: Text -> string)

  /** Reading inverts writing, also after numbers are spelled canonically, and the text
      that is hashed says the whole receipt. The format of the source is one such
      (`ReceiptJson.ReceiptFormatFaithful`). */
  ghost predicate Faithful(f: Format) {
    && (forall r :: Fits(f.payload(r)))
    && (forall r, h :: Fits(f.full(r, h)))
    && (forall r, h :: ReceiptValid(r) ==> f.read(Normal(f.full(r, h))) == Some((r, h)))
    && (forall t :: IsHash(f.hash(t)))
    && (forall r, q :: ReceiptValid(r) && ReceiptValid(q) && Printed(f.payload(r)) == Printed(f.payload(q)) ==> r == q)
  }

  /** `canonicalHash`: the hash of the receipt without its hash field. */
  ghost function CanonicalHash(f: Format, r: Receipt): string
    requires Faithful(f)
  {
    f.hash(Printed(f.payload(r)))
  }

  /** `receiptBytes` of a receipt with its own hash. */
  ghost function ReceiptBytes(f: Format, r: Receipt): Text
    requires Faithful(f)
  {
    Printed(f.full(r, CanonicalHash(f, r)))
  }

  /** `decodeReceipt`, then the check of the reference. */
  ghost function Decode(f: Format, data: Text, h: string): Option<Receipt>
    requires Faithful(f)
  {
    if Bytes(data) != Success(data) then None
    else
      match f.read(Parse(data).value)
      case None => None
      case Some((r, stored)) =>
        if ReceiptValid(r) && stored == CanonicalHash(f, r) && stored == h then Some(r) else None
  }

  /** What the store writes it reads back under its hash. */
  lemma {:induction false} DecodeOfBytes(f: Format, r: Receipt)
    requires Faithful(f) && ReceiptValid(r)
    ensures Decode(f, ReceiptBytes(f, r), CanonicalHash(f, r)) == Some(r)
  {
    var v := f.full(r, CanonicalHash(f, r));
    PrintedParses(v);
    NormalFixed(v);
  }

  /** Two texts with one hash. */
  ghost predicate Collides(f: Format) {
    exists x, y :: x != y && f.hash(x) == f.hash(y)
  }

  /** The hash covers the whole receipt: two receipts have one hash only by a collision
      of the hash function. */
  lemma HashCovers(f: Format, r: Receipt, q: Receipt)
    requires Faithful(f) && ReceiptValid(r) && ReceiptValid(q) && CanonicalHash(f, r) == CanonicalHash(f, q)
    ensures r == q || Collides(f)
  {
  }

  /** Whatever the files hold, one reference loads one receipt, unless texts collide: no
      edit of a receipt is accepted under the old reference. */
  lemma OneReceipt(f: Format, h: string, data: Text, other: Text)
    requires Faithful(f) && Decode(f, data, h).Some? && Decode(f, other, h).Some?
    ensures Decode(f, data, h) == Decode(f, other, h) || Collides(f)
  {
    HashCovers(f, Decode(f, data, h).value, Decode(f, other, h).value);
  }

  // ---------- Adding ----------

  datatype Stage =
    | Stamping(input: Receipt)
    | Staged(input: Receipt, stamp: Instant)
    | Linked(input: Receipt, stamp: Instant)
    | Added(input: Receipt, stamp: Instant, reference: string)
    | Failed
    | Dead

  /** Files by the hash in their path. */
  datatype Sys = Sys(disk: map<string, Text>, procs: map<int, Stage>)

  datatype Action =
    | Spawn(p: int, input: Receipt)
    | Stamp(p: int, now: Instant)
    | Link(p: int)
    | Sync(p: int)
    | Fail(p: int)
    | Crash(p: int)

  /** The input with the time of the store. */
  function Stamped(input: Receipt, stamp: Instant): Receipt {
    input.(timestamp := stamp)
  }

  function Moved(s: Sys, p: int, stage: Stage): Sys {
    s.(procs := s.procs[p := stage])
  }

  /** Exclusive link; an existing path is compared, never replaced. */
  ghost function LinkStep(f: Format, s: Sys, p: int, input: Receipt, stamp: Instant): Sys
    requires Faithful(f)
  {
    var r := Stamped(input, stamp);
    var h := CanonicalHash(f, r);
    if h !in s.disk then Moved(s, p, Linked(input, stamp)).(disk := s.disk[h := ReceiptBytes(f, r)])
    else if s.disk[h] == ReceiptBytes(f, r) then Moved(s, p, Added(input, stamp, h))
    else Moved(s, p, Failed)
  }

  ghost function Step(f: Format, s: Sys, a: Action): Option<Sys>
    requires Faithful(f)
  {
    if a.Spawn? then
      if a.p in s.procs then None else Some(Moved(s, a.p, Stamping(a.input)))
    else if a.p !in s.procs then None
    else
      var stage := s.procs[a.p];
      match a
      case Stamp(p, now) =>
        if !stage.Stamping? then None
        else Some(Moved(s, p, if ReceiptValid(Stamped(stage.input, now)) then Staged(stage.input, now) else Failed))
      case Link(p) => if stage.Staged? then Some(LinkStep(f, s, p, stage.input, stage.stamp)) else None
      case Sync(p) =>
        if !stage.Linked? then None
        else
          Some(Moved(s, p, Added(stage.input, stage.stamp, CanonicalHash(f, Stamped(stage.input, stage.stamp)))))
      case Fail(p) => if stage.Added? || stage.Failed? || stage.Dead? then None else Some(Moved(s, p, Failed))
      case Crash(p) => if stage.Added? || stage.Failed? || stage.Dead? then None else Some(Moved(s, p, Dead))
  }

  ghost function Run(f: Format, actions: seq<Action>): Option<Sys>
    requires Faithful(f)
  {
    if actions == [] then Some(Sys(map[], map[]))
    else
      match Run(f, actions[..|actions| - 1])
      case None => None
      case Some(s) => Step(f, s, actions[|actions| - 1])
  }

  // ---------- The invariant ----------

  /** A file is the encoding of a valid receipt under its own hash. */
  ghost predicate FileOk(f: Format, h: string, data: Text)
    requires Faithful(f)
  {
    exists r :: ReceiptValid(r) && h == CanonicalHash(f, r) && data == ReceiptBytes(f, r)
  }

  ghost predicate Installed(f: Format, s: Sys, r: Receipt)
    requires Faithful(f)
  {
    ReceiptValid(r) && CanonicalHash(f, r) in s.disk && s.disk[CanonicalHash(f, r)] == ReceiptBytes(f, r)
  }

  ghost predicate StageOk(f: Format, s: Sys, stage: Stage)
    requires Faithful(f)
  {
    match stage
    case Staged(input, stamp) => ReceiptValid(Stamped(input, stamp))
    case Linked(input, stamp) => Installed(f, s, Stamped(input, stamp))
    case Added(input, stamp, h) =>
      Installed(f, s, Stamped(input, stamp)) && h == CanonicalHash(f, Stamped(input, stamp))
    case _ => true
  }

  ghost predicate DiskOk(f: Format, disk: map<string, Text>)
    requires Faithful(f)
  {
    forall h :: h in disk ==> FileOk(f, h, disk[h])
  }

  ghost predicate Inv(f: Format, s: Sys)
    requires Faithful(f)
  {
    DiskOk(f, s.disk) && forall p :: p in s.procs ==> StageOk(f, s, s.procs[p])
  }

  /** Bytes at an installed path never change. */
  lemma DiskGrows(f: Format, s: Sys, a: Action, h: string)
    requires Faithful(f) && Step(f, s, a).Some? && h in s.disk
    ensures var t := Step(f, s, a).value; h in t.disk && t.disk[h] == s.disk[h]
  {
  }

  /** Every file of one disk is on the other, unchanged. */
  predicate Within(a: map<string, Text>, b: map<string, Text>) {
    forall h :: h in a ==> h in b && b[h] == a[h]
  }

  lemma StageKept(f: Format, s: Sys, t: Sys, stage: Stage)
    requires Faithful(f) && StageOk(f, s, stage) && Within(s.disk, t.disk)
    ensures StageOk(f, t, stage)
  {
  }

  lemma LinkDisk(f: Format, s: Sys, p: int, input: Receipt, stamp: Instant, h: string, data: Text)
    requires Faithful(f)
    requires h == CanonicalHash(f, Stamped(input, stamp)) && data == ReceiptBytes(f, Stamped(input, stamp))
    ensures var t := LinkStep(f, s, p, input, stamp);
      && t.disk == (if h in s.disk then s.disk else s.disk[h := data])
      && t.procs == s.procs[p := t.procs[p]]
  {
  }

  lemma DiskKept(f: Format, disk: map<string, Text>, r: Receipt, h: string, data: Text)
    requires Faithful(f) && DiskOk(f, disk)
    requires ReceiptValid(r) && h == CanonicalHash(f, r) && data == ReceiptBytes(f, r)
    ensures DiskOk(f, disk[h := data])
  {
    assert FileOk(f, h, data);
  }

  lemma LinkStage(f: Format, s: Sys, p: int, input: Receipt, stamp: Instant)
    requires Faithful(f) && ReceiptValid(Stamped(input, stamp))
    ensures var t := LinkStep(f, s, p, input, stamp); StageOk(f, t, t.procs[p])
  {
  }

  lemma LinkKeeps(f: Format, s: Sys, p: int, input: Receipt, stamp: Instant)
    requires Faithful(f) && Inv(f, s) && ReceiptValid(Stamped(input, stamp))
    ensures Inv(f, LinkStep(f, s, p, input, stamp))
  {
    var t := LinkStep(f, s, p, input, stamp);
    var r := Stamped(input, stamp);
    var h, data := CanonicalHash(f, r), ReceiptBytes(f, r);
    LinkDisk(f, s, p, input, stamp, h, data);
    DiskKept(f, s.disk, r, h, data);
    LinkStage(f, s, p, input, stamp);
    OthersKept(f, s, t, p);
  }

  lemma OthersKept(f: Format, s: Sys, t: Sys, p: int)
    requires Faithful(f) && Inv(f, s) && Within(s.disk, t.disk)
    requires p in t.procs && t.procs == s.procs[p := t.procs[p]] && StageOk(f, t, t.procs[p])
    ensures forall q :: q in t.procs ==> StageOk(f, t, t.procs[q])
  {
    forall q | q in t.procs
      ensures StageOk(f, t, t.procs[q])
    {
      if q != p {
        StageKept(f, s, t, s.procs[q]);
      }
    }
  }

  lemma StepKeeps(f: Format, s: Sys, a: Action)
    requires Faithful(f) && Inv(f, s) && Step(f, s, a).Some?
    ensures Inv(f, Step(f, s, a).value)
  {
    if a.Link? {
      assert StageOk(f, s, s.procs[a.p]);
      LinkKeeps(f, s, a.p, s.procs[a.p].input, s.procs[a.p].stamp);
    } else {
      var t := Step(f, s, a).value;
      assert t.disk == s.disk;
      forall q | q in t.procs
        ensures StageOk(f, t, t.procs[q])
      {
        if q != a.p {
          StageKept(f, s, t, s.procs[q]);
        } else if a.Sync? {
          assert StageOk(f, s, s.procs[q]);
        }
      }
    }
  }

  lemma {:induction false} RunInv(f: Format, actions: seq<Action>)
    requires Faithful(f) && Run(f, actions).Some?
    ensures Inv(f, Run(f, actions).value)
  {
    if actions != [] {
      var before := actions[..|actions| - 1];
      RunInv(f, before);
      StepKeeps(f, Run(f, before).value, actions[|actions| - 1]);
    }
  }

  // ---------- What the store promises ----------

  /** From any moment to any later one no installed byte has changed. */
  lemma {:induction false} Immutable(f: Format, first: seq<Action>, more: seq<Action>, h: string)
    requires Faithful(f) && Run(f, first + more).Some?
    ensures Run(f, first).Some?
    ensures var s, t := Run(f, first).value, Run(f, first + more).value;
            h in s.disk ==> h in t.disk && t.disk[h] == s.disk[h]
    decreases |more|
  {
    if more == [] {
      assert first + more == first;
    } else {
      var init, a := more[..|more| - 1], more[|more| - 1];
      assert (first + more)[..|first + more| - 1] == first + init;
      Immutable(f, first, init, h);
      var u := Run(f, first + init).value;
      if h in u.disk {
        DiskGrows(f, u, a, h);
      }
    }
  }

  ghost function Load(f: Format, s: Sys, h: string): Option<Receipt>
    requires Faithful(f)
  {
    if h !in s.disk then None else Decode(f, s.disk[h], h)
  }

  /** The receipt a process has made of its input. */
  function ReceiptOf(stage: Stage): Receipt
    requires stage.Staged? || stage.Linked? || stage.Added?
  {
    Stamped(stage.input, stage.stamp)
  }

  /** A reference returned by Add loads, at any later moment of any run, the input
      that was added, with the time of the store. */
  lemma LoadAfterAdd(f: Format, actions: seq<Action>, p: int)
    requires Faithful(f) && Run(f, actions).Some?
    requires p in Run(f, actions).value.procs && Run(f, actions).value.procs[p].Added?
    ensures var s := Run(f, actions).value;
            Load(f, s, s.procs[p].reference) == Some(s.procs[p].input.(timestamp := s.procs[p].stamp))
  {
    RunInv(f, actions);
    var s := Run(f, actions).value;
    assert StageOk(f, s, s.procs[p]);
    DecodeOfBytes(f, ReceiptOf(s.procs[p]));
  }

  /** Over, or an Add of this input. */
  predicate Adds(s: Sys, p: int, input: Receipt) {
    p in s.procs && (s.procs[p].Failed? || s.procs[p].Dead? || s.procs[p].input == input)
  }

  lemma InputKept(f: Format, s: Sys, a: Action, p: int, input: Receipt)
    requires Faithful(f) && Step(f, s, a).Some? && Adds(s, p, input)
    ensures Adds(Step(f, s, a).value, p, input)
  {
  }

  /** The input of an Add is what it was called with, whatever happens meanwhile. */
  lemma {:induction false} InputOfSpawn(f: Format, first: seq<Action>, p: int, input: Receipt, more: seq<Action>)
    requires Faithful(f) && Run(f, first + [Spawn(p, input)] + more).Some?
    ensures Adds(Run(f, first + [Spawn(p, input)] + more).value, p, input)
    decreases |more|
  {
    var begun := first + [Spawn(p, input)];
    var all := begun + more;
    if more == [] {
      assert all == begun && begun[..|begun| - 1] == first;
    } else {
      var init, a := more[..|more| - 1], more[|more| - 1];
      assert all[..|all| - 1] == begun + init && all[|all| - 1] == a;
      InputOfSpawn(f, first, p, input, init);
      InputKept(f, Run(f, begun + init).value, a, p, input);
    }
  }

  /** What Add was called with is what its reference loads. */
  lemma AddedLoads(f: Format, first: seq<Action>, p: int, input: Receipt, more: seq<Action>)
    requires Faithful(f) && Run(f, first + [Spawn(p, input)] + more).Some?
    requires var s := Run(f, first + [Spawn(p, input)] + more).value; p in s.procs && s.procs[p].Added?
    ensures var s := Run(f, first + [Spawn(p, input)] + more).value;
            Load(f, s, s.procs[p].reference) == Some(input.(timestamp := s.procs[p].stamp))
  {
    InputOfSpawn(f, first, p, input, more);
    LoadAfterAdd(f, first + [Spawn(p, input)] + more, p);
  }

  /** Two successful adds return one reference exactly for one receipt: equal input
      in the same second. No property of the hash is needed. */
  lemma OneReference(f: Format, actions: seq<Action>, p: int, q: int)
    requires Faithful(f) && Run(f, actions).Some?
    requires var s := Run(f, actions).value;
             p in s.procs && q in s.procs && s.procs[p].Added? && s.procs[q].Added?
    ensures var s := Run(f, actions).value;
            s.procs[p].reference == s.procs[q].reference <==> ReceiptOf(s.procs[p]) == ReceiptOf(s.procs[q])
  {
    LoadAfterAdd(f, actions, p);
    LoadAfterAdd(f, actions, q);
    RunInv(f, actions);
    var s := Run(f, actions).value;
    assert StageOk(f, s, s.procs[p]) && StageOk(f, s, s.procs[q]);
  }

  /** An install is refused only for a collision: another receipt with the same hash. */
  lemma RefusedOnlyForCollision(f: Format, actions: seq<Action>, p: int)
    requires Faithful(f) && Run(f, actions).Some? && Step(f, Run(f, actions).value, Link(p)).Some?
    ensures var s := Run(f, actions).value; var r := ReceiptOf(s.procs[p]);
            Step(f, s, Link(p)).value.procs[p].Failed? <==>
            exists other :: ReceiptValid(other) && other != r && CanonicalHash(f, other) == CanonicalHash(f, r)
                            && Installed(f, s, other)
  {
    RunInv(f, actions);
    var s := Run(f, actions).value;
    var r := ReceiptOf(s.procs[p]);
    var h := CanonicalHash(f, r);
    assert StageOk(f, s, s.procs[p]);
    DecodeOfBytes(f, r);
    if h in s.disk {
      assert FileOk(f, h, s.disk[h]);
      var other :| ReceiptValid(other) && h == CanonicalHash(f, other) && s.disk[h] == ReceiptBytes(f, other);
      DecodeOfBytes(f, other);
      assert Installed(f, s, other);
    }
    forall other | ReceiptValid(other) && CanonicalHash(f, other) == h && Installed(f, s, other) && other != r
      ensures s.disk[h] != ReceiptBytes(f, r)
    {
      DecodeOfBytes(f, other);
    }
  }

  /** With a hash function without collisions no install is ever refused. */
  lemma NeverRefused(f: Format, actions: seq<Action>, p: int)
    requires Faithful(f) && Run(f, actions).Some? && Step(f, Run(f, actions).value, Link(p)).Some? && !Collides(f)
    ensures !Step(f, Run(f, actions).value, Link(p)).value.procs[p].Failed?
  {
    RefusedOnlyForCollision(f, actions, p);
    RunInv(f, actions);
    var s := Run(f, actions).value;
    var r := ReceiptOf(s.procs[p]);
    assert StageOk(f, s, s.procs[p]);
    forall other | ReceiptValid(other) && CanonicalHash(f, other) == CanonicalHash(f, r)
      ensures other == r
    {
      HashCovers(f, other, r);
    }
  }
}
