/** The output budget shared by the two streams of an agent process
    (`core/process/supervisor.go`) and the dispatch limits it runs under. */
module Supervisor {

  type Bytes = seq<bv8>

  function Min(a: int, b: int): int {
    if a <= b then a else b
  }

  // ---------- The streams on values ----------

  /** What one stream keeps, what its hash has been fed, and its flag. */
  datatype Stream = Stream(data: Bytes, hashed: Bytes, truncated: bool)

  datatype Pair = Pair(remaining: nat, stdout: Stream, stderr: Stream)

  datatype Chunk = Chunk(toStdout: bool, value: Bytes)

  function Taken(remaining: nat, size: nat): (taken: nat)
    ensures taken <= size && taken <= remaining
  {
    Min(remaining, size)
  }

  function Fed(s: Stream, value: Bytes, taken: nat): Stream
    requires taken <= |value|
  {
    Stream(s.data + value[..taken], s.hashed + value, s.truncated || taken != |value|)
  }

  function Write(p: Pair, c: Chunk): Pair {
    var taken := Taken(p.remaining, |c.value|);
    if c.toStdout then Pair(p.remaining - taken, Fed(p.stdout, c.value, taken), p.stderr)
    else Pair(p.remaining - taken, p.stdout, Fed(p.stderr, c.value, taken))
  }

  const EMPTY := Stream([], [], false)

  /** All the chunks in the order in which the budget's mutex lets them through. */
  function WriteAll(limit: nat, chunks: seq<Chunk>): Pair {
    if chunks == [] then Pair(limit, EMPTY, EMPTY)
    else Write(WriteAll(limit, chunks[..|chunks| - 1]), chunks[|chunks| - 1])
  }

  /** Everything written to one stream. */
  function Given(chunks: seq<Chunk>, toStdout: bool): Bytes {
    if chunks == [] then []
    else
      var c := chunks[|chunks| - 1];
      Given(chunks[..|chunks| - 1], toStdout) + (if c.toStdout == toStdout then c.value else [])
  }

  // ---------- The objects ----------

  class OutputBudget {
    var remaining: int

    constructor (limit: int)
      ensures remaining == limit
    {
      remaining := limit;
    }

    method Take(size: nat) returns (taken: nat)
      modifies this
      ensures taken == if old(remaining) <= 0 then 0 else Min(old(remaining), size)
      ensures remaining == old(remaining) - taken
    {
      if remaining <= 0 {
        return 0;
      }
      if size <= remaining {
        remaining := remaining - size;
        return size;
      }
      taken := remaining;
      remaining := 0;
    }
  }

  class BoundedWriter {
    const budget: OutputBudget
    var data: Bytes
    /** The bytes the running hash has consumed. */
    var hashed: Bytes
    var truncated: bool

    function View(): Stream
      reads this
    {
      Stream(data, hashed, truncated)
    }

    constructor (budget: OutputBudget)
      ensures this.budget == budget && View() == EMPTY
    {
      this.budget := budget;
      data, hashed, truncated := [], [], false;
    }

    method Write(value: Bytes) returns (written: nat)
      requires budget.remaining >= 0
      modifies this, budget
      ensures written == |value|
      ensures var taken := Taken(old(budget.remaining), |value|);
              budget.remaining == old(budget.remaining) - taken && View() == Fed(old(View()), value, taken)
    {
      hashed := hashed + value;
      var taken := budget.Take(|value|);
      if taken > 0 {
        data := data + value[..taken];
      }
      if taken != |value| {
        truncated := true;
      }
      written := |value|;
    }
  }

  /** One run: two writers on one budget, fed in some interleaving. */
  method Collect(limit: nat, chunks: seq<Chunk>) returns (r: Pair)
    ensures r == WriteAll(limit, chunks)
  {
    var budget := new OutputBudget(limit);
    var stdout := new BoundedWriter(budget);
    var stderr := new BoundedWriter(budget);
    var i := 0;
    while i < |chunks|
      invariant 0 <= i <= |chunks| && stdout != stderr && stdout.budget == stderr.budget == budget
      invariant budget.remaining >= 0
      invariant Pair(budget.remaining, stdout.View(), stderr.View()) == WriteAll(limit, chunks[..i])
    {
      var c := chunks[i];
      if c.toStdout {
        var _ := stdout.Write(c.value);
      } else {
        var _ := stderr.Write(c.value);
      }
      assert chunks[..i + 1][..i] == chunks[..i];
      i := i + 1;
    }
    assert chunks[..i] == chunks;
    r := Pair(budget.remaining, stdout.View(), stderr.View());
  }

  // ---------- What a run keeps ----------

  /** A stream has kept a prefix, hashed everything, and is flagged exactly when it
      dropped something; once it has, the budget is spent. */
  predicate StreamOk(s: Stream, given: Bytes, remaining: nat) {
    && s.data <= given && s.hashed == given
    && (s.truncated <==> |s.data| < |given|) && (s.truncated ==> remaining == 0)
  }

  lemma FedOk(s: Stream, given: Bytes, remaining: nat, value: Bytes)
    requires StreamOk(s, given, remaining)
    ensures var taken := Taken(remaining, |value|); StreamOk(Fed(s, value, taken), given + value, remaining - taken)
    ensures |Fed(s, value, Taken(remaining, |value|)).data| == |s.data| + Taken(remaining, |value|)
  {
    if !s.truncated {
      assert s.data == given;
    }
  }

  lemma OtherOk(s: Stream, given: Bytes, remaining: nat, less: nat)
    requires StreamOk(s, given, remaining) && less <= remaining
    ensures StreamOk(s, given + [], less)
  {
    assert given + [] == given;
  }

  /** Both streams are sound, and together they keep all the budget allows. */
  predicate PairOk(limit: nat, r: Pair, out: Bytes, err: Bytes) {
    && r.remaining >= 0 && StreamOk(r.stdout, out, r.remaining) && StreamOk(r.stderr, err, r.remaining)
    && |r.stdout.data| + |r.stderr.data| == Min(limit, |out| + |err|)
    && r.remaining == limit - Min(limit, |out| + |err|)
  }

  lemma PairStep(limit: nat, p: Pair, out: Bytes, err: Bytes, c: Chunk)
    requires PairOk(limit, p, out, err)
    ensures if c.toStdout then PairOk(limit, Write(p, c), out + c.value, err + [])
            else PairOk(limit, Write(p, c), out + [], err + c.value)
  {
    var taken := Taken(p.remaining, |c.value|);
    if c.toStdout {
      FedOk(p.stdout, out, p.remaining, c.value);
      OtherOk(p.stderr, err, p.remaining, p.remaining - taken);
    } else {
      FedOk(p.stderr, err, p.remaining, c.value);
      OtherOk(p.stdout, out, p.remaining, p.remaining - taken);
    }
  }

  /** For every interleaving: the streams keep min(limit, total) bytes together. */
  lemma {:induction false} BudgetShared(limit: nat, chunks: seq<Chunk>)
    ensures var r, out, err := WriteAll(limit, chunks), Given(chunks, true), Given(chunks, false);
      && StreamOk(r.stdout, out, r.remaining) && StreamOk(r.stderr, err, r.remaining)
      && |r.stdout.data| + |r.stderr.data| == Min(limit, |out| + |err|)
      && r.remaining == limit - Min(limit, |out| + |err|)
  {
    if chunks != [] {
      var before, c := chunks[..|chunks| - 1], chunks[|chunks| - 1];
      BudgetShared(limit, before);
      PairStep(limit, WriteAll(limit, before), Given(before, true), Given(before, false), c);
    }
  }

  // ---------- The dispatch limits ----------

  const SECOND: int := 1_000_000_000
  const TWO_63: int := 0x8000_0000_0000_0000

  type Int64 = x: int | -TWO_63 <= x < TWO_63

  /** Go's `/` and `%` truncate toward zero. */
  function Quotient(x: Int64): Int64 {
    var n: int := x;
    if n >= 0 then n / SECOND else -(-n / SECOND)
  }

  function Remainder(x: Int64): Int64 {
    x - Quotient(x) * SECOND
  }

  datatype Profile = Profile(id: string, family: string, timeout: Int64, outputLimit: Int64)

  datatype Envelope = Envelope(
    adapter: string, family: string, maxSeconds: Int64, maxOutputBytes: Int64, costClass: string)

  datatype Verdict = Admitted | DispatchMismatch | ExceedsLimits | CostMismatch

  /** `ValidateDispatch` in int64 arithmetic, the timeout in nanoseconds. */
  function ValidateDispatch(p: Profile, declared: string, e: Envelope): Verdict {
    var wholeSeconds, fractional := Quotient(p.timeout), Remainder(p.timeout);
    if p.id != e.adapter || p.family != e.family then DispatchMismatch
    else if e.maxSeconds <= 0 || wholeSeconds > e.maxSeconds || (wholeSeconds == e.maxSeconds && fractional > 0)
            || e.maxOutputBytes <= 0 || p.outputLimit > e.maxOutputBytes then ExceedsLimits
    else if declared != e.costClass then CostMismatch
    else Admitted
  }

  /** Nothing wraps: a profile is admitted exactly when its timeout and output limit
      are within the dispatch limits as integers, even where the limit in
      nanoseconds is no int64. */
  lemma DispatchLimitsExact(p: Profile, declared: string, e: Envelope)
    ensures ValidateDispatch(p, declared, e) == Admitted <==>
      && p.id == e.adapter && p.family == e.family && declared == e.costClass
      && 0 < e.maxSeconds && p.timeout <= e.maxSeconds * 1_000_000_000
      && 0 < e.maxOutputBytes && p.outputLimit <= e.maxOutputBytes
  {
    var q, r := Quotient(p.timeout), Remainder(p.timeout);
    assert p.timeout == q * SECOND + r && -SECOND < r < SECOND;
    assert p.timeout >= 0 ==> r >= 0;
  }

  /** An admitted run keeps no more output than the dispatch allows. */
  lemma AdmittedOutput(p: Profile, declared: string, e: Envelope, chunks: seq<Chunk>)
    requires ValidateDispatch(p, declared, e) == Admitted && p.outputLimit > 0
    ensures var r := WriteAll(p.outputLimit, chunks); |r.stdout.data| + |r.stderr.data| <= e.maxOutputBytes
  {
    BudgetShared(p.outputLimit, chunks);
  }
}
