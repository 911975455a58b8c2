/** `git status --porcelain=v1 -z` as `core/fingerprint/git.go` reads it. Bytes are
    characters; NUL ends every path. */
module GitStatus {
  import opened Wrappers

  const NUL: char := '\0'
  const LF: char := '\n'

  predicate Without(s: string, sep: char) {
    forall i :: 0 <= i < |s| ==> s[i] != sep
  }

  // ---------- Records ----------

  /** Each record followed by the separator. */
  function Terminated(records: seq<string>, sep: char): string {
    if records == [] then "" else records[0] + [sep] + Terminated(records[1..], sep)
  }

  function SepAt(s: string, sep: char): (i: nat)
    ensures i <= |s| && Without(s[..i], sep) && (i < |s| ==> s[i] == sep)
  {
    if s == "" || s[0] == sep then 0 else 1 + SepAt(s[1..], sep)
  }

  /** `bytes.Split`. */
  function Split(s: string, sep: char): (r: seq<string>)
    ensures r != []
    decreases |s|
  {
    var i := SepAt(s, sep);
    if i == |s| then [s] else [s[..i]] + Split(s[i + 1..], sep)
  }

  predicate AllWithout(records: seq<string>, sep: char) {
    forall i :: 0 <= i < |records| ==> Without(records[i], sep)
  }

  lemma {:induction false} SplitTerminates(s: string, sep: char)
    ensures AllWithout(Split(s, sep), sep) && Terminated(Split(s, sep), sep) == s + [sep]
    decreases |s|
  {
    var i := SepAt(s, sep);
    if i == |s| {
      assert s[..i] == s;
      assert Terminated([s], sep) == s + [sep] + Terminated([], sep);
    } else {
      var j := i + 1;
      var x, rest := s[..i], s[j..];
      SplitTerminates(rest, sep);
      SplitFirst(s, i, x, rest, sep);
      Joined(s, i, x, rest, Split(rest, sep), sep);
    }
  }

  lemma SplitFirst(s: string, i: nat, x: string, rest: string, sep: char)
    requires i == SepAt(s, sep) < |s| && x == s[..i] && rest == s[i + 1..]
    ensures Split(s, sep) == [x] + Split(rest, sep) && Without(x, sep) && s[i] == sep
  {
  }

  lemma Joined(s: string, i: nat, x: string, rest: string, more: seq<string>, sep: char)
    requires i < |s| && s[i] == sep && x == s[..i] && rest == s[i + 1..]
    requires Without(x, sep) && AllWithout(more, sep) && Terminated(more, sep) == rest + [sep]
    ensures AllWithout([x] + more, sep) && Terminated([x] + more, sep) == s + [sep]
  {
    FirstRecord(x, more, sep);
    Rejoin(s, i, x, rest, sep);
  }

  lemma FirstRecord(x: string, more: seq<string>, sep: char)
    ensures Terminated([x] + more, sep) == x + [sep] + Terminated(more, sep)
    ensures Without(x, sep) && AllWithout(more, sep) ==> AllWithout([x] + more, sep)
  {
    assert ([x] + more)[1..] == more;
  }

  lemma Rejoin(s: string, i: nat, x: string, rest: string, sep: char)
    requires i < |s| && s[i] == sep && x == s[..i] && rest == s[i + 1..]
    ensures x + [sep] + (rest + [sep]) == s + [sep]
  {
    assert s == x + [sep] + rest;
  }

  lemma {:induction false} SepAtIs(x: string, y: string, sep: char)
    requires Without(x, sep)
    ensures SepAt(x + [sep] + y, sep) == |x|
  {
    if x != "" {
      SepAtIs(x[1..], y, sep);
      assert (x + [sep] + y)[1..] == x[1..] + [sep] + y;
    }
  }

  lemma {:induction false} SepAtNone(x: string, sep: char)
    requires Without(x, sep)
    ensures SepAt(x, sep) == |x|
  {
    if x != "" {
      SepAtNone(x[1..], sep);
    }
  }

  lemma {:induction false} SplitOfTerminated(records: seq<string>, s: string, sep: char)
    requires records != [] && AllWithout(records, sep) && Terminated(records, sep) == s + [sep]
    ensures Split(s, sep) == records
    decreases |records|
  {
    var x, more := records[0], records[1..];
    if more == [] {
      LastRecord(x, s, sep);
      SepAtNone(x, sep);
    } else {
      var t := Terminated(more, sep);
      TerminatedEnds(more, sep);
      var y := t[..|t| - 1];
      assert t == y + [sep];
      Inner(x, y, s, t, sep);
      SepAtIs(x, y, sep);
      assert s[..|x|] == x && s[|x| + 1..] == y;
      SplitOfTerminated(more, y, sep);
      assert [x] + more == records;
    }
  }

  lemma LastRecord(x: string, s: string, sep: char)
    requires x + [sep] + "" == s + [sep]
    ensures s == x
  {
    assert s == (s + [sep])[..|s|];
    assert x == (x + [sep] + "")[..|x|];
  }

  lemma Inner(x: string, y: string, s: string, t: string, sep: char)
    requires t == y + [sep] && x + [sep] + t == s + [sep]
    ensures s == x + [sep] + y
  {
    assert x + [sep] + t == (x + [sep] + y) + [sep];
    assert s == (s + [sep])[..|s|];
    assert x + [sep] + y == ((x + [sep] + y) + [sep])[..|s|];
  }

  lemma {:induction false} TerminatedEnds(records: seq<string>, sep: char)
    requires records != []
    ensures var t := Terminated(records, sep); t != "" && t[|t| - 1] == sep
  {
    if |records| > 1 {
      TerminatedEnds(records[1..], sep);
    }
  }

  // ---------- Entries ----------

  /** A status entry; renames and copies carry the path they come from. */
  datatype Entry = Entry(x: char, y: char, path: string, origin: Option<string>)

  /** The letters of a short status. */
  predicate KnownCode(c: char) {
    c in {' ', 'M', 'T', 'A', 'D', 'R', 'C', 'U', '?', '!'}
  }

  predicate TwoPaths(x: char, y: char) {
    x == 'R' || x == 'C' || y == 'R' || y == 'C'
  }

  predicate CodesOk(x: char, y: char) {
    && KnownCode(x) && KnownCode(y) && !(x == ' ' && y == ' ')
    && (x == '?' <==> y == '?') && (x == '!' <==> y == '!')
  }

  predicate WellFormed(e: Entry) {
    && CodesOk(e.x, e.y) && e.path != "" && Without(e.path, NUL)
    && (e.origin.Some? <==> TwoPaths(e.x, e.y))
    && (e.origin.Some? ==> e.origin.value != "" && Without(e.origin.value, NUL))
  }

  predicate AllWellFormed(entries: seq<Entry>) {
    forall i :: 0 <= i < |entries| ==> WellFormed(entries[i])
  }

  function RecordOf(e: Entry): string {
    [e.x, e.y, ' '] + e.path
  }

  function RecordsOf(entries: seq<Entry>): seq<string> {
    if entries == [] then []
    else
      [RecordOf(entries[0])] + (if entries[0].origin.Some? then [entries[0].origin.value] else [])
      + RecordsOf(entries[1..])
  }

  /** The output of git for a list of entries. */
  function Encode(entries: seq<Entry>): string {
    Terminated(RecordsOf(entries), NUL)
  }

  // ---------- The parser ----------

  predicate ValidCode(c: char) {
    c == ' ' || c == 'M' || c == 'T' || c == 'A' || c == 'D' || c == 'R' || c == 'C' || c == 'U' || c == '?' || c == '!'
  }

  /** The test on one record, as written. */
  predicate Malformed(record: string) {
    |record| < 4 || record[2] != ' ' || !ValidCode(record[0]) || !ValidCode(record[1])
    || (record[0] == ' ' && record[1] == ' ')
    || (record[0] == '?' && record[1] != '?') || (record[1] == '?' && record[0] != '?')
    || (record[0] == '!' && record[1] != '!') || (record[1] == '!' && record[0] != '!')
    || |record[3..]| == 0
  }

  /** The entries of a list of records; None is an error. */
  function ParseRecords(records: seq<string>): Option<seq<Entry>>
    decreases |records|
  {
    if records == [] then Some([])
    else
      var r := records[0];
      if Malformed(r) then None
      else if TwoPaths(r[0], r[1]) then
        if |records| < 2 || records[1] == "" then None
        else
          match ParseRecords(records[2..])
          case None => None
          case Some(more) => Some([Entry(r[0], r[1], r[3..], Some(records[1]))] + more)
      else
        match ParseRecords(records[1..])
        case None => None
        case Some(more) => Some([Entry(r[0], r[1], r[3..], None)] + more)
  }

  /** `parseStatus`: an index walks the records; None is an error. */
  method ParseStatus(data: string) returns (dirty: Option<bool>)
    ensures dirty == Status(data)
  {
    if |data| == 0 {
      return Some(false);
    }
    if data[|data| - 1] != NUL {
      return None;
    }
    var records := Split(data[..|data| - 1], NUL);
    var any := false;
    var i := 0;
    while i < |records|
      invariant 0 <= i <= |records| && (any <==> i > 0)
      invariant ParseRecords(records).Some? <==> ParseRecords(records[i..]).Some?
    {
      var record := records[i];
      assert records[i..][0] == record && records[i..][1..] == records[i + 1..];
      if Malformed(record) {
        return None;
      }
      any := true;
      if record[0] == 'R' || record[0] == 'C' || record[1] == 'R' || record[1] == 'C' {
        if i + 1 >= |records| || |records[i + 1]| == 0 {
          return None;
        }
        assert records[i..][2..] == records[i + 2..];
        i := i + 1;
      }
      i := i + 1;
    }
    assert records[i..] == [];
    return Some(any);
  }

  /** What it answers. */
  function Status(data: string): Option<bool> {
    if data == "" then Some(false)
    else if data[|data| - 1] != NUL then None
    else if ParseRecords(Split(data[..|data| - 1], NUL)).None? then None
    else Some(true)
  }

  /** A record that passes the test is that of a well-formed entry. */
  lemma EntryBack(r: string, origin: Option<string>)
    requires !Malformed(r) && Without(r, NUL) && (origin.Some? <==> TwoPaths(r[0], r[1]))
    requires origin.Some? ==> origin.value != "" && Without(origin.value, NUL)
    ensures var e := Entry(r[0], r[1], r[3..], origin); WellFormed(e) && RecordOf(e) == r
  {
    assert r == [r[0], r[1], ' '] + r[3..];
  }

  function EntryRecords(e: Entry): seq<string> {
    [RecordOf(e)] + (if e.origin.Some? then [e.origin.value] else [])
  }

  lemma EntryFirst(e: Entry, more: seq<Entry>, es: seq<Entry>)
    requires es == [e] + more && WellFormed(e) && AllWellFormed(more)
    ensures AllWellFormed(es) && RecordsOf(es) == EntryRecords(e) + RecordsOf(more)
  {
    assert es[1..] == more && es[0] == e;
  }

  /** The records of the first entry. */
  lemma FirstParsed(records: seq<string>) returns (e: Entry, more: seq<string>)
    requires records != [] && AllWithout(records, NUL) && ParseRecords(records).Some?
    ensures WellFormed(e) && records == EntryRecords(e) + more && |more| < |records| && AllWithout(more, NUL)
    ensures ParseRecords(more).Some? && ParseRecords(records).value == [e] + ParseRecords(more).value
  {
    var r := records[0];
    if TwoPaths(r[0], r[1]) {
      var origin := records[1];
      e, more := Entry(r[0], r[1], r[3..], Some(origin)), records[2..];
      EntryBack(r, Some(origin));
      assert records == [r] + [origin] + more;
    } else {
      e, more := Entry(r[0], r[1], r[3..], None), records[1..];
      EntryBack(r, None);
      assert records == [r] + [] + more;
    }
  }

  lemma {:induction false} ParsedRecords(records: seq<string>)
    requires AllWithout(records, NUL) && ParseRecords(records).Some?
    ensures var es := ParseRecords(records).value;
            AllWellFormed(es) && RecordsOf(es) == records && (es == [] <==> records == [])
    decreases |records|
  {
    if records != [] {
      var e, more := FirstParsed(records);
      ParsedRecords(more);
      EntryFirst(e, ParseRecords(more).value, ParseRecords(records).value);
    }
  }

  lemma {:induction false} ParseOfRecords(entries: seq<Entry>)
    requires AllWellFormed(entries)
    ensures ParseRecords(RecordsOf(entries)) == Some(entries) && AllWithout(RecordsOf(entries), NUL)
  {
    if entries != [] {
      var e, more := entries[0], entries[1..];
      ParseOfRecords(more);
      var r, records := RecordOf(e), RecordsOf(entries);
      assert r[3..] == e.path && records[0] == r;
      assert entries == [e] + more;
      if e.origin.Some? {
        assert records[2..] == RecordsOf(more) && records[1] == e.origin.value;
      } else {
        assert records[1..] == RecordsOf(more);
      }
    }
  }

  // ---------- The encoding ----------

  /** Accepted are exactly the encodings of lists of well-formed entries, and the
      answer is dirty exactly when the list is not empty. */
  lemma StatusIff(data: string, dirty: bool)
    ensures Status(data) == Some(dirty) <==>
            exists entries :: AllWellFormed(entries) && Encode(entries) == data && (dirty <==> entries != [])
  {
    if Status(data) == Some(dirty) {
      if data == "" {
        assert Encode([]) == data && AllWellFormed([]);
      } else {
        var s := data[..|data| - 1];
        SplitTerminates(s, NUL);
        ParsedRecords(Split(s, NUL));
        var entries := ParseRecords(Split(s, NUL)).value;
        assert Encode(entries) == data;
      }
    }
    if entries :| AllWellFormed(entries) && Encode(entries) == data && (dirty <==> entries != []) {
      StatusOfEncode(entries);
    }
  }

  lemma StatusOfEncode(entries: seq<Entry>)
    requires AllWellFormed(entries)
    ensures Status(Encode(entries)) == Some(entries != [])
    ensures entries != [] ==> var data := Encode(entries);
              data != "" && ParseRecords(Split(data[..|data| - 1], NUL)) == Some(entries)
  {
    if entries != [] {
      var data := Encode(entries);
      ParseOfRecords(entries);
      TerminatedEnds(RecordsOf(entries), NUL);
      assert data == data[..|data| - 1] + [NUL];
      SplitOfTerminated(RecordsOf(entries), data[..|data| - 1], NUL);
    }
  }

  /** No output encodes two lists. */
  lemma EncodeUnique(a: seq<Entry>, b: seq<Entry>)
    requires AllWellFormed(a) && AllWellFormed(b) && Encode(a) == Encode(b)
    ensures a == b
  {
    StatusOfEncode(a);
    StatusOfEncode(b);
  }
}
