/** `git submodule status --recursive` as `core/fingerprint/git.go` reads it, and
    when a workspace counts as clean. */
module GitSubmodules {
  import opened Wrappers
  import opened GitStatus

  /** Whether trimming white space leaves nothing. */
  type Blank = string -> bool

  predicate IsObjectId(s: string) {
    (|s| == 40 || |s| == 64) && forall i :: 0 <= i < |s| ==> '0' <= s[i] <= '9' || 'a' <= s[i] <= 'f'
  }

  predicate Printable(s: string) {
    forall i :: 0 <= i < |s| ==> s[i] as int >= 0x20 && s[i] as int != 0x7f
  }

  /** The rest of a line: an object id of this size, a space, a path. */
  predicate Shaped(rest: string, size: nat) {
    |rest| > size && rest[size] == ' ' && IsObjectId(rest[..size])
  }

  /** A state letter, an object id of either length, and a printable path. */
  predicate ValidLine(line: string, blank: Blank) {
    |line| >= 2 && line[0] in {' ', '+', '-', 'U'} &&
    exists size | size in {40, 64} ::
      Shaped(line[1..], size) && !blank(line[1..][size + 1..]) && Printable(line[1..][size + 1..])
  }

  /** No text has the shape of both lengths: the first that fits decides. */
  lemma OneShape(rest: string)
    requires Shaped(rest, 64)
    ensures !Shaped(rest, 40)
  {
    assert rest[..64][40] == rest[40];
  }

  /** `validSubmoduleLine`. */
  method ValidSubmoduleLine(line: string, blank: Blank) returns (ok: bool)
    ensures ok <==> ValidLine(line, blank)
  {
    if |line| < 2 || (line[0] != ' ' && line[0] != '+' && line[0] != '-' && line[0] != 'U') {
      return false;
    }
    var rest := line[1..];
    if Shaped(rest, 64) {
      OneShape(rest);
    }
    var sizes := [40, 64];
    var i := 0;
    while i < 2
      invariant 0 <= i <= 2 && (i >= 1 ==> !Shaped(rest, 40)) && (i >= 2 ==> !Shaped(rest, 64))
    {
      var size := sizes[i];
      if Shaped(rest, size) {
        var path := rest[size + 1..];
        if blank(path) {
          return false;
        }
        ok := AllPrintable(path);
        return;
      }
      i := i + 1;
    }
    return false;
  }

  method AllPrintable(path: string) returns (ok: bool)
    ensures ok <==> Printable(path)
  {
    var i := 0;
    while i < |path|
      invariant 0 <= i <= |path| && forall j :: 0 <= j < i ==> path[j] as int >= 0x20 && path[j] as int != 0x7f
    {
      if path[i] as int < 0x20 || path[i] as int == 0x7f {
        return false;
      }
      i := i + 1;
    }
    return true;
  }

  predicate LineOk(line: string, blank: Blank) {
    line != "" && !blank(line) && ValidLine(line, blank) && Without(line, NUL)
  }

  predicate LinesOk(lines: seq<string>, blank: Blank) {
    forall i :: 0 <= i < |lines| ==> LineOk(lines[i], blank)
  }

  /** The lines of a nonempty output end in exactly one line feed and hold no NUL. */
  predicate OneFinalFeed(data: string)
    requires data != ""
  {
    data[|data| - 1] == LF && !(|data| > 1 && data[|data| - 2] == LF)
  }

  /** `parseSubmoduleStatus`: None is an error. */
  method ParseSubmoduleStatus(data: string, blank: Blank) returns (dirty: Option<bool>)
    ensures dirty == Submodules(data, blank)
  {
    if |data| == 0 {
      return Some(false);
    }
    if !OneFinalFeed(data) {
      return None;
    }
    var body := data[..|data| - 1];
    if NUL in body {
      return None;
    }
    var lines := Split(body, LF);
    var i := 0;
    while i < |lines|
      invariant 0 <= i <= |lines| && forall j :: 0 <= j < i ==> Checked(lines[j], blank)
    {
      var valid := ValidSubmoduleLine(lines[i], blank);
      if |lines[i]| == 0 || blank(lines[i]) || !valid {
        return None;
      }
      i := i + 1;
    }
    return Some(true);
  }

  predicate Checked(line: string, blank: Blank) {
    line != "" && !blank(line) && ValidLine(line, blank)
  }

  function Submodules(data: string, blank: Blank): Option<bool> {
    if data == "" then Some(false)
    else if !OneFinalFeed(data) || NUL in data[..|data| - 1] then None
    else
      var lines := Split(data[..|data| - 1], LF);
      if forall i :: 0 <= i < |lines| ==> Checked(lines[i], blank) then Some(true) else None
  }

  lemma {:induction false} PiecesWithout(lines: seq<string>, sep: char, c: char)
    requires c != sep
    ensures c in Terminated(lines, sep) <==> exists i :: 0 <= i < |lines| && c in lines[i]
  {
    if lines != [] {
      PiecesWithout(lines[1..], sep, c);
      var t := Terminated(lines[1..], sep);
      assert c in Terminated(lines, sep) <==> c in lines[0] || c in t;
      if c in t {
        var i :| 0 <= i < |lines[1..]| && c in lines[1..][i];
        assert c in lines[i + 1];
      }
      if i :| 0 <= i < |lines| && c in lines[i] {
        if i > 0 {
          var k := i - 1;
          assert c in lines[1..][k];
        }
      }
    }
  }

  /** Accepted as dirty are exactly the nonempty lists of well-formed lines, each
      ended by a line feed. */
  lemma SubmodulesIff(data: string, blank: Blank)
    ensures Submodules(data, blank) == Some(true) <==>
            exists lines ::
              lines != [] && AllWithout(lines, LF) && LinesOk(lines, blank) && Terminated(lines, LF) == data
  {
    if Submodules(data, blank) == Some(true) {
      var body := data[..|data| - 1];
      var lines := Split(body, LF);
      SplitTerminates(body, LF);
      assert data == body + [LF];
      NoNulInLines(lines, body);
      assert LinesOk(lines, blank);
    }
    if lines :| lines != [] && AllWithout(lines, LF) && LinesOk(lines, blank) && Terminated(lines, LF) == data {
      LinesAccepted(lines, blank, data);
    }
  }

  lemma NoNulInLines(lines: seq<string>, body: string)
    requires Terminated(lines, LF) == body + [LF]
    ensures NUL !in body <==> forall i :: 0 <= i < |lines| ==> Without(lines[i], NUL)
  {
    PiecesWithout(lines, LF, NUL);
    assert NUL in body + [LF] <==> NUL in body;
  }

  lemma {:induction false} LastOfLines(lines: seq<string>)
    requires lines != [] && AllWithout(lines, LF) && lines[|lines| - 1] != ""
    ensures var t := Terminated(lines, LF); |t| >= 2 && t[|t| - 1] == LF && t[|t| - 2] != LF
  {
    if |lines| == 1 {
      assert Terminated(lines, LF) == lines[0] + [LF];
    } else {
      LastOfLines(lines[1..]);
    }
  }

  lemma LinesAccepted(lines: seq<string>, blank: Blank, data: string)
    requires lines != [] && AllWithout(lines, LF) && LinesOk(lines, blank) && Terminated(lines, LF) == data
    ensures Submodules(data, blank) == Some(true)
  {
    LastOfLines(lines);
    var body := data[..|data| - 1];
    assert data == body + [LF];
    SplitOfTerminated(lines, body, LF);
    NoNulInLines(lines, body);
  }

  // ---------- Clean ----------

  datatype Cleanliness = Clean | Dirty | BadOutput

  /** `requireClean` on the two outputs of git. */
  function RequireClean(status: string, submodules: string, blank: Blank): Cleanliness {
    match Status(status)
    case None => BadOutput
    case Some(true) => Dirty
    case Some(false) =>
      match Submodules(submodules, blank)
      case None => BadOutput
      case Some(true) => Dirty
      case Some(false) => Clean
  }

  /** A workspace counts as clean exactly when git printed nothing at all. */
  lemma CleanIffSilent(status: string, submodules: string, blank: Blank)
    ensures RequireClean(status, submodules, blank) == Clean <==> status == "" && submodules == ""
  {
  }
}
