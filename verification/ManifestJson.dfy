/** The JSON form of a manifest, field by field, and what reading makes of it. */
module ManifestJson {
  import opened Wrappers
  import opened Order
  import opened Manifest
  import opened CanonParse
  import opened JsonRecord
  import L = Lifecycle

  /** The text of an instant, and its inverse. */
  datatype Times = Times(text: Instant -> string, parse: string -> Option<Instant>)

  ghost predicate TimesOk(t: Times) {
    forall i :: t.parse(t.text(i)) == Some(i)
  }

  function ReadTime(t: Times, o: Option<Json>): Option<Instant> {
    match ReadText(o)
    case None => None
    case Some(s) => t.parse(s)
  }

  // ---------- States ----------

  function StateText(s: L.State): string {
    match s
    case Planned => "PLANNED"
    case Active => "ACTIVE"
    case Frozen => "FROZEN"
    case Reviewed => "REVIEWED"
    case Ready => "READY"
    case Closed => "CLOSED"
    case Blocked => "BLOCKED"
    case Abandoned => "ABANDONED"
    case Incident => "INCIDENT"
    case Other(name) => name
  }

  function StateOf(s: string): L.State {
    if s == "PLANNED" then L.Planned
    else if s == "ACTIVE" then L.Active
    else if s == "FROZEN" then L.Frozen
    else if s == "REVIEWED" then L.Reviewed
    else if s == "READY" then L.Ready
    else if s == "CLOSED" then L.Closed
    else if s == "BLOCKED" then L.Blocked
    else if s == "ABANDONED" then L.Abandoned
    else if s == "INCIDENT" then L.Incident
    else L.Other(s)
  }

  /** `Other` stands for strings that name no state. */
  predicate ProperState(s: L.State) {
    StateOf(StateText(s)) == s
  }

  lemma KnownProper(s: L.State)
    requires L.KnownState(s) || s == L.Other("")
    ensures ProperState(s)
  {
  }

  lemma ReadProper(s: string)
    ensures ProperState(StateOf(s))
  {
  }

  // ---------- Lists of strings ----------

  function StrJson(s: string): Json {
    JStr(s)
  }

  function ReadStr(v: Json): Option<string> {
    ReadText(Some(v))
  }

  /** A nil list is null. */
  function StringsJson(o: Option<seq<string>>): Option<Json> {
    Some(if o.None? then JNull else JArr(ListJson(o.value, StrJson)))
  }

  function ReadStrings(o: Option<Json>): Option<Option<seq<string>>> {
    if o.None? || o.value.JNull? then Some(None)
    else if !o.value.JArr? then None
    else
      match ReadItems(o.value.items, ReadStr)
      case None => None
      case Some(s) => Some(Some(s))
  }

  lemma StringsInverse(o: Option<seq<string>>)
    ensures ReadStrings(StringsJson(o)) == Some(o) && AllCanonical(StringsJson(o).value)
  {
    if o.Some? {
      ListInverse(o.value, StrJson, ReadStr);
    }
  }

  // ---------- Dispatch ----------

  const DISPATCH_KEYS: seq<string> := [
    "workspace", "source_control", "writer", "adapter", "family", "seat_id", "cost_class", "review_policy",
    "allowed_paths", "forbidden_paths", "non_goals", "required_checks",
    "max_seconds", "max_output_bytes", "max_memory_bytes"]

  function DispatchTexts(d: Dispatch): seq<string> {
    [d.workspace, d.sourceControl, d.writer, d.adapter, d.family, d.seatId, d.costClass, d.reviewPolicy]
  }

  function DispatchLists(d: Dispatch): seq<Option<seq<string>>> {
    [d.allowedPaths, d.forbiddenPaths, d.nonGoals, d.requiredChecks]
  }

  function DispatchLimits(d: Dispatch): seq<int> {
    [d.maxSeconds, d.maxOutputBytes, d.maxMemoryBytes]
  }

  function DispatchValues(d: Dispatch): seq<Option<Json>> {
    TextFields(DispatchTexts(d)) + ListFields(DispatchLists(d)) + IntFields(DispatchLimits(d))
  }

  function TextFields(s: seq<string>): (r: seq<Option<Json>>)
    ensures |r| == |s| && forall i :: 0 <= i < |s| ==> r[i] == Some(JStr(s[i]))
  {
    seq(|s|, i requires 0 <= i < |s| => Some(JStr(s[i])))
  }

  function ListFields(s: seq<Option<seq<string>>>): (r: seq<Option<Json>>)
    ensures |r| == |s| && forall i :: 0 <= i < |s| ==> r[i] == StringsJson(s[i])
  {
    seq(|s|, i requires 0 <= i < |s| => StringsJson(s[i]))
  }

  function IntFields(s: seq<int>): (r: seq<Option<Json>>)
    ensures |r| == |s| && forall i :: 0 <= i < |s| ==> r[i] == Some(IntJson(s[i]))
  {
    seq(|s|, i requires 0 <= i < |s| => Some(IntJson(s[i])))
  }

  function ReadDispatchValues(g: seq<Option<Json>>): Option<Dispatch>
    requires |g| == 15
  {
    var a, b, c, d, e, f, h, i := ReadText(g[0]), ReadText(g[1]), ReadText(g[2]), ReadText(g[3]), ReadText(g[4]),
                                  ReadText(g[5]), ReadText(g[6]), ReadText(g[7]);
    var j, k, l, m := ReadStrings(g[8]), ReadStrings(g[9]), ReadStrings(g[10]), ReadStrings(g[11]);
    var n, o, p := ReadInt(g[12]), ReadInt(g[13]), ReadInt(g[14]);
    if a.None? || b.None? || c.None? || d.None? || e.None? || f.None? || h.None? || i.None? || j.None? || k.None?
       || l.None? || m.None? || n.None? || o.None? || p.None? then None
    else
      Some(Dispatch(a.value, b.value, c.value, d.value, e.value, f.value, h.value, j.value, k.value, l.value, m.value,
                    i.value, n.value, o.value, p.value))
  }

  predicate DispatchInt64(d: Dispatch) {
    IsInt64(d.maxSeconds) && IsInt64(d.maxOutputBytes) && IsInt64(d.maxMemoryBytes)
  }

  lemma DispatchPlaces(d: Dispatch, g: seq<Option<Json>>)
    requires g == DispatchValues(d)
    ensures |g| == 15 && g[0] == Some(JStr(d.workspace)) && g[1] == Some(JStr(d.sourceControl))
    ensures g[2] == Some(JStr(d.writer)) && g[3] == Some(JStr(d.adapter)) && g[4] == Some(JStr(d.family))
    ensures g[5] == Some(JStr(d.seatId)) && g[6] == Some(JStr(d.costClass)) && g[7] == Some(JStr(d.reviewPolicy))
    ensures g[8] == StringsJson(d.allowedPaths) && g[9] == StringsJson(d.forbiddenPaths)
    ensures g[10] == StringsJson(d.nonGoals) && g[11] == StringsJson(d.requiredChecks)
    ensures g[12] == Some(IntJson(d.maxSeconds)) && g[13] == Some(IntJson(d.maxOutputBytes))
    ensures g[14] == Some(IntJson(d.maxMemoryBytes))
  {
  }

  lemma ReadDispatchFrom(g: seq<Option<Json>>, d: Dispatch)
    requires |g| == 15 && ReadText(g[0]) == Some(d.workspace) && ReadText(g[1]) == Some(d.sourceControl)
    requires ReadText(g[2]) == Some(d.writer) && ReadText(g[3]) == Some(d.adapter) && ReadText(g[4]) == Some(d.family)
    requires ReadText(g[5]) == Some(d.seatId) && ReadText(g[6]) == Some(d.costClass)
    requires ReadText(g[7]) == Some(d.reviewPolicy)
    requires ReadStrings(g[8]) == Some(d.allowedPaths) && ReadStrings(g[9]) == Some(d.forbiddenPaths)
    requires ReadStrings(g[10]) == Some(d.nonGoals) && ReadStrings(g[11]) == Some(d.requiredChecks)
    requires ReadInt(g[12]) == Some(d.maxSeconds) && ReadInt(g[13]) == Some(d.maxOutputBytes)
    requires ReadInt(g[14]) == Some(d.maxMemoryBytes)
    ensures ReadDispatchValues(g) == Some(d)
  {
  }

  lemma DispatchValuesInverse(d: Dispatch)
    requires DispatchInt64(d)
    ensures ReadDispatchValues(DispatchValues(d)) == Some(d)
  {
    DispatchPlaces(d, DispatchValues(d));
    StringsInverse(d.allowedPaths);
    StringsInverse(d.forbiddenPaths);
    StringsInverse(d.nonGoals);
    StringsInverse(d.requiredChecks);
    IntInverse(d.maxSeconds);
    IntInverse(d.maxOutputBytes);
    IntInverse(d.maxMemoryBytes);
    ReadDispatchFrom(DispatchValues(d), d);
  }

  lemma FieldsJoin(a: seq<Option<Json>>, b: seq<Option<Json>>)
    requires FieldsCanonical(a) && FieldsCanonical(b)
    ensures FieldsCanonical(a + b)
  {
  }

  lemma TextsCanonical(s: seq<string>)
    ensures FieldsCanonical(TextFields(s))
  {
  }

  lemma ListsCanonical(s: seq<Option<seq<string>>>)
    ensures FieldsCanonical(ListFields(s))
  {
    forall i | 0 <= i < |s|
      ensures FieldCanonical(ListFields(s)[i])
    {
      StringsInverse(s[i]);
    }
  }

  lemma IntsCanonical(s: seq<int>)
    ensures FieldsCanonical(IntFields(s))
  {
    forall i | 0 <= i < |s|
      ensures FieldCanonical(IntFields(s)[i])
    {
      if IsInt64(s[i]) {
        IntCanonical(s[i]);
      }
    }
  }

  lemma DispatchValuesCanonical(d: Dispatch)
    ensures FieldsCanonical(DispatchValues(d))
  {
    TextsCanonical(DispatchTexts(d));
    ListsCanonical(DispatchLists(d));
    IntsCanonical(DispatchLimits(d));
    FieldsJoin(TextFields(DispatchTexts(d)), ListFields(DispatchLists(d)));
    FieldsJoin(TextFields(DispatchTexts(d)) + ListFields(DispatchLists(d)), IntFields(DispatchLimits(d)));
  }

  function DispatchJson(d: Dispatch): Json {
    JObj(Record(DISPATCH_KEYS, DispatchValues(d)))
  }

  /** A struct field: absent or null leaves every field empty. */
  function ReadStruct(o: Option<Json>, keys: seq<string>): Option<seq<Option<Json>>> {
    if o.None? || o.value.JNull? then Some(Gets(map[], keys))
    else if !o.value.JObj? || !Known(o.value.fields, keys) then None
    else Some(Gets(o.value.fields, keys))
  }

  lemma StructInverse(keys: seq<string>, values: seq<Option<Json>>)
    requires |keys| == |values| && Distinct(keys)
    requires FieldsCanonical(values)
    ensures ReadStruct(Some(JObj(Record(keys, values))), keys) == Some(values)
    ensures AllCanonical(JObj(Record(keys, values)))
  {
    RecordInverse(keys, values);
    RecordCanonical(keys, values);
  }

  function ReadDispatch(o: Option<Json>): Option<Dispatch> {
    match ReadStruct(o, DISPATCH_KEYS)
    case None => None
    case Some(g) => ReadDispatchValues(g)
  }

  lemma DispatchKeysDistinct()
    ensures Distinct(DISPATCH_KEYS)
  {
  }

  lemma DispatchInverse(d: Dispatch)
    requires DispatchInt64(d)
    ensures ReadDispatch(Some(DispatchJson(d))) == Some(d)
  {
    DispatchKeysDistinct();
    DispatchValuesCanonical(d);
    StructInverse(DISPATCH_KEYS, DispatchValues(d));
    DispatchValuesInverse(d);
  }

  lemma DispatchCanonical(d: Dispatch)
    ensures AllCanonical(DispatchJson(d))
  {
    DispatchValuesCanonical(d);
    RecordCanonical(DISPATCH_KEYS, DispatchValues(d));
  }
}
