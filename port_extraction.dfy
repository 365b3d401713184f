/**
 * `parse_port_info`: the fold from the matches of the port-list pattern to a map from
 * port id to `PortInfo`. The pattern engine itself is not modelled: its matches arrive
 * as a sequence of capture tuples, left to right.
 */
module PortExtraction {
  import opened Outcomes
  import opened Decimal

  /** `PortInfo((id, name, count))`: a docking port, its display name, its bicycle count. */
  datatype PortInfo = PortInfo(id: string, name: string, count: nat)

  /**
   * One match of the port-list pattern: capture groups 1 to 4, the park code, the port
   * id, the display name and the digit run before "台". `None` is a group that did not
   * take part in the match.
   */
  datatype Capture = Capture(code: Option<string>, id: Option<string>, name: Option<string>, digits: Option<string>)

  /** What the pattern guarantees: every group takes part and group 4 is `[0-9]*?`. */
  predicate PatternShaped(c: Capture) {
    c.code.Some? && c.id.Some? && c.name.Some? && c.digits.Some? && AllDigits(c.digits.value)
  }

  /** The closure keeps a match when groups 2, 3 and 4 are all present. */
  predicate Complete(c: Capture) {
    c.id.Some? && c.name.Some? && c.digits.Some?
  }

  /** The `unwrap` of the digit parse panics on this match. */
  predicate Panics(c: Capture) {
    c.digits.Some? && ParseUsize(c.digits.value).Err?
  }

  /** Every entry is stored under its own record's id. */
  ghost predicate KeyedById(m: map<string, PortInfo>) {
    forall k :: k in m ==> m[k].id == k
  }

  /** The record a complete, non-panicking match contributes. */
  function RecordOf(c: Capture): (p: PortInfo)
    requires Complete(c) && !Panics(c)
    ensures p.id == c.id.value && p.name == c.name.value
    ensures AllDigits(DigitRun(c.digits.value)) && p.count == DecimalValue(DigitRun(c.digits.value))
    ensures p.count <= USIZE_MAX
  {
    ParseUsizeValue(c.digits.value);
    PortInfo(c.id.value, c.name.value, ParseUsize(c.digits.value).value)
  }

  /**
   * The closure given to `filter_map`: all four groups are read first, the digit run
   * parsed and unwrapped (an `Err` is a panic, whatever the other groups hold), and the
   * pair (id, record) is kept only when id, name and count are all present.
   */
  function CaptureEntry(c: Capture): (r: Result<Option<(string, PortInfo)>, IntErrorKind>)
    ensures r.Err? <==> Panics(c)
    ensures r.Err? ==> r.error == ParseUsize(c.digits.value).error
    ensures r.Ok? ==> (r.value.Some? <==> Complete(c))
    ensures r.Ok? && r.value.Some? ==> r.value.value == (c.id.value, RecordOf(c))
  {
    var cyclesNum: Result<Option<nat>, IntErrorKind> :=
      match c.digits
      case None => Ok(None)
      case Some(d) =>
        match ParseUsize(d)
        case Err(k) => Err(k)
        case Ok(n) => Ok(Some(n));
    match cyclesNum
    case Err(k) => Err(k)
    case Ok(n) =>
      if c.id.Some? && c.name.Some? && n.Some? then
        Ok(Some((c.id.value, PortInfo(c.id.value, c.name.value, n.value))))
      else
        Ok(None)
  }

  /**
   * `filter_map(...).collect::<HashMap<_, _>>()`: the matches are consumed left to right,
   * each kept pair is inserted, overwriting an earlier entry with the same key, and the
   * first panicking match aborts the whole extraction.
   */
  function ParsePortInfo(caps: seq<Capture>): (r: Result<map<string, PortInfo>, IntErrorKind>)
    ensures r.Ok? ==> KeyedById(r.value)
    ensures r.Ok? ==> forall k :: k in r.value ==> r.value[k].count <= USIZE_MAX
    decreases |caps|
  {
    if caps == [] then Ok(map[])
    else
      match ParsePortInfo(caps[..|caps| - 1])
      case Err(k) => Err(k)
      case Ok(m) =>
        match CaptureEntry(caps[|caps| - 1])
        case Err(k) => Err(k)
        case Ok(None) => Ok(m)
        case Ok(Some(entry)) => Ok(m[entry.0 := entry.1])
  }

  /**
   * The extraction panics exactly when some match's digit run does not parse, and the
   * panic is the one of the first such match.
   */
  lemma {:induction false} ParsePanics(caps: seq<Capture>)
    ensures ParsePortInfo(caps).Err? <==> exists i :: 0 <= i < |caps| && Panics(caps[i])
    ensures ParsePortInfo(caps).Err? ==>
      exists i :: 0 <= i < |caps| && Panics(caps[i]) && (forall j :: 0 <= j < i ==> !Panics(caps[j])) &&
        ParsePortInfo(caps).error == ParseUsize(caps[i].digits.value).error
    decreases |caps|
  {
    if caps != [] {
      var p := caps[..|caps| - 1];
      ParsePanics(p);
      assert forall i :: 0 <= i < |p| ==> p[i] == caps[i];
      if ParsePortInfo(p).Err? {
        var i :| 0 <= i < |p| && Panics(p[i]) && (forall j :: 0 <= j < i ==> !Panics(p[j])) &&
          ParsePortInfo(p).error == ParseUsize(p[i].digits.value).error;
        assert Panics(caps[i]) && forall j :: 0 <= j < i ==> !Panics(caps[j]);
      } else if Panics(caps[|caps| - 1]) {
        assert forall j :: 0 <= j < |caps| - 1 ==> !Panics(caps[j]);
      } else {
        forall i | 0 <= i < |caps| ensures !Panics(caps[i]) {
          if i < |p| { assert caps[i] == p[i]; }
        }
      }
    }
  }

  /** The ids of the complete matches among `caps`. */
  ghost function CapturedIds(caps: seq<Capture>): set<string> {
    set i | 0 <= i < |caps| && Complete(caps[i]) :: caps[i].id.value
  }

  /** The key set of the map is exactly the set of ids captured by complete matches. */
  lemma {:induction false} ParseKeys(caps: seq<Capture>)
    requires ParsePortInfo(caps).Ok?
    ensures ParsePortInfo(caps).value.Keys == CapturedIds(caps)
    decreases |caps|
  {
    if caps != [] {
      var p := caps[..|caps| - 1];
      var last := caps[|caps| - 1];
      ParseKeys(p);
      assert forall i :: 0 <= i < |p| ==> p[i] == caps[i];
      var add := if Complete(last) then {last.id.value} else {};
      assert CapturedIds(caps) == CapturedIds(p) + add by {
        forall k | k in CapturedIds(caps) ensures k in CapturedIds(p) + add {
          var i :| 0 <= i < |caps| && Complete(caps[i]) && caps[i].id.value == k;
          if i < |p| { assert k in CapturedIds(p); }
        }
        forall k | k in CapturedIds(p) ensures k in CapturedIds(caps) {
          var i :| 0 <= i < |p| && Complete(p[i]) && p[i].id.value == k;
          assert caps[i] == p[i];
        }
        if Complete(last) {
          assert caps[|caps| - 1] == last;
        }
      }
    }
  }

  /**
   * Last match wins: the record stored under a captured id is the one of the latest
   * complete match carrying that id, with the decimal value of its digit run.
   */
  lemma {:induction false} ParseLastWins(caps: seq<Capture>, i: nat)
    requires ParsePortInfo(caps).Ok?
    requires i < |caps| && Complete(caps[i])
    requires forall j :: i < j < |caps| && Complete(caps[j]) ==> caps[j].id != caps[i].id
    ensures !Panics(caps[i])
    ensures caps[i].id.value in ParsePortInfo(caps).value
    ensures ParsePortInfo(caps).value[caps[i].id.value] == RecordOf(caps[i])
    decreases |caps|
  {
    ParsePanics(caps);
    var p := caps[..|caps| - 1];
    var last := caps[|caps| - 1];
    if i < |caps| - 1 {
      assert forall j :: 0 <= j < |p| ==> p[j] == caps[j];
      ParseLastWins(p, i);
    }
  }

  /** The park code (group 1) never reaches the result: matches differing only there give the same outcome. */
  lemma {:induction false} ParseIgnoresCode(a: seq<Capture>, b: seq<Capture>)
    requires |a| == |b|
    requires forall i :: 0 <= i < |a| ==> a[i].id == b[i].id && a[i].name == b[i].name && a[i].digits == b[i].digits
    ensures ParsePortInfo(a) == ParsePortInfo(b)
    decreases |a|
  {
    if a != [] {
      ParseIgnoresCode(a[..|a| - 1], b[..|b| - 1]);
    }
  }

  /**
   * On what the pattern actually yields, the extraction panics exactly when some digit
   * run is empty or exceeds `usize`, and otherwise keys every match's id.
   */
  lemma ParseShaped(caps: seq<Capture>)
    requires forall i :: 0 <= i < |caps| ==> PatternShaped(caps[i])
    ensures ParsePortInfo(caps).Err? <==>
      exists i :: 0 <= i < |caps| && PatternShaped(caps[i]) && (caps[i].digits.value == [] || DecimalValue(caps[i].digits.value) > USIZE_MAX)
    ensures ParsePortInfo(caps).Ok? ==> ParsePortInfo(caps).value.Keys == set i | 0 <= i < |caps| && PatternShaped(caps[i]) :: caps[i].id.value
  {
    ParsePanics(caps);
    forall i | 0 <= i < |caps|
      ensures Panics(caps[i]) <==> caps[i].digits.value == [] || DecimalValue(caps[i].digits.value) > USIZE_MAX
    {
      ParseDigitRun(caps[i].digits.value);
    }
    if ParsePortInfo(caps).Ok? {
      ParseKeys(caps);
    }
  }
}
