/**
 * The report of `register_ports`: the received records are folded into an HTML table,
 * one row per record in arrival order, and the table is closed.
 */
module TableRendering {
  import opened Outcomes
  import opened Decimal
  import opened PortExtraction

  const TableOpen: string := "<table border=1>"
  const TableClose: string := "</table>"

  /** The row `format!` builds for one record: name and count; the id is dropped, the name is not escaped. */
  function Row(port: PortInfo): string {
    "<tr><td>" + port.name + "</td><td>" + NatToDecimal(port.count) + "</td></tr>"
  }

  /** `rx.fold(sum, |sum, port| ...)`: each record appends its row to the accumulator. */
  function FoldRows(sum: string, ports: seq<PortInfo>): string
    decreases |ports|
  {
    if ports == [] then sum else FoldRows(sum + Row(ports[0]), ports[1..])
  }

  /** The fold started at the table header, then the closing `format!`. */
  function RenderTable(ports: seq<PortInfo>): string {
    FoldRows(TableOpen, ports) + TableClose
  }

  /** Reference definition: the rows of the records, one after another. */
  function Rows(ports: seq<PortInfo>): string
    decreases |ports|
  {
    if ports == [] then "" else Row(ports[0]) + Rows(ports[1..])
  }

  /** The fold appends exactly the rows of the records to its starting accumulator. */
  lemma {:induction false} FoldRowsAppends(sum: string, ports: seq<PortInfo>)
    ensures FoldRows(sum, ports) == sum + Rows(ports)
    decreases |ports|
  {
    if ports != [] {
      FoldRowsAppends(sum + Row(ports[0]), ports[1..]);
    }
  }

  /** Rows are compositional: the rows of `a + b` are the rows of `a` followed by those of `b`. */
  lemma {:induction false} RowsAppend(a: seq<PortInfo>, b: seq<PortInfo>)
    ensures Rows(a + b) == Rows(a) + Rows(b)
    decreases |a|
  {
    if a == [] {
      assert a + b == b;
    } else {
      assert (a + b)[1..] == a[1..] + b;
      RowsAppend(a[1..], b);
    }
  }

  /** The fold itself is compositional: folding `a + b` is folding `b` after the fold of `a`. */
  lemma FoldRowsSplit(sum: string, a: seq<PortInfo>, b: seq<PortInfo>)
    ensures FoldRows(sum, a + b) == FoldRows(FoldRows(sum, a), b)
  {
    FoldRowsAppends(sum, a + b);
    FoldRowsAppends(sum, a);
    FoldRowsAppends(FoldRows(sum, a), b);
    RowsAppend(a, b);
  }

  /** The report is the header, the rows of the records in order, and the footer. */
  lemma RenderTableShape(ports: seq<PortInfo>)
    ensures RenderTable(ports) == TableOpen + Rows(ports) + TableClose
    ensures RenderTable(ports)[..|TableOpen|] == TableOpen
    ensures RenderTable(ports)[|RenderTable(ports)| - |TableClose|..] == TableClose
  {
    FoldRowsAppends(TableOpen, ports);
  }

  /** No records give the bare table. */
  lemma RenderEmpty()
    ensures RenderTable([]) == "<table border=1></table>"
  {
  }

  /** Row `i` of the report is the row of the `i`-th record, placed after the rows of the earlier ones. */
  lemma RenderRowAt(ports: seq<PortInfo>, i: nat)
    requires i < |ports|
    ensures var start := |TableOpen| + |Rows(ports[..i])|;
      start + |Row(ports[i])| <= |RenderTable(ports)| &&
      RenderTable(ports)[start..start + |Row(ports[i])|] == Row(ports[i])
  {
    RenderTableShape(ports);
    RowsAround(ports, i);
    Middle(TableOpen, Rows(ports[..i]), Row(ports[i]), Rows(ports[i + 1..]), TableClose);
  }

  /** The rows of a list split around its `i`-th record. */
  lemma RowsAround(ports: seq<PortInfo>, i: nat)
    requires i < |ports|
    ensures Rows(ports) == Rows(ports[..i]) + (Row(ports[i]) + Rows(ports[i + 1..]))
  {
    Split(ports, i);
    RowsAround3(ports[..i], ports[i], ports[i + 1..]);
  }

  /** `RowsAround` on a list already written as `before + ([port] + after)`. */
  lemma RowsAround3(before: seq<PortInfo>, port: PortInfo, after: seq<PortInfo>)
    ensures Rows(before + ([port] + after)) == Rows(before) + (Row(port) + Rows(after))
  {
    RowsAppend(before, [port] + after);
    RowsCons(port, after);
  }

  /** One unfolding of `Rows` on `[port] + rest`, used by `RowsAround3`. */
  lemma RowsCons(port: PortInfo, rest: seq<PortInfo>)
    ensures Rows([port] + rest) == Row(port) + Rows(rest)
  {
    assert ([port] + rest)[1..] == rest;
  }

  /** A sequence is its prefix, its `i`-th element and its suffix; used by `RowsAround`. */
  lemma Split<T>(s: seq<T>, i: nat)
    requires i < |s|
    ensures s == s[..i] + ([s[i]] + s[i + 1..])
  {
  }

  /** The middle part of a five-part concatenation sits after the first two; used by `RenderRowAt` and `RowCells`. */
  lemma Middle<T>(open: seq<T>, before: seq<T>, part: seq<T>, after: seq<T>, close: seq<T>)
    ensures var whole := open + (before + (part + after)) + close;
      |open| + |before| + |part| <= |whole| &&
      whole[|open| + |before|..|open| + |before| + |part|] == part
  {
    var whole := open + (before + (part + after)) + close;
    assert whole == (open + before) + part + (after + close);
  }

  /** A row shows the name verbatim (no escaping) and the count as its decimal form, which parses back to the count. */
  lemma RowCells(port: PortInfo)
    requires port.count <= USIZE_MAX
    ensures Row(port)[8..8 + |port.name|] == port.name
    ensures var digits := Row(port)[8 + |port.name| + 9..|Row(port)| - 10];
      digits == NatToDecimal(port.count) && ParseUsize(digits) == Ok(port.count)
  {
    var open, close := "<tr><td>", "</td></tr>";
    var digits := NatToDecimal(port.count);
    assert Row(port) == open + ([] + (port.name + ("</td><td>" + digits))) + close;
    Middle(open, [], port.name, "</td><td>" + digits, close);
    assert Row(port) == (open + port.name) + ("</td><td>" + (digits + [])) + close;
    assert |open| == 8 && |close| == 10;
    Middle(open + port.name, "</td><td>", digits, [], close);
    UsizeRoundTrip(port.count);
  }

  /** The port id never reaches the report: records agreeing on name and count render alike. */
  lemma {:induction false} RenderIgnoresId(a: seq<PortInfo>, b: seq<PortInfo>)
    requires |a| == |b|
    requires forall i :: 0 <= i < |a| ==> a[i].name == b[i].name && a[i].count == b[i].count
    ensures Rows(a) == Rows(b) && RenderTable(a) == RenderTable(b)
    decreases |a|
  {
    if a != [] {
      RenderIgnoresId(a[1..], b[1..]);
      assert Row(a[0]) == Row(b[0]);
    }
    RenderTableShape(a);
    RenderTableShape(b);
  }
}
