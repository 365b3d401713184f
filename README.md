# docomo_sharecycle: from scraped matches to report rows

This project models, in Dafny, the deterministic core of a scraper for a bicycle-share
portal. The core is the step that turns the matches of the port-list pattern into port
records, groups those records by configured sub-area, and renders them as an HTML table.

- `outcomes.dfy` (`Outcomes`): `Option` and `Result`.
- `decimal.dfy` (`Decimal`): Rust's `str::parse::<usize>` as the code uses it, modelled on a
  64-bit `usize`, and the decimal `Display` of a count. Both are proved against the
  decimal value of a digit run. The round trip is proved too.
- `port_extraction.dfy` (`PortExtraction`): `parse_port_info` after the pattern engine.
  - The input is the sequence of capture tuples (park code, id, name, digit run), taken
    left to right.
  - The output is the `HashMap` built by `filter_map` and `collect`, where a later entry
    with the same key replaces an earlier one.
  - A digit run that does not parse makes `unwrap` panic, modelled as `Err` of the whole
    extraction.
- `subarea_grouping.dfy` (`SubAreaGrouping`): `HtmlSource` as a class, and the nested loops
  of `list_ports` as a method. The channel receives one source per sub-area; it is
  modelled as the sequence of sources sent.
- `session.dfy` (`Session`): the last step of `login`, from the optional match of the
  session pattern to a `DocomoId` or a panic.
- `table_rendering.dfy` (`TableRendering`): the `rx.fold` of `register_ports` and its
  closing `format!`, proved equal to a reference concatenation of rows.

Two details of the code shape the model:
- A digit run that does not parse is not skipped. `parse::<usize>().unwrap()`
  (src/lib.rs:52) panics, and that ends the whole extraction. `ParsePanics` states this.
- The `PortInfo` id is capture group 2, the anchor text before the dot (for example
  `I1-01`). Group 1, the hidden `ParkingID` value, is discarded. The sub-area keys in
  src/bin/register_ports.rs:36-37 look like group 1 values (`10414`), and such keys
  would find nothing in a map keyed by group 2. The model keys by group 2, as the code does.

The pattern engine is abstract. A match is a `Capture` whose groups are `Option`s, so the
`None` branch of the `filter_map` closure can be represented. `PatternShaped` states what
the real pattern guarantees: all four groups take part, and group 4 is `[0-9]*`.
`ParseShaped` gives the outcome under that guarantee.

## Model

| member | source | states |
|---|---|---|
| Decimal.ParseDigits | src/lib.rs:52 | the digit loop of `parse::<usize>` yields a value within `usize` or a non-`Empty` error |
| Decimal.ParseUsize | src/lib.rs:52 | `parse::<usize>` yields a value within `usize`, and the `Empty` error exactly on the empty string |
| Decimal.ParseDigitsValue | src/lib.rs:52 | the digit loop succeeds iff the run is all digits with value at most `usize::MAX`; it then yields that decimal value; an all-digit run fails only by overflow |
| Decimal.ParseUsizeValue | src/lib.rs:52 | `parse::<usize>` succeeds iff what follows an optional `+` is a nonempty digit run that fits; the result is its decimal value |
| Decimal.ParseDigitRun | src/lib.rs:45-52 | on a digit-only capture the parse is `Empty` for the empty run, `PosOverflow` above `usize::MAX`, else the run's value |
| Decimal.NatToDecimal | src/bin/register_ports.rs:50 | `{}` of a count is a nonempty digit string with no leading zero whose decimal value is the count |
| Decimal.UsizeRoundTrip | src/bin/register_ports.rs:50 | the printed form of every `usize` parses back to the same value |
| PortExtraction.RecordOf | src/lib.rs:49-54 | the record of a kept match has the match's id and name, and a count equal to the decimal value of its digit run, within `usize` |
| PortExtraction.CaptureEntry | src/lib.rs:48-57 | the closure panics iff the digit group is present and does not parse, whatever the other groups hold; otherwise it keeps exactly the matches with id, name and digits, as the pair (id, record) |
| PortExtraction.ParsePortInfo | src/lib.rs:44-59 | every entry of the result is keyed by its own record's id, and every count fits a `usize` |
| PortExtraction.ParsePanics | src/lib.rs:52 | the extraction panics iff some match's digit run does not parse; the panic is that of the first such match (no record is skipped) |
| PortExtraction.ParseKeys | src/lib.rs:47-58 | the key set is exactly the set of ids of the complete matches; no matches give the empty map |
| PortExtraction.ParseLastWins | src/lib.rs:53-58 | the entry for an id is the record of the last complete match with that id |
| PortExtraction.ParseIgnoresCode | src/lib.rs:49-54 | the park code (group 1) never influences the result |
| PortExtraction.ParseShaped | src/lib.rs:45-58 | on what the pattern yields, the extraction panics iff some digit run is empty or exceeds `usize::MAX`, and otherwise keys every match's id |
| SubAreaGrouping.HtmlSource.constructor | src/lib.rs:32-37 | a new source has the given title and no ports |
| SubAreaGrouping.HtmlSource.Push | src/lib.rs:39-41 | push appends the record as the last port and leaves the earlier ports and the title unchanged |
| SubAreaGrouping.SendSubAreas | src/lib.rs:87-96 | exactly one distinct source per sub-area, in sub-area order, with the title copied verbatim and the ports the hits of its keys in key order, sent even when empty |
| SubAreaGrouping.HitsAppend | src/lib.rs:89-94 | the hits of `a + b` are the hits of `a` followed by the hits of `b` |
| SubAreaGrouping.HitsSingle | src/lib.rs:90-93 | a present key contributes its record, an absent one nothing |
| SubAreaGrouping.HitsSkipsAbsent | src/lib.rs:90-93 | a key missing from the map can be removed from the list without changing the group (no placeholder) |
| SubAreaGrouping.HitsLength | src/lib.rs:89-94 | a group has at most as many records as keys, and as many iff every key is found |
| SubAreaGrouping.HitsFromKeys | src/lib.rs:89-93 | every record of a group is the map entry for one of the sub-area's keys, so its id is one of them |
| SubAreaGrouping.HitsMultiplicity | src/lib.rs:89-94 | a found key listed n times yields its record exactly n times |
| Session.SessionFromMatch | src/lib.rs:147-151 | a session id is produced iff the pattern matched with all three groups, taken in group order; no match panics with `NoMatch`, and otherwise the first missing field, in the order SessionID, UserID, MemberID, panics with its own `expect` message |
| Session.MatchedNeverMissing | src/lib.rs:145-151 | once the pattern matches with its three groups, login yields those three tokens |
| TableRendering.FoldRowsAppends | src/bin/register_ports.rs:48-51 | the fold appends exactly the rows of the records, in order, to its accumulator |
| TableRendering.RowsAppend | src/bin/register_ports.rs:48-51 | the rows of `a + b` are the rows of `a` followed by the rows of `b` |
| TableRendering.FoldRowsSplit | src/bin/register_ports.rs:48-51 | folding `a + b` is folding `b` from the fold of `a` |
| TableRendering.RenderTableShape | src/bin/register_ports.rs:48-53 | the report is `<table border=1>`, the rows, then `</table>`: it begins and ends with those tags |
| TableRendering.RenderEmpty | src/bin/register_ports.rs:48-53 | no records render as `<table border=1></table>` |
| TableRendering.RenderRowAt | src/bin/register_ports.rs:48-53 | the i-th row of the report is the row of the i-th record, placed right after the rows of the earlier records |
| TableRendering.RowCells | src/bin/register_ports.rs:49-50 | a row shows the name verbatim (unescaped) and the count in a decimal form that parses back to it |
| TableRendering.RenderIgnoresId | src/bin/register_ports.rs:49-50 | the port id is discarded: records agreeing on name and count render identically |

## Left out

- The pattern engine's matching (src/lib.rs:45-46, src/lib.rs:145-146): it comes from a
  foreign library. Its matches are inputs. `PatternShaped` states only what the pattern
  guarantees about its groups.
- All network code: the form payloads and POSTs of `list_ports`, `list_bicycles` and
  `login` (src/lib.rs:61-85, src/lib.rs:102-154). It is I/O around constant form maps.
  The bicycle list of `list_bicycles` is computed and then thrown away.
- Concurrency: the `Arc<Mutex<Sender>>`, the bounded channel, the ignored result of
  `send().wait()`, `tokio::spawn` and `tokio::run`. The channel becomes the sequence of
  sources sent by one `list_ports` call. Ordering across areas is not modelled.
- Environment variables and file writing in src/bin/register_ports.rs.
- The wiring between src/bin/register_ports.rs and src/lib.rs. As written, the binary's
  channel carries `PortInfo` while `list_ports` sends `HtmlSource`, and its area ids are
  strings where `usize` is expected. The rendering fold is therefore modelled on a
  sequence of `PortInfo`, as the binary declares it.
- src/main.rs and src/bin/update_ports.rs: they duplicate `login` or are plumbing.
- Idempotence of the extraction is not stated as a lemma, because every Dafny function
  is deterministic.
- Decimal.ParseUsize: models 64-bit `usize` only. A lone `+` gives `InvalidDigit`, as in
  current Rust; some older Rust versions report `Empty` for it. Either way `unwrap` panics.
