/** The field extractor for one row of the Comdirect "Girokonto" table: the
    fixed column layout, the table header line, the per-column getters, and
    payee/purpose extraction by literal markers in the free-text description.
 */
module Extractor {
  import opened Wrappers
  import opened Strings
  import opened Calendar

  // ---------------------------------------------------------------------------
  // Layout

  /** The table's column names, in file order. */
  const Fields: seq<string> := ["Buchungstag", "Wertstellung (Valuta)", "Vorgang", "Buchungstext", "Umsatz in EUR"]

  function Quoted(field: string): string {
    "\"" + field + "\""
  }

  /** `";".join(f'"{field}"' for field in fields)` */
  function JoinQuoted(fields: seq<string>): string {
    if |fields| == 0 then ""
    else if |fields| == 1 then Quoted(fields[0])
    else JoinQuoted(fields[..|fields| - 1]) + ";" + Quoted(fields[|fields| - 1])
  }

  /** The line that opens the transaction table. */
  const Header: string := JoinQuoted(Fields) + ";"

  /** The header is the five column names, each double-quoted, joined by `;`,
      with a trailing `;`. */
  lemma {:induction false} HeaderText()
    ensures Header == Quoted(Fields[0]) + ";" + Quoted(Fields[1]) + ";" + Quoted(Fields[2]) + ";"
                      + Quoted(Fields[3]) + ";" + Quoted(Fields[4]) + ";"
  {
    var f := Fields;
    assert f[..2][..1] == f[..1];
    assert JoinQuoted(f[..2]) == Quoted(f[0]) + ";" + Quoted(f[1]);
    assert f[..3][..2] == f[..2];
    assert JoinQuoted(f[..3]) == Quoted(f[0]) + ";" + Quoted(f[1]) + ";" + Quoted(f[2]);
    assert f[..4][..3] == f[..3];
    assert JoinQuoted(f[..4]) == Quoted(f[0]) + ";" + Quoted(f[1]) + ";" + Quoted(f[2]) + ";" + Quoted(f[3]);
    assert f[..4] == f[..|f| - 1];
  }

  /** The logical fields the extractor reads. */
  datatype Field = Day | Value | Description | Event

  /** The column each logical field is read from. */
  function Column(f: Field): (c: string)
    ensures c in Fields
  {
    match f
    case Day => "Buchungstag"
    case Value => "Umsatz in EUR"
    case Description => "Buchungstext"
    case Event => "Vorgang"
  }

  /** A row decoded from the table: every column of the header is a key. */
  predicate HasColumns(row: map<string, string>) {
    forall c :: c in Fields ==> c in row
  }

  type Row = row: map<string, string> | HasColumns(row)
    witness map c | c in Fields :: ""

  // ---------------------------------------------------------------------------
  // Literal-marker search: `re.search(re.escape(start) + "(.*?)" + re.escape(end), text)`

  /** No line feed in `t[a..b]`: the regular expression's `.` does not match one. */
  predicate NoLineFeed(t: string, a: int, b: int) {
    forall k :: a <= k < b ==> 0 <= k < |t| && t[k] != '\n'
  }

  /** `start` at `i` and `end` at `j` delimit a match of the pattern. */
  predicate IsMatch(t: string, start: string, end: string, i: int, j: int) {
    && OccursAt(t, start, i)
    && i + |start| <= j
    && OccursAt(t, end, j)
    && NoLineFeed(t, i + |start|, j)
  }

  datatype Span = Span(at: nat, end: nat)

  /** The lazy `(.*?)` followed by `end`, tried from `from`: the first index
      where `end` occurs, provided no line feed comes before it. */
  function LazyEnd(t: string, end: string, from: nat): (r: Option<nat>)
    ensures r.Some? ==> from <= r.value && r.value + |end| <= |t|
    decreases |t| - from
  {
    if OccursAt(t, end, from) then Some(from)
    else if from < |t| && t[from] != '\n' then LazyEnd(t, end, from + 1)
    else None
  }

  /** `LazyEnd` finds the first occurrence of `end` not preceded by a line
      feed, and finds nothing exactly when every occurrence is. */
  lemma {:induction false} LazyEndSpec(t: string, end: string, from: nat)
    ensures var r := LazyEnd(t, end, from);
            && (r.Some? ==> from <= r.value && OccursAt(t, end, r.value) && NoLineFeed(t, from, r.value))
            && (r.Some? ==> forall j :: from <= j < r.value ==> !OccursAt(t, end, j))
            && (r.None? ==> forall j :: from <= j && OccursAt(t, end, j) ==> !NoLineFeed(t, from, j))
    decreases |t| - from
  {
    if !OccursAt(t, end, from) && from < |t| && t[from] != '\n' {
      LazyEndSpec(t, end, from + 1);
      var r := LazyEnd(t, end, from);
      if r.None? {
        forall j | from <= j && OccursAt(t, end, j) ensures !NoLineFeed(t, from, j) {
          if from + 1 <= j && NoLineFeed(t, from, j) {
            assert NoLineFeed(t, from + 1, j);
          }
        }
      }
    } else if !OccursAt(t, end, from) {
      forall j | from <= j && OccursAt(t, end, j) ensures !NoLineFeed(t, from, j) {
        assert from < j;
      }
    }
  }

  /** `re.search` scanning start positions from `from`: the leftmost match,
      and for it the shortest capture. */
  function SearchFrom(t: string, start: string, end: string, from: nat): (r: Option<Span>)
    ensures r.Some? ==> from <= r.value.at && r.value.at + |start| <= r.value.end && r.value.end + |end| <= |t|
    decreases |t| - from
  {
    if from + |start| > |t| then None
    else if OccursAt(t, start, from) then
      match LazyEnd(t, end, from + |start|)
      case Some(j) => Some(Span(from, j))
      case None => SearchFrom(t, start, end, from + 1)
    else SearchFrom(t, start, end, from + 1)
  }

  /** No match starts at `from` when the search does not stop there. */
  lemma {:induction false} NoMatchAt(t: string, start: string, end: string, from: nat)
    requires !(OccursAt(t, start, from) && LazyEnd(t, end, from + |start|).Some?)
    ensures forall j :: !IsMatch(t, start, end, from, j)
  {
    if OccursAt(t, start, from) {
      LazyEndSpec(t, end, from + |start|);
    }
  }

  /** `SearchFrom` returns a match whose start is leftmost and whose capture
      is shortest, and returns nothing exactly when there is no match. */
  lemma {:induction false} SearchFromSpec(t: string, start: string, end: string, from: nat)
    ensures var r := SearchFrom(t, start, end, from);
            && (r.Some? ==> IsMatch(t, start, end, r.value.at, r.value.end))
            && (r.Some? ==> forall i, j :: from <= i < r.value.at ==> !IsMatch(t, start, end, i, j))
            && (r.Some? ==> forall j :: r.value.at + |start| <= j < r.value.end ==> !OccursAt(t, end, j))
            && (r.None? ==> forall i, j :: from <= i ==> !IsMatch(t, start, end, i, j))
    decreases |t| - from
  {
    if from + |start| > |t| {
    } else if OccursAt(t, start, from) && LazyEnd(t, end, from + |start|).Some? {
      LazyEndSpec(t, end, from + |start|);
    } else {
      SearchFromSpec(t, start, end, from + 1);
      NoMatchAt(t, start, end, from);
      var r := SearchFrom(t, start, end, from);
      assert r == SearchFrom(t, start, end, from + 1);
      forall i, j | from <= i && (r.None? || i < r.value.at) ensures !IsMatch(t, start, end, i, j) {
        if i == from {
          assert !IsMatch(t, start, end, from, j);
        }
      }
    }
  }

  /** `extract_between(text, start, end)`: the stripped text between the
      markers of the leftmost match, or `None` when there is no match. */
  function ExtractBetween(text: string, start: string, end: string): Option<string> {
    match SearchFrom(text, start, end, 0)
    case None => None
    case Some(m) => Some(Strip(text[m.at + |start|..m.end]))
  }

  // ---------------------------------------------------------------------------
  // Getters

  /** `get_booking_date`: `Buchungstag` parsed as `dd.mm.yyyy`. */
  function GetBookingDate(row: Row): (r: Result<Date, Error>)
    ensures r.Ok? ==> Valid(r.value) && FormatDate(r.value) == row["Buchungstag"]
    ensures r.Err? ==> r.error == BadDate(row["Buchungstag"])
  {
    ParseDate(row[Column(Day)])
  }

  /** `get_event` */
  function GetEvent(row: Row): string {
    row[Column(Event)]
  }

  /** `get_amount`: the amount text, unmodified and possibly empty. */
  function GetAmount(row: Row): string {
    row[Column(Value)]
  }

  /** `get_description`: the description with surrounding whitespace stripped. */
  function GetDescription(row: Row): string {
    Strip(row[Column(Description)])
  }

  /** `get_payee`: four prefix rules over the stripped description and the
      event, the first that applies wins. */
  function GetPayee(row: Row): Option<string> {
    var desc := GetDescription(row);
    var event := GetEvent(row);
    if StartsWith(desc, "Auftraggeber") then
      if StartsWith(event, "\U{DC}bertrag") then ExtractBetween(desc, "Auftraggeber:", "Ref.")
      else ExtractBetween(desc, "Auftraggeber:", "Buchungstext:")
    else if StartsWith(desc, "Empf\U{E4}nger") then ExtractBetween(desc, "Empf\U{E4}nger:", "Kto/IBAN")
    else ExtractBetween(desc, "Buchungstext:", "Ref.")
  }

  /** `get_purpose`: searches the raw, unstripped description. */
  function GetPurpose(row: Row): Option<string> {
    ExtractBetween(row[Column(Description)], "Buchungstext:", "Ref.")
  }

  // ---------------------------------------------------------------------------
  // The payee rules as an ordered table

  /** A payee rule applies when the description starts with `descPrefix` and
      the event starts with `eventPrefix`; the payee is then the text between
      `startMarker` and `endMarker`. */
  datatype PayeeRule = PayeeRule(descPrefix: string, eventPrefix: string, startMarker: string, endMarker: string)

  const PayeeRules: seq<PayeeRule> := [
    PayeeRule("Auftraggeber", "\U{DC}bertrag", "Auftraggeber:", "Ref."),
    PayeeRule("Auftraggeber", "", "Auftraggeber:", "Buchungstext:"),
    PayeeRule("Empf\U{E4}nger", "", "Empf\U{E4}nger:", "Kto/IBAN"),
    PayeeRule("", "", "Buchungstext:", "Ref.")
  ]

  predicate Applies(rule: PayeeRule, desc: string, event: string) {
    StartsWith(desc, rule.descPrefix) && StartsWith(event, rule.eventPrefix)
  }

  /** The index of the first rule that applies. */
  function FirstApplying(rules: seq<PayeeRule>, desc: string, event: string): (r: Option<nat>)
    ensures r.Some? ==> r.value < |rules| && Applies(rules[r.value], desc, event)
    ensures r.Some? ==> forall k :: 0 <= k < r.value ==> !Applies(rules[k], desc, event)
    ensures r.None? ==> forall k :: 0 <= k < |rules| ==> !Applies(rules[k], desc, event)
  {
    if |rules| == 0 then None
    else if Applies(rules[0], desc, event) then Some(0)
    else match FirstApplying(rules[1..], desc, event)
      case None => None
      case Some(k) => Some(k + 1)
  }
}
