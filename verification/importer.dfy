/** The statement parser: splits the statement's lines at the table header,
    folds the preamble into a label map, updates the importer state from it,
    turns every booked table row into a transaction and appends one closing
    balance.

    The importer object's mutable fields are an explicit `State` threaded in
    and out of `Extract`. The source never resets them between calls, so a
    second statement starts from whatever the first one left behind.
 */
module Importer {
  import opened Wrappers
  import opened Strings
  import opened Calendar
  import opened Extractor

  // ---------------------------------------------------------------------------
  // Output records

  datatype Amount = Amount(number: real, currency: string)

  datatype Posting = Posting(account: string, units: Option<Amount>)

  datatype MetaValue = Text(text: string) | LineNo(line: int)

  /** `data.new_metadata(filename, lineno)` */
  function NewMetadata(fileName: string, line: int): map<string, MetaValue> {
    map["filename" := Text(fileName), "lineno" := LineNo(line)]
  }

  datatype Directive =
    | Transaction(meta: map<string, MetaValue>, date: Date, flag: char, payee: Option<string>,
                  narration: Option<string>, tags: set<string>, links: set<string>, postings: seq<Posting>)
    | Balance(meta: map<string, MetaValue>, asOf: Option<Date>, account: string, amount: Option<Amount>)

  /** The importer's flag for the transactions it creates ("cleared"). */
  const Flag: char := '*'

  // ---------------------------------------------------------------------------
  // Configuration and collaborators

  /** The payee matcher built from the configured payee patterns: whether the
      payee matches, and the account it then maps to. */
  datatype Matcher = Matcher(matches: Option<string> -> bool, accountFor: Option<string> -> string)

  datatype Config = Config(account: string, currency: string, metaCode: Option<string>, payeeMatcher: Matcher)

  /** The decoding helpers: `csv_reader` over the preamble lines,
      `csv_dict_reader` over the table lines (header included), and the
      German-locale number parser, which fails with `None`. */
  datatype Decoders = Decoders(
    readRows: seq<string> -> seq<seq<string>>,
    readTable: seq<string> -> seq<Row>,
    parseNumber: string -> Option<real>)

  /** `Amount(fmt_number_de(text), currency)` */
  function ParseAmount(cfg: Config, dec: Decoders, text: string): (r: Result<Amount, Error>)
    ensures r.Err? <==> dec.parseNumber(text).None?
    ensures r.Err? ==> r.error == BadNumber(text)
    ensures r.Ok? ==> r.value == Amount(dec.parseNumber(text).value, cfg.currency)
  {
    match dec.parseNumber(text)
    case None => Err(BadNumber(text))
    case Some(n) => Ok(Amount(n, cfg.currency))
  }

  // ---------------------------------------------------------------------------
  // Importer state

  datatype State = State(
    dateFrom: Option<Date>,
    dateTo: Option<Date>,
    balanceAmount: Option<Amount>,
    balanceDate: Option<Date>,
    closingBalanceIndex: int)

  /** The fields as the constructor leaves them. */
  const InitialState: State := State(None, None, None, None, -1)

  // ---------------------------------------------------------------------------
  // Splitting at the header: `lines.index(HEADER)`

  /** `lines.index(x)`: the first position of `x`. */
  function IndexOf(lines: seq<string>, x: string): (r: Option<nat>)
    ensures r.Some? ==> r.value < |lines| && lines[r.value] == x && x !in lines[..r.value]
    ensures r.None? <==> x !in lines
  {
    if |lines| == 0 then None
    else if lines[0] == x then Some(0)
    else match IndexOf(lines[1..], x)
      case None => None
      case Some(i) =>
        assert lines[..i + 1] == [lines[0]] + lines[1..][..i];
        Some(i + 1)
  }

  datatype Sections = Sections(metadata: seq<string>, table: seq<string>)

  /** The preamble is everything before the first header line; the table
      starts with that line. */
  function SplitAtHeader(lines: seq<string>): (r: Result<Sections, Error>)
    ensures r.Err? <==> Header !in lines
    ensures r.Err? ==> r.error == HeaderNotFound
    ensures r.Ok? ==> r.value.metadata + r.value.table == lines
    ensures r.Ok? ==> Header !in r.value.metadata && |r.value.table| > 0 && r.value.table[0] == Header
  {
    match IndexOf(lines, Header)
    case None => Err(HeaderNotFound)
    case Some(h) =>
      assert lines[..h] + lines[h..] == lines;
      Ok(Sections(lines[..h], lines[h..]))
  }

  // ---------------------------------------------------------------------------
  // The preamble as an insertion-ordered label map (a Python dict)

  datatype Meta = Meta(value: string, lineIndex: int)

  datatype Entry = Entry(key: string, meta: Meta)

  function Lookup(d: seq<Entry>, key: string): Option<Meta> {
    if |d| == 0 then None
    else if d[0].key == key then Some(d[0].meta)
    else Lookup(d[1..], key)
  }

  /** The keys in insertion order. */
  function Keys(d: seq<Entry>): (ks: seq<string>)
    ensures |ks| == |d|
  {
    if |d| == 0 then [] else [d[0].key] + Keys(d[1..])
  }

  /** `d[key] = meta`: a new key goes to the end; an existing key keeps its
      place and gets the new value. */
  function Put(d: seq<Entry>, key: string, meta: Meta): (r: seq<Entry>)
    ensures Keys(r) == if key in Keys(d) then Keys(d) else Keys(d) + [key]
  {
    if |d| == 0 then [Entry(key, meta)]
    else if d[0].key == key then [Entry(key, meta)] + d[1..]
    else
      var rest := Put(d[1..], key, meta);
      assert ([d[0]] + rest)[1..] == rest;
      [d[0]] + rest
  }

  /** After `Put`, the key maps to the new value and every other key to what
      it mapped to before. */
  lemma {:induction false} PutLookup(d: seq<Entry>, key: string, meta: Meta, other: string)
    ensures Lookup(Put(d, key, meta), key) == Some(meta)
    ensures other != key ==> Lookup(Put(d, key, meta), other) == Lookup(d, other)
    decreases |d|
  {
    if |d| > 0 && d[0].key != key {
      var rest := Put(d[1..], key, meta);
      assert ([d[0]] + rest)[1..] == rest;
      PutLookup(d[1..], key, meta, other);
    }
  }

  /** A preamble row that the loop skips: `[]` or `[""]`. */
  predicate IsBlank(row: seq<string>) {
    row == [] || row == [""]
  }

  datatype Preamble = Preamble(entries: seq<Entry>, lineIndex: int)

  /** The preamble loop: every row advances the line index, blank rows are
      skipped, other rows store `label -> (value, line index)`; a row with a
      single field fails to unpack. */
  function ReadMetadata(rows: seq<seq<string>>): (r: Result<Preamble, Error>)
    ensures r.Ok? ==> r.value.lineIndex == |rows|
    decreases |rows|
  {
    if |rows| == 0 then Ok(Preamble([], 0))
    else
      match ReadMetadata(rows[..|rows| - 1])
      case Err(e) => Err(e)
      case Ok(p) =>
        var row := rows[|rows| - 1];
        var i := p.lineIndex + 1;
        if IsBlank(row) then Ok(Preamble(p.entries, i))
        else if |row| < 2 then Err(NotEnoughValues(row))
        else Ok(Preamble(Put(p.entries, row[0], Meta(row[1], i)), i))
  }

  // ---------------------------------------------------------------------------
  // `_update_meta`: prefix dispatch over the preamble labels

  /** The characters of `s`, as `str.lstrip`/`str.rstrip` read their argument. */
  function CharSet(s: string): set<char> {
    set c | c in s
  }

  /** The state after one preamble entry, and the error it raised, if any. */
  datatype Step = Step(state: State, error: Option<Error>)

  /** The preamble labels `_update_meta` reacts to, by prefix, in the order it
      tests them. */
  datatype Label = PeriodStart | PeriodEnd | BalanceLabel | Other

  function Classify(key: string): (l: Label)
    ensures l == PeriodStart <==> StartsWith(key, "Von")
    ensures l == PeriodEnd <==> !StartsWith(key, "Von") && StartsWith(key, "Bis")
    ensures l == BalanceLabel <==> !StartsWith(key, "Von") && !StartsWith(key, "Bis") && StartsWith(key, "Kontostand vom")
  {
    if StartsWith(key, "Von") then PeriodStart
    else if StartsWith(key, "Bis") then PeriodEnd
    else if StartsWith(key, "Kontostand vom") then BalanceLabel
    else Other
  }

  /** `key.lstrip("Kontostand vom ").rstrip(":")`: both strips take a set of
      characters, so leading letters of the date text drawn from that set
      would be dropped too. */
  function BalanceDateText(key: string): string {
    RStripChars(LStripChars(key, CharSet("Kontostand vom ")), CharSet(":"))
  }

  /** `value.rstrip(" EUR")`, again a character set. */
  function BalanceAmountText(value: string): string {
    RStripChars(value, CharSet(" EUR"))
  }

  /** A period bound label: its value parsed as a date, or the parse error
      with the state unchanged. */
  function SetDate(s: State, value: string, isStart: bool): (r: Step)
    ensures r.error.None? <==> ParseDate(value).Ok?
    ensures r.error.Some? ==> r.state == s && r.error.value == BadDate(value)
    ensures r.error.None? && isStart ==> r.state == s.(dateFrom := Some(ParseDate(value).value))
    ensures r.error.None? && !isStart ==> r.state == s.(dateTo := Some(ParseDate(value).value))
  {
    match ParseDate(value)
    case Err(e) => Step(s, Some(e))
    case Ok(d) => if isStart then Step(s.(dateFrom := Some(d)), None) else Step(s.(dateTo := Some(d)), None)
  }

  /** The closing balance label: the amount is stored before the date is
      parsed, so a bad date leaves the new amount behind with the old date and
      line index. The balance is dated the day after the label's date. */
  function SetClosingBalance(cfg: Config, dec: Decoders, s: State, key: string, m: Meta): (r: Step)
    ensures r.state.dateFrom == s.dateFrom && r.state.dateTo == s.dateTo
    ensures dec.parseNumber(BalanceAmountText(m.value)).None? ==>
              r == Step(s, Some(BadNumber(BalanceAmountText(m.value))))
    ensures dec.parseNumber(BalanceAmountText(m.value)).Some? ==>
              r.state.balanceAmount == Some(Amount(dec.parseNumber(BalanceAmountText(m.value)).value, cfg.currency))
    ensures dec.parseNumber(BalanceAmountText(m.value)).Some? && r.error.Some? ==>
              r.state.balanceDate == s.balanceDate && r.state.closingBalanceIndex == s.closingBalanceIndex
    ensures r.error.None? ==>
              && ParseDate(BalanceDateText(key)).Ok?
              && r.state.balanceDate.Some?
              && NextDay(ParseDate(BalanceDateText(key)).value) == Ok(r.state.balanceDate.value)
              && r.state.closingBalanceIndex == m.lineIndex
  {
    match ParseAmount(cfg, dec, BalanceAmountText(m.value))
    case Err(e) => Step(s, Some(e))
    case Ok(amount) =>
      var s1 := s.(balanceAmount := Some(amount));
      match ParseDate(BalanceDateText(key))
      case Err(e) => Step(s1, Some(e))
      case Ok(d) =>
        match NextDay(d)
        case Err(e) => Step(s1, Some(e))
        case Ok(next) => Step(s1.(balanceDate := Some(next), closingBalanceIndex := m.lineIndex), None)
  }

  /** One iteration of the `_update_meta` loop; labels with none of the three
      prefixes change nothing. */
  function UpdateEntry(cfg: Config, dec: Decoders, s: State, key: string, m: Meta): (r: Step)
    ensures Classify(key) == Other ==> r == Step(s, None)
  {
    match Classify(key)
    case PeriodStart => SetDate(s, m.value, true)
    case PeriodEnd => SetDate(s, m.value, false)
    case BalanceLabel => SetClosingBalance(cfg, dec, s, key, m)
    case Other => Step(s, None)
  }

  /** The `_update_meta` loop over the entries in insertion order; the first
      error ends it, with the state as far as it got. */
  function UpdateMeta(cfg: Config, dec: Decoders, s: State, entries: seq<Entry>): Step
    decreases |entries|
  {
    if |entries| == 0 then Step(s, None)
    else
      var before := UpdateMeta(cfg, dec, s, entries[..|entries| - 1]);
      if before.error.Some? then before
      else
        var e := entries[|entries| - 1];
        UpdateEntry(cfg, dec, before.state, e.key, e.meta)
  }

  // ---------------------------------------------------------------------------
  // The transaction loop

  /** A row that yields a transaction: its booking day is not `offen`. */
  predicate IsBooked(row: Row) {
    row[Column(Day)] != "offen"
  }

  /** What one table row raises, if anything: an amount the number parser
      rejects (checked before the `offen` skip), or for a booked row a booking
      day that is not a date. */
  predicate RowFails(dec: Decoders, row: Row) {
    || (GetAmount(row) != "" && dec.parseNumber(GetAmount(row)).None?)
    || (IsBooked(row) && GetBookingDate(row).Err?)
  }

  /** The configured description key, when `meta_code` is set and non-empty. */
  predicate HasMetaCode(cfg: Config) {
    cfg.metaCode.Some? && cfg.metaCode.value != ""
  }

  /** The units of the first posting: none for an empty amount cell,
      otherwise the parsed amount, which may fail. */
  function RowUnits(cfg: Config, dec: Decoders, row: Row): (r: Result<Option<Amount>, Error>)
    ensures r.Err? <==> GetAmount(row) != "" && dec.parseNumber(GetAmount(row)).None?
    ensures r.Ok? ==> (r.value.None? <==> GetAmount(row) == "")
    ensures r.Ok? && r.value.Some? ==> r.value.value == Amount(dec.parseNumber(GetAmount(row)).value, cfg.currency)
  {
    if GetAmount(row) != "" then
      match ParseAmount(cfg, dec, GetAmount(row))
      case Err(e) => Err(e)
      case Ok(a) => Ok(Some(a))
    else Ok(None)
  }

  /** The transaction for a booked row: payee, narration, the position
      metadata (plus the stripped description under the configured key), the
      account posting, and a second posting when the payee matcher accepts. */
  function Booking(cfg: Config, fileName: string, row: Row, lineIndex: int, date: Date, units: Option<Amount>): (t: Directive)
    ensures t.Transaction? && t.date == date && t.flag == Flag && t.tags == {} && t.links == {}
    ensures t.payee == GetPayee(row) && t.narration == GetPurpose(row)
    ensures t.meta.Keys == {"filename", "lineno"} + (if HasMetaCode(cfg) then {cfg.metaCode.value} else {})
    ensures HasMetaCode(cfg) ==> t.meta[cfg.metaCode.value] == Text(GetDescription(row))
    ensures !(HasMetaCode(cfg) && cfg.metaCode.value == "filename") ==> t.meta["filename"] == Text(fileName)
    ensures !(HasMetaCode(cfg) && cfg.metaCode.value == "lineno") ==> t.meta["lineno"] == LineNo(lineIndex)
    ensures |t.postings| == if cfg.payeeMatcher.matches(t.payee) then 2 else 1
    ensures t.postings[0] == Posting(cfg.account, units)
    ensures |t.postings| == 2 ==> t.postings[1] == Posting(cfg.payeeMatcher.accountFor(t.payee), None)
  {
    var base := NewMetadata(fileName, lineIndex);
    var meta := if HasMetaCode(cfg) then base[cfg.metaCode.value := Text(GetDescription(row))] else base;
    var payee := GetPayee(row);
    var postings := [Posting(cfg.account, units)]
      + (if cfg.payeeMatcher.matches(payee) then [Posting(cfg.payeeMatcher.accountFor(payee), None)] else []);
    Transaction(meta, date, Flag, payee, GetPurpose(row), {}, {}, postings)
  }

  /** One iteration of the transaction loop, at the given line index:
      `None` for a skipped `offen` row. The amount is parsed before the skip,
      so a bad amount fails even on an `offen` row. */
  function RowOutcome(cfg: Config, dec: Decoders, fileName: string, row: Row, lineIndex: int): (r: Result<Option<Directive>, Error>)
    ensures r.Err? <==> RowFails(dec, row)
    ensures r.Ok? ==> (r.value.None? <==> !IsBooked(row))
    ensures r.Ok? && r.value.Some? ==>
              && GetBookingDate(row).Ok? && RowUnits(cfg, dec, row).Ok?
              && r.value.value == Booking(cfg, fileName, row, lineIndex, GetBookingDate(row).value, RowUnits(cfg, dec, row).value)
  {
    match RowUnits(cfg, dec, row)
    case Err(e) => Err(e)
    case Ok(units) =>
      if row[Column(Day)] == "offen" then Ok(None)
      else
        match GetBookingDate(row)
        case Err(e) => Err(e)
        case Ok(date) => Ok(Some(Booking(cfg, fileName, row, lineIndex, date, units)))
  }

  /** The number of booked rows. */
  function CountBooked(rows: seq<Row>): nat {
    if |rows| == 0 then 0
    else CountBooked(rows[..|rows| - 1]) + (if IsBooked(rows[|rows| - 1]) then 1 else 0)
  }

  /** What one loop iteration does with a row at a line index. */
  type RowStep = (Row, int) -> Result<Option<Directive>, Error>

  function TransactionStep(cfg: Config, dec: Decoders, fileName: string): RowStep {
    (row: Row, lineIndex: int) => RowOutcome(cfg, dec, fileName, row, lineIndex)
  }

  datatype Collected = Collected(entries: seq<Directive>, lineIndex: int)

  /** The transaction loop, continuing the line index from `start`: each row
      at the next line index, entries kept in row order; the first failing
      row aborts the loop. */
  function CollectRows(step: RowStep, rows: seq<Row>, start: int): (r: Result<Collected, Error>)
    ensures r.Err? <==> exists p :: 0 <= p < |rows| && step(rows[p], start + p + 1).Err?
    ensures r.Ok? ==> r.value.lineIndex == start + |rows|
    decreases |rows|
  {
    if |rows| == 0 then Ok(Collected([], start))
    else
      var init := rows[..|rows| - 1];
      assert forall p :: 0 <= p < |init| ==> init[p] == rows[p];
      match CollectRows(step, init, start)
      case Err(e) => Err(e)
      case Ok(c) =>
        var i := c.lineIndex + 1;
        match step(rows[|rows| - 1], i)
        case Err(e) => Err(e)
        case Ok(None) => Ok(Collected(c.entries, i))
        case Ok(Some(t)) => Ok(Collected(c.entries + [t], i))
  }

  // ---------------------------------------------------------------------------
  // extract

  /** The state the importer is left in, and what the call returned or raised. */
  datatype Run = Run(state: State, result: Result<seq<Directive>, Error>)

  /** The closing balance record from the state. */
  function ClosingBalance(cfg: Config, fileName: string, s: State): Directive {
    Balance(NewMetadata(fileName, s.closingBalanceIndex), s.balanceDate, cfg.account, s.balanceAmount)
  }

  /** The end of `extract`: a failed state update raises (leaving the state
      as far as it got), then a failed transaction loop raises, and otherwise
      the transactions are followed by the closing balance. */
  function Finish(cfg: Config, fileName: string, updated: Step, collected: Result<Collected, Error>): (r: Run)
    ensures r.state == updated.state
    ensures r.result.Ok? <==> updated.error.None? && collected.Ok?
    ensures r.result.Ok? ==> r.result.value == collected.value.entries + [ClosingBalance(cfg, fileName, updated.state)]
    ensures updated.error.Some? ==> r.result == Err(updated.error.value)
  {
    if updated.error.Some? then Run(updated.state, Err(updated.error.value))
    else
      match collected
      case Err(e) => Run(updated.state, Err(e))
      case Ok(c) => Run(updated.state, Ok(c.entries + [ClosingBalance(cfg, fileName, updated.state)]))
  }

  /** `CheckingImporter.extract` on the statement's stripped lines, starting
      from state `s`. */
  function Extract(cfg: Config, dec: Decoders, fileName: string, s: State, lines: seq<string>): (r: Run)
    ensures r.result.Ok? ==> |r.result.value| > 0 && r.result.value[|r.result.value| - 1] == ClosingBalance(cfg, fileName, r.state)
  {
    match SplitAtHeader(lines)
    case Err(e) => Run(s, Err(e))
    case Ok(sections) =>
      match ReadMetadata(dec.readRows(sections.metadata))
      case Err(e) => Run(s, Err(e))
      case Ok(preamble) =>
        Finish(cfg, fileName,
          UpdateMeta(cfg, dec, s, preamble.entries),
          CollectRows(TransactionStep(cfg, dec, fileName), dec.readTable(sections.table), preamble.lineIndex))
  }
}
