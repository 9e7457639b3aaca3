/** Properties of the statement parser: what the preamble map holds, how the
    state update decomposes into per-field writes (and so why running it twice
    changes nothing, and why fields a statement does not mention go stale),
    and how the returned entries line up with the table rows.
 */
module ImporterProps {
  import opened Wrappers
  import opened Strings
  import opened Calendar
  import opened Extractor
  import opened Importer

  // ---------------------------------------------------------------------------
  // Header

  /** Without the header line the call fails and the state is untouched. */
  lemma {:induction false} ExtractWithoutHeader(cfg: Config, dec: Decoders, fileName: string, s: State, lines: seq<string>)
    requires Header !in lines
    ensures Extract(cfg, dec, fileName, s, lines) == Run(s, Err(HeaderNotFound))
  {
  }

  // ---------------------------------------------------------------------------
  // Preamble

  /** A preamble row that stores a value under `key`. */
  predicate Labelled(row: seq<string>, key: string) {
    !IsBlank(row) && |row| >= 2 && row[0] == key
  }

  /** The last row that stores a value under `key`. */
  function LastLabelled(rows: seq<seq<string>>, key: string): (r: Option<nat>)
    ensures r.Some? ==> r.value < |rows| && Labelled(rows[r.value], key)
    ensures r.Some? ==> forall q :: r.value < q < |rows| ==> !Labelled(rows[q], key)
    ensures r.None? ==> forall q :: 0 <= q < |rows| ==> !Labelled(rows[q], key)
    decreases |rows|
  {
    if |rows| == 0 then None
    else if Labelled(rows[|rows| - 1], key) then Some(|rows| - 1)
    else
      assert forall q :: 0 <= q < |rows| - 1 ==> rows[..|rows| - 1][q] == rows[q];
      LastLabelled(rows[..|rows| - 1], key)
  }

  /** The last preamble row either stores `key` afresh or leaves its lookup
      as the earlier rows had it. */
  lemma {:induction false} ReadMetadataLastRow(rows: seq<seq<string>>, key: string)
    requires |rows| > 0 && ReadMetadata(rows).Ok?
    ensures ReadMetadata(rows[..|rows| - 1]).Ok?
    ensures var row := rows[|rows| - 1];
            Lookup(ReadMetadata(rows).value.entries, key) ==
              if Labelled(row, key) then Some(Meta(row[1], |rows|))
              else Lookup(ReadMetadata(rows[..|rows| - 1]).value.entries, key)
  {
    var row := rows[|rows| - 1];
    var p := ReadMetadata(rows[..|rows| - 1]).value;
    if !IsBlank(row) {
      PutLookup(p.entries, row[0], Meta(row[1], |rows|), key);
    }
  }

  /** A repeated label keeps the value of its last row, tagged with that row's
      line index (one more than its position). */
  lemma {:induction false} ReadMetadataLookup(rows: seq<seq<string>>, key: string)
    requires ReadMetadata(rows).Ok?
    ensures Lookup(ReadMetadata(rows).value.entries, key) ==
              match LastLabelled(rows, key)
              case None => None
              case Some(p) => Some(Meta(rows[p][1], p + 1))
    decreases |rows|
  {
    if |rows| > 0 {
      var init := rows[..|rows| - 1];
      ReadMetadataLastRow(rows, key);
      ReadMetadataLookup(init, key);
      if !Labelled(rows[|rows| - 1], key) {
        match LastLabelled(init, key)
        case None =>
        case Some(q) => assert rows[q] == init[q];
      }
    }
  }

  /** A row that cannot be unpacked into label and value. */
  predicate Unpackable(row: seq<string>) {
    IsBlank(row) || |row| >= 2
  }

  /** The preamble fails exactly when some row has a single field, and then
      with the first such row. */
  lemma {:induction false} ReadMetadataFails(rows: seq<seq<string>>)
    ensures ReadMetadata(rows).Err? <==> exists p :: 0 <= p < |rows| && !Unpackable(rows[p])
    ensures ReadMetadata(rows).Err? ==>
              exists p :: && 0 <= p < |rows| && !Unpackable(rows[p])
                          && ReadMetadata(rows).error == NotEnoughValues(rows[p])
                          && forall q :: 0 <= q < p ==> Unpackable(rows[q])
    decreases |rows|
  {
    if |rows| > 0 {
      var init := rows[..|rows| - 1];
      ReadMetadataFails(init);
      assert forall q :: 0 <= q < |init| ==> init[q] == rows[q];
      if ReadMetadata(init).Err? {
        var p :| && 0 <= p < |init| && !Unpackable(init[p])
                 && ReadMetadata(init).error == NotEnoughValues(init[p])
                 && forall q :: 0 <= q < p ==> Unpackable(init[q]);
        assert !Unpackable(rows[p]);
      } else if !Unpackable(rows[|rows| - 1]) {
        assert forall q :: 0 <= q < |rows| - 1 ==> Unpackable(rows[q]);
      } else {
        forall p | 0 <= p < |rows| ensures Unpackable(rows[p]) {
          if p < |rows| - 1 {
            assert rows[p] == init[p];
          }
        }
      }
    }
  }

  // ---------------------------------------------------------------------------
  // The state update as per-field writes

  /** The fields an update writes; `None` leaves a field as it was. */
  datatype Patch = Patch(
    dateFrom: Option<Date>,
    dateTo: Option<Date>,
    balanceAmount: Option<Amount>,
    balanceDate: Option<Date>,
    closingBalanceIndex: Option<int>)

  const NoWrites: Patch := Patch(None, None, None, None, None)

  function Apply(s: State, p: Patch): (r: State)
    ensures p.dateFrom.None? ==> r.dateFrom == s.dateFrom
    ensures p.balanceAmount.None? ==> r.balanceAmount == s.balanceAmount
    ensures p.balanceDate.None? ==> r.balanceDate == s.balanceDate
  {
    State(
      if p.dateFrom.Some? then p.dateFrom else s.dateFrom,
      if p.dateTo.Some? then p.dateTo else s.dateTo,
      if p.balanceAmount.Some? then p.balanceAmount else s.balanceAmount,
      if p.balanceDate.Some? then p.balanceDate else s.balanceDate,
      if p.closingBalanceIndex.Some? then p.closingBalanceIndex.value else s.closingBalanceIndex)
  }

  /** `q` written after `p`. */
  function Then(p: Patch, q: Patch): Patch {
    Patch(
      if q.dateFrom.Some? then q.dateFrom else p.dateFrom,
      if q.dateTo.Some? then q.dateTo else p.dateTo,
      if q.balanceAmount.Some? then q.balanceAmount else p.balanceAmount,
      if q.balanceDate.Some? then q.balanceDate else p.balanceDate,
      if q.closingBalanceIndex.Some? then q.closingBalanceIndex else p.closingBalanceIndex)
  }

  /** Writing the same fields twice is writing them once. */
  lemma {:induction false} ApplyTwice(s: State, p: Patch)
    ensures Apply(Apply(s, p), p) == Apply(s, p)
  {
  }

  lemma {:induction false} ApplyThen(s: State, p: Patch, q: Patch)
    ensures Apply(Apply(s, p), q) == Apply(s, Then(p, q))
  {
  }

  datatype Writes = Writes(patch: Patch, error: Option<Error>)

  /** What each label writes, independent of the state it is written to:
      `Von` the period start, `Bis` the period end, `Kontostand vom` the
      amount, then the day after the label's date and the row's line index. */
  function EntryWrites(cfg: Config, dec: Decoders, key: string, m: Meta): Writes {
    match Classify(key)
    case Other => Writes(NoWrites, None)
    case PeriodStart =>
      (match ParseDate(m.value)
       case Err(e) => Writes(NoWrites, Some(e))
       case Ok(d) => Writes(NoWrites.(dateFrom := Some(d)), None))
    case PeriodEnd =>
      (match ParseDate(m.value)
       case Err(e) => Writes(NoWrites, Some(e))
       case Ok(d) => Writes(NoWrites.(dateTo := Some(d)), None))
    case BalanceLabel =>
      match dec.parseNumber(BalanceAmountText(m.value))
      case None => Writes(NoWrites, Some(BadNumber(BalanceAmountText(m.value))))
      case Some(n) =>
        var amount := NoWrites.(balanceAmount := Some(Amount(n, cfg.currency)));
        match ParseDate(BalanceDateText(key))
        case Err(e) => Writes(amount, Some(e))
        case Ok(d) =>
          match NextDay(d)
          case Err(e) => Writes(amount, Some(e))
          case Ok(next) => Writes(amount.(balanceDate := Some(next), closingBalanceIndex := Some(m.lineIndex)), None)
  }

  /** The writes of the `_update_meta` loop up to the first error. */
  function MetaWrites(cfg: Config, dec: Decoders, entries: seq<Entry>): Writes
    decreases |entries|
  {
    if |entries| == 0 then Writes(NoWrites, None)
    else
      var before := MetaWrites(cfg, dec, entries[..|entries| - 1]);
      if before.error.Some? then before
      else
        var e := entries[|entries| - 1];
        var w := EntryWrites(cfg, dec, e.key, e.meta);
        Writes(Then(before.patch, w.patch), w.error)
  }

  /** A period bound label writes only its own field, or fails. */
  lemma {:induction false} PeriodEntryWrites(cfg: Config, dec: Decoders, s: State, key: string, m: Meta)
    requires Classify(key) == PeriodStart || Classify(key) == PeriodEnd
    ensures UpdateEntry(cfg, dec, s, key, m) ==
              var w := EntryWrites(cfg, dec, key, m); Step(Apply(s, w.patch), w.error)
  {
    match ParseDate(m.value)
    case Err(e) =>
    case Ok(d) =>
  }

  /** The closing balance label writes the amount first, then the date and
      line index. */
  lemma {:induction false} BalanceEntryWrites(cfg: Config, dec: Decoders, s: State, key: string, m: Meta)
    requires Classify(key) == BalanceLabel
    ensures UpdateEntry(cfg, dec, s, key, m) ==
              var w := EntryWrites(cfg, dec, key, m); Step(Apply(s, w.patch), w.error)
  {
    match dec.parseNumber(BalanceAmountText(m.value))
    case None =>
    case Some(n) =>
      match ParseDate(BalanceDateText(key))
      case Err(e) =>
      case Ok(d) =>
        match NextDay(d)
        case Err(e) =>
        case Ok(next) =>
  }

  /** One update step is its state-independent writes applied to the state. */
  lemma {:induction false} UpdateEntryWrites(cfg: Config, dec: Decoders, s: State, key: string, m: Meta)
    ensures UpdateEntry(cfg, dec, s, key, m) ==
              var w := EntryWrites(cfg, dec, key, m); Step(Apply(s, w.patch), w.error)
  {
    match Classify(key)
    case Other =>
    case PeriodStart => PeriodEntryWrites(cfg, dec, s, key, m);
    case PeriodEnd => PeriodEntryWrites(cfg, dec, s, key, m);
    case BalanceLabel => BalanceEntryWrites(cfg, dec, s, key, m);
  }

  /** The update loop is its state-independent writes applied to the
      starting state. */
  lemma {:induction false} UpdateMetaWrites(cfg: Config, dec: Decoders, s: State, entries: seq<Entry>)
    ensures UpdateMeta(cfg, dec, s, entries) ==
              var w := MetaWrites(cfg, dec, entries); Step(Apply(s, w.patch), w.error)
    decreases |entries|
  {
    if |entries| > 0 {
      var init := entries[..|entries| - 1];
      var e := entries[|entries| - 1];
      UpdateMetaWrites(cfg, dec, s, init);
      var before := MetaWrites(cfg, dec, init);
      if before.error.None? {
        UpdateEntryWrites(cfg, dec, Apply(s, before.patch), e.key, e.meta);
        ApplyThen(s, before.patch, EntryWrites(cfg, dec, e.key, e.meta).patch);
      }
    }
  }

  /** Without a closing-balance label the update writes no balance fields. */
  lemma {:induction false} NoBalanceLabelNoBalanceWrites(cfg: Config, dec: Decoders, entries: seq<Entry>)
    requires forall i :: 0 <= i < |entries| ==> Classify(entries[i].key) != BalanceLabel
    ensures var p := MetaWrites(cfg, dec, entries).patch;
            p.balanceAmount.None? && p.balanceDate.None? && p.closingBalanceIndex.None?
    decreases |entries|
  {
    if |entries| > 0 {
      NoBalanceLabelNoBalanceWrites(cfg, dec, entries[..|entries| - 1]);
    }
  }

  /** Without a `Von` or `Bis` label the update writes neither period bound. */
  lemma {:induction false} NoPeriodLabelNoPeriodWrites(cfg: Config, dec: Decoders, entries: seq<Entry>)
    requires forall i :: 0 <= i < |entries| ==>
               Classify(entries[i].key) != PeriodStart && Classify(entries[i].key) != PeriodEnd
    ensures var p := MetaWrites(cfg, dec, entries).patch;
            p.dateFrom.None? && p.dateTo.None?
    decreases |entries|
  {
    if |entries| > 0 {
      var e := entries[|entries| - 1];
      NoPeriodLabelNoPeriodWrites(cfg, dec, entries[..|entries| - 1]);
      NoPeriodEntryWrites(cfg, dec, e.key, e.meta);
    }
  }

  lemma {:induction false} NoPeriodEntryWrites(cfg: Config, dec: Decoders, key: string, m: Meta)
    requires Classify(key) != PeriodStart && Classify(key) != PeriodEnd
    ensures var p := EntryWrites(cfg, dec, key, m).patch;
            p.dateFrom.None? && p.dateTo.None?
  {
    if Classify(key) == BalanceLabel {
      match dec.parseNumber(BalanceAmountText(m.value))
      case None =>
      case Some(n) =>
        match ParseDate(BalanceDateText(key))
        case Err(e) =>
        case Ok(d) =>
    }
  }

  // ---------------------------------------------------------------------------
  // extract, run twice

  /** Running the importer again on the same statement, from the state the
      first run left, returns the same and leaves the same state. */
  lemma {:induction false} ExtractTwice(cfg: Config, dec: Decoders, fileName: string, s: State, lines: seq<string>)
    ensures var first := Extract(cfg, dec, fileName, s, lines);
            Extract(cfg, dec, fileName, first.state, lines) == first
  {
    match SplitAtHeader(lines)
    case Err(_) =>
    case Ok(sections) =>
      match ReadMetadata(dec.readRows(sections.metadata))
      case Err(_) =>
      case Ok(preamble) =>
        var w := MetaWrites(cfg, dec, preamble.entries);
        UpdateMetaWrites(cfg, dec, s, preamble.entries);
        UpdateMetaWrites(cfg, dec, Apply(s, w.patch), preamble.entries);
        ApplyTwice(s, w.patch);
  }

  /** The importer's fields are never reset: a statement whose preamble has
      no closing-balance label reports the balance the previous statement
      left in the state. */
  lemma {:induction false} StaleClosingBalance(cfg: Config, dec: Decoders, fileName: string, s: State, lines: seq<string>)
    requires SplitAtHeader(lines).Ok?
    requires ReadMetadata(dec.readRows(SplitAtHeader(lines).value.metadata)).Ok?
    requires var entries := ReadMetadata(dec.readRows(SplitAtHeader(lines).value.metadata)).value.entries;
             forall i :: 0 <= i < |entries| ==> Classify(entries[i].key) != BalanceLabel
    ensures var r := Extract(cfg, dec, fileName, s, lines);
            && r.state.balanceAmount == s.balanceAmount
            && r.state.balanceDate == s.balanceDate
            && r.state.closingBalanceIndex == s.closingBalanceIndex
  {
    var entries := ReadMetadata(dec.readRows(SplitAtHeader(lines).value.metadata)).value.entries;
    UpdateMetaWrites(cfg, dec, s, entries);
    NoBalanceLabelNoBalanceWrites(cfg, dec, entries);
  }

  /** The period bounds are never reset either: a statement without `Von`
      and `Bis` labels keeps the previous statement's bounds, and with them
      the date `file_date` reports. */
  lemma {:induction false} StalePeriodDates(cfg: Config, dec: Decoders, fileName: string, s: State, lines: seq<string>)
    requires SplitAtHeader(lines).Ok?
    requires ReadMetadata(dec.readRows(SplitAtHeader(lines).value.metadata)).Ok?
    requires var entries := ReadMetadata(dec.readRows(SplitAtHeader(lines).value.metadata)).value.entries;
             forall i :: 0 <= i < |entries| ==>
               Classify(entries[i].key) != PeriodStart && Classify(entries[i].key) != PeriodEnd
    ensures var r := Extract(cfg, dec, fileName, s, lines);
            r.state.dateFrom == s.dateFrom && r.state.dateTo == s.dateTo
  {
    var entries := ReadMetadata(dec.readRows(SplitAtHeader(lines).value.metadata)).value.entries;
    UpdateMetaWrites(cfg, dec, s, entries);
    NoPeriodLabelNoPeriodWrites(cfg, dec, entries);
  }

  /** A fresh importer given a statement without a closing-balance label ends
      with the constructor's placeholders: a balance at line index -1 with
      neither a date nor an amount. */
  lemma {:induction false} FreshSentinelBalance(cfg: Config, dec: Decoders, fileName: string, lines: seq<string>)
    requires SplitAtHeader(lines).Ok?
    requires ReadMetadata(dec.readRows(SplitAtHeader(lines).value.metadata)).Ok?
    requires var entries := ReadMetadata(dec.readRows(SplitAtHeader(lines).value.metadata)).value.entries;
             forall i :: 0 <= i < |entries| ==> Classify(entries[i].key) != BalanceLabel
    ensures var r := Extract(cfg, dec, fileName, InitialState, lines);
            r.result.Ok? ==> r.result.value[|r.result.value| - 1] == Balance(NewMetadata(fileName, -1), None, cfg.account, None)
  {
    StaleClosingBalance(cfg, dec, fileName, InitialState, lines);
  }

  /** The closing balance is dated one day after the date in its label. */
  lemma {:induction false} ClosingBalanceDayAfter(cfg: Config, dec: Decoders, s: State, key: string, m: Meta)
    requires SetClosingBalance(cfg, dec, s, key, m).error.None?
    ensures var b := SetClosingBalance(cfg, dec, s, key, m).state.balanceDate;
            && b.Some?
            && DayNumber(b.value) == DayNumber(ParseDate(BalanceDateText(key)).value) + 1
  {
    NextDayIsOneDayLater(ParseDate(BalanceDateText(key)).value);
  }

  /** The date text of a well-formed `Kontostand vom dd.mm.yyyy:` label is
      its date: although both strips take character sets, a date starts and
      ends with a digit, which neither set contains. */
  lemma {:induction false} LabelDate(d: Date)
    requires Valid(d)
    ensures BalanceDateText("Kontostand vom " + FormatDate(d) + ":") == FormatDate(d)
  {
    var t := FormatDate(d);
    var p := "Kontostand vom ";
    FormatDateEnds(d);
    DigitsOutsideLabelChars(t[0]);
    DigitsOutsideLabelChars(t[9]);
    var u := t + ":";
    assert u[0] == t[0];
    LStripCharsPrefix(p, u, CharSet(p));
    assert p + t + ":" == p + u;
    RStripCharsSuffix(t, ":", CharSet(":"));
  }

  /** No digit is among the characters either strip of the label drops, and
      every character of the label's prefix is. */
  lemma {:induction false} DigitsOutsideLabelChars(c: char)
    requires IsDigit(c)
    ensures c !in CharSet("Kontostand vom ") && c !in CharSet(":")
    ensures forall i :: 0 <= i < |"Kontostand vom "| ==> "Kontostand vom "[i] in CharSet("Kontostand vom ")
  {
  }

  /** A well-formed closing-balance label whose amount the number parser
      accepts stores that amount, dates the balance one day after the label's
      date and records the row's line index; on 31.12.9999 the step raises. */
  lemma {:induction false} ClosingBalanceOfLabel(cfg: Config, dec: Decoders, s: State, d: Date, m: Meta)
    requires Valid(d)
    requires dec.parseNumber(BalanceAmountText(m.value)).Some?
    ensures var r := UpdateEntry(cfg, dec, s, "Kontostand vom " + FormatDate(d) + ":", m);
            && r.state.balanceAmount == Some(Amount(dec.parseNumber(BalanceAmountText(m.value)).value, cfg.currency))
            && (NextDay(d).Ok? ==> && r.error.None?
                                   && r.state.balanceDate == Some(NextDay(d).value)
                                   && r.state.closingBalanceIndex == m.lineIndex)
            && (NextDay(d).Err? ==> r.error == Some(DateOverflow))
  {
    var key := "Kontostand vom " + FormatDate(d) + ":";
    LabelDate(d);
    ParseFormatRoundTrip(d);
    assert key[..14] == "Kontostand vom";
    FirstCharDiffers(key, "Von");
    FirstCharDiffers(key, "Bis");
    assert Classify(key) == BalanceLabel;
  }

  /** The amount text of a `<number> EUR` value is the number, when the
      number does not end with a space or one of `E`, `U`, `R`. */
  lemma {:induction false} EuroAmountText(t: string)
    requires |t| > 0 && t[|t| - 1] !in CharSet(" EUR")
    ensures BalanceAmountText(t + " EUR") == t
  {
    var q := " EUR";
    assert forall i :: 0 <= i < |q| ==> q[i] in CharSet(q);
    RStripCharsSuffix(t, q, CharSet(q));
  }

  /** `rstrip(" EUR")` drops any trailing run of those four characters, not
      the suffix ` EUR`: `100 REU` also gives `100`. */
  lemma {:induction false} AmountSuffixIsCharSet()
    ensures BalanceAmountText("100 REU") == "100"
  {
    var q := " REU";
    assert forall i :: 0 <= i < |q| ==> q[i] in CharSet(" EUR");
    assert "100"[2] !in CharSet(" EUR");
    RStripCharsSuffix("100", q, CharSet(" EUR"));
    assert "100" + q == "100 REU";
  }

  // ---------------------------------------------------------------------------
  // Entries and rows

  /** Row `p` is turned into an entry by the step, at its line index. */
  predicate Emits(step: RowStep, rows: seq<Row>, start: int, p: int)
    requires 0 <= p < |rows|
  {
    step(rows[p], start + p + 1).Ok? && step(rows[p], start + p + 1).value.Some?
  }

  /** The positions of the rows a step turns into an entry, in order. */
  function Emitted(step: RowStep, rows: seq<Row>, start: int): (ps: seq<nat>)
    ensures forall k :: 0 <= k < |ps| ==> ps[k] < |rows| && Emits(step, rows, start, ps[k])
    ensures forall k, l :: 0 <= k < l < |ps| ==> ps[k] < ps[l]
    ensures forall p :: 0 <= p < |rows| && Emits(step, rows, start, p) ==> p in ps
    decreases |rows|
  {
    if |rows| == 0 then []
    else
      var init := rows[..|rows| - 1];
      var p := |rows| - 1;
      assert forall q :: 0 <= q < |init| ==> init[q] == rows[q];
      assert forall q :: 0 <= q < |init| ==> (Emits(step, init, start, q) <==> Emits(step, rows, start, q));
      var before := Emitted(step, init, start);
      assert forall k :: 0 <= k < |before| ==> before[k] < p;
      before + if Emits(step, rows, start, p) then [p] else []
  }

  /** What the last row adds to the loop's entries and to the emitting positions. */
  lemma {:induction false} CollectRowsLast(step: RowStep, rows: seq<Row>, start: int)
    requires |rows| > 0 && CollectRows(step, rows, start).Ok?
    ensures var init := rows[..|rows| - 1];
            var p := |rows| - 1;
            var out := step(rows[p], start + p + 1);
            && CollectRows(step, init, start).Ok?
            && out.Ok?
            && CollectRows(step, rows, start).value.entries
               == CollectRows(step, init, start).value.entries + (if out.value.Some? then [out.value.value] else [])
            && Emitted(step, rows, start) == Emitted(step, init, start) + (if out.value.Some? then [p] else [])
  {
  }

  /** The loop's `k`-th entry is what the step made of the `k`-th emitting
      row, at that row's line index. */
  lemma {:induction false} CollectRowsEntries(step: RowStep, rows: seq<Row>, start: int, ps: seq<nat>)
    requires CollectRows(step, rows, start).Ok?
    requires ps == Emitted(step, rows, start)
    ensures var es := CollectRows(step, rows, start).value.entries;
            && |es| == |ps|
            && forall k :: 0 <= k < |es| ==> step(rows[ps[k]], start + ps[k] + 1) == Ok(Some(es[k]))
    decreases |rows|
  {
    if |rows| > 0 {
      var init := rows[..|rows| - 1];
      var pi := Emitted(step, init, start);
      CollectRowsLast(step, rows, start);
      CollectRowsEntries(step, init, start, pi);
      var es := CollectRows(step, rows, start).value.entries;
      forall k | 0 <= k < |pi|
        ensures step(rows[ps[k]], start + ps[k] + 1) == Ok(Some(es[k]))
      {
        assert ps[k] == pi[k] && rows[pi[k]] == init[pi[k]];
      }
    }
  }

  /** The positions of the booked rows, in order. */
  function BookedPositions(rows: seq<Row>): (ps: seq<nat>)
    ensures |ps| == CountBooked(rows)
    ensures forall k :: 0 <= k < |ps| ==> ps[k] < |rows| && IsBooked(rows[ps[k]])
    ensures forall k, l :: 0 <= k < l < |ps| ==> ps[k] < ps[l]
    ensures forall p :: 0 <= p < |rows| && IsBooked(rows[p]) ==> p in ps
    decreases |rows|
  {
    if |rows| == 0 then []
    else
      var init := rows[..|rows| - 1];
      assert forall p :: 0 <= p < |init| ==> init[p] == rows[p];
      var before := BookedPositions(init);
      assert forall k :: 0 <= k < |before| ==> before[k] < |rows| - 1;
      assert forall p :: 0 <= p < |init| && IsBooked(rows[p]) ==> p in before;
      before + if IsBooked(rows[|rows| - 1]) then [|rows| - 1] else []
  }

  /** The transaction loop fails exactly when some row fails. */
  lemma {:induction false} TransactionLoopFails(cfg: Config, dec: Decoders, fileName: string, rows: seq<Row>, start: int)
    ensures CollectRows(TransactionStep(cfg, dec, fileName), rows, start).Err? <==>
              exists p :: 0 <= p < |rows| && RowFails(dec, rows[p])
  {
    var step := TransactionStep(cfg, dec, fileName);
    if CollectRows(step, rows, start).Err? {
      var p :| 0 <= p < |rows| && step(rows[p], start + p + 1).Err?;
      assert RowFails(dec, rows[p]);
    }
  }

  /** Without failing rows, the rows that yield a transaction are the booked
      ones: `offen` rows are skipped and nothing else is. */
  lemma {:induction false} EmittedAreBooked(cfg: Config, dec: Decoders, fileName: string, rows: seq<Row>, start: int)
    requires forall p :: 0 <= p < |rows| ==> !RowFails(dec, rows[p])
    ensures Emitted(TransactionStep(cfg, dec, fileName), rows, start) == BookedPositions(rows)
    decreases |rows|
  {
    if |rows| > 0 {
      var init := rows[..|rows| - 1];
      var p := |rows| - 1;
      assert forall q :: 0 <= q < |init| ==> init[q] == rows[q];
      EmittedAreBooked(cfg, dec, fileName, init, start);
      var out := RowOutcome(cfg, dec, fileName, rows[p], start + p + 1);
      assert !RowFails(dec, rows[p]);
      assert out.Ok? && (out.value.Some? <==> IsBooked(rows[p]));
    }
  }

  lemma {:induction false} EmittedAreBookedWhenOk(cfg: Config, dec: Decoders, fileName: string, rows: seq<Row>, start: int)
    requires CollectRows(TransactionStep(cfg, dec, fileName), rows, start).Ok?
    ensures Emitted(TransactionStep(cfg, dec, fileName), rows, start) == BookedPositions(rows)
  {
    TransactionLoopFails(cfg, dec, fileName, rows, start);
    EmittedAreBooked(cfg, dec, fileName, rows, start);
  }

  /** A completed transaction loop holds one transaction per booked row, in
      row order, each what the loop step made of that row at its line index;
      `ps` names the booked positions. */
  lemma {:induction false} TransactionLoopEntries(cfg: Config, dec: Decoders, fileName: string, rows: seq<Row>, start: int, ps: seq<nat>)
    requires CollectRows(TransactionStep(cfg, dec, fileName), rows, start).Ok?
    requires ps == BookedPositions(rows)
    ensures var step := TransactionStep(cfg, dec, fileName);
            var es := CollectRows(step, rows, start).value.entries;
            && |es| == |ps|
            && forall k :: 0 <= k < |es| ==> step(rows[ps[k]], start + ps[k] + 1) == Ok(Some(es[k]))
  {
    EmittedAreBookedWhenOk(cfg, dec, fileName, rows, start);
    CollectRowsEntries(TransactionStep(cfg, dec, fileName), rows, start, ps);
  }

  /** A successful run returns one transaction per booked row of the table,
      in row order, and then the closing balance from the updated state; the
      transactions' line indices continue from the preamble's row count `n`. */
  lemma {:induction false} ExtractEntries(cfg: Config, dec: Decoders, fileName: string, s: State, lines: seq<string>,
                       rows: seq<Row>, n: int, ps: seq<nat>)
    requires Extract(cfg, dec, fileName, s, lines).result.Ok?
    requires Header in lines
    requires rows == dec.readTable(SplitAtHeader(lines).value.table)
    requires n == |dec.readRows(SplitAtHeader(lines).value.metadata)|
    requires ps == BookedPositions(rows)
    ensures var r := Extract(cfg, dec, fileName, s, lines);
            var es := r.result.value;
            && |es| == |ps| + 1
            && es[|ps|] == ClosingBalance(cfg, fileName, r.state)
            && forall k :: 0 <= k < |ps| ==> TransactionStep(cfg, dec, fileName)(rows[ps[k]], n + ps[k] + 1) == Ok(Some(es[k]))
  {
    TransactionLoopEntries(cfg, dec, fileName, rows, n, ps);
  }
}
