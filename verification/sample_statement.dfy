/** The four booked rows of the repository's sample statement, worked through
    the getters: for any row whose cells hold the sample's text, the booking
    date, the payee and (where the sample states it) the narration.

    Each description is written as a concatenation of named pieces, split at
    the markers the payee and purpose rules search for; the pieces spell the
    sample's text exactly. Pieces that run between two markers are shown to
    be fillers (one line, and the end marker starts nowhere inside them),
    which is what the search needs to stop at the intended marker.
 */
module SampleStatement {
  import opened Wrappers
  import opened Strings
  import opened Calendar
  import opened Extractor
  import opened ExtractorProps
  import opened Importer
  import opened ImporterProps

  /** Ten pieces regrouped around a marker. */
  lemma {:induction false} Regroup(a: string, b: string, c: string, d: string, e: string,
                                   f: string, g: string, h: string, i: string, j: string)
    ensures a + b + c + d + e + f + g + h + i + j == "" + a + (b + c + d) + e + (f + g + h + i + j)
    ensures a + b + c + d + e + f + g + h + i + j == (a + b + c + d) + e + (f + g + h) + i + j
  {
  }

  const Transfer := "\U{DC}bertrag / \U{DC}berweisung"
  const DirectDebit := "Lastschrift / Belastung"

  /** The booking dates of the sample, parsed. */
  lemma {:induction false} Date10()
    ensures ParseDate("10.04.2022") == Ok(Date(2022, 4, 10))
  {
    ParseFormatRoundTrip(Date(2022, 4, 10));
    assert FormatDate(Date(2022, 4, 10)) == "10.04.2022";
  }

  lemma {:induction false} Date11()
    ensures ParseDate("11.04.2022") == Ok(Date(2022, 4, 11))
  {
    ParseFormatRoundTrip(Date(2022, 4, 11));
    assert FormatDate(Date(2022, 4, 11)) == "11.04.2022";
  }

  lemma {:induction false} Date12()
    ensures ParseDate("12.04.2022") == Ok(Date(2022, 4, 12))
  {
    ParseFormatRoundTrip(Date(2022, 4, 12));
    assert FormatDate(Date(2022, 4, 12)) == "12.04.2022";
  }

  // Row 1: cash deposit
  const Cash1 := "BARGELDEINZAHLUNG KARTE 0"
  const Cash2 := " EINZAHLAUTOMAT 872672"
  const Cash3 := " EINZAHLUNG 10.04.2022 13:22"
  const Cash4 := " Berlin Stra\U{DF}en-Allee"
  const CashText := Cash1 + Cash2 + Cash3 + Cash4
  const CashTail := " 92JKASDJ23e3/1"
  const CashBody := "Buchungstext:" + " " + CashText + " " + "Ref." + CashTail
  const CashDesc := " " + CashBody

  lemma {:induction false} CashStartPieces()
    ensures Filler(Cash1, "Ref.") && Filler(Cash2, "Ref.")
  {
  }

  lemma {:induction false} CashEndPieces()
    ensures Filler(Cash3, "Ref.") && Filler(Cash4, "Ref.")
  {
  }

  lemma {:induction false} CashMiddle()
    ensures NotBefore(" " + CashText + " ", "Ref.") && OneLine(" " + CashText + " ")
  {
    CashStartPieces();
    CashEndPieces();
    assert Filler(" ", "Ref.");
    NotBeforeOfPieces(" " + Cash1, Cash2, Cash3, Cash4, " ", "Ref.");
    assert " " + Cash1 + Cash2 + Cash3 + Cash4 + " " == " " + CashText + " ";
  }

  lemma {:induction false} CashStripped()
    ensures Strip(" " + CashText + " ") == CashText
  {
    assert CashText[0] == 'B';
    assert CashText[|CashText| - 1] == 'e';
    StripPadded(CashText);
  }

  lemma {:induction false} CashPayee()
    ensures ExtractBetween(CashBody, "Buchungstext:", "Ref.") == Some(CashText)
  {
    CashMiddle();
    CashStripped();
    ExtractFromParts("", "Buchungstext:", " " + CashText + " ", "Ref.", CashTail);
    assert "" + "Buchungstext:" + (" " + CashText + " ") + "Ref." + CashTail == CashBody;
  }

  lemma {:induction false} CashShape()
    ensures Strip(CashDesc) == CashBody && CashBody[0] == 'B'
  {
    assert CashBody[0] == 'B';
    assert CashBody[|CashBody| - 1] == '1';
    StripPadded(CashBody);
  }

  /** The cash deposit: booked on 10 April 2022, and both payee and narration
      are the text between `Buchungstext:` and `Ref.`. */
  lemma {:induction false} CashDepositRow(row: Row)
    requires row[Column(Day)] == "10.04.2022" && row[Column(Description)] == CashDesc
    ensures GetBookingDate(row) == Ok(Date(2022, 4, 10))
    ensures GetPayee(row) == Some(CashText)
    ensures GetPurpose(row) == Some(CashText)
  {
    Date10();
    CashShape();
    FirstCharDiffers(CashBody, "Auftraggeber");
    FirstCharDiffers(CashBody, "Empf\U{E4}nger");
    CashPayee();
    FallbackPayeeIsPurpose(row);
  }

  // Row 2: transfer out
  const Payer := "Max Mustermann"
  const OutTail := ": DE123456789123 BLZ/BIC: BMNASMDMNAS  Ref. U277238HAS232/2"
  const OutDesc := "Empf\U{E4}nger:" + " " + Payer + "Kto/IBAN" + OutTail

  lemma {:induction false} PayerStripped()
    ensures Strip(" " + Payer) == Payer && Strip(" " + Payer + " ") == Payer
  {
    StripPadded(Payer);
  }

  lemma {:induction false} PayerPieces()
    ensures Filler(" " + Payer, "Kto/IBAN") && Filler(" " + Payer + " ", "Ref.")
  {
  }

  lemma {:induction false} OutPayee()
    ensures ExtractBetween(OutDesc, "Empf\U{E4}nger:", "Kto/IBAN") == Some(Payer)
  {
    PayerPieces();
    NotBeforeOfFiller(" " + Payer, "Kto/IBAN");
    PayerStripped();
    ExtractFromParts("", "Empf\U{E4}nger:", " " + Payer, "Kto/IBAN", OutTail);
    assert "" + "Empf\U{E4}nger:" + (" " + Payer) + "Kto/IBAN" + OutTail == OutDesc;
  }

  lemma {:induction false} OutShape()
    ensures Strip(OutDesc) == OutDesc && OutDesc[0] == 'E' && StartsWith(OutDesc, "Empf\U{E4}nger")
  {
    assert OutDesc[0] == 'E';
    assert OutDesc[|OutDesc| - 1] == '2';
    StripPadded(OutDesc);
    assert OutDesc[..9] == "Empf\U{E4}nger";
  }

  /** The outgoing transfer: booked on 11 April 2022, the payee is the text
      between `Empfänger:` and `Kto/IBAN`. */
  lemma {:induction false} TransferOutRow(row: Row)
    requires row[Column(Day)] == "11.04.2022" && row[Column(Description)] == OutDesc
    ensures GetBookingDate(row) == Ok(Date(2022, 4, 11))
    ensures GetPayee(row) == Some(Payer)
  {
    Date11();
    OutShape();
    FirstCharDiffers(OutDesc, "Auftraggeber");
    OutPayee();
  }

  // Row 3: transfer in
  const InTail := " U277238HAS232/1"
  const InDesc := "Auftraggeber:" + " " + Payer + " " + "Ref." + InTail

  lemma {:induction false} InPayee()
    ensures ExtractBetween(InDesc, "Auftraggeber:", "Ref.") == Some(Payer)
  {
    PayerPieces();
    NotBeforeOfFiller(" " + Payer + " ", "Ref.");
    PayerStripped();
    ExtractFromParts("", "Auftraggeber:", " " + Payer + " ", "Ref.", InTail);
    assert "" + "Auftraggeber:" + (" " + Payer + " ") + "Ref." + InTail == InDesc;
  }

  lemma {:induction false} InShape()
    ensures Strip(InDesc) == InDesc && StartsWith(InDesc, "Auftraggeber")
  {
    StripPadded(InDesc);
    assert InDesc[..12] == "Auftraggeber";
  }

  lemma {:induction false} TransferEvent()
    ensures StartsWith(Transfer, "\U{DC}bertrag")
  {
    assert Transfer[..8] == "\U{DC}bertrag";
  }

  /** The incoming transfer: booked on 12 April 2022, the event is a transfer,
      so the payee is the text between `Auftraggeber:` and `Ref.`. */
  lemma {:induction false} TransferInRow(row: Row)
    requires row[Column(Day)] == "12.04.2022" && GetEvent(row) == Transfer
    requires row[Column(Description)] == InDesc
    ensures GetBookingDate(row) == Ok(Date(2022, 4, 12))
    ensures GetPayee(row) == Some(Payer)
  {
    Date12();
    InShape();
    TransferEvent();
    InPayee();
  }

  // Row 4: direct debit
  const Creditor := "PayPal Europe S.a.r.l. et Cie S.C.A"
  const DebitPurpose := "82927826268/PP.2722.PP/. , Ihr Ei nkauf bei"
  const DebitTail := " UHS22832233/74494"
  const DebitDesc := "Auftraggeber:" + " " + Creditor + " " + "Buchungstext:" + " " + DebitPurpose + " " + "Ref." + DebitTail

  lemma {:induction false} CreditorPieces()
    ensures Filler(Creditor, "Buchungstext:") && Filler("Auftraggeber:", "Buchungstext:")
    ensures Filler(" ", "Buchungstext:") && Filler("", "Buchungstext:")
  {
  }

  lemma {:induction false} DebitPurposePieces()
    ensures Filler(DebitPurpose, "Ref.") && Filler(" ", "Ref.") && Filler("", "Ref.")
  {
  }

  lemma {:induction false} DebitPayee()
    ensures ExtractBetween(DebitDesc, "Auftraggeber:", "Buchungstext:") == Some(Creditor)
  {
    CreditorPieces();
    NotBeforeOfPieces(" ", Creditor, " ", "", "", "Buchungstext:");
    assert " " + Creditor + " " + "" + "" == " " + Creditor + " ";
    assert Creditor[0] == 'P' && Creditor[|Creditor| - 1] == 'A';
    StripPadded(Creditor);
    var post := " " + DebitPurpose + " " + "Ref." + DebitTail;
    ExtractFromParts("", "Auftraggeber:", " " + Creditor + " ", "Buchungstext:", post);
    Regroup("Auftraggeber:", " ", Creditor, " ", "Buchungstext:", " ", DebitPurpose, " ", "Ref.", DebitTail);
  }

  lemma {:induction false} DebitPurposeText()
    ensures ExtractBetween(DebitDesc, "Buchungstext:", "Ref.") == Some(DebitPurpose)
  {
    CreditorPieces();
    DebitPurposePieces();
    var pre := "Auftraggeber:" + " " + Creditor + " ";
    NotBeforeOfPieces("Auftraggeber:", " ", Creditor, " ", "", "Buchungstext:");
    assert "Auftraggeber:" + " " + Creditor + " " + "" == pre;
    NotBeforeOfPieces(" ", DebitPurpose, " ", "", "", "Ref.");
    assert " " + DebitPurpose + " " + "" + "" == " " + DebitPurpose + " ";
    assert DebitPurpose[0] == '8' && DebitPurpose[|DebitPurpose| - 1] == 'i';
    StripPadded(DebitPurpose);
    ExtractFromParts(pre, "Buchungstext:", " " + DebitPurpose + " ", "Ref.", DebitTail);
    Regroup("Auftraggeber:", " ", Creditor, " ", "Buchungstext:", " ", DebitPurpose, " ", "Ref.", DebitTail);
  }

  lemma {:induction false} DebitShape()
    ensures Strip(DebitDesc) == DebitDesc && StartsWith(DebitDesc, "Auftraggeber")
  {
    assert DebitDesc[0] == 'A' && DebitDesc[|DebitDesc| - 1] == '4';
    StripPadded(DebitDesc);
    assert DebitDesc[..12] == "Auftraggeber";
  }

  /** The direct debit: booked on 12 April 2022; the event is not a transfer,
      so the payee is the text between `Auftraggeber:` and `Buchungstext:`,
      and the narration is the text between `Buchungstext:` and `Ref.`. */
  lemma {:induction false} DirectDebitRow(row: Row)
    requires row[Column(Day)] == "12.04.2022" && GetEvent(row) == DirectDebit
    requires row[Column(Description)] == DebitDesc
    ensures GetBookingDate(row) == Ok(Date(2022, 4, 12))
    ensures GetPayee(row) == Some(Creditor)
    ensures GetPurpose(row) == Some(DebitPurpose)
  {
    Date12();
    DebitShape();
    FirstCharDiffers(DirectDebit, "\U{DC}bertrag");
    DebitPayee();
    DebitPurposeText();
    PurposeOfStrippedDescription(row);
  }

  // ---------------------------------------------------------------------------
  // The whole statement

  /** Four booked rows count four. */
  lemma {:induction false} FourBooked(rows: seq<Row>)
    requires |rows| == 4 && forall k :: 0 <= k < 4 ==> IsBooked(rows[k])
    ensures CountBooked(rows) == 4
  {
    var r1, r2, r3 := rows[..1], rows[..2], rows[..3];
    assert r1[..0] == [] && r1[0] == rows[0];
    assert CountBooked(r1) == 1;
    assert r2[..1] == r1 && r2[1] == rows[1];
    assert CountBooked(r2) == 2;
    assert r3[..2] == r2 && r3[2] == rows[2];
    assert CountBooked(r3) == 3;
    assert rows[..3] == r3;
  }

  /** A row whose booking day is a date, with an accepted amount, is booked
      and does not fail: a date text is never `offen`. */
  lemma {:induction false} DatedRowDoesNotFail(dec: Decoders, row: Row)
    requires GetBookingDate(row).Ok? && dec.parseNumber(GetAmount(row)).Some?
    ensures IsBooked(row) && !RowFails(dec, row)
  {
    assert |row[Column(Day)]| == 10;
  }

  /** A row booked on one of the sample's days, with an accepted amount,
      does not fail. */
  lemma {:induction false} SampleDayRowDoesNotFail(dec: Decoders, row: Row)
    requires row[Column(Day)] == "10.04.2022" || row[Column(Day)] == "11.04.2022" || row[Column(Day)] == "12.04.2022"
    requires dec.parseNumber(GetAmount(row)).Some?
    ensures IsBooked(row) && !RowFails(dec, row)
  {
    if row[Column(Day)] == "10.04.2022" {
      Date10();
    } else if row[Column(Day)] == "11.04.2022" {
      Date11();
    } else {
      Date12();
    }
    DatedRowDoesNotFail(dec, row);
  }

  /** No row with a sample booking day and an accepted amount fails. */
  lemma {:induction false} SampleRowsDoNotFail(dec: Decoders, rows: seq<Row>)
    requires |rows| == 4
    requires rows[0][Column(Day)] == "10.04.2022" && rows[1][Column(Day)] == "11.04.2022"
    requires rows[2][Column(Day)] == "12.04.2022" && rows[3][Column(Day)] == "12.04.2022"
    requires forall k :: 0 <= k < 4 ==> dec.parseNumber(GetAmount(rows[k])).Some?
    ensures forall k :: 0 <= k < 4 ==> IsBooked(rows[k]) && !RowFails(dec, rows[k])
  {
    forall k | 0 <= k < 4 ensures IsBooked(rows[k]) && !RowFails(dec, rows[k]) {
      SampleDayRowDoesNotFail(dec, rows[k]);
    }
  }

  /** The sample statement imports to five directives, four transactions and
      the closing balance, whenever its preamble reads and updates without
      error, the table decodes to four rows with the sample's booking days,
      and the number parser accepts their amounts. */
  lemma {:induction false} SampleDirectiveCount(cfg: Config, dec: Decoders, fileName: string, s: State,
                                                lines: seq<string>, sections: Sections, preamble: Preamble, rows: seq<Row>)
    requires SplitAtHeader(lines) == Ok(sections)
    requires ReadMetadata(dec.readRows(sections.metadata)) == Ok(preamble)
    requires UpdateMeta(cfg, dec, s, preamble.entries).error.None?
    requires rows == dec.readTable(sections.table)
    requires |rows| == 4
    requires rows[0][Column(Day)] == "10.04.2022" && rows[1][Column(Day)] == "11.04.2022"
    requires rows[2][Column(Day)] == "12.04.2022" && rows[3][Column(Day)] == "12.04.2022"
    requires forall k :: 0 <= k < 4 ==> dec.parseNumber(GetAmount(rows[k])).Some?
    ensures Extract(cfg, dec, fileName, s, lines).result.Ok?
    ensures |Extract(cfg, dec, fileName, s, lines).result.value| == 5
  {
    SampleRowsDoNotFail(dec, rows);
    TransactionLoopFails(cfg, dec, fileName, rows, preamble.lineIndex);
    FourBooked(rows);
    assert Header in lines;
    ExtractEntries(cfg, dec, fileName, s, lines, rows, |dec.readRows(sections.metadata)|, BookedPositions(rows));
  }
}
