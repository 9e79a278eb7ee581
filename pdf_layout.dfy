/** The layout of `src/utils/pdfGenerator.js`. A `Sheet` stands for the
    jsPDF document together with the `yPos` cursor its closures move: it
    counts pages and keeps a log of what was drawn where. Text measurement
    is done by jsPDF, so the number of lines of each measured text is an
    input. Positions are in tenths of a millimetre. */
module PdfLayout {
  import opened Common
  import opened Text
  import opened PdfText

  /** Below the 30 mm coloured band of `addHeader`. */
  const HEADER_BOTTOM := 300 + MARGIN
  /** `addSectionTitle` without a subtitle: 6 mm, the rule, then 8 mm. */
  const SECTION_ADVANCE := 140
  const TABLE_HEADER_HEIGHT := 100
  /** Where the first item of a continued block starts. */
  const CONTINUED_TOP := HEADER_BOTTOM + SECTION_ADVANCE
  const CONTINUED_ROW_TOP := CONTINUED_TOP + TABLE_HEADER_HEIGHT

  /** The page-break thresholds and the footer's room. */
  const INFO_BREAK := PAGE_HEIGHT - MARGIN - 200
  const ROW_BREAK := PAGE_HEIGHT - MARGIN - 300
  const ISSUANCE_BREAK := PAGE_HEIGHT - MARGIN - 700
  const FOOTER_ROOM := PAGE_HEIGHT - MARGIN - 400

  /** The labels the layout draws: section titles and item labels. */
  datatype Label =
    | Subtitle | HoldersInfoCont | VaccinationHistory | VaccinationHistoryCont | IssuanceAndVerification
    | PatientName | DocumentId | BirthDate | Country | IssuedOn | VerificationCodeLabel | IssuingEntity

  /** The translation key of each label. */
  function Key(l: Label): (k: string)
    ensures StartsWith(k, "pdf")
  {
    match l
    case Subtitle => "pdfSubtitle"
    case HoldersInfoCont => "pdfHoldersInfoCont"
    case VaccinationHistory => "pdfVaccinationHistory"
    case VaccinationHistoryCont => "pdfVaccinationHistoryCont"
    case IssuanceAndVerification => "pdfIssuanceAndVerification"
    case PatientName => "pdfPatientName"
    case DocumentId => "pdfDocumentId"
    case BirthDate => "pdfBirthDate"
    case Country => "pdfCountry"
    case IssuedOn => "pdfIssuedOn"
    case VerificationCodeLabel => "pdfVerificationCode"
    case IssuingEntity => "pdfIssuingEntity"
  }

  const PATIENT_KEYS: seq<Label> := [PatientName, DocumentId, BirthDate, Country]
  const ISSUE_KEYS: seq<Label> := [IssuedOn, VerificationCodeLabel, IssuingEntity]

  /** What the generator draws, in order. */
  datatype Event =
    | NewPage(page: nat)
    | Header(page: nat)
    | SectionTitle(title: Label, top: int)
    | Info(item: Label, top: int, lines: nat)
    | TableHeader(top: int)
    | Row(index: nat, top: int, height: nat)
    | Placeholder(top: int)
    | QrCode(top: int)
    | Footer(page: nat, total: nat)


  /** The drawings that are neither text nor boxes. */
  datatype Mark = NoVaccinesNote | QrImage

  /** What a log shows, kind by kind, in drawing order: the numbers of the
      added pages, the (vaccine index, height) of the rows, the labels of
      the items, the (page, total) of the footers, and the marks. */
  datatype Tally = Tally(
    pagesAdded: seq<int>,
    rows: seq<(int, int)>,
    items: seq<Label>,
    footers: seq<(int, int)>,
    marks: seq<Mark>)

  const NOTHING := Tally([], [], [], [], [])

  /** What one drawing adds to the tally. */
  function Add(t: Tally, e: Event): Tally
  {
    match e
    case NewPage(p) => t.(pagesAdded := t.pagesAdded + [p])
    case Row(i, _, h) => t.(rows := t.rows + [(i as int, h as int)])
    case Info(l, _, _) => t.(items := t.items + [l])
    case Footer(p, n) => t.(footers := t.footers + [(p as int, n as int)])
    case Placeholder(_) => t.(marks := t.marks + [NoVaccinesNote])
    case QrCode(_) => t.(marks := t.marks + [QrImage])
    case _ => t
  }

  function Summary(log: seq<Event>): Tally
  {
    if |log| == 0 then NOTHING else Add(Summary(log[..|log| - 1]), log[|log| - 1])
  }

  lemma SummaryAppend(log: seq<Event>, e: Event)
    ensures Summary(log + [e]) == Add(Summary(log), e)
  {
    assert (log + [e])[..|log|] == log;
  }

  /** The rows a table of `rows` must show: one per vaccine, in order, each
      as high as its tallest cell needs. */
  function RowSpecs(rows: seq<seq<nat>>): (r: seq<(int, int)>)
    ensures |r| == |rows|
    ensures forall k :: 0 <= k < |r| ==> r[k].0 == k && r[k].1 >= 80
    ensures forall k, c :: 0 <= k < |r| && 0 <= c < |rows[k]| ==> r[k].1 >= 35 * rows[k][c] + 40
    ensures forall k :: 0 <= k < |r| ==> r[k].1 == RowHeight(LineMax(rows[k])) as int
  {
    seq(|rows|, k requires 0 <= k < |rows| => (k, RowHeight(LineMax(rows[k])) as int))
  }

  /** The cursor after the holder items from `y0`, one item per line
      count: an item past `INFO_BREAK` goes under the continuation title of
      a new page, and each takes 4.5 mm per line and 4 mm more. */
  function InfoEnd(y0: int, lines: seq<nat>): int
  {
    if |lines| == 0 then y0
    else
      var y := InfoEnd(y0, lines[..|lines| - 1]);
      (if y > INFO_BREAK then CONTINUED_TOP else y) + 45 * lines[|lines| - 1] + 40
  }

  /** The cursor after the table rows from `y0`: a row that would cross
      `ROW_BREAK` goes below the redrawn column header of a new page. */
  function RowsEnd(y0: int, rows: seq<seq<nat>>): int
  {
    if |rows| == 0 then y0
    else
      var y := RowsEnd(y0, rows[..|rows| - 1]);
      var h := RowHeight(LineMax(rows[|rows| - 1])) as int;
      (if y + h > ROW_BREAK then CONTINUED_ROW_TOP else y) + h
  }

  lemma RowsEndStep(y0: int, rows: seq<seq<nat>>, i: nat)
    requires i < |rows|
    ensures var y := RowsEnd(y0, rows[..i]);
      var h := RowHeight(LineMax(rows[i])) as int;
      RowsEnd(y0, rows[..i + 1]) == (if y + h > ROW_BREAK then CONTINUED_ROW_TOP else y) + h
  {
    assert rows[..i + 1][..i] == rows[..i];
  }

  /** The space the issuance items take: 4 mm per line and 4 mm more each. */
  function IssueAdvance(lines: seq<nat>): int
  {
    if |lines| == 0 then 0 else IssueAdvance(lines[..|lines| - 1]) + 40 * lines[|lines| - 1] + 40
  }

  /** One footer per page, each showing the total. */
  function FooterSpecs(pageCount: nat): (r: seq<(int, int)>)
    ensures |r| == pageCount
    ensures forall k :: 0 <= k < pageCount ==> r[k] == (k + 1, pageCount as int)
  {
    seq(pageCount, k requires 0 <= k < pageCount => (k + 1, pageCount as int))
  }

  /** The log ends with a continued table's redraw: new page, header,
      continuation title, column header. */
  predicate EndsRedrawn(log: seq<Event>)
  {
    |log| >= 4 && log[|log| - 4].NewPage? && log[|log| - 3] == Header(log[|log| - 4].page)
    && log[|log| - 2] == SectionTitle(VaccinationHistoryCont, HEADER_BOTTOM)
    && log[|log| - 1] == TableHeader(CONTINUED_TOP)
  }

  /** Where a row drawn after `log` may go: it ends above the break line,
      or it opens a continued page. */
  predicate RowPlacedAfter(log: seq<Event>, e: Event)
    requires e.Row?
  {
    e.top + e.height <= ROW_BREAK || (EndsRedrawn(log) && e.top == CONTINUED_ROW_TOP)
  }

  /** What may follow `before`: right after a new page comes that page's
      header, and a row sits where the table allows. */
  predicate FitsAfter(before: seq<Event>, e: Event)
  {
    (|before| > 0 && before[|before| - 1].NewPage? ==> e == Header(before[|before| - 1].page))
    && (e.Row? ==> RowPlacedAfter(before, e))
  }

  /** Every element fits what was drawn before it. */
  predicate WellFormed(log: seq<Event>)
  {
    |log| == 0 || (WellFormed(log[..|log| - 1]) && FitsAfter(log[..|log| - 1], log[|log| - 1]))
  }

  /** The log starts with the first page's header, is well formed, and
      does not end on a page still waiting for its header. */
  predicate Shape(log: seq<Event>)
  {
    |log| > 0 && log[0] == Header(1) && !log[|log| - 1].NewPage? && WellFormed(log)
  }

  lemma {:induction false} WellFormedAt(log: seq<Event>, k: nat)
    requires WellFormed(log) && k < |log|
    ensures FitsAfter(log[..k], log[k])
    decreases |log|
  {
    if k < |log| - 1 {
      var front := log[..|log| - 1];
      WellFormedAt(front, k);
      assert front[..k] == log[..k] && front[k] == log[k];
    }
  }

  /** Every added page is followed by its header. */
  predicate HeadedPages(log: seq<Event>)
  {
    forall k :: 0 <= k < |log| - 1 && log[k].NewPage? ==> log[k + 1] == Header(log[k].page)
  }

  /** Every row ends above the break line, or opens a continued page. */
  predicate RowsWellPlaced(log: seq<Event>)
  {
    forall k :: 0 <= k < |log| && log[k].Row? ==> RowPlacedAfter(log[..k], log[k])
  }

  /** The shape of a log, element by element; a new page is never last. */
  lemma ShapeMeans(log: seq<Event>)
    requires Shape(log)
    ensures HeadedPages(log) && RowsWellPlaced(log)
    ensures forall k :: 0 <= k < |log| && log[k].NewPage? ==> k < |log| - 1
  {
    forall k | 0 <= k < |log| - 1 && log[k].NewPage?
      ensures log[k + 1] == Header(log[k].page)
    {
      WellFormedAt(log, k + 1);
      assert log[..k + 1][k] == log[k];
    }
    forall k | 0 <= k < |log| && log[k].Row?
      ensures RowPlacedAfter(log[..k], log[k])
    {
      WellFormedAt(log, k);
    }
  }

  lemma DrawKeepsShape(log: seq<Event>, e: Event)
    requires Shape(log) && !e.NewPage?
    requires e.Row? ==> RowPlacedAfter(log, e)
    ensures Shape(log + [e])
  {
    assert (log + [e])[..|log|] == log;
  }

  lemma PageKeepsShape(log: seq<Event>, p: nat)
    requires Shape(log)
    ensures Shape(log + [NewPage(p), Header(p)])
  {
    var withPage := log + [NewPage(p)];
    assert withPage[..|log|] == log;
    assert WellFormed(withPage);
    assert (log + [NewPage(p), Header(p)])[..|withPage|] == withPage;
  }

  class Sheet {
    var y: int
    var pages: nat
    var log: seq<Event>
    /** `Summary(log)`, kept alongside the log. */
    ghost var tally: Tally

    /** The log is well shaped, its pages are numbered 2, 3, ... in the
        order they were added, and the tally is the log's. */
    ghost predicate Valid()
      reads this
    {
      pages >= 1 && Shape(log) && tally == Summary(log) && tally.pagesAdded == Range(2, pages + 1)
    }

    /** `new jsPDF(...)` followed by the first `addHeader()`. */
    constructor ()
      ensures Valid() && pages == 1 && y == HEADER_BOTTOM && log == [Header(1)] && tally == NOTHING
    {
      pages := 1;
      y := HEADER_BOTTOM;
      log := [Header(1)];
      tally := NOTHING;
      SummaryAppend([], Header(1));
      assert [Header(1)][..0] == [];
    }

    /** Draws one element that starts no page. */
    method Draw(e: Event)
      requires Valid() && !e.NewPage?
      requires e.Row? ==> RowPlacedAfter(log, e)
      modifies this`log, this`tally
      ensures Valid() && log == old(log) + [e] && tally == Add(old(tally), e)
    {
      SummaryAppend(log, e);
      DrawKeepsShape(log, e);
      log := log + [e];
      tally := Add(tally, e);
    }

    /** `pdf.addPage(); addHeader();`. */
    method StartPage()
      requires Valid()
      modifies this
      ensures Valid()
      ensures pages == old(pages) + 1 && y == HEADER_BOTTOM
      ensures log == old(log) + [NewPage(pages), Header(pages)]
      ensures tally.(pagesAdded := []) == old(tally).(pagesAdded := [])
    {
      SummaryAppend(log, NewPage(pages + 1));
      SummaryAppend(log + [NewPage(pages + 1)], Header(pages + 1));
      assert log + [NewPage(pages + 1)] + [Header(pages + 1)] == log + [NewPage(pages + 1), Header(pages + 1)];
      PageKeepsShape(log, pages + 1);
      RangeExtend(2, pages + 1);
      pages := pages + 1;
      log := log + [NewPage(pages), Header(pages)];
      tally := tally.(pagesAdded := tally.pagesAdded + [pages]);
      y := HEADER_BOTTOM;
    }

    /** `addSectionTitle(title)`. */
    method AddSectionTitle(title: Label)
      requires Valid()
      modifies this
      ensures Valid() && pages == old(pages) && tally == old(tally)
      ensures log == old(log) + [SectionTitle(title, old(y))] && y == old(y) + SECTION_ADVANCE
    {
      Draw(SectionTitle(title, y));
      y := y + SECTION_ADVANCE;
    }

    /** One holder-information item: past `INFO_BREAK` the block continues
        on a new page under its continuation title; the item then takes
        4.5 mm per line and 4 mm more. */
    method PlaceInfo(item: Label, lines: nat)
      requires Valid()
      modifies this
      ensures Valid()
      ensures old(y) > INFO_BREAK ==>
        && pages == old(pages) + 1
        && log == old(log) + [NewPage(pages), Header(pages), SectionTitle(HoldersInfoCont, HEADER_BOTTOM), Info(item, CONTINUED_TOP, lines)]
        && y == CONTINUED_TOP + 45 * lines + 40
      ensures old(y) <= INFO_BREAK ==>
        pages == old(pages) && log == old(log) + [Info(item, old(y), lines)] && y == old(y) + 45 * lines + 40
      ensures tally.(pagesAdded := []) == old(tally).(pagesAdded := [], items := old(tally).items + [item])
    {
      ghost var before := log;
      if y > INFO_BREAK {
        StartPage();
        AddSectionTitle(HoldersInfoCont);
        Draw(Info(item, y, lines));
        assert log == before + [NewPage(pages), Header(pages)] + [SectionTitle(HoldersInfoCont, HEADER_BOTTOM)] + [Info(item, CONTINUED_TOP, lines)];
      } else {
        Draw(Info(item, y, lines));
      }
      y := y + 45 * lines + 40;
    }

    /** The holder-information block, then 5 mm of space. */
    method PatientBlock(lines: seq<nat>)
      requires Valid() && |lines| == |PATIENT_KEYS|
      modifies this
      ensures Valid()
      ensures tally.(pagesAdded := []) == old(tally).(pagesAdded := [], items := old(tally).items + PATIENT_KEYS)
      ensures y == InfoEnd(old(y), lines) + 50
    {
      var i := 0;
      while i < |lines|
        invariant 0 <= i <= |lines|
        invariant Valid()
        invariant tally.(pagesAdded := []) == old(tally).(pagesAdded := [], items := old(tally).items + PATIENT_KEYS[..i])
        invariant y == InfoEnd(old(y), lines[..i])
      {
        PlaceInfo(PATIENT_KEYS[i], lines[i]);
        TakeOneMore(PATIENT_KEYS, i);
        assert lines[..i + 1][..i] == lines[..i];
        i := i + 1;
      }
      assert lines[..i] == lines;
      y := y + 50;
    }

    /** One table row of height `h`: a row that would cross `ROW_BREAK`
        goes to a new page after the header, the continuation title and the
        column header. */
    method PlaceRow(i: nat, h: nat)
      requires Valid()
      modifies this
      ensures Valid()
      ensures old(y) + h > ROW_BREAK ==>
        && pages == old(pages) + 1
        && log == old(log) + [NewPage(pages), Header(pages), SectionTitle(VaccinationHistoryCont, HEADER_BOTTOM),
                              TableHeader(CONTINUED_TOP), Row(i, CONTINUED_ROW_TOP, h)]
        && y == CONTINUED_ROW_TOP + h
      ensures old(y) + h <= ROW_BREAK ==>
        pages == old(pages) && log == old(log) + [Row(i, old(y), h)] && y == old(y) + h
      ensures tally.(pagesAdded := []) == old(tally).(pagesAdded := [], rows := old(tally).rows + [(i as int, h as int)])
    {
      ghost var before := log;
      if y + h > ROW_BREAK {
        StartPage();
        AddSectionTitle(VaccinationHistoryCont);
        Draw(TableHeader(y));
        y := y + TABLE_HEADER_HEIGHT;
        assert EndsRedrawn(log);
        Draw(Row(i, y, h));
        assert log == before + [NewPage(pages), Header(pages)] + [SectionTitle(VaccinationHistoryCont, HEADER_BOTTOM)]
                      + [TableHeader(CONTINUED_TOP)] + [Row(i, CONTINUED_ROW_TOP, h)];
      } else {
        Draw(Row(i, y, h));
      }
      y := y + h;
    }

    /** The table rows, one per vaccine in order, from the cursor down. */
    method PlaceRows(rows: seq<seq<nat>>)
      requires Valid()
      modifies this
      ensures Valid()
      ensures tally.(pagesAdded := []) == old(tally).(pagesAdded := [], rows := old(tally).rows + RowSpecs(rows))
      ensures y == RowsEnd(old(y), rows)
    {
      ghost var specs := RowSpecs(rows);
      var i := 0;
      while i < |rows|
        invariant 0 <= i <= |rows|
        invariant Valid()
        invariant tally.(pagesAdded := []) == old(tally).(pagesAdded := [], rows := old(tally).rows + specs[..i])
        invariant y == RowsEnd(old(y), rows[..i])
      {
        var maxLines := MaxLines(rows[i]);
        assert specs[i] == (i as int, RowHeight(maxLines) as int);
        RowsEndStep(old(y), rows, i);
        PlaceRow(i, RowHeight(maxLines));
        TakeOneMore(specs, i);
        i := i + 1;
      }
      assert specs[..i] == specs;
      assert rows[..i] == rows;
    }

    /** The vaccination section: its title, then either the table (the
        column header and one row per vaccine) or the "no vaccines" note. */
    method VaccineSection(rows: seq<seq<nat>>)
      requires Valid()
      modifies this
      ensures Valid()
      ensures tally.(pagesAdded := []) == old(tally).(pagesAdded := [], rows := old(tally).rows + RowSpecs(rows),
                                                      marks := old(tally).marks + if |rows| == 0 then [NoVaccinesNote] else [])
      ensures |rows| == 0 ==> y == old(y) + SECTION_ADVANCE + 80
      ensures |rows| > 0 ==> y == RowsEnd(old(y) + SECTION_ADVANCE + TABLE_HEADER_HEIGHT, rows)
    {
      AddSectionTitle(VaccinationHistory);
      if |rows| == 0 {
        Draw(Placeholder(y));
        y := y + 80;
        return;
      }
      Draw(TableHeader(y));
      y := y + TABLE_HEADER_HEIGHT;
      PlaceRows(rows);
    }

    /** The issuance items, 4 mm per line and 4 mm more each. */
    method IssueItems(lines: seq<nat>)
      requires Valid() && |lines| == |ISSUE_KEYS|
      modifies this`log, this`tally, this`y
      ensures Valid()
      ensures tally.(pagesAdded := []) == old(tally).(pagesAdded := [], items := old(tally).items + ISSUE_KEYS)
      ensures y == old(y) + IssueAdvance(lines)
    {
      var i := 0;
      while i < |lines|
        invariant 0 <= i <= |lines|
        invariant Valid()
        invariant tally.(pagesAdded := []) == old(tally).(pagesAdded := [], items := old(tally).items + ISSUE_KEYS[..i])
        invariant y == old(y) + IssueAdvance(lines[..i])
      {
        Draw(Info(ISSUE_KEYS[i], y, lines[i]));
        y := y + 40 * lines[i] + 40;
        TakeOneMore(ISSUE_KEYS, i);
        assert lines[..i + 1][..i] == lines[..i];
        i := i + 1;
      }
      assert lines[..i] == lines;
    }

    /** The issuance block: a new page when the cursor is past
        `ISSUANCE_BREAK`, otherwise 10 mm of space; the title; the three
        items; the QR code beside the first item, 2 mm higher, unless it
        could not be made. */
    method Issuance(lines: seq<nat>, qrMade: bool)
      requires Valid() && |lines| == |ISSUE_KEYS|
      modifies this
      ensures Valid()
      ensures tally.(pagesAdded := []) == old(tally).(pagesAdded := [], items := old(tally).items + ISSUE_KEYS,
                                                      marks := old(tally).marks + if qrMade then [QrImage] else [])
      ensures pages == old(pages) + if old(y) > ISSUANCE_BREAK then 1 else 0
      ensures y == (if old(y) > ISSUANCE_BREAK then HEADER_BOTTOM else old(y) + 100) + SECTION_ADVANCE + IssueAdvance(lines)
    {
      if y > ISSUANCE_BREAK {
        StartPage();
      } else {
        y := y + 100;
      }
      AddSectionTitle(IssuanceAndVerification);
      var qrTop := y;
      IssueItems(lines);
      if qrMade {
        Draw(QrCode(qrTop - 20));
      }
    }

    /** Everything between the first header and the footers: the
        subtitle, the holder information, the vaccination section and the
        issuance block, in that order. */
    method Content(patientLines: seq<nat>, rows: seq<seq<nat>>, issueLines: seq<nat>, qrMade: bool)
      requires Valid() && tally.(pagesAdded := []) == NOTHING
      requires |patientLines| == |PATIENT_KEYS| && |issueLines| == |ISSUE_KEYS|
      modifies this
      ensures Valid()
      ensures tally.(pagesAdded := []) == Tally([], RowSpecs(rows), PATIENT_KEYS + ISSUE_KEYS, [],
        (if |rows| == 0 then [NoVaccinesNote] else []) + (if qrMade then [QrImage] else []))
    {
      AddSectionTitle(Subtitle);
      PatientBlock(patientLines);
      assert tally.(pagesAdded := []) == Tally([], [], PATIENT_KEYS, [], []);
      VaccineSection(rows);
      ghost var note := if |rows| == 0 then [NoVaccinesNote] else [];
      assert tally.(pagesAdded := []) == Tally([], RowSpecs(rows), PATIENT_KEYS, [], note);
      Issuance(issueLines, qrMade);
    }

    /** The footer loop and the check after it: every page but the last
        gets its footer in page order, and the last one gets it either in
        the loop or, when the content reaches `FOOTER_ROOM`, after it. */
    method AddFooters()
      requires Valid()
      modifies this`log, this`tally
      ensures Valid()
      ensures tally == old(tally).(footers := old(tally).footers + FooterSpecs(pages))
    {
      var i := 1;
      while i <= pages
        invariant 1 <= i <= pages + 1
        invariant Valid()
        invariant tally == old(tally).(footers := old(tally).footers +
          if i <= pages || y < FOOTER_ROOM then FooterSpecs(pages)[..i - 1] else FooterSpecs(pages)[..pages - 1])
      {
        if i < pages || y < FOOTER_ROOM {
          Draw(Footer(i, pages));
          assert FooterSpecs(pages)[..i] == FooterSpecs(pages)[..i - 1] + [FooterSpecs(pages)[i - 1]];
        }
        i := i + 1;
      }
      if y >= FOOTER_ROOM {
        Draw(Footer(pages, pages));
        assert FooterSpecs(pages)[..pages] == FooterSpecs(pages)[..pages - 1] + [FooterSpecs(pages)[pages - 1]];
      }
      assert FooterSpecs(pages)[..pages] == FooterSpecs(pages);
    }
  }

  /** The drawing part of `generateCertificatePDF`: what the document holds.
      `patientLines` and `issueLines` are the line counts of the measured
      item values, `rows` those of each vaccine's cells; `qrMade` is whether
      the QR image could be made (its failure is only logged). */
  method Render(patientLines: seq<nat>, rows: seq<seq<nat>>, issueLines: seq<nat>, qrMade: bool)
    returns (log: seq<Event>, pageCount: nat)
    requires |patientLines| == |PATIENT_KEYS| && |issueLines| == |ISSUE_KEYS|
    ensures pageCount >= 1 && |log| > 0 && log[0] == Header(1)
    ensures Summary(log) == Tally(
      Range(2, pageCount + 1),
      RowSpecs(rows),
      PATIENT_KEYS + ISSUE_KEYS,
      FooterSpecs(pageCount),
      (if |rows| == 0 then [NoVaccinesNote] else []) + (if qrMade then [QrImage] else []))
    ensures HeadedPages(log) && RowsWellPlaced(log)
    ensures forall k :: 0 <= k < |log| && log[k].NewPage? ==> k < |log| - 1
  {
    var sheet := new Sheet();
    sheet.Content(patientLines, rows, issueLines, qrMade);
    ghost var marks := (if |rows| == 0 then [NoVaccinesNote] else []) + (if qrMade then [QrImage] else []);
    ghost var before := sheet.tally;
    assert before.footers == [];
    sheet.AddFooters();
    log := sheet.log;
    pageCount := sheet.pages;
    ghost var t := sheet.tally;
    assert t.footers == FooterSpecs(pageCount) by {
      assert t.footers == [] + FooterSpecs(pageCount);
    }
    assert t == Tally(Range(2, pageCount + 1), RowSpecs(rows), PATIENT_KEYS + ISSUE_KEYS,
                      FooterSpecs(pageCount), marks) by {
      assert t.pagesAdded == Range(2, pageCount + 1);
      assert t.rows == before.rows && t.items == before.items && t.marks == before.marks;
    }
    ShapeMeans(log);
  }

  /** `generateCertificatePDF` once its input is present: the document and
      the name it is saved under. */
  method Generate(lang: Option<string>, tr: (string, string) -> string, patientName: string,
                  patientLines: seq<nat>, rows: seq<seq<nat>>, issueLines: seq<nat>, qrMade: bool)
    returns (log: seq<Event>, pageCount: nat, fileName: string)
    requires |patientLines| == |PATIENT_KEYS| && |issueLines| == |ISSUE_KEYS|
    ensures pageCount >= 1 && |log| > 0 && log[0] == Header(1)
    ensures Summary(log) == Tally(
      Range(2, pageCount + 1),
      RowSpecs(rows),
      PATIENT_KEYS + ISSUE_KEYS,
      FooterSpecs(pageCount),
      (if |rows| == 0 then [NoVaccinesNote] else []) + (if qrMade then [QrImage] else []))
    ensures HeadedPages(log) && RowsWellPlaced(log)
    ensures forall k :: 0 <= k < |log| && log[k].NewPage? ==> k < |log| - 1
    ensures fileName == FileName(PdfLabel("pdfTitle", LocalLang(lang), tr), patientName)
  {
    log, pageCount := Render(patientLines, rows, issueLines, qrMade);
    fileName := FileName(PdfLabel("pdfTitle", LocalLang(lang), tr), patientName);
  }
}
