/** The pure parts of `src/utils/pdfGenerator.js`: the document language,
    the bilingual labels, the header titles, the verification code, the
    file name and the table's column and row measurements. Lengths are in
    tenths of a millimetre so that every constant of the source is an
    integer. The i18n function `t(key, { lng })` is the parameter `tr`. */
module PdfText {
  import opened Common
  import opened Text

  /** A4 portrait (210 mm by 297 mm) and its 15 mm margin, in tenths of a
      millimetre; every layout fact below is about this page size. */
  const PAGE_WIDTH := 2100
  const PAGE_HEIGHT := 2970
  const MARGIN := 150
  const CONTENT_WIDTH := PAGE_WIDTH - 2 * MARGIN

  /** `localLang`: the part of the language tag before the first `-`, or
      Spanish when no language is given. */
  function LocalLang(lang: Option<string>): (r: string)
    ensures '-' !in r
    ensures Truthy(lang) ==> StartsWith(lang.value, r) && (r == lang.value || lang.value[|r|] == '-')
    ensures !Truthy(lang) ==> r == "es"
  {
    if Truthy(lang) then BeforeFirst(lang.value, '-') else "es"
  }

  /** The second language of every bilingual label and of the header's
      subtitle: English for Spanish, Spanish for English, English otherwise. */
  function SecondaryLang(primary: string): (r: string)
    ensures r != primary
    ensures primary == "en" ==> r == "es"
    ensures primary != "en" ==> r == "en"
  {
    if primary == "es" then "en"
    else if primary == "en" then "es"
    else "en"
  }

  /** `getTranslationForPdf(key)`. Since the secondary language always
      differs from the primary one, the source's `localLang !==
      secondaryLang` test never fails and is not repeated here. */
  function PdfLabel(key: string, lang: string, tr: (string, string) -> string): (r: string)
    ensures StartsWith(r, tr(key, lang))
    ensures r != tr(key, lang) <==>
      StartsWith(key, "pdf")
      && tr(key, SecondaryLang(lang)) != tr(key, lang)
      && tr(key, SecondaryLang(lang)) != key
    ensures r != tr(key, lang) ==> r == tr(key, lang) + " / " + tr(key, SecondaryLang(lang))
  {
    var primary := tr(key, lang);
    var secondary := tr(key, SecondaryLang(lang));
    if StartsWith(key, "pdf") && primary != secondary && secondary != key then
      assert (primary + " / " + secondary)[..|primary|] == primary;
      primary + " / " + secondary
    else primary
  }

  /** The two lines of the page header: the title in the document language,
      and the title in the second language when that differs and has a
      translation. */
  function HeaderTitles(lang: string, tr: (string, string) -> string): (titles: (string, Option<string>))
    ensures titles.0 == tr("pdfTitle", lang)
    ensures titles.1.Some? <==>
      tr("pdfTitle", SecondaryLang(lang)) != titles.0 && tr("pdfTitle", SecondaryLang(lang)) != "pdfTitle"
    ensures titles.1.Some? ==> titles.1.value == tr("pdfTitle", SecondaryLang(lang))
  {
    var main := tr("pdfTitle", lang);
    var sub := tr("pdfTitle", SecondaryLang(lang));
    (main, if main != sub && sub != "pdfTitle" then Some(sub) else None)
  }

  /** `qrCode.split('/').pop()`. */
  function VerificationCode(qrCode: string): (code: string)
    ensures '/' !in code
    ensures |code| <= |qrCode| && qrCode[|qrCode| - |code|..] == code
    ensures code == qrCode || qrCode[|qrCode| - |code| - 1] == '/'
  {
    AfterLast(qrCode, '/')
  }

  /** The verification code of `<prefix>/<code>` is the code, when the code
      itself has no `/`: for the page's `https://vacun.org/verify/<id>-<now>`
      it is `<id>-<now>`. */
  lemma {:induction false} VerificationCodeOfUrl(prefix: string, code: string)
    requires '/' !in code
    ensures VerificationCode(prefix + "/" + code) == code
    decreases |code|
  {
    var s := prefix + "/" + code;
    if |code| == 0 {
      assert s[|s| - 1] == '/';
    } else {
      var shorter := code[..|code| - 1];
      assert s[..|s| - 1] == prefix + "/" + shorter;
      assert s[|s| - 1] == code[|code| - 1];
      VerificationCodeOfUrl(prefix, shorter);
      assert shorter + [code[|code| - 1]] == code;
    }
  }

  /** The ASCII characters of the regular-expression class `\s`. */
  predicate IsSpace(c: char)
  {
    c == ' ' || c == '\t' || c == '\n' || c == '\r' || c == '\U{000B}' || c == '\U{000C}'
  }

  predicate NoSpace(s: string)
  {
    forall k :: 0 <= k < |s| ==> !IsSpace(s[k])
  }

  /** The number of leading whitespace characters. */
  function LeadingSpaces(s: string): (n: nat)
    ensures n <= |s|
    ensures forall k :: 0 <= k < n ==> IsSpace(s[k])
    ensures n == |s| || !IsSpace(s[n])
  {
    if |s| == 0 || !IsSpace(s[0]) then 0 else 1 + LeadingSpaces(s[1..])
  }

  /** `s.replace(/\s+/g, '_')`: every maximal run of whitespace becomes one
      underscore. */
  function CollapseSpaces(s: string): (r: string)
    ensures NoSpace(r)
    ensures |r| <= |s|
    ensures NoSpace(s) ==> r == s
    ensures '/' !in s ==> '/' !in r
    decreases |s|
  {
    if |s| == 0 then ""
    else if IsSpace(s[0]) then "_" + CollapseSpaces(s[LeadingSpaces(s)..])
    else
      assert NoSpace(s) ==> NoSpace(s[1..]);
      [s[0]] + CollapseSpaces(s[1..])
  }

  /** The length of a match of `\s*` `/` `\s*` at the front of `s`, or 0
      when there is none. Both runs are greedy, and backtracking cannot help
      the first one: a shorter run would leave a whitespace character where
      the `/` must be. */
  function SlashMatch(s: string): (n: nat)
    ensures n <= |s|
    ensures n > 0 ==> LeadingSpaces(s) < |s| && s[LeadingSpaces(s)] == '/'
  {
    var w := LeadingSpaces(s);
    if w < |s| && s[w] == '/' then w + 1 + LeadingSpaces(s[w + 1..]) else 0
  }

  // The global regular-expression replacement of `\s*` `/` `\s*` by `_`:
  // scanning left to right, every match becomes one underscore, and where
  // no match starts the character is kept.
  function ReplaceSlashes(s: string): (r: string)
    ensures '/' !in r
    ensures |r| <= |s|
    ensures '/' !in s ==> r == s
    decreases |s|
  {
    if |s| == 0 then ""
    else if SlashMatch(s) > 0 then "_" + ReplaceSlashes(s[SlashMatch(s)..])
    else
      assert '/' !in s ==> '/' !in s[1..];
      [s[0]] + ReplaceSlashes(s[1..])
  }

  lemma DropAppend(a: string, b: string, m: nat)
    requires m <= |a|
    ensures (a + b)[m..] == a[m..] + b
  {
  }

  lemma AppendAssoc(x: string, y: string, z: string)
    ensures x + (y + z) == x + y + z
  {
  }

  lemma NoSpaceAppend(a: string, b: string)
    requires NoSpace(a) && NoSpace(b)
    ensures NoSpace(a + b)
  {
    assert forall k :: |a| <= k < |a + b| ==> (a + b)[k] == b[k - |a|];
  }

  /** A run made of whitespace only (possibly empty). */
  predicate AllSpace(w: string)
  {
    forall k :: 0 <= k < |w| ==> IsSpace(w[k])
  }

  lemma {:induction false} LeadingSpacesAfterRun(w: string, s: string)
    requires AllSpace(w)
    ensures LeadingSpaces(w + s) == |w| + LeadingSpaces(s)
    decreases |w|
  {
    if |w| > 0 {
      assert (w + s)[1..] == w[1..] + s;
      LeadingSpacesAfterRun(w[1..], s);
    } else {
      assert w + s == s;
    }
  }

  lemma {:induction false} LeadingSpacesStopsInside(a: string, b: string)
    requires LeadingSpaces(a) < |a|
    ensures LeadingSpaces(a + b) == LeadingSpaces(a)
    decreases |a|
  {
    if IsSpace(a[0]) {
      assert (a + b)[1..] == a[1..] + b;
      LeadingSpacesStopsInside(a[1..], b);
    }
  }

  /** A whitespace run in front of a word becomes a single underscore. */
  lemma CollapseSpacesRun(w: string, b: string)
    requires |w| > 0 && AllSpace(w)
    requires |b| == 0 || !IsSpace(b[0])
    ensures CollapseSpaces(w + b) == "_" + CollapseSpaces(b)
  {
    LeadingSpacesAfterRun(w, b);
    assert (w + b)[|w|..] == b;
  }

  /** Collapsing works piece by piece, in order, as long as the cut does
      not fall inside a whitespace run. */
  lemma {:induction false} CollapseSpacesConcat(a: string, b: string)
    requires |a| == 0 || |b| == 0 || !IsSpace(a[|a| - 1]) || !IsSpace(b[0])
    ensures CollapseSpaces(a + b) == CollapseSpaces(a) + CollapseSpaces(b)
    decreases |a|
  {
    if |a| == 0 {
      assert a + b == b;
    } else if IsSpace(a[0]) {
      var w := LeadingSpaces(a);
      DropAppend(a, b, w);
      if w < |a| {
        LeadingSpacesStopsInside(a, b);
        CollapseSpacesConcat(a[w..], b);
        AppendAssoc("_", CollapseSpaces(a[w..]), CollapseSpaces(b));
      } else {
        assert AllSpace(a);
        LeadingSpacesAfterRun(a, b);
        assert a[w..] + b == b;
      }
    } else {
      DropAppend(a, b, 1);
      CollapseSpacesConcat(a[1..], b);
      AppendAssoc([a[0]], CollapseSpaces(a[1..]), CollapseSpaces(b));
    }
  }

  /** A `/` with whitespace runs on both sides, in front of a word, becomes
      a single underscore. */
  lemma ReplaceSlashesRun(w1: string, w2: string, b: string)
    requires AllSpace(w1) && AllSpace(w2)
    requires |b| == 0 || !IsSpace(b[0])
    ensures ReplaceSlashes(w1 + "/" + w2 + b) == "_" + ReplaceSlashes(b)
  {
    var s := w1 + "/" + w2 + b;
    SlashMatchRun(w1, w2, b);
    assert s[|w1| + 1 + |w2|..] == b;
  }

  lemma SlashMatchRun(w1: string, w2: string, b: string)
    requires AllSpace(w1) && AllSpace(w2)
    requires |b| == 0 || !IsSpace(b[0])
    ensures SlashMatch(w1 + "/" + w2 + b) == |w1| + 1 + |w2|
  {
    var s := w1 + "/" + w2 + b;
    LeadingSpacesAfterRun(w1, "/" + w2 + b);
    assert s == w1 + ("/" + w2 + b);
    assert LeadingSpaces("/" + w2 + b) == 0;
    assert s[|w1|] == '/';
    assert s[|w1| + 1..] == w2 + b;
    LeadingSpacesAfterRun(w2, b);
  }

  /** A match inside a piece that ends in neither whitespace nor `/` stops
      inside that piece. */
  lemma SlashMatchStopsInside(a: string, b: string)
    requires |a| > 0 && !IsSpace(a[|a| - 1]) && a[|a| - 1] != '/'
    ensures SlashMatch(a + b) == SlashMatch(a) < |a|
  {
    var w := LeadingSpaces(a);
    LeadingSpacesStopsInside(a, b);
    assert (a + b)[w] == a[w];
    if a[w] == '/' {
      assert (a + b)[w + 1..] == a[w + 1..] + b;
      LeadingSpacesStopsInside(a[w + 1..], b);
    }
  }

  /** The first step of the scan over `a + b` is the first step over `a`. */
  lemma ReplaceSlashesFirstStep(a: string, b: string)
    requires |a| > 0 && !IsSpace(a[|a| - 1]) && a[|a| - 1] != '/'
    ensures var m := SlashMatch(a);
      var n := if m > 0 then m else 1;
      var c := if m > 0 then "_" else [a[0]];
      n <= |a| &&
      (n == |a| || (!IsSpace(a[n..][|a[n..]| - 1]) && a[n..][|a[n..]| - 1] != '/')) &&
      ReplaceSlashes(a) == c + ReplaceSlashes(a[n..]) &&
      ReplaceSlashes(a + b) == c + ReplaceSlashes(a[n..] + b)
  {
    SlashMatchStopsInside(a, b);
    var m := SlashMatch(a);
    var n := if m > 0 then m else 1;
    DropAppend(a, b, n);
    assert (a + b)[0] == a[0];
  }

  /** The replacement works piece by piece, in order, when the first piece
      ends in a character that is neither whitespace nor `/`: no match can
      then straddle the cut. */
  lemma {:induction false} ReplaceSlashesConcat(a: string, b: string)
    requires |a| == 0 || (!IsSpace(a[|a| - 1]) && a[|a| - 1] != '/')
    ensures ReplaceSlashes(a + b) == ReplaceSlashes(a) + ReplaceSlashes(b)
    decreases |a|
  {
    if |a| == 0 {
      assert a + b == b;
    } else {
      var m := SlashMatch(a);
      var n := if m > 0 then m else 1;
      var c := if m > 0 then "_" else [a[0]];
      var x := a[n..];
      assert ReplaceSlashes(a + b) == c + ReplaceSlashes(x + b)
          && ReplaceSlashes(a) == c + ReplaceSlashes(x)
          && (|x| == 0 || (!IsSpace(x[|x| - 1]) && x[|x| - 1] != '/')) by {
        ReplaceSlashesFirstStep(a, b);
      }
      ReplaceSlashesConcat(x, b);
      AppendAssoc(c, ReplaceSlashes(x), ReplaceSlashes(b));
    }
  }

  /** The file name of the saved certificate. */
  function FileName(title: string, patientName: string): (name: string)
    ensures NoSpace(name)
    ensures |name| >= 4 && name[|name| - 4..] == ".pdf"
    ensures '/' in name ==> '/' in patientName
  {
    var head := CollapseSpaces(ReplaceSlashes(title));
    var tail := CollapseSpaces(patientName);
    assert '/' !in head;
    NoSpaceAppend(head, "_");
    NoSpaceAppend(head + "_", tail);
    NoSpaceAppend(head + "_" + tail, ".pdf");
    head + "_" + tail + ".pdf"
  }

  /** A bilingual title `A / B` whose halves have no whitespace or `/`
      names the file `A_B_...`. */
  lemma BilingualTitleFileName(a: string, b: string)
    requires NoSpace(a) && NoSpace(b) && '/' !in a && '/' !in b
    ensures CollapseSpaces(ReplaceSlashes(a + " / " + b)) == a + "_" + b
  {
    ReplaceSlashesAround(a, b);
    NoSpaceAppend(a, "_");
    NoSpaceAppend(a + "_", b);
  }

  /** A title `A / B`, with any whitespace around the `/`, and a patient
      name made of two words separated by a whitespace run give the file
      `A_B_First_Last.pdf`. */
  lemma FileNameOfWords(a: string, w1: string, w2: string, b: string,
                        first: string, gap: string, last: string)
    requires NoSpace(a) && NoSpace(b) && '/' !in a && '/' !in b
    requires AllSpace(w1) && AllSpace(w2)
    requires NoSpace(first) && NoSpace(last) && |gap| > 0 && AllSpace(gap)
    ensures FileName(a + w1 + "/" + w2 + b, first + gap + last)
         == a + "_" + b + "_" + first + "_" + last + ".pdf"
  {
    var title := a + w1 + "/" + w2 + b;
    var name := first + gap + last;
    assert CollapseSpaces(ReplaceSlashes(title)) == a + "_" + b by {
      TitleStem(a, w1, w2, b);
    }
    assert CollapseSpaces(name) == first + "_" + last by {
      NameWords(first, gap, last);
    }
    var head, tail := a + "_" + b, first + "_" + last;
    assert FileName(title, name) == head + "_" + tail + ".pdf";
    AppendAssoc(head + "_", first + "_", last);
    AppendAssoc(head + "_", first, "_");
    AppendAssoc(head, "_", first);
  }

  lemma TitleStem(a: string, w1: string, w2: string, b: string)
    requires NoSpace(a) && NoSpace(b) && '/' !in a && '/' !in b
    requires AllSpace(w1) && AllSpace(w2)
    ensures CollapseSpaces(ReplaceSlashes(a + w1 + "/" + w2 + b)) == a + "_" + b
  {
    var stem := a + "_" + b;
    assert ReplaceSlashes(a + w1 + "/" + w2 + b) == stem by {
      SlashedTitle(a, w1, w2, b);
    }
    assert NoSpace(stem) by {
      NoSpaceAppend(a, "_");
      NoSpaceAppend(a + "_", b);
    }
  }

  /** `A / B`, with any whitespace around the `/`, becomes `A_B`. */
  lemma SlashedTitle(a: string, w1: string, w2: string, b: string)
    requires NoSpace(a) && NoSpace(b) && '/' !in a && '/' !in b
    requires AllSpace(w1) && AllSpace(w2)
    ensures ReplaceSlashes(a + w1 + "/" + w2 + b) == a + "_" + b
  {
    var rest := w1 + "/" + w2 + b;
    AppendAssoc(a, w1, "/");
    AppendAssoc(a, w1 + "/", w2);
    AppendAssoc(a, w1 + "/" + w2, b);
    assert ReplaceSlashes(a + rest) == ReplaceSlashes(a) + ReplaceSlashes(rest) by {
      ReplaceSlashesConcat(a, rest);
    }
    assert ReplaceSlashes(rest) == "_" + ReplaceSlashes(b) by {
      ReplaceSlashesRun(w1, w2, b);
    }
    AppendAssoc(a, "_", b);
  }

  lemma NameWords(first: string, gap: string, last: string)
    requires NoSpace(first) && NoSpace(last) && |gap| > 0 && AllSpace(gap)
    ensures CollapseSpaces(first + gap + last) == first + "_" + last
  {
    var tail := gap + last;
    AppendAssoc(first, gap, last);
    assert CollapseSpaces(first + tail) == first + CollapseSpaces(tail) by {
      CollapseSpacesConcat(first, tail);
    }
    assert CollapseSpaces(tail) == "_" + last by {
      CollapseSpacesRun(gap, last);
    }
    AppendAssoc(first, "_", last);
  }

  /** ` / ` between two words without whitespace or `/` is one underscore. */
  lemma ReplaceSlashesAround(a: string, b: string)
    requires NoSpace(a) && NoSpace(b) && '/' !in a && '/' !in b
    ensures ReplaceSlashes(a + " / " + b) == a + "_" + b
  {
    assert " / " == " " + "/" + " ";
    AppendAssoc(a, " " + "/", " ");
    AppendAssoc(a, " ", "/");
    SlashedTitle(a, " ", " ", b);
  }

  /** The table's column shares, in percent of the content width. */
  const COLUMN_PERCENT: seq<nat> := [25, 12, 13, 15, 20, 15]

  function Sum(xs: seq<int>): int
  {
    if |xs| == 0 then 0 else xs[0] + Sum(xs[1..])
  }

  /** `colWidthsRatio.map(r => r * CONTENT_WIDTH)`: 45, 21.6, 23.4, 27, 36
      and 27 millimetres. */
  function ColumnWidths(): (ws: seq<int>)
    ensures |ws| == |COLUMN_PERCENT|
    ensures forall k :: 0 <= k < |ws| ==> ws[k] * 100 == COLUMN_PERCENT[k] * CONTENT_WIDTH
    ensures Sum(ws) == CONTENT_WIDTH
  {
    var ws := [450, 216, 234, 270, 360, 270];
    assert Sum(ws[5..]) == 270;
    assert Sum(ws[4..]) == 360 + Sum(ws[5..]);
    assert Sum(ws[3..]) == 270 + Sum(ws[4..]);
    assert Sum(ws[2..]) == 234 + Sum(ws[3..]);
    assert Sum(ws[1..]) == 216 + Sum(ws[2..]);
    ws
  }

  /** The largest line count of a row's cells, never below one. */
  function LineMax(cells: seq<nat>): (m: nat)
    ensures m >= 1
    ensures forall k :: 0 <= k < |cells| ==> cells[k] <= m
    ensures m == 1 || m in cells
  {
    if |cells| == 0 then 1
    else
      var front := cells[..|cells| - 1];
      var rest := LineMax(front);
      assert forall k :: 0 <= k < |cells| - 1 ==> cells[k] == front[k];
      if cells[|cells| - 1] > rest then cells[|cells| - 1] else rest
  }

  /** The `maxLines` loop over a row's cells. */
  method MaxLines(cells: seq<nat>) returns (maxLines: nat)
    ensures maxLines == LineMax(cells)
  {
    maxLines := 1;
    var i := 0;
    while i < |cells|
      invariant 0 <= i <= |cells|
      invariant maxLines == LineMax(cells[..i])
    {
      assert cells[..i + 1][..i] == cells[..i];
      if cells[i] > maxLines {
        maxLines := cells[i];
      }
      i := i + 1;
    }
    assert cells[..|cells|] == cells;
  }

  /** `Math.max(maxLines * 3.5 + 4, 8)` millimetres. */
  function RowHeight(maxLines: nat): (h: nat)
    ensures h >= 80
    ensures h >= 35 * maxLines + 40
    ensures maxLines <= 1 ==> h == 80
    ensures maxLines >= 2 ==> h == 35 * maxLines + 40
  {
    if 35 * maxLines + 40 > 80 then 35 * maxLines + 40 else 80
  }
}
