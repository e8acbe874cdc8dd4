/** `generatePDF` (lib/pdf-generator.ts): the record laid out on one page
    (a bold title, four label/value rows, the description block) and the
    document saved under a name derived from the record's name. */
module PdfGenerator {
  import opened Strings
  import opened FormData

  datatype Weight = Normal | Bold

  /** One `text` call as the document records it: the lines drawn, where,
      and in the weight and size in force at the time. */
  datatype DrawText = DrawText(lines: seq<string>, x: int, y: int, weight: Weight, size: nat)

  const DefaultSize: nat := 16
  const TitleSize: nat := 20
  const BodySize: nat := 12

  const LabelX := 20
  const ValueX := 80
  const TitleY := 30
  const FirstRowY := 60
  const LineHeight := 20
  /** `lineHeight * 1.5`, exact in integers. */
  const SectionGap := LineHeight * 3 / 2
  const DescriptionGap := 10
  const WrapWidth: nat := 150

  const Title := "Personal Details"
  const RowLabels := ["Name:", "Email:", "Phone Number:", "Position:"]
  const DescriptionLabel := "Description:"
  const FileSuffix := "_details.pdf"

  /** The jsPDF document: the font weight and size in force, the text drawn
      so far and the names it was saved under. Word wrapping depends on font
      metrics, so the backend supplies it as `wrap`. */
  class Canvas {
    const wrap: (string, nat) -> seq<string>
    var weight: Weight
    var size: nat
    var trace: seq<DrawText>
    var saved: seq<string>

    constructor (wrap: (string, nat) -> seq<string>)
      ensures this.wrap == wrap
      ensures weight == Normal && size == DefaultSize
      ensures trace == [] && saved == []
    {
      this.wrap := wrap;
      weight, size := Normal, DefaultSize;
      trace, saved := [], [];
    }

    /** `setFont("helvetica", style)`. */
    method SetFont(w: Weight)
      modifies this`weight
      ensures weight == w
    {
      weight := w;
    }

    /** `setFontSize(n)`. */
    method SetFontSize(n: nat)
      modifies this`size
      ensures size == n
    {
      size := n;
    }

    /** `text(lines, x, y)`: drawn in the current weight and size. */
    method Text(lines: seq<string>, x: int, y: int)
      modifies this`trace
      ensures trace == old(trace) + [DrawText(lines, x, y, weight, size)]
    {
      trace := trace + [DrawText(lines, x, y, weight, size)];
    }

    /** `splitTextToSize(text, width)`. */
    method SplitTextToSize(text: string, width: nat) returns (lines: seq<string>)
      ensures lines == wrap(text, width)
    {
      lines := wrap(text, width);
    }

    /** `save(name)`. */
    method Save(name: string)
      modifies this`saved
      ensures saved == old(saved) + [name]
    {
      saved := saved + [name];
    }
  }

  // ---------------------------------------------------------------------
  // The page, stated as a whole

  /** The record's value shown in row `i`. */
  function RowValue(r: FieldRecord, i: nat): string
    requires i < |RowLabels|
  {
    [r.name, r.email, r.phone, r.position][i]
  }

  /** The baseline of row `i`: one line pitch per row below the first. */
  function RowY(i: nat): int {
    FirstRowY + i * LineHeight
  }

  /** Row `i`: its label in bold, its value in normal weight, side by side. */
  function Row(r: FieldRecord, i: nat): seq<DrawText>
    requires i < |RowLabels|
  {
    [DrawText([RowLabels[i]], LabelX, RowY(i), Bold, BodySize),
     DrawText([RowValue(r, i)], ValueX, RowY(i), Normal, BodySize)]
  }

  /** The description label sits a line and a half below the last row. */
  function DescriptionY(): int {
    RowY(|RowLabels| - 1) + SectionGap
  }

  /** Everything `generatePDF` draws, in order, given the lines the
      description wraps into. */
  function Layout(r: FieldRecord, descriptionLines: seq<string>): seq<DrawText> {
    [DrawText([Title], LabelX, TitleY, Bold, TitleSize)]
    + Row(r, 0) + Row(r, 1) + Row(r, 2) + Row(r, 3)
    + [DrawText([DescriptionLabel], LabelX, DescriptionY(), Bold, BodySize),
       DrawText(descriptionLines, LabelX, DescriptionY() + DescriptionGap, Normal, BodySize)]
  }

  /** The name the document is saved under. */
  function FileName(name: string): (f: string)
    ensures |f| >= |FileSuffix| && f[|f| - |FileSuffix|..] == FileSuffix
    ensures NoWhitespace(f[..|f| - |FileSuffix|])
  {
    var stem := CollapseWhitespace(name);
    assert (stem + FileSuffix)[..|stem|] == stem;
    stem + FileSuffix
  }

  // ---------------------------------------------------------------------
  // The generator

  /** One labelled row as `generatePDF` draws it, four times over: the
      label in bold at the left margin, the value in normal weight at the
      value column, on the cursor's line. The first row's label relies on
      the bold weight set after the title; setting it again here changes
      nothing that is drawn. */
  method DrawRow(doc: Canvas, fieldLabel: string, value: string, y: int)
    requires doc.size == BodySize
    modifies doc`weight, doc`trace
    ensures doc.weight == Normal
    ensures doc.trace == old(doc.trace)
      + [DrawText([fieldLabel], LabelX, y, Bold, BodySize), DrawText([value], ValueX, y, Normal, BodySize)]
  {
    doc.SetFont(Bold);
    doc.Text([fieldLabel], 20, y);
    doc.SetFont(Normal);
    doc.Text([value], 80, y);
  }

  /** The heading: the family set on the new document, the title in bold
      at size 20, then the body size set for everything below. The first
      `setFont` names no style and is modelled as normal weight; a new
      document is normal already and bold is set before any text, so no
      run depends on that choice. */
  method DrawTitle(doc: Canvas)
    modifies doc`weight, doc`size, doc`trace
    ensures doc.weight == Bold && doc.size == BodySize
    ensures doc.trace == old(doc.trace) + [DrawText([Title], LabelX, TitleY, Bold, TitleSize)]
  {
    doc.SetFont(Normal);
    doc.SetFontSize(TitleSize);
    doc.SetFont(Bold);
    doc.Text([Title], 20, 30);
    doc.SetFontSize(BodySize);
    doc.SetFont(Bold);
  }

  /** The description block: its label in bold at `y`, and the wrapped
      text in normal weight one gap below. */
  method DrawDescription(doc: Canvas, description: string, y: int)
    requires doc.size == BodySize
    modifies doc`weight, doc`trace
    ensures doc.trace == old(doc.trace)
      + [DrawText([DescriptionLabel], LabelX, y, Bold, BodySize),
         DrawText(doc.wrap(description, WrapWidth), LabelX, y + DescriptionGap, Normal, BodySize)]
  {
    doc.SetFont(Bold);
    doc.Text(["Description:"], 20, y);
    var textY := y + 10;

    doc.SetFont(Normal);

    var splitDescription := doc.SplitTextToSize(description, 150);
    doc.Text(splitDescription, 20, textY);
  }

  /** `generatePDF(record)` with the document's failure path left out: a
      cursor walks down the page while the weight switches per run. */
  method GeneratePdf(r: FieldRecord, wrap: (string, nat) -> seq<string>) returns (doc: Canvas)
    ensures fresh(doc) && doc.wrap == wrap
    ensures doc.trace == Layout(r, wrap(r.description, WrapWidth))
    ensures doc.saved == [FileName(r.name)]
  {
    doc := new Canvas(wrap);
    DrawTitle(doc);

    var y := 60;
    var lineHeight := 20;

    DrawRow(doc, "Name:", r.name, y);
    y := y + lineHeight;
    DrawRow(doc, "Email:", r.email, y);
    y := y + lineHeight;
    DrawRow(doc, "Phone Number:", r.phone, y);
    y := y + lineHeight;
    DrawRow(doc, "Position:", r.position, y);
    y := y + lineHeight * 3 / 2;

    DrawDescription(doc, r.description, y);

    doc.Save(FileName(r.name));
  }

  // ---------------------------------------------------------------------
  // Properties of the page

  /** The title comes first, bold, at size 20, at (20, 30); eleven runs are
      drawn in all. */
  lemma LayoutTitle(r: FieldRecord, d: seq<string>)
    ensures |Layout(r, d)| == 11
    ensures Layout(r, d)[0] == DrawText(["Personal Details"], 20, 30, Bold, 20)
  {
  }

  /** Row `i` is drawn at y = 60 + 20 i: the label in bold at x = 20, then
      the matching field in normal weight at x = 80, both at size 12. */
  lemma LayoutRow(r: FieldRecord, d: seq<string>, i: nat)
    requires i < 4
    ensures |Layout(r, d)| == 11
    ensures Layout(r, d)[1 + 2 * i] == DrawText([RowLabels[i]], 20, 60 + 20 * i, Bold, 12)
    ensures Layout(r, d)[2 + 2 * i] == DrawText([RowValue(r, i)], 80, 60 + 20 * i, Normal, 12)
  {
    var t := Layout(r, d);
    assert t[1 + 2 * i..3 + 2 * i] == Row(r, i);
  }

  /** The rows come in the order Name, Email, Phone Number, Position, with
      the name, email, phone and position values. */
  lemma LayoutRowOrder(r: FieldRecord, d: seq<string>)
    ensures RowLabels == ["Name:", "Email:", "Phone Number:", "Position:"]
    ensures forall i :: 0 <= i < 4 ==> RowValue(r, i) == r.Get([Name, Email, Phone, Position][i])
  {
  }

  /** After the position row the cursor moves on by 30: the description
      label is bold at (20, 150); the wrapped description follows 10 lower,
      in normal weight, at (20, 160). */
  lemma LayoutDescription(r: FieldRecord, d: seq<string>)
    ensures |Layout(r, d)| == 11
    ensures Layout(r, d)[9] == DrawText(["Description:"], 20, 150, Bold, 12)
    ensures Layout(r, d)[10] == DrawText(d, 20, 160, Normal, 12)
  {
  }

  /** The page is drawn top to bottom: no run is above an earlier one, and
      two runs share a line only when they are a row's label and value. */
  lemma LayoutDescends(r: FieldRecord, d: seq<string>)
    ensures |Layout(r, d)| == 11
    ensures forall i, j :: 0 <= i < j < 11 ==> Layout(r, d)[i].y <= Layout(r, d)[j].y
    ensures forall i, j :: 0 <= i < j < 11 && Layout(r, d)[i].y == Layout(r, d)[j].y ==>
      i % 2 == 1 && j == i + 1 && j < 9
  {
    LayoutYs(r, d);
    forall i, j | 0 <= i < j < 11
      ensures RunY(i) <= RunY(j)
      ensures RunY(i) == RunY(j) ==> i % 2 == 1 && j == i + 1 && j < 9
    {
      RunYOrder(i, j);
    }
  }

  /** The baseline of the `i`-th run drawn: the title, two runs per row,
      the description label and the description text. */
  function RunY(i: nat): int {
    if i == 0 then TitleY
    else if i < 9 then RowY((i - 1) / 2)
    else if i == 9 then DescriptionY()
    else DescriptionY() + DescriptionGap
  }

  lemma LayoutYs(r: FieldRecord, d: seq<string>)
    ensures |Layout(r, d)| == 11
    ensures forall i :: 0 <= i < 11 ==> Layout(r, d)[i].y == RunY(i)
  {
    forall i | 0 <= i < 11 ensures Layout(r, d)[i].y == RunY(i) {
      if 1 <= i < 9 {
        LayoutRow(r, d, (i - 1) / 2);
      }
    }
  }

  lemma RunYOrder(i: nat, j: nat)
    requires i < j < 11
    ensures RunY(i) <= RunY(j)
    ensures RunY(i) == RunY(j) ==> i % 2 == 1 && j == i + 1 && j < 9
  {
  }

  /** Labels and the title are bold; every value and the description are
      in normal weight. */
  lemma LayoutWeights(r: FieldRecord, d: seq<string>)
    ensures |Layout(r, d)| == 11
    ensures forall i :: 0 <= i < 11 ==>
      (Layout(r, d)[i].weight == Bold <==> Layout(r, d)[i].x == 20 && i != 10)
  {
    var t := Layout(r, d);
    forall i | 1 <= i < 9 ensures t[i].weight == Bold <==> t[i].x == 20 {
      LayoutRow(r, d, (i - 1) / 2);
    }
  }

  // ---------------------------------------------------------------------
  // The file name

  /** Two words separated by a whitespace run are joined by a single
      underscore. */
  lemma FileNameTwoWords(a: string, w: string, b: string)
    requires NoWhitespace(a) && NoWhitespace(b) && b != []
    requires w != [] && AllWhitespace(w)
    ensures FileName(a + w + b) == a + "_" + b + FileSuffix
  {
    assert a + w + b == a + (w + b);
    CollapsePlainPrefix(a, w + b);
    CollapseRun(w, b);
    CollapseNoWhitespace(b);
  }

  /** Leading and trailing whitespace is not trimmed first: each outer run
      becomes an underscore of its own. */
  lemma FileNameOuterRuns(w1: string, a: string, w2: string)
    requires w1 != [] && AllWhitespace(w1) && w2 != [] && AllWhitespace(w2)
    requires a != [] && NoWhitespace(a)
    ensures FileName(w1 + a + w2) == "_" + a + "_" + FileSuffix
  {
    var tail := CollapseWhitespace(a + w2);
    calc {
      tail;
      { CollapsePlainPrefix(a, w2); }
      a + CollapseWhitespace(w2);
      { assert w2 + [] == w2; CollapseRun(w2, []); }
      a + "_";
    }
    assert w1 + a + w2 == w1 + (a + w2);
    assert (a + w2)[0] == a[0];
    CollapseRun(w1, a + w2);
  }

  /** `"John  Doe"` is saved as `John_Doe_details.pdf`. */
  lemma FileNameInnerRun(name: string)
    requires name == "John  Doe"
    ensures FileName(name) == "John_Doe_details.pdf"
  {
    var first, gap, last := "John", "  ", "Doe";
    assert name == first + gap + last;
    FileNameTwoWords(first, gap, last);
  }

  /** `" Jo "` is saved as `_Jo__details.pdf`. */
  lemma FileNameOuterSpaces(name: string)
    requires name == " Jo "
    ensures FileName(name) == "_Jo__details.pdf"
  {
    var lead, word, trail := " ", "Jo", " ";
    assert name == lead + word + trail;
    FileNameOuterRuns(lead, word, trail);
  }

  /** Names that collapse alike give the same file name, and collapsing a
      file name's stem again changes nothing. */
  lemma FileNameStable(name: string)
    ensures FileName(CollapseWhitespace(name)) == FileName(name)
  {
    CollapseIdempotent(name);
  }
}
