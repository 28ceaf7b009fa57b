/**
 How `parsePdf` turns the text content of a parsed PDF into one string
 (src/components/report-uploader.tsx, lines 33-38). The PDF library itself
 is not modelled: a document is the sequence of its pages, and a page is the
 sequence of the `str` fields of its text items, in order.
 */
module PdfText {
  import opened Js

  /** `items.join(' ')`. */
  function JoinSpaces(items: seq<string>): string {
    if |items| == 0 then ""
    else if |items| == 1 then items[0]
    else items[0] + " " + JoinSpaces(items[1..])
  }

  /** What one page adds to the text: its items joined by single spaces,
      then a newline. */
  function PageText(items: seq<string>): string {
    JoinSpaces(items) + "\n"
  }

  /** The text of pages 1..n, concatenated in page order. */
  function Assemble(pages: seq<seq<string>>): string {
    if |pages| == 0 then "" else PageText(pages[0]) + Assemble(pages[1..])
  }

  /** No page has a text item with anything but whitespace in it (in
      particular: no pages, or pages without items). */
  predicate NoTextItems(pages: seq<seq<string>>) {
    forall i, j :: 0 <= i < |pages| && 0 <= j < |pages[i]| ==> Blank(pages[i][j])
  }

  /** Assembling is a homomorphism from page-sequence concatenation to
      string concatenation. */
  lemma {:induction false} AssembleConcat(p: seq<seq<string>>, q: seq<seq<string>>)
    ensures Assemble(p + q) == Assemble(p) + Assemble(q)
    decreases |p|
  {
    if |p| == 0 {
      assert p + q == q;
    } else {
      assert (p + q)[1..] == p[1..] + q;
      AssembleConcat(p[1..], q);
    }
  }

  /** Adding a page at the end adds exactly that page's text at the end. */
  lemma AssembleSnoc(p: seq<seq<string>>, page: seq<string>)
    ensures Assemble(p + [page]) == Assemble(p) + PageText(page)
  {
    AssembleConcat(p, [page]);
    assert [page][1..] == [];
  }

  /** The loop at report-uploader.tsx:33-38: it builds exactly `Assemble`,
      and with at least one page the text ends in a newline. */
  method ExtractText(pages: seq<seq<string>>) returns (text: string)
    ensures text == Assemble(pages)
    ensures |pages| > 0 ==> |text| > 0 && text[|text| - 1] == '\n'
  {
    text := "";
    var i := 0;
    while i < |pages|
      invariant 0 <= i <= |pages|
      invariant text == Assemble(pages[..i])
      invariant i > 0 ==> |text| > 0 && text[|text| - 1] == '\n'
    {
      AssembleSnoc(pages[..i], pages[i]);
      assert pages[..i + 1] == pages[..i] + [pages[i]];
      text := text + PageText(pages[i]);
      i := i + 1;
    }
    assert pages[..i] == pages;
  }

  /** With at least one page the text is non-empty and ends in a newline;
      in fact it has at least one character per page. */
  lemma {:induction false} AssembleShape(pages: seq<seq<string>>)
    ensures |Assemble(pages)| >= |pages|
    ensures |pages| > 0 ==> Assemble(pages)[|Assemble(pages)| - 1] == '\n'
    decreases |pages|
  {
    if |pages| > 0 {
      AssembleShape(pages[1..]);
      if |pages| == 1 {
        assert Assemble(pages) == PageText(pages[0]);
      } else {
        var rest := Assemble(pages[1..]);
        assert Assemble(pages)[|Assemble(pages)| - 1] == rest[|rest| - 1];
      }
    }
  }

  /** The joined items are blank exactly when every item is. */
  lemma {:induction false} JoinBlank(items: seq<string>)
    ensures Blank(JoinSpaces(items)) <==> forall j :: 0 <= j < |items| ==> Blank(items[j])
    decreases |items|
  {
    if |items| > 1 {
      JoinBlank(items[1..]);
      BlankConcat(items[0] + " ", JoinSpaces(items[1..]));
      BlankConcat(items[0], " ");
      assert forall j :: 1 <= j < |items| ==> items[j] == items[1..][j - 1];
    }
  }

  /** The assembled text is blank exactly when no page has a text item with
      a non-whitespace character: separators and newlines never count as
      text. */
  lemma {:induction false} AssembleBlank(pages: seq<seq<string>>)
    ensures Blank(Assemble(pages)) <==> NoTextItems(pages)
    decreases |pages|
  {
    if |pages| > 0 {
      AssembleBlank(pages[1..]);
      JoinBlank(pages[0]);
      BlankConcat(PageText(pages[0]), Assemble(pages[1..]));
      BlankConcat(JoinSpaces(pages[0]), "\n");
      assert forall i :: 1 <= i < |pages| ==> pages[i] == pages[1..][i - 1];
      if NoTextItems(pages) {
        assert NoTextItems(pages[1..]);
      }
    }
  }

  /** Two worked examples: a two-page report with one item per page, and a
      page whose items are separate words. */
  lemma AssembleExamples()
    ensures Assemble([["Hb: 13.5 g/dL"], ["RBC: 4.8"]]) == "Hb: 13.5 g/dL\nRBC: 4.8\n"
    ensures Assemble([["Hb:", "13.5", "g/dL"]]) == "Hb: 13.5 g/dL\n"
    ensures Assemble([]) == ""
  {
  }
}
