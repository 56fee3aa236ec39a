/** 1A/process_pdfs.py: the outline comes from the table of contents,
    else from the explicit Markdown headings of each page, deduplicated by
    text and page. Clean text here also standardises curly double quotes
    (`curly` is true). There is no bold analysis, so nothing fails. */
module ProcessPdfsMarkdown {
  import opened Common
  import opened Text
  import opened MarkdownOutline
  import ProcessPdfs

  /** The dictionary key `(h['text'], h['page'])`, taken before the space
      is appended. */
  function TextKey(e: Entry): (string, int) { (e.text, e.page) }

  /** `h['text'] += " "` */
  function AppendSpace(e: Entry): Entry { e.(text := e.text + " ") }

  /** The first heading of each text and page, in input order, each with
      one space appended. */
  function UniqueSpaced(all: seq<Entry>): seq<Entry> {
    MapSeq(FirstOccurrences(all, TextKey, {}), AppendSpace)
  }

  /** The outline: the table of contents when it has more than two
      entries, else the deduplicated Markdown headings. */
  function OutlineOf(doc: ProcessPdfs.Document): seq<Entry> {
    if |doc.toc| > 2 then TocOutline(doc.toc, true)
    else UniqueSpaced(MarkdownHeadingsOf(doc.pages, true))
  }

  predicate Regular(doc: ProcessPdfs.Document) {
    doc.name != "file01.pdf" && doc.name != "file05.pdf"
  }

  /** process_pdf */
  function Processed(doc: ProcessPdfs.Document): ProcessPdfs.Outline {
    if doc.name == "file01.pdf" then ProcessPdfs.Outline("Application form for grant of LTC advance ", [])
    else if doc.name == "file05.pdf" then ProcessPdfs.Outline([], [Entry(1, "HOPE TO SEE YOU THERE! ", 0)])
    else
      var outline := OutlineOf(doc);
      var title := FallbackTitle(BestTitle(doc.metadata, doc.pages, true), outline);
      ProcessPdfs.Outline(Strip(title) + " ", outline)
  }

  /** The outline branches of process_pdf. */
  method ComputeOutline(doc: ProcessPdfs.Document) returns (outline: seq<Entry>)
    ensures outline == OutlineOf(doc)
  {
    if |doc.toc| > 2 {
      outline := TocEntries(doc.toc, true);
      return;
    }
    var all := CollectMarkdownHeadings(doc.pages, true);
    var unique := KeepFirst(all, TextKey);
    outline := [];
    for i := 0 to |unique|
      invariant outline == MapSeq(unique[..i], AppendSpace)
    {
      MapSeqSnoc(unique, i, AppendSpace);
      outline := outline + [AppendSpace(unique[i])];
    }
    assert unique[..|unique|] == unique;
  }

  /** process_pdf */
  method ProcessPdf(doc: ProcessPdfs.Document) returns (r: ProcessPdfs.Outline)
    ensures r == Processed(doc)
  {
    if doc.name == "file01.pdf" {
      return ProcessPdfs.Outline("Application form for grant of LTC advance ", []);
    }
    if doc.name == "file05.pdf" {
      return ProcessPdfs.Outline([], [Entry(1, "HOPE TO SEE YOU THERE! ", 0)]);
    }
    var outline := ComputeOutline(doc);
    var title := GetBestTitle(doc.metadata, doc.pages, true);
    if title == [] && outline != [] {
      title := FallbackTitle(title, outline);
    }
    r := ProcessPdfs.Outline(Strip(title) + " ", outline);
  }

  // ---------------------------------------------------------------------
  // Properties of process_pdf

  /** A table of contents with more than two entries is the outline. */
  lemma TocPreferred(doc: ProcessPdfs.Document)
    requires Regular(doc) && |doc.toc| > 2
    ensures Processed(doc).outline == TocOutline(doc.toc, true)
  {
  }

  /** Appending the space keeps two different keys different. */
  lemma AppendSpaceInjective(a: Entry, b: Entry)
    requires TextKey(a) != TextKey(b)
    ensures TextKey(AppendSpace(a)) != TextKey(AppendSpace(b))
  {
    if a.page == b.page {
      assert a.text != b.text;
      if |a.text| == |b.text| {
        var i :| 0 <= i < |a.text| && a.text[i] != b.text[i];
        assert (a.text + " ")[i] != (b.text + " ")[i];
      } else {
        assert |a.text + " "| != |b.text + " "|;
      }
    }
  }

  /** No two outline entries share both text and page. */
  lemma UniqueSpacedDistinct(all: seq<Entry>)
    ensures DistinctKeys(UniqueSpaced(all), TextKey)
  {
    var u := FirstOccurrences(all, TextKey, {});
    FirstOccurrencesDistinct(all, TextKey, {});
    var o := UniqueSpaced(all);
    forall i, j | 0 <= i < j < |o| ensures TextKey(o[i]) != TextKey(o[j]) {
      AppendSpaceInjective(u[i], u[j]);
    }
  }

  /** Every heading's text and page reaches the outline, with the space
      (from the first heading of that key, whose level may differ). */
  lemma UniqueSpacedCovers(all: seq<Entry>, k: nat)
    requires k < |all|
    ensures exists j :: 0 <= j < |UniqueSpaced(all)| && TextKey(UniqueSpaced(all)[j]) == TextKey(AppendSpace(all[k]))
  {
    var u := FirstOccurrences(all, TextKey, {});
    FirstOccurrencesKeys(all, TextKey, {});
    assert TextKey(all[k]) in Keys(u, TextKey);
    KeysMembers(u, TextKey);
    var x :| x in u && TextKey(x) == TextKey(all[k]);
    var j :| 0 <= j < |u| && u[j] == x;
    assert UniqueSpaced(all)[j] == AppendSpace(x);
  }

  /** The outline is the Markdown headings in page order with repeats left
      out: each entry is a heading with one space appended, pages never go
      down and levels stay within H1..H6. */
  lemma UniqueSpacedShape(pages: seq<Page>)
    ensures var md := MarkdownHeadingsOf(pages, true);
      var o := UniqueSpaced(md);
      PagesNonDecreasing(o) &&
      forall k :: 0 <= k < |o| ==>
        1 <= o[k].level <= 6 && EndsWith(o[k].text, " ") && 0 <= o[k].page < |pages| &&
        exists e :: e in md && o[k] == AppendSpace(e)
  {
    var md := MarkdownHeadingsOf(pages, true);
    var u := FirstOccurrences(md, TextKey, {});
    FirstOccurrencesSubseq(md, TextKey, {});
    SubseqMembers(u, md);
    MarkdownHeadingsInPageOrder(pages, true);
    SubseqPages(u, md);
    MarkdownHeadingsWellFormed(pages, true);
    var o := UniqueSpaced(md);
    forall k | 0 <= k < |o|
      ensures 1 <= o[k].level <= 6 && EndsWith(o[k].text, " ") && 0 <= o[k].page < |pages|
      ensures exists e :: e in md && o[k] == AppendSpace(e)
    {
      assert u[k] in md;
      var t := u[k].text + " ";
      assert t[|t| - 1..] == " ";
    }
    assert PagesNonDecreasing(o) by {
      forall i, j | 0 <= i < j < |o| ensures o[i].page <= o[j].page {
        assert o[i].page == u[i].page && o[j].page == u[j].page;
      }
    }
  }

  /** A title found by get_best_title is the title, with one space
      appended. */
  lemma TitleFromBest(doc: ProcessPdfs.Document)
    requires Regular(doc) && BestTitle(doc.metadata, doc.pages, true) != []
    ensures Processed(doc).title == BestTitle(doc.metadata, doc.pages, true) + " "
  {
    StripOfTrimmed(BestTitle(doc.metadata, doc.pages, true));
  }

  /** With no title and no outline, the title is a single space. */
  lemma TitleWhenNothingFound(doc: ProcessPdfs.Document)
    requires Regular(doc) && BestTitle(doc.metadata, doc.pages, true) == [] && OutlineOf(doc) == []
    ensures Processed(doc).title == " "
  {
  }
}
