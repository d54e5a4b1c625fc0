/**
 * The HTML report (`generate_output_html`, resume_articles.py:257-362) and
 * the driver `main` (resume_articles.py:391-404). The report file is a
 * sequence of writes: the header, one fragment per URL in input order, then
 * the footer with the tally. The header's dates come from the clock and are
 * an input here, as are the network, the parser and the language model,
 * gathered in a `World`.
 */
module Report {
  import opened Wrappers
  import opened Seqs
  import opened Strings
  import opened Fetching
  import opened Processing
  import opened UrlCollection

  /** Everything outside the program that `process_url` consults. */
  datatype World = World(
    fetch: string -> FetchResponse,
    parse: string -> Parse,
    netloc: string -> string,
    chat: string -> ChatReply)

  /** A processed URL and its (title, summary) pair. */
  datatype Item = Item(url: string, outcome: Outcome)

  /** The outcome of every URL, in order, as `process_url` gives them. */
  function Items(urls: seq<string>, world: World): (items: seq<Item>)
    ensures |items| == |urls|
    ensures forall i :: 0 <= i < |urls| ==> items[i].url == urls[i]
  {
    seq(|urls|, i requires 0 <= i < |urls| =>
      Item(urls[i], ItemOutcome(world.fetch(urls[i]), world.parse, world.netloc(urls[i]), world.chat)))
  }

  predicate IsErrorItem(item: Item) {
    IsError(item.outcome)
  }

  predicate IsSuccessItem(item: Item) {
    !IsError(item.outcome)
  }

  /** The caption an error fragment shows in place of the title. */
  const ErrorLabel := "⚠️ Erreur de chargement"

  /** How every fragment begins; the class attribute follows. */
  const CardOpening := "\n<div class=\""
  const ErrorClass := "article error"
  const ArticleClass := "article"

  /** A string that starts with `p` still does with more text after it. */
  lemma PrefixGrows(a: string, b: string, p: string)
    requires StartsWith(a, p)
    ensures StartsWith(a + b, p)
  {
    assert (a + b)[..|p|] == a[..|p|];
  }

  const CardHref := "\">\n  <a href=\""
  const CardCaption := "\">"
  const CardSummary := "</a><br />\n  <span>"
  const CardClosing := "</span>\n</div>\n"

  /** One `<div>` of the report: a link labelled `caption` and the summary. */
  function Card(cssClass: string, url: string, caption: string, summary: string): string {
    CardOpening + cssClass + CardHref + url + CardCaption + caption
      + CardSummary + summary + CardClosing
  }

  /** The fragment written for one URL, as classified by the test of line 335. */
  function Fragment(item: Item): string {
    if IsErrorItem(item) then Card(ErrorClass, item.url, ErrorLabel, item.outcome.summary)
    else Card(ArticleClass, item.url, item.outcome.title, item.outcome.summary)
  }

  /** The fragments of the items, one per item, in order. */
  function Fragments(items: seq<Item>): seq<string> {
    seq(|items|, k requires 0 <= k < |items| => Fragment(items[k]))
  }

  /** The tally written after the last fragment, with the closing tags. */
  function Footer(successCount: nat, errorCount: nat, total: nat): string {
    TallySuccess + Decimal(successCount) + TallyErrors + Decimal(errorCount)
      + TallyTotal + Decimal(total) + TallyClosing + ClosingTags + "\n"
  }

  const TallySuccess := "\n<hr />\n<p><strong>Synthèse du traitement</strong><br />\n✅ Articles traités avec succès : "
  const TallyErrors := "<br />\n⚠️ Erreurs de chargement ou résumé : "
  const TallyTotal := "<br />\n📄 Total d’articles analysés : "
  const TallyClosing := "\n</p>\n"
  /** The `footer` variable of the source. */
  const ClosingTags := "\n</body>\n</html>"

  /** The complete report for the items: header, fragments, footer. */
  function ReportOf(header: string, items: seq<Item>): seq<string> {
    [header] + Fragments(items)
      + [Footer(|Filter(items, IsSuccessItem)|, |Filter(items, IsErrorItem)|, |items|)]
  }

  /** Each item is counted once, as a success or as an error. */
  lemma {:induction false} TallyPartition(items: seq<Item>)
    ensures |Filter(items, IsSuccessItem)| + |Filter(items, IsErrorItem)| == |items|
  {
    if items != [] {
      TallyPartition(items[1..]);
    }
  }

  lemma FragmentsAppend(items: seq<Item>, item: Item)
    ensures Fragments(items + [item]) == Fragments(items) + [Fragment(item)]
  {
    var s := items + [item];
    assert forall k :: 0 <= k < |items| ==> s[k] == items[k];
  }

  /**
   * A fragment links to its URL and shows the summary; an error fragment
   * shows the fixed "⚠️ Erreur de chargement" caption, a success fragment the
   * title.
   */
  lemma FragmentShows(item: Item)
    ensures var f := Fragment(item);
      && Contains(f, item.url)
      && Contains(f, item.outcome.summary)
      && (IsErrorItem(item) ==> Contains(f, ErrorLabel) && StartsWith(f, CardOpening + ErrorClass))
      && (IsSuccessItem(item) ==> Contains(f, item.outcome.title) && StartsWith(f, CardOpening + ArticleClass))
  {
    var caption := if IsErrorItem(item) then ErrorLabel else item.outcome.title;
    var cssClass := if IsErrorItem(item) then ErrorClass else ArticleClass;
    CardShows(cssClass, item.url, caption, item.outcome.summary);
  }

  lemma CardShows(cssClass: string, url: string, caption: string, summary: string)
    ensures var c := Card(cssClass, url, caption, summary);
      && Contains(c, url) && Contains(c, caption) && Contains(c, summary)
      && StartsWith(c, CardOpening + cssClass)
  {
    var a, b, c, d, e := CardOpening, CardHref, CardCaption, CardSummary, CardClosing;
    ContainsSelf(url);
    ContainsRight(a + cssClass + b, url, url);
    ContainsLeft(a + cssClass + b + url, c, url);
    ContainsLeft(a + cssClass + b + url + c, caption, url);
    ContainsLeft(a + cssClass + b + url + c + caption, d, url);
    ContainsLeft(a + cssClass + b + url + c + caption + d, summary, url);
    ContainsLeft(a + cssClass + b + url + c + caption + d + summary, e, url);
    ContainsSelf(caption);
    ContainsRight(a + cssClass + b + url + c, caption, caption);
    ContainsLeft(a + cssClass + b + url + c + caption, d, caption);
    ContainsLeft(a + cssClass + b + url + c + caption + d, summary, caption);
    ContainsLeft(a + cssClass + b + url + c + caption + d + summary, e, caption);
    ContainsSelf(summary);
    ContainsRight(a + cssClass + b + url + c + caption + d, summary, summary);
    ContainsLeft(a + cssClass + b + url + c + caption + d + summary, e, summary);
    PrefixGrows(a + cssClass, b, a + cssClass);
    PrefixGrows(a + cssClass + b, url, a + cssClass);
    PrefixGrows(a + cssClass + b + url, c, a + cssClass);
    PrefixGrows(a + cssClass + b + url + c, caption, a + cssClass);
    PrefixGrows(a + cssClass + b + url + c + caption, d, a + cssClass);
    PrefixGrows(a + cssClass + b + url + c + caption + d, summary, a + cssClass);
    PrefixGrows(a + cssClass + b + url + c + caption + d + summary, e, a + cssClass);
  }

  /** The footer shows the three numbers of the tally. */
  lemma FooterShows(successCount: nat, errorCount: nat, total: nat)
    ensures var f := Footer(successCount, errorCount, total);
      Contains(f, Decimal(successCount)) && Contains(f, Decimal(errorCount)) && Contains(f, Decimal(total))
  {
    var s, e, t := Decimal(successCount), Decimal(errorCount), Decimal(total);
    var a, b, c := TallySuccess, TallyErrors, TallyTotal;
    var d1, d2, d3 := TallyClosing, ClosingTags, "\n";
    ContainsSelf(s);
    ContainsRight(a, s, s);
    ContainsLeft(a + s, b, s);
    ContainsLeft(a + s + b, e, s);
    ContainsLeft(a + s + b + e, c, s);
    ContainsLeft(a + s + b + e + c, t, s);
    ContainsLeft(a + s + b + e + c + t, d1, s);
    ContainsLeft(a + s + b + e + c + t + d1, d2, s);
    ContainsLeft(a + s + b + e + c + t + d1 + d2, d3, s);
    ContainsSelf(e);
    ContainsRight(a + s + b, e, e);
    ContainsLeft(a + s + b + e, c, e);
    ContainsLeft(a + s + b + e + c, t, e);
    ContainsLeft(a + s + b + e + c + t, d1, e);
    ContainsLeft(a + s + b + e + c + t + d1, d2, e);
    ContainsLeft(a + s + b + e + c + t + d1 + d2, d3, e);
    ContainsSelf(t);
    ContainsRight(a + s + b + e + c, t, t);
    ContainsLeft(a + s + b + e + c + t, d1, t);
    ContainsLeft(a + s + b + e + c + t + d1, d2, t);
    ContainsLeft(a + s + b + e + c + t + d1 + d2, d3, t);
  }

  /**
   * The report is the header, then exactly one fragment per item in input
   * order, then the footer, whose success and error counts add up to the
   * number of items.
   */
  lemma ReportShape(header: string, items: seq<Item>)
    ensures var r := ReportOf(header, items);
      && |r| == |items| + 2
      && r[0] == header
      && (forall k :: 0 <= k < |items| ==> r[k + 1] == Fragment(items[k]))
      && r[|r| - 1] == Footer(|Filter(items, IsSuccessItem)|, |Filter(items, IsErrorItem)|, |items|)
      && |Filter(items, IsSuccessItem)| + |Filter(items, IsErrorItem)| == |items|
  {
    var r, middle := ReportOf(header, items), Fragments(items);
    Framed(header, middle,
      Footer(|Filter(items, IsSuccessItem)|, |Filter(items, IsErrorItem)|, |items|));
    forall k | 0 <= k < |items|
      ensures r[k + 1] == Fragment(items[k])
    {
      assert r[k + 1] == middle[k];
    }
    TallyPartition(items);
  }

  /** The positions of a sequence framed by a first and a last element. */
  lemma Framed<T>(first: T, middle: seq<T>, last: T)
    ensures var r := [first] + middle + [last];
      && |r| == |middle| + 2 && r[0] == first && r[|r| - 1] == last
      && forall k :: 0 <= k < |middle| ==> r[k + 1] == middle[k]
  {
  }

  /**
   * The report file being written: the writes made so far, and the two
   * counters of `generate_output_html`. Fragments are only ever appended.
   */
  class ReportWriter {
    const header: string
    const total: nat
    var output: seq<string>
    var successCount: nat
    var errorCount: nat
    /** The URLs processed so far, with their outcomes. */
    ghost var items: seq<Item>

    ghost predicate Valid()
      reads this
    {
      && successCount == |Filter(items, IsSuccessItem)|
      && errorCount == |Filter(items, IsErrorItem)|
      && output == [header] + Fragments(items)
    }

    /** Writes the header (resume_articles.py:324-325). */
    constructor (header: string, total: nat)
      ensures Valid()
      ensures this.header == header && this.total == total
      ensures output == [header] && items == []
      ensures successCount == 0 && errorCount == 0
    {
      this.header := header;
      this.total := total;
      output := [header];
      successCount := 0;
      errorCount := 0;
      items := [];
    }

    /**
     * Classifies one outcome, bumps exactly one counter and appends its
     * fragment (resume_articles.py:334-350).
     */
    method Append(url: string, outcome: Outcome)
      requires Valid()
      modifies this
      ensures Valid()
      ensures items == old(items) + [Item(url, outcome)]
      ensures output == old(output) + [Fragment(Item(url, outcome))]
      ensures IsError(outcome) ==> errorCount == old(errorCount) + 1 && successCount == old(successCount)
      ensures !IsError(outcome) ==> successCount == old(successCount) + 1 && errorCount == old(errorCount)
    {
      var item := Item(url, outcome);
      ghost var before := items;
      FilterConcat(before, [item], IsSuccessItem);
      FilterConcat(before, [item], IsErrorItem);
      FragmentsAppend(before, item);
      items := before + [item];
      assert [header] + Fragments(items) == ([header] + Fragments(before)) + [Fragment(item)];
      if IsError(outcome) {
        assert Filter([item], IsErrorItem) == [item];
        assert Filter([item], IsSuccessItem) == [];
        errorCount := errorCount + 1;
        output := output + [Card(ErrorClass, url, ErrorLabel, outcome.summary)];
      } else {
        assert Filter([item], IsErrorItem) == [];
        assert Filter([item], IsSuccessItem) == [item];
        successCount := successCount + 1;
        output := output + [Card(ArticleClass, url, outcome.title, outcome.summary)];
      }
    }

    /** Appends the footer with the tally (resume_articles.py:353-362). */
    method WriteFooter()
      requires Valid() && total == |items|
      modifies this
      ensures items == old(items)
      ensures successCount == old(successCount) && errorCount == old(errorCount)
      ensures output == old(output) + [Footer(successCount, errorCount, total)]
      ensures output == ReportOf(header, items)
    {
      output := output + [Footer(successCount, errorCount, total)];
    }
  }

  /**
   * Processes the URLs one after the other, appending each fragment as its
   * outcome arrives, and closes the report with the tally.
   */
  method GenerateOutputHtml(header: string, urls: seq<string>, world: World)
    returns (report: seq<string>, successCount: nat, errorCount: nat)
    ensures report == ReportOf(header, Items(urls, world))
    ensures successCount == |Filter(Items(urls, world), IsSuccessItem)|
    ensures errorCount == |Filter(Items(urls, world), IsErrorItem)|
    ensures successCount + errorCount == |urls|
  {
    ghost var items := Items(urls, world);
    var writer := new ReportWriter(header, |urls|);
    for i := 0 to |urls|
      invariant writer.Valid() && writer.header == header && writer.total == |urls|
      invariant writer.items == items[..i]
    {
      var url := urls[i];
      var outcome := ProcessUrl(world.fetch(url), world.parse, world.netloc(url), world.chat);
      assert items[i] == Item(url, outcome);
      writer.Append(url, outcome);
      PrefixStep(items, i);
    }
    assert items[..|urls|] == items;
    writer.WriteFooter();
    TallyPartition(items);
    report, successCount, errorCount := writer.output, writer.successCount, writer.errorCount;
  }

  /**
   * `main`: collects the URLs and stops when there are none; otherwise
   * applies the exclusion filter, which may leave no URL at all, and writes
   * the report.
   */
  method Run(header: string, files: seq<SnapshotFile>, world: World)
    returns (report: Option<seq<string>>)
    ensures var urls := Dedup(AllLinks(files));
      && (report.None? <==> urls == [])
      && (report.Some? ==> report.value == ReportOf(header, Items(ExcludeUrls(urls), world)))
  {
    var urls := CollectUrlsFromDirectory(files);
    if urls == [] {
      return None;
    }
    urls := ExcludeUrls(urls);
    var r, _, _ := GenerateOutputHtml(header, urls, world);
    report := Some(r);
  }

  /**
   * When links were found but every one is excluded, the run still writes a
   * report: the header and a footer counting nothing.
   */
  lemma AllExcludedStillReports(header: string, urls: seq<string>, world: World)
    requires urls != [] && ExcludeUrls(urls) == []
    ensures ReportOf(header, Items(ExcludeUrls(urls), world)) == [header, Footer(0, 0, 0)]
  {
    assert Fragments([]) == [];
  }
}
