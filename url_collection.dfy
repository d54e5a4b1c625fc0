/**
 * Gathering the URLs to summarise: the links of every saved `.html` file,
 * cleaned, without repetition (`collect_urls_from_directory`,
 * resume_articles.py:371-388), then the exclusion filter of `main`
 * (resume_articles.py:36-39, 400). The directory listing and the HTML
 * parser are inputs: each file comes with its name and its `href` values in
 * document order.
 */
module UrlCollection {
  import opened Seqs
  import opened Strings
  import opened UrlCleaning

  /**
   * A file of the input directory: its name and the `href` of each `<a>` in
   * order, each already stripped and percent-decoded as `clean_url` does
   * first (resume_articles.py:44).
   */
  datatype SnapshotFile = SnapshotFile(name: string, hrefs: seq<string>)

  /** Only names ending in `.html`, whatever the case, are read. */
  predicate IsHtmlFile(f: SnapshotFile) {
    EndsWith(Lower(f.name), ".html")
  }

  /** `extract_urls_from_html`: the cleaned form of every link, in order (resume_articles.py:80). */
  function FileUrls(f: SnapshotFile): (urls: seq<string>)
    ensures |urls| == |f.hrefs|
  {
    seq(|f.hrefs|, j requires 0 <= j < |f.hrefs| => CleanUrl(f.hrefs[j]))
  }

  /** `all_urls` after the loop: the URLs of the HTML files, file after file. */
  function AllLinks(files: seq<SnapshotFile>): seq<string> {
    if files == [] then []
    else
      var last := files[|files| - 1];
      AllLinks(files[..|files| - 1]) + (if IsHtmlFile(last) then FileUrls(last) else [])
  }

  /**
   * The directory loop: skips files whose name does not end in `.html`,
   * extends the list with the cleaned links of the others, and removes the
   * repetitions keeping each URL where it first occurs.
   */
  method CollectUrlsFromDirectory(files: seq<SnapshotFile>) returns (urls: seq<string>)
    ensures urls == Dedup(AllLinks(files))
  {
    var allUrls: seq<string> := [];
    var i := 0;
    while i < |files|
      invariant 0 <= i <= |files|
      invariant allUrls == AllLinks(files[..i])
    {
      var f := files[i];
      assert files[..i + 1][..i] == files[..i];
      if !IsHtmlFile(f) {
        i := i + 1;
        continue;
      }
      allUrls := allUrls + FileUrls(f);
      i := i + 1;
    }
    assert files[..i] == files;
    urls := Dedup(allUrls);
  }

  /** The file is an HTML file and one of its links cleans to the URL. */
  predicate LinksTo(f: SnapshotFile, u: string) {
    IsHtmlFile(f) && u in FileUrls(f)
  }

  /** The URL is the cleaned form of some link of some HTML file. */
  ghost predicate LinkedFrom(files: seq<SnapshotFile>, u: string) {
    exists i :: 0 <= i < |files| && LinksTo(files[i], u)
  }

  /** A URL is collected exactly when some link of some HTML file cleans to it. */
  lemma {:induction false} AllLinksMembers(files: seq<SnapshotFile>, u: string)
    ensures u in AllLinks(files) <==> LinkedFrom(files, u)
  {
    if files != [] {
      var init, last := files[..|files| - 1], files[|files| - 1];
      assert files == init + [last];
      var tail := if IsHtmlFile(last) then FileUrls(last) else [];
      assert AllLinks(files) == AllLinks(init) + tail;
      assert u in AllLinks(files) <==> u in AllLinks(init) || LinksTo(last, u);
      AllLinksMembers(init, u);
      LinkedFromSplit(init, last, u);
    }
  }

  /** A URL is linked from a list with one more file when it is linked from the list or the file. */
  lemma LinkedFromSplit(init: seq<SnapshotFile>, last: SnapshotFile, u: string)
    ensures LinkedFrom(init + [last], u) <==> LinkedFrom(init, u) || LinksTo(last, u)
  {
    var files := init + [last];
    if LinkedFrom(init, u) {
      var i :| 0 <= i < |init| && LinksTo(init[i], u);
      assert files[i] == init[i];
    }
    if LinksTo(last, u) {
      assert files[|init|] == last;
    }
    if LinkedFrom(files, u) {
      var i :| 0 <= i < |files| && LinksTo(files[i], u);
      if i < |init| {
        assert files[i] == init[i];
      }
    }
  }

  /**
   * The collected list has no repeated URL, holds every cleaned link of
   * every HTML file and nothing else, and keeps the URLs in the order of
   * their first occurrence.
   */
  lemma CollectedUrlsSpec(files: seq<SnapshotFile>)
    ensures var urls := Dedup(AllLinks(files));
      && Distinct(urls)
      && (forall u :: u in urls <==> LinkedFrom(files, u))
      && (forall a, b :: 0 <= a < b < |urls| ==>
            IndexOf(AllLinks(files), urls[a]) < IndexOf(AllLinks(files), urls[b]))
  {
    var all := AllLinks(files);
    forall u
      ensures u in Dedup(all) <==> LinkedFrom(files, u)
    {
      AllLinksMembers(files, u);
      assert u in Dedup(all) <==> u in all;
    }
    DedupFirstSeenOrder(all);
  }

  /** The substrings that exclude a URL from the report. */
  const ExcludedPatterns: seq<string> := ["techcafe.fr", "guillaumevende.fr"]

  predicate NotExcluded(u: string) {
    !ContainsAny(u, ExcludedPatterns)
  }

  /** `[u for u in urls if not any(p in u for p in EXCLUDED_PATTERNS)]`. */
  function ExcludeUrls(urls: seq<string>): seq<string> {
    Filter(urls, NotExcluded)
  }

  /**
   * The exclusion filter keeps exactly the URLs that contain none of the
   * patterns, in their original relative order; a list without repetition
   * stays without repetition.
   */
  lemma ExcludeUrlsSpec(urls: seq<string>)
    ensures var kept := ExcludeUrls(urls);
      && (forall u :: u in kept <==> u in urls && NotExcluded(u))
      && SubseqOf(kept, urls)
      && (Distinct(urls) ==> Distinct(kept))
  {
    FilterSubseq(urls, NotExcluded);
    if Distinct(urls) {
      FilterDistinct(urls, NotExcluded);
    }
  }
}
