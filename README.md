# resume_articles — a verified model of the summarising pipeline

`resume_articles.py` reads saved HTML pages, collects the links they hold,
cleans each link (unwrapping Google redirect links and dropping tracking
parameters), removes duplicates and excluded sites, then for each URL fetches
the article, keeps its relevant paragraphs, asks a local language model for a
one-sentence French summary, and appends one fragment per URL to an HTML
report that ends with a tally of successes and errors.

This project models, in Dafny, the deterministic core of that pipeline:

- `UrlCleaning` (`url_cleaning.dfy`): `clean_url` — `parse_qsl`/`parse_qs`
  on the query, the redirect unwrap, the tracking-parameter filter and
  rebuilt query, `urlparse`/`urlunparse` as far as the query is concerned,
  and the doubled-scheme repair with Python's `str.replace`.
- `UrlCollection` (`url_collection.dfy`): the directory loop of
  `collect_urls_from_directory`, the order-preserving deduplication and the
  exclusion filter.
- `Fetching` (`fetching.dfy`): the status branch of `fetch_article`.
- `Extraction` (`extraction.dfy`): the paragraph loop, the two
  publisher-specific passes and the assembly of the text sent for summary.
- `Processing` (`processing.dfy`): every return path of `process_url`.
- `Report` (`report.dfy`): the report file as a `ReportWriter` object with
  its counters and append-only buffer, the sequential loop of
  `generate_output_html`, and `main`.
- `Seqs`, `Strings` and `Wrappers` hold the Python idioms these use
  (comprehensions with a condition, `dict.fromkeys`, `sub in s`, `join`,
  `split`, `replace`, `str(n)`, `Optional`).

The network, the HTML parser, the language model and the clock are inputs:
a fetch result per URL, a function from HTML to the parsed page (its title
and stripped paragraph texts), a function from prompt to reply, the host of
each URL, and the header text.

Where the code differs from what a reader might expect, the model follows
the code:

- The error test of line 335 looks for the substring `Erreur` in the title.
  A successfully summarised article whose own title contains that word is
  therefore counted as an error, and its title is replaced by the error
  label (`Processing.IsError`, `Report.Fragment`).
- A page that answers with an empty body is treated like an unreachable
  page. It is reported with the fixed "contenu inaccessible" diagnostic,
  not with a message naming the HTTP status.
- The publisher filter is applied in two passes. The second TechCrunch pass
  repeats the first list. The second The Verge pass uses another list, but
  every phrase in it contains one of the generic noise phrases, so neither
  second pass ever removes a paragraph (`Extraction.SecondPassKeepsAll`).
- `main` tests for an empty list before exclusion. A run whose links are
  all excluded still writes a report with no fragment and a zero tally
  (`Report.AllExcludedStillReports`).
- `clean_url` is not idempotent on whole URLs: a redirect whose target is
  itself a redirect is unwrapped one level per call. What is idempotent is
  the query cleaning (`UrlCleaning.CleanQueryIdempotent`).

## Model

| member | source | states |
|---|---|---|
| `UrlCleaning.ParseQsl` | resume_articles.py:62 | the pairs `parse_qs` reads from the query (also at line 50): every pair read from the query has a non-blank value, no `&`, no `=` in its name and no `+`; a character (other than a space) absent from the query is absent from every pair |
| `UrlCleaning.ParseQs` | resume_articles.py:62 | the dictionary `parse_qs` builds (also at line 50) has one entry per distinct name, in first-seen order, each with a non-empty value list headed by the value of the name's first occurrence |
| `UrlCleaning.Lookup` | resume_articles.py:51-52 | a name is found exactly when it is a key, and then its value list is returned |
| `UrlCleaning.LookupParseQs` | resume_articles.py:51-52 | looking a name up in the parsed query succeeds exactly when the name occurs, and yields the value of its first occurrence first |
| `UrlCleaning.RedirectTargetIsFirstQ` | resume_articles.py:47-52 | a link is unwrapped exactly when it contains `google.com/url` and its query has a non-blank `q`, and then the target is the first `q` value |
| `UrlCleaning.CleanParamsSpec` | resume_articles.py:58-64 | the rebuilt query holds no blocked name; each name appears once, with the value of its first occurrence; every unblocked name of the query is kept; names keep their first-seen order |
| `UrlCleaning.CleanParamsWellFormed` | resume_articles.py:62-64 | every pair of the rebuilt query is one `parse_qsl` could read |
| `UrlCleaning.CleanOfClean` | resume_articles.py:61-64 | pairs with distinct, unblocked names pass through the dictionary, the filter and the first-value step unchanged |
| `UrlCleaning.ParseRenderParams` | resume_articles.py:64 | parsing the `&`-joined `name=value` text of well-formed pairs gives those pairs back |
| `UrlCleaning.CleanQueryIdempotent` | resume_articles.py:58-64 | cleaning an already cleaned query changes nothing |
| `UrlCleaning.SplitUrl` | resume_articles.py:57 | `urlparse` (also at line 49) cuts the URL so that the base holds no `?` or `#`, and the query holds no `#` |
| `UrlCleaning.SplitUnsplit` | resume_articles.py:65-66 | splitting a URL rebuilt by `urlunparse` gives back its base, query and fragment |
| `UrlCleaning.FixDoubleSchemeCollapses` | resume_articles.py:68-70 | `https://https://` or `http://https://` followed by a rest with no further `://` becomes a single `https://` followed by the rest |
| `UrlCleaning.CleanUrlQuery` | resume_articles.py:42-72 | unless the doubled-scheme repair applies, the cleaned URL keeps the base and fragment of the unwrapped URL, and its query parses to exactly the cleaned pairs |
| `Seqs.Dedup` | resume_articles.py:385 | the result holds every input element and only those, with no repetition |
| `Seqs.DedupFirstSeenOrder` | resume_articles.py:385 | kept elements are ordered by the position of their first occurrence in the input |
| `Seqs.DedupOfDistinct` | resume_articles.py:385 | a list without repetition is left unchanged |
| `Seqs.Filter` | resume_articles.py:400 | the result holds exactly the elements that pass the test, and is no longer than the input |
| `Seqs.FilterCount` | resume_articles.py:400 | an element that passes the test occurs in the result exactly as many times as in the input; one that fails does not occur |
| `Seqs.FilterSubseq` | resume_articles.py:400 | filtering keeps the survivors in their original relative order |
| `Seqs.Take` | resume_articles.py:207 | `s[:10]` is the first ten elements, or all of them when there are fewer: its length is the smaller of the two and each element is the input's element at the same position |
| `Seqs.FilterFilter` | resume_articles.py:187-194 | filtering the kept paragraphs again with a second condition is filtering the page once with both |
| `UrlCollection.CollectUrlsFromDirectory` | resume_articles.py:371-388 | the collected list is the deduplication of the cleaned links of the `.html` files, file after file, link after link |
| `UrlCollection.AllLinksMembers` | resume_articles.py:375-381 | a URL is among the collected links exactly when some link of some `.html` file cleans to it |
| `UrlCollection.CollectedUrlsSpec` | resume_articles.py:385 | the collected URLs have no repetition, are exactly the cleaned links of the `.html` files, and come in first-seen order |
| `UrlCollection.ExcludeUrlsSpec` | resume_articles.py:400 | a URL survives exclusion exactly when it was in the list and contains neither `techcafe.fr` nor `guillaumevende.fr`; order and absence of repetition are kept |
| `Fetching.FetchArticle` | resume_articles.py:133-143 | a body is returned exactly for status 200, and it is the response body; 401, 403, every other status and every transport exception give none |
| `Extraction.SelectParagraphs` | resume_articles.py:167-182 | the loop keeps, in page order, exactly the non-empty paragraphs that mention no generic noise phrase |
| `Extraction.ContributorsFirstSurvivors` | resume_articles.py:167-233 | the joined paragraphs are exactly the first ten of the page, in page order, that pass the generic filter and every phrase list of their publisher, or all of them when fewer pass |
| `Extraction.ContributorsSpec` | resume_articles.py:167-233 | the text is the single-space join of the first ten surviving paragraphs (all of them when fewer survive), taken in page order; each is non-empty and free of noise phrases and of its publisher's phrases |
| `Extraction.ArticleTextEmpty` | resume_articles.py:235-237 | the text is empty exactly when no paragraph survives the filters |
| `Extraction.TechCrunchSecondPassKeepsAll` | resume_articles.py:213-222 | re-applying the TechCrunch list to what the first pass kept removes nothing |
| `Extraction.VergeSecondPhraseIsNoise` | resume_articles.py:226-232 | every phrase of the second The Verge list contains a generic noise phrase |
| `Extraction.ArticleParagraphPassesVergeSecond` | resume_articles.py:171-180 | a paragraph the generic filter kept mentions no phrase of the second The Verge list |
| `Extraction.SecondPassKeepsAll` | resume_articles.py:209-233 | for every host, the second publisher pass keeps every paragraph, so the text is the join after the first pass |
| `Processing.ProcessUrl` | resume_articles.py:146-252 | the (title, summary) pair is the one the path taken by the URL prescribes |
| `Processing.NoContentOutcome` | resume_articles.py:157-158 | no body, or an empty body, gives ("Erreur de chargement", "Résumé indisponible (contenu inaccessible)") |
| `Processing.DiagnosticIsError` | resume_articles.py:335 | any "Résumé indisponible (…)" summary is classified as an error |
| `Processing.LoadErrorIsError` | resume_articles.py:335 | the "Erreur de chargement" title is classified as an error |
| `Processing.NoTitleIsNoError` | resume_articles.py:163 | the "Titre non trouvé" placeholder does not contain "Erreur" |
| `Processing.FailureIsError` | resume_articles.py:155-252 | every failure path (no or empty body, a parser exception, no text, a model failure) gives a pair classified as an error |
| `Processing.SummarisedOutcome` | resume_articles.py:160-249 | on the summarised path the text is non-empty and the pair is the page title (or "Titre non trouvé") with the model's reply; an untitled page is an error only when the reply contains "Résumé indisponible" |
| `Strings.DecimalSpec` | resume_articles.py:357-359 | a count is written as decimal digits, without a leading zero, that read back as the count |
| `Report.Items` | resume_articles.py:330-332 | one outcome per URL, in input order |
| `Report.TallyPartition` | resume_articles.py:335-344 | every item is counted once, as a success or as an error |
| `Report.FragmentShows` | resume_articles.py:337-350 | a fragment links to its URL and shows the summary; an error fragment shows the "⚠️ Erreur de chargement" label and the error class, a success fragment the title |
| `Report.FooterShows` | resume_articles.py:354-362 | the footer shows the success count, the error count and the total |
| `Report.ReportShape` | resume_articles.py:266-362 | the report is the header, one fragment per URL in input order, then the footer, whose two counts add up to the total |
| `Report.ReportWriter.constructor` | resume_articles.py:324-325 | the file holds only the header and both counters are zero |
| `Report.ReportWriter.Append` | resume_articles.py:334-350 | exactly one counter goes up, by one, according to the line-335 test, and exactly the fragment for that outcome is appended |
| `Report.ReportWriter.WriteFooter` | resume_articles.py:353-362 | the footer with the current counts is appended, completing the report |
| `Report.GenerateOutputHtml` | resume_articles.py:257-362 | the URLs are processed one after the other; the file is the full report, and the success and error counts add up to the number of URLs |
| `Report.Run` | resume_articles.py:391-404 | no report when no link is collected; otherwise the report of the collected URLs that survive exclusion |
| `Report.AllExcludedStillReports` | resume_articles.py:395-404 | when links were collected but all are excluded, the report is the header and a zero tally |

## Left out

- `unquote(url.strip())` (resume_articles.py:44): the model starts from the stripped, percent-decoded URL; percent-decoding of names and values inside `parse_qsl` is left out with it.
- `urlparse`/`urlunparse` (resume_articles.py:49, 57, 65-66) are modelled only as far as the query goes. The model cuts the fragment at the first `#` and the query at the first `?`. It leaves out scheme lower-casing, the `;params` component and the other normalisations of the library.
- UrlCleaning.FixDoubleSchemeCollapses: proved only when the rest holds no further `://`; the replacements elsewhere in a URL are modelled by `Strings.ReplaceAll` but not characterised.
- UrlCleaning.CleanUrl: is total. In the source, `urlparse` at line 57 runs outside any `try` and raises `ValueError` when the network location has an unmatched `[` or `]` (which a `%5B` or `%5D` decoded at line 44 can produce); nothing at lines 76-81, 371-388 or 391-404 catches it, so one such link aborts the whole run. The model does not capture that abort.
- The `try`/`except` around the redirect unwrap (resume_articles.py:48-54): in the model, parsing a query cannot fail.
- Network I/O in `fetch_article` (resume_articles.py:120-131): headers, TLS settings and the timeout are not modelled. An exception while reading the body is not modelled either; a response carries its body already read.
- BeautifulSoup (resume_articles.py:78-80, 161-169): the parsed page (title, stripped paragraph texts) and the links of a file are inputs. A parser exception is modelled as a parse result carrying its message.
- `ollama.chat` (resume_articles.py:240-247): the reply is an input, given already stripped. A model exception is modelled as a failure carrying its message.
- `str.lower` is modelled on ASCII letters only. Other upper-case letters are not folded, so a phrase written with accented capitals is not matched.
- The console output (`print`) and `tqdm`, `check_ollama_running`, `save_urls_to_file`, `summarize_with_ai` (never called) and `CONCURRENT_REQUESTS` (never used) are left out.
- The semaphore and `asyncio` (resume_articles.py:152, 327): the loop awaits each URL before the next one, so the model is sequential.
- `datetime.now()` in the header (resume_articles.py:271-320): the header text is an input.
- The file system (resume_articles.py:324-353, 375-380): the directory listing is a sequence of files. The report file is the sequence of strings written to it, one element per write.
- Report.ReportWriter.WriteFooter: after the footer is written the writer's invariant no longer holds, so no further fragment can be appended. The source never appends after the footer either.
