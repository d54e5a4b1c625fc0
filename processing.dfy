/**
 * `process_url` (resume_articles.py:146-252): every URL gives a
 * (title, summary) pair, either a summary of the article or a
 * "Résumé indisponible (...)" diagnostic. The page, the HTML parser and the
 * language model are inputs: the fetch result, a function from HTML to the
 * parsed page, and a function from prompt to reply.
 */
module Processing {
  import opened Wrappers
  import opened Seqs
  import opened Strings
  import opened Fetching
  import opened Extraction

  /** What the HTML parser finds: the `<title>` text if any and the stripped `<p>` texts. */
  datatype Page = Page(title: Option<string>, paragraphTexts: seq<string>)

  /** The parse of a body, or the message of the exception it raised. */
  datatype Parse = Parsed(page: Page) | ParseFault(message: string)

  /** The model's stripped reply, or the message of the exception the call raised. */
  datatype ChatReply = Reply(content: string) | ChatFault(message: string)

  /** The (title, summary) pair `process_url` returns. */
  datatype Outcome = Outcome(title: string, summary: string)

  const LoadError := "Erreur de chargement"
  const NoTitle := "Titre non trouvé"
  const Unavailable := "Résumé indisponible"
  const Inaccessible := "contenu inaccessible"
  const NoText := "aucun texte détecté"
  const Prompt := "Résume ce texte en une phrase en français : "

  /** The words the report looks for when classifying an outcome (resume_articles.py:335). */
  const ErrorWord := "Erreur"

  /** `f"Résumé indisponible ({reason})"`. */
  function Diagnostic(reason: string): string {
    Unavailable + " (" + reason + ")"
  }

  /** The test of resume_articles.py:335: an outcome is reported as an error. */
  predicate IsError(o: Outcome) {
    Contains(o.title, ErrorWord) || Contains(o.summary, Unavailable)
  }

  /** The outcome for one URL, path by path as `process_url` takes them. */
  function ItemOutcome(response: FetchResponse, parse: string -> Parse, netloc: string,
                       chat: string -> ChatReply): Outcome
  {
    var html := FetchArticle(response);
    if html.None? || html.value == "" then Outcome(LoadError, Diagnostic(Inaccessible))
    else match parse(html.value)
      case ParseFault(e) => Outcome(LoadError, Diagnostic(e))
      case Parsed(page) =>
        var title := page.title.GetOr(NoTitle);
        var text := ArticleText(Filter(page.paragraphTexts, IsArticleParagraph), netloc);
        if text == "" then Outcome(title, Diagnostic(NoText))
        else match chat(Prompt + text)
          case Reply(content) => Outcome(title, content)
          case ChatFault(e) => Outcome(title, Diagnostic(e))
  }

  /** Fetches, parses, filters the paragraphs and asks for a summary. */
  method ProcessUrl(response: FetchResponse, parse: string -> Parse, netloc: string,
                    chat: string -> ChatReply) returns (outcome: Outcome)
    ensures outcome == ItemOutcome(response, parse, netloc, chat)
  {
    var html := FetchArticle(response);
    if html.None? || html.value == "" {
      return Outcome(LoadError, Diagnostic(Inaccessible));
    }
    match parse(html.value) {
      case ParseFault(e) =>
        return Outcome(LoadError, Diagnostic(e));
      case Parsed(page) =>
        var title := if page.title.Some? then page.title.value else NoTitle;
        var paragraphs := SelectParagraphs(page.paragraphTexts);
        var text := ArticleText(paragraphs, netloc);
        if text == "" {
          return Outcome(title, Diagnostic(NoText));
        }
        match chat(Prompt + text) {
          case Reply(content) =>
            outcome := Outcome(title, content);
          case ChatFault(e) =>
            outcome := Outcome(title, Diagnostic(e));
        }
    }
  }

  /** The only path that gives the model's own words as the summary. */
  predicate Summarised(response: FetchResponse, parse: string -> Parse, netloc: string,
                       chat: string -> ChatReply)
  {
    var html := FetchArticle(response);
    && html.Some? && html.value != ""
    && parse(html.value).Parsed?
    && var page := parse(html.value).page;
       && Contributors(page.paragraphTexts, netloc) != []
       && var text := ArticleText(Filter(page.paragraphTexts, IsArticleParagraph), netloc);
          chat(Prompt + text).Reply?
  }

  lemma DiagnosticIsError(title: string, reason: string)
    ensures IsError(Outcome(title, Diagnostic(reason)))
  {
    assert Diagnostic(reason) == Unavailable + (" (" + reason + ")");
    assert Diagnostic(reason)[0..|Unavailable|] == Unavailable;
    assert OccursAt(Diagnostic(reason), Unavailable, 0);
  }

  lemma LoadErrorIsError(summary: string)
    ensures IsError(Outcome(LoadError, summary))
  {
    assert LoadError[0..6] == ErrorWord;
    assert OccursAt(LoadError, ErrorWord, 0);
  }

  /** A string without the first letter of `sub` does not contain `sub`. */
  lemma LacksFirstLetter(s: string, sub: string)
    requires sub != [] && sub[0] !in s
    ensures !Contains(s, sub)
  {
    forall i | 0 <= i <= |s| - |sub|
      ensures !OccursAt(s, sub, i)
    {
      assert s[i..i + |sub|][0] == s[i];
    }
  }

  /**
   * Every failure path (no or empty HTML, a parser exception, no text left,
   * a model failure) gives an outcome the report classifies as an error.
   */
  lemma FailureIsError(response: FetchResponse, parse: string -> Parse, netloc: string,
                       chat: string -> ChatReply)
    requires !Summarised(response, parse, netloc, chat)
    ensures IsError(ItemOutcome(response, parse, netloc, chat))
  {
    var html := FetchArticle(response);
    if html.None? || html.value == "" {
      LoadErrorIsError(Diagnostic(Inaccessible));
    } else {
      match parse(html.value)
      case ParseFault(e) =>
        LoadErrorIsError(Diagnostic(e));
      case Parsed(page) =>
        var title := page.title.GetOr(NoTitle);
        var text := ArticleText(Filter(page.paragraphTexts, IsArticleParagraph), netloc);
        ArticleTextEmpty(page.paragraphTexts, netloc);
        DiagnosticIsError(title, NoText);
        if text != "" {
          DiagnosticIsError(title, chat(Prompt + text).message);
        }
    }
  }

  /** No unreachable or empty page counts as fetched: it gives the fixed load error pair. */
  lemma NoContentOutcome(response: FetchResponse, parse: string -> Parse, netloc: string,
                         chat: string -> ChatReply)
    requires FetchArticle(response).GetOr("") == ""
    ensures ItemOutcome(response, parse, netloc, chat) == Outcome(LoadError, Diagnostic(Inaccessible))
  {
  }

  /**
   * On the summarised path the pair is the page title (or the fixed
   * "Titre non trouvé") and the model's reply, and it is reported as an
   * error only when the title contains "Erreur" or the reply contains
   * "Résumé indisponible"; a page without a title is reported as a success
   * unless the reply says otherwise.
   */
  lemma SummarisedOutcome(response: FetchResponse, parse: string -> Parse, netloc: string,
                          chat: string -> ChatReply)
    requires Summarised(response, parse, netloc, chat)
    ensures var page := parse(FetchArticle(response).value).page;
      var text := ArticleText(Filter(page.paragraphTexts, IsArticleParagraph), netloc);
      var o := ItemOutcome(response, parse, netloc, chat);
      && text != ""
      && o == Outcome(page.title.GetOr(NoTitle), chat(Prompt + text).content)
      && (page.title.None? ==> (IsError(o) <==> Contains(o.summary, Unavailable)))
  {
    var html := FetchArticle(response).value;
    var page := parse(html).page;
    var text := ArticleText(Filter(page.paragraphTexts, IsArticleParagraph), netloc);
    ArticleTextEmpty(page.paragraphTexts, netloc);
    assert text != "";
    assert ItemOutcome(response, parse, netloc, chat)
        == Outcome(page.title.GetOr(NoTitle), chat(Prompt + text).content);
    NoTitleIsNoError();
  }

  /** The fixed "Titre non trouvé" does not contain "Erreur". */
  lemma NoTitleIsNoError()
    ensures !Contains(NoTitle, ErrorWord)
  {
    assert 'E' !in NoTitle;
    LacksFirstLetter(NoTitle, ErrorWord);
  }
}
