/**
 * The article text of a page (`process_url`, resume_articles.py:165-233):
 * the stripped paragraph texts are filtered against generic noise phrases,
 * then against phrases of the publisher when the host is TechCrunch or The
 * Verge, and the first ten survivors are joined with single spaces. The code
 * then runs a second publisher pass and joins again.
 */
module Extraction {
  import opened Seqs
  import opened Strings

  /** Phrases that mark a paragraph as navigation, consent or promotion on any site. */
  const NoisePhrases: seq<string> := [
    "cookie", "newsletter", "subscribe", "sign up", "digest",
    "privacy policy", "advertisement", "adblock", "accept cookies",
    "breaking bad", "comment", "related article", "get the verge",
    "connect with", "daily digest", "follow", "open in app"
  ]

  /** TechCrunch navigation labels; both passes use this list. */
  const TechCrunchPhrases: seq<string> := [
    "latest news", "artificial intelligence", "amazon apps",
    "biotech", "climate", "cryptocurrency", "enterprise",
    "apps", "health", "tc+", "privacy", "advertising"
  ]

  /** The Verge phrases of the first pass. */
  const VergeFirstPhrases: seq<string> := [
    "digest quotidien", "flux d’accueil", "daily digest",
    "articles de ce sujet", "articles de cet auteur",
    "s’abonner", "newsletter", "inscrivez-vous", "follow us"
  ]

  /** The Verge phrases of the second pass. */
  const VergeSecondPhrases: seq<string> := [
    "daily digest", "subscribe", "newsletter", "follow us",
    "sign up", "cookie", "privacy policy", "advertisement"
  ]

  /** How many paragraphs at most go into the text. */
  const MaxParagraphs: nat := 10

  /** `any(x in t.lower() for x in phrases)`. */
  predicate Mentions(t: string, phrases: seq<string>) {
    ContainsAny(Lower(t), phrases)
  }

  /** A paragraph the generic filter keeps: non-empty and free of noise phrases. */
  predicate IsArticleParagraph(t: string) {
    t != "" && !Mentions(t, NoisePhrases)
  }

  /**
   * The loop over the `<p>` elements (resume_articles.py:167-182): skips
   * empty texts and texts that mention a noise phrase, appends the others.
   */
  method SelectParagraphs(texts: seq<string>) returns (paragraphs: seq<string>)
    ensures paragraphs == Filter(texts, IsArticleParagraph)
  {
    paragraphs := [];
    var i := 0;
    while i < |texts|
      invariant 0 <= i <= |texts|
      invariant paragraphs == Filter(texts[..i], IsArticleParagraph)
    {
      var t := texts[i];
      FilterConcat(texts[..i], [t], IsArticleParagraph);
      assert texts[..i + 1] == texts[..i] + [t];
      if t == "" {
        i := i + 1;
        continue;
      }
      if Mentions(t, NoisePhrases) {
        i := i + 1;
        continue;
      }
      paragraphs := paragraphs + [t];
      i := i + 1;
    }
    assert texts[..i] == texts;
  }

  /** The publishers that get a filter of their own. */
  datatype Publisher = TechCrunch | TheVerge | OtherSite

  /** The publisher of a host, from the lowercased network location. */
  function PublisherOf(netloc: string): Publisher {
    var domain := Lower(netloc);
    if Contains(domain, "techcrunch.com") then TechCrunch
    else if Contains(domain, "theverge.com") then TheVerge
    else OtherSite
  }

  predicate NoTechCrunchPhrase(t: string) {
    !Mentions(t, TechCrunchPhrases)
  }

  predicate NoVergeFirstPhrase(t: string) {
    !Mentions(t, VergeFirstPhrases)
  }

  predicate NoVergeSecondPhrase(t: string) {
    !Mentions(t, VergeSecondPhrases)
  }

  /** The first publisher pass (resume_articles.py:185-205). */
  function FirstPass(paragraphs: seq<string>, publisher: Publisher): seq<string> {
    match publisher
    case TechCrunch => Filter(paragraphs, NoTechCrunchPhrase)
    case TheVerge => Filter(paragraphs, NoVergeFirstPhrase)
    case OtherSite => paragraphs
  }

  /** The second publisher pass (resume_articles.py:210-233). */
  function SecondPass(paragraphs: seq<string>, publisher: Publisher): seq<string> {
    match publisher
    case TechCrunch => Filter(paragraphs, NoTechCrunchPhrase)
    case TheVerge => Filter(paragraphs, NoVergeSecondPhrase)
    case OtherSite => paragraphs
  }

  /** `" ".join(paragraphs[:10])`. */
  function JoinFirst(paragraphs: seq<string>): string {
    Join(Take(paragraphs, MaxParagraphs), " ")
  }

  /**
   * The text sent for summary, from the paragraphs the generic loop kept:
   * joined after the first pass, and joined again after the second pass for
   * the two named publishers.
   */
  function ArticleText(paragraphs: seq<string>, netloc: string): string {
    var publisher := PublisherOf(netloc);
    var first := FirstPass(paragraphs, publisher);
    var text := JoinFirst(first);
    if publisher == OtherSite then text
    else JoinFirst(SecondPass(first, publisher))
  }

  /** A paragraph that passes the generic test and the TechCrunch list. */
  predicate TechCrunchSurvivor(t: string) {
    IsArticleParagraph(t) && NoTechCrunchPhrase(t)
  }

  /** A paragraph that passes the generic test and the first The Verge list. */
  predicate VergeFirstSurvivor(t: string) {
    IsArticleParagraph(t) && NoVergeFirstPhrase(t)
  }

  /** A paragraph that passes the generic test and both The Verge lists. */
  predicate VergeSurvivor(t: string) {
    VergeFirstSurvivor(t) && NoVergeSecondPhrase(t)
  }

  /**
   * The paragraphs of the page that pass, in one test, the generic filter and
   * every phrase list of the publisher, in page order.
   */
  function Survivors(texts: seq<string>, publisher: Publisher): seq<string> {
    match publisher
    case TechCrunch => Filter(texts, TechCrunchSurvivor)
    case TheVerge => Filter(texts, VergeSurvivor)
    case OtherSite => Filter(texts, IsArticleParagraph)
  }

  /** The paragraphs whose text makes up the article text. */
  function Contributors(texts: seq<string>, netloc: string): (ps: seq<string>)
    ensures |ps| <= MaxParagraphs
  {
    var publisher := PublisherOf(netloc);
    var first := FirstPass(Filter(texts, IsArticleParagraph), publisher);
    Take(if publisher == OtherSite then first else SecondPass(first, publisher), MaxParagraphs)
  }

  /**
   * Every paragraph that contributes to the text is non-empty, free of
   * noise phrases and of the phrases of its publisher, and the contributors
   * are at most ten paragraphs taken in page order, joined by single spaces.
   */
  lemma ContributorsSpec(texts: seq<string>, netloc: string)
    ensures var ps := Contributors(texts, netloc);
      && ArticleText(Filter(texts, IsArticleParagraph), netloc) == Join(ps, " ")
      && ps == Take(Survivors(texts, PublisherOf(netloc)), MaxParagraphs)
      && |ps| == (var n := |Survivors(texts, PublisherOf(netloc))|; if n <= MaxParagraphs then n else MaxParagraphs)
      && SubseqOf(ps, texts)
      && (forall i :: 0 <= i < |ps| ==> ps[i] != "" && !Mentions(ps[i], NoisePhrases))
      && (PublisherOf(netloc) == TechCrunch ==>
            forall i :: 0 <= i < |ps| ==> !Mentions(ps[i], TechCrunchPhrases))
      && (PublisherOf(netloc) == TheVerge ==>
            forall i :: 0 <= i < |ps| ==>
              !Mentions(ps[i], VergeFirstPhrases) && !Mentions(ps[i], VergeSecondPhrases))
  {
    ContributorsInOrder(texts, netloc);
    ContributorsFirstSurvivors(texts, netloc);
    var ps := Contributors(texts, netloc);
    forall i | 0 <= i < |ps|
      ensures ps[i] != "" && !Mentions(ps[i], NoisePhrases)
      ensures PublisherOf(netloc) == TechCrunch ==> !Mentions(ps[i], TechCrunchPhrases)
      ensures PublisherOf(netloc) == TheVerge ==>
        !Mentions(ps[i], VergeFirstPhrases) && !Mentions(ps[i], VergeSecondPhrases)
    {
      ContributorClean(texts, netloc, ps[i]);
    }
  }

  /**
   * The contributors are the first ten paragraphs of the page that pass the
   * generic filter and every list of their publisher, or all of them when
   * fewer pass.
   */
  lemma ContributorsFirstSurvivors(texts: seq<string>, netloc: string)
    ensures Contributors(texts, netloc) == Take(Survivors(texts, PublisherOf(netloc)), MaxParagraphs)
  {
    var first := Filter(texts, IsArticleParagraph);
    match PublisherOf(netloc)
    case TechCrunch =>
      FilterFilter(texts, IsArticleParagraph, NoTechCrunchPhrase, TechCrunchSurvivor);
      FilterIdempotent(first, NoTechCrunchPhrase);
    case TheVerge =>
      FilterFilter(texts, IsArticleParagraph, NoVergeFirstPhrase, VergeFirstSurvivor);
      FilterFilter(texts, VergeFirstSurvivor, NoVergeSecondPhrase, VergeSurvivor);
    case OtherSite =>
  }

  /** The contributors are the page's paragraphs in page order, and their join is the text. */
  lemma ContributorsInOrder(texts: seq<string>, netloc: string)
    ensures var ps := Contributors(texts, netloc);
      && ArticleText(Filter(texts, IsArticleParagraph), netloc) == Join(ps, " ")
      && SubseqOf(ps, texts)
  {
    var publisher := PublisherOf(netloc);
    var kept := Filter(texts, IsArticleParagraph);
    var first := FirstPass(kept, publisher);
    var last := if publisher == OtherSite then first else SecondPass(first, publisher);
    var ps := Contributors(texts, netloc);
    assert ps == Take(last, MaxParagraphs);
    TakeSubseq(last, MaxParagraphs);
    FilterSubseq(texts, IsArticleParagraph);
    FirstPassSubseq(kept, publisher);
    SubseqTrans(first, kept, texts);
    if publisher != OtherSite {
      SecondPassSubseq(first, publisher);
      SubseqTrans(last, first, texts);
    }
    SubseqTrans(ps, last, texts);
  }

  /** One contributor passed the generic filter and both passes of its publisher. */
  lemma ContributorClean(texts: seq<string>, netloc: string, p: string)
    requires p in Contributors(texts, netloc)
    ensures p != "" && !Mentions(p, NoisePhrases)
    ensures PublisherOf(netloc) == TechCrunch ==> !Mentions(p, TechCrunchPhrases)
    ensures PublisherOf(netloc) == TheVerge ==>
      !Mentions(p, VergeFirstPhrases) && !Mentions(p, VergeSecondPhrases)
  {
    var publisher := PublisherOf(netloc);
    var kept := Filter(texts, IsArticleParagraph);
    var first := FirstPass(kept, publisher);
    var last := if publisher == OtherSite then first else SecondPass(first, publisher);
    assert Contributors(texts, netloc) == Take(last, MaxParagraphs);
    assert p in last;
    assert p in first;
    assert p in kept;
  }

  lemma TakeSubseq<T>(s: seq<T>, n: nat)
    ensures SubseqOf(Take(s, n), s)
  {
    if |s| <= n {
      PrefixSubseq(s, |s|);
      assert s[..|s|] == s;
    } else {
      PrefixSubseq(s, n);
    }
  }

  lemma FirstPassSubseq(paragraphs: seq<string>, publisher: Publisher)
    ensures SubseqOf(FirstPass(paragraphs, publisher), paragraphs)
  {
    match publisher
    case TechCrunch => FilterSubseq(paragraphs, NoTechCrunchPhrase);
    case TheVerge => FilterSubseq(paragraphs, NoVergeFirstPhrase);
    case OtherSite => PrefixSubseq(paragraphs, |paragraphs|); assert paragraphs[..|paragraphs|] == paragraphs;
  }

  lemma SecondPassSubseq(paragraphs: seq<string>, publisher: Publisher)
    ensures SubseqOf(SecondPass(paragraphs, publisher), paragraphs)
  {
    match publisher
    case TechCrunch => FilterSubseq(paragraphs, NoTechCrunchPhrase);
    case TheVerge => FilterSubseq(paragraphs, NoVergeSecondPhrase);
    case OtherSite => PrefixSubseq(paragraphs, |paragraphs|); assert paragraphs[..|paragraphs|] == paragraphs;
  }

  /** The text is empty exactly when no paragraph survives the filters. */
  lemma ArticleTextEmpty(texts: seq<string>, netloc: string)
    ensures ArticleText(Filter(texts, IsArticleParagraph), netloc) == ""
        <==> Contributors(texts, netloc) == []
  {
    ContributorsSpec(texts, netloc);
    var ps := Contributors(texts, netloc);
    JoinEmpty(ps, " ");
  }

  /** Re-applying the TechCrunch list to what the first pass kept removes nothing. */
  lemma TechCrunchSecondPassKeepsAll(paragraphs: seq<string>)
    ensures SecondPass(FirstPass(paragraphs, TechCrunch), TechCrunch)
         == FirstPass(paragraphs, TechCrunch)
  {
    FilterIdempotent(paragraphs, NoTechCrunchPhrase);
  }

  /**
   * Every phrase of the second Verge list contains a generic noise phrase,
   * so a paragraph that passed the generic filter never mentions one.
   */
  lemma VergeSecondPhraseIsNoise(k: nat)
    requires k < |VergeSecondPhrases|
    ensures exists j :: 0 <= j < |NoisePhrases| && Contains(VergeSecondPhrases[k], NoisePhrases[j])
  {
    var x := VergeSecondPhrases[k];
    if k == 3 {
      assert x[0..6] == "follow" == NoisePhrases[15];
      assert OccursAt(x, NoisePhrases[15], 0);
    } else {
      var j := if k == 0 then 14 else if k == 1 then 2 else if k == 2 then 1
        else if k == 4 then 3 else if k == 5 then 0 else if k == 6 then 5 else 6;
      assert x == NoisePhrases[j];
      assert x[0..|x|] == x;
      assert OccursAt(x, NoisePhrases[j], 0);
    }
  }

  /** A paragraph without noise phrases has none of the second Verge phrases either. */
  lemma ArticleParagraphPassesVergeSecond(t: string)
    requires IsArticleParagraph(t)
    ensures NoVergeSecondPhrase(t)
  {
    if Mentions(t, VergeSecondPhrases) {
      var k :| 0 <= k < |VergeSecondPhrases| && Contains(Lower(t), VergeSecondPhrases[k]);
      VergeSecondPhraseIsNoise(k);
      var j :| 0 <= j < |NoisePhrases| && Contains(VergeSecondPhrases[k], NoisePhrases[j]);
      ContainsTrans(Lower(t), VergeSecondPhrases[k], NoisePhrases[j]);
      assert false;
    }
  }

  /**
   * The second publisher pass never removes a paragraph the generic filter
   * and the first pass kept, for either publisher: the article text is the
   * first ten paragraphs after the first pass.
   */
  lemma SecondPassKeepsAll(texts: seq<string>, netloc: string)
    ensures var kept := Filter(texts, IsArticleParagraph);
      var first := FirstPass(kept, PublisherOf(netloc));
      SecondPass(first, PublisherOf(netloc)) == first
      && ArticleText(kept, netloc) == JoinFirst(first)
  {
    var publisher := PublisherOf(netloc);
    var kept := Filter(texts, IsArticleParagraph);
    var first := FirstPass(kept, publisher);
    match publisher
    case TechCrunch =>
      TechCrunchSecondPassKeepsAll(kept);
    case TheVerge =>
      forall i | 0 <= i < |first|
        ensures NoVergeSecondPhrase(first[i])
      {
        assert first[i] in kept;
        ArticleParagraphPassesVergeSecond(first[i]);
      }
      FilterKeepsAll(first, NoVergeSecondPhrase);
    case OtherSite =>
  }
}
