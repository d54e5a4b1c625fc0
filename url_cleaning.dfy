/**
 * `clean_url` (resume_articles.py:42-72): unwraps Google redirect links,
 * drops tracking parameters from the query and collapses a doubled scheme.
 *
 * The URL handed to this module is already stripped and percent-decoded
 * (`unquote(url.strip())`); `urlparse` is modelled by `SplitUrl`, which cuts
 * the fragment at the first `#` and then the query at the first `?`;
 * `parse_qsl` is modelled by `ParseQsl` and `parse_qs` by `ParseQs`.
 */
module UrlCleaning {
  import opened Wrappers
  import opened Seqs
  import opened Strings

  /** One `name=value` pair read from a query. */
  datatype Param = Param(name: string, value: string)

  /** One entry of the dictionary built by `parse_qs`: a name and all its values. */
  datatype Field = Field(name: string, values: seq<string>)

  /** The parameter names removed from every query. */
  const Blocked: set<string> := {
    "utm_source", "utm_medium", "utm_campaign", "utm_term", "utm_content",
    "fbclid", "gclid", "mc_cid", "mc_eid", "ref", "sa", "source", "ust", "usg"
  }

  /**
   * What a pair read by `parse_qsl` always looks like: a non-blank value,
   * no `&` anywhere, no `=` in the name and no `+` left.
   */
  predicate WellFormed(p: Param) {
    p.value != "" && '&' !in p.name && '=' !in p.name && '+' !in p.name
    && '&' !in p.value && '+' !in p.value
  }

  /** Neither the name nor the value of `p` holds `c`. */
  predicate ParamAvoids(p: Param, c: char) {
    c !in p.name && c !in p.value
  }

  /**
   * One `&`-separated piece as `parse_qsl` reads it by default: a piece with
   * no `=` or with a blank value is dropped; otherwise it splits at the first
   * `=` and `+` becomes a space in the name and in the value.
   */
  function PieceParams(piece: string): (ps: seq<Param>)
    requires '&' !in piece
    ensures |ps| <= 1
    ensures forall i :: 0 <= i < |ps| ==> WellFormed(ps[i])
    ensures forall i, c :: 0 <= i < |ps| && c != ' ' && c !in piece ==> ParamAvoids(ps[i], c)
  {
    if '=' !in piece then []
    else
      var i := IndexOf(piece, '=');
      if i + 1 == |piece| then []
      else
        var name, value := PlusToSpace(piece[..i]), PlusToSpace(piece[i + 1..]);
        assert forall k :: 0 <= k < |name| ==> name[k] == piece[k] || name[k] == ' ';
        assert forall k :: 0 <= k < |value| ==> value[k] == piece[i + 1 + k] || value[k] == ' ';
        [Param(name, value)]
  }

  function PiecesParams(pieces: seq<string>): (ps: seq<Param>)
    requires forall i :: 0 <= i < |pieces| ==> '&' !in pieces[i]
    ensures forall i :: 0 <= i < |ps| ==> WellFormed(ps[i])
    ensures forall i, c :: 0 <= i < |ps| && c != ' ' && (forall j :: 0 <= j < |pieces| ==> c !in pieces[j]) ==> ParamAvoids(ps[i], c)
  {
    if pieces == [] then [] else PieceParams(pieces[0]) + PiecesParams(pieces[1..])
  }

  /**
   * `parse_qsl(query)`: the well-formed pairs of the query, in order; a
   * character other than a space that is not in the query is in no pair.
   */
  function ParseQsl(query: string): (ps: seq<Param>)
    ensures forall i :: 0 <= i < |ps| ==> WellFormed(ps[i])
    ensures forall i, c :: 0 <= i < |ps| && c != ' ' && c !in query ==> ParamAvoids(ps[i], c)
  {
    var pieces := Split(query, '&');
    assert forall c, j :: 0 <= j < |pieces| && c !in query ==> c !in pieces[j];
    PiecesParams(pieces)
  }

  function Names(ps: seq<Param>): (ns: seq<string>)
    ensures |ns| == |ps| && forall i :: 0 <= i < |ps| ==> ns[i] == ps[i].name
  {
    seq(|ps|, i requires 0 <= i < |ps| => ps[i].name)
  }

  /**
   * The values given to `name`, in order of appearance; when the name occurs
   * at all, the first of them is the value at its first occurrence.
   */
  function ValuesOf(ps: seq<Param>, name: string): (vs: seq<string>)
    ensures forall v :: v in vs ==> Param(name, v) in ps
    ensures name in Names(ps) ==> |vs| > 0 && vs[0] == ps[IndexOf(Names(ps), name)].value
  {
    if ps == [] then []
    else
      var rest := ValuesOf(ps[1..], name);
      assert Names(ps) == [ps[0].name] + Names(ps[1..]);
      assert forall p :: p in ps[1..] ==> p in ps;
      (if ps[0].name == name then [ps[0].value] else []) + rest
  }

  /**
   * `parse_qs`: a dictionary holding every name of the pairs exactly once,
   * in first-seen order, each with the value of its first occurrence first.
   */
  function ParseQs(ps: seq<Param>): (fields: seq<Field>)
    ensures |fields| == |Dedup(Names(ps))|
    ensures forall i :: 0 <= i < |fields| ==> fields[i].name == Dedup(Names(ps))[i]
    ensures forall i :: 0 <= i < |fields| ==>
      fields[i].name in Names(ps) && fields[i].values != []
      && fields[i].values[0] == ps[IndexOf(Names(ps), fields[i].name)].value
  {
    var keys := Dedup(Names(ps));
    seq(|keys|, i requires 0 <= i < |keys| => Field(keys[i], ValuesOf(ps, keys[i])))
  }

  /** The names of a list of dictionary entries, in order. */
  function FieldNames(fields: seq<Field>): (ns: seq<string>)
    ensures |ns| == |fields| && forall i :: 0 <= i < |fields| ==> ns[i] == fields[i].name
  {
    seq(|fields|, i requires 0 <= i < |fields| => fields[i].name)
  }

  /** The dictionary lookup `name in d` / `d[name]`. */
  function Lookup(fields: seq<Field>, name: string): (r: Option<seq<string>>)
    ensures r.Some? <==> name in FieldNames(fields)
    ensures r.Some? ==> r.value == fields[IndexOf(FieldNames(fields), name)].values
  {
    if fields == [] then None
    else
      assert FieldNames(fields) == [fields[0].name] + FieldNames(fields[1..]);
      if fields[0].name == name then Some(fields[0].values) else Lookup(fields[1..], name)
  }

  predicate NotBlocked(f: Field) {
    f.name !in Blocked
  }

  /** `{k: v for k, v in qs.items() if k not in blocked}` */
  function CleanedFields(fields: seq<Field>): seq<Field> {
    Filter(fields, NotBlocked)
  }

  /** Each entry reduced to its first value, `(k, v[0])`. */
  function FirstParams(fields: seq<Field>): (ps: seq<Param>)
    requires forall i :: 0 <= i < |fields| ==> fields[i].values != []
    ensures |ps| == |fields|
    ensures forall i :: 0 <= i < |ps| ==> ps[i] == Param(fields[i].name, fields[i].values[0])
  {
    seq(|fields|, i requires 0 <= i < |fields| => Param(fields[i].name, fields[i].values[0]))
  }

  function ParamText(p: Param): string {
    p.name + "=" + p.value
  }

  /** `"&".join(f"{k}={v}" ...)` */
  function RenderParams(ps: seq<Param>): string {
    Join(seq(|ps|, i requires 0 <= i < |ps| => ParamText(ps[i])), "&")
  }

  /** The query rebuilt by `clean_url` from the query of the URL it cleans. */
  function CleanQuery(query: string): string {
    var fields := CleanedFields(ParseQs(ParseQsl(query)));
    RenderParams(FirstParams(fields))
  }

  /**
   * The pairs the rebuilt query consists of: the dictionary entries that
   * survive the blocked-name filter, each with its first value.
   */
  function CleanParams(query: string): seq<Param> {
    FirstParams(CleanedFields(ParseQs(ParseQsl(query))))
  }

  /**
   * The rebuilt query holds no blocked name; every other name of the query
   * appears exactly once, with the value of its first occurrence, and the
   * names come in the order in which they were first seen.
   */
  lemma CleanParamsSpec(query: string)
    ensures var ps, r := ParseQsl(query), CleanParams(query);
      && (forall i :: 0 <= i < |r| ==> r[i].name !in Blocked)
      && Distinct(Names(r))
      && (forall i :: 0 <= i < |r| ==> r[i].name in Names(ps) && r[i].value == ps[IndexOf(Names(ps), r[i].name)].value)
      && (forall j :: 0 <= j < |ps| && ps[j].name !in Blocked ==> ps[j].name in Names(r))
      && (forall i, j :: 0 <= i < j < |r| ==> IndexOf(Names(ps), r[i].name) < IndexOf(Names(ps), r[j].name))
  {
    var ps := ParseQsl(query);
    CleanParamsValues(ps);
    CleanParamsDistinct(ps);
    CleanParamsComplete(ps);
    CleanParamsOrdered(ps);
  }

  lemma CleanParamsValues(ps: seq<Param>)
    ensures var r := FirstParams(CleanedFields(ParseQs(ps)));
      && (forall i :: 0 <= i < |r| ==> r[i].name !in Blocked)
      && (forall i :: 0 <= i < |r| ==> r[i].name in Names(ps) && r[i].value == ps[IndexOf(Names(ps), r[i].name)].value)
  {
    var fields := ParseQs(ps);
    var kept := CleanedFields(fields);
    var r := FirstParams(kept);
    forall i | 0 <= i < |r|
      ensures r[i].name !in Blocked
      ensures r[i].name in Names(ps) && r[i].value == ps[IndexOf(Names(ps), r[i].name)].value
    {
      assert NotBlocked(kept[i]) && kept[i] in fields;
      var m := IndexOf(fields, kept[i]);
      assert r[i] == Param(fields[m].name, fields[m].values[0]);
    }
  }

  lemma CleanParamsDistinct(ps: seq<Param>)
    ensures Distinct(Names(FirstParams(CleanedFields(ParseQs(ps)))))
  {
    var fields := ParseQs(ps);
    var kept := CleanedFields(fields);
    var r := FirstParams(kept);
    assert FieldNames(fields) == Dedup(Names(ps));
    FilterSubseq(fields, NotBlocked);
    forall i, j | 0 <= i < j < |r|
      ensures r[i].name != r[j].name
    {
      KeptNamesDiffer(fields, kept, i, j);
    }
  }

  lemma CleanParamsComplete(ps: seq<Param>)
    ensures var r := FirstParams(CleanedFields(ParseQs(ps)));
      forall j :: 0 <= j < |ps| && ps[j].name !in Blocked ==> ps[j].name in Names(r)
  {
    var fields := ParseQs(ps);
    var kept := CleanedFields(fields);
    var r := FirstParams(kept);
    var keys := Dedup(Names(ps));
    forall j | 0 <= j < |ps| && ps[j].name !in Blocked
      ensures ps[j].name in Names(r)
    {
      assert Names(ps)[j] in keys;
      var k := IndexOf(keys, ps[j].name);
      assert NotBlocked(fields[k]);
      var m := IndexOf(kept, fields[k]);
      assert r[m].name == ps[j].name;
      assert Names(r)[m] == ps[j].name;
    }
  }

  lemma CleanParamsOrdered(ps: seq<Param>)
    ensures var r := FirstParams(CleanedFields(ParseQs(ps)));
      forall i, j :: 0 <= i < j < |r| ==> IndexOf(Names(ps), r[i].name) < IndexOf(Names(ps), r[j].name)
  {
    var fields := ParseQs(ps);
    var kept := CleanedFields(fields);
    var r := FirstParams(kept);
    var keys := Dedup(Names(ps));
    DedupFirstSeenOrder(Names(ps));
    FilterSubseq(fields, NotBlocked);
    forall i, j | 0 <= i < j < |r|
      ensures IndexOf(Names(ps), r[i].name) < IndexOf(Names(ps), r[j].name)
    {
      var a, b := SubseqPositions(fields, kept, i, j);
      assert r[i].name == keys[a] && r[j].name == keys[b];
    }
  }

  /** Distinct kept entries of the deduplicated dictionary have distinct names. */
  lemma KeptNamesDiffer(fields: seq<Field>, kept: seq<Field>, i: nat, j: nat)
    requires Distinct(FieldNames(fields))
    requires SubseqOf(kept, fields)
    requires i < j < |kept|
    ensures kept[i].name != kept[j].name
  {
    var a, b := SubseqPositions(fields, kept, i, j);
    assert FieldNames(fields)[a] != FieldNames(fields)[b];
  }

  /** Two positions of a subsequence come from two increasing positions of the whole. */
  lemma {:induction false} SubseqPositions<T>(whole: seq<T>, part: seq<T>, i: nat, j: nat) returns (a: nat, b: nat)
    requires SubseqOf(part, whole)
    requires i < j < |part|
    ensures a < b < |whole| && part[i] == whole[a] && part[j] == whole[b]
    decreases |whole|
  {
    if SubseqOf(part, whole[1..]) {
      a, b := SubseqPositions(whole[1..], part, i, j);
      a, b := a + 1, b + 1;
    } else if i == 0 {
      b := SubseqPosition(whole[1..], part[1..], j - 1);
      a, b := 0, b + 1;
    } else {
      a, b := SubseqPositions(whole[1..], part[1..], i - 1, j - 1);
      a, b := a + 1, b + 1;
    }
  }

  lemma {:induction false} SubseqPosition<T>(whole: seq<T>, part: seq<T>, i: nat) returns (a: nat)
    requires SubseqOf(part, whole)
    requires i < |part|
    ensures a < |whole| && part[i] == whole[a]
    decreases |whole|
  {
    if SubseqOf(part, whole[1..]) {
      a := SubseqPosition(whole[1..], part, i);
      a := a + 1;
    } else if i == 0 {
      a := 0;
    } else {
      a := SubseqPosition(whole[1..], part[1..], i - 1);
      a := a + 1;
    }
  }

  /** Reading back a rendered list of well-formed pairs gives the list back. */
  lemma {:induction false} ParseRenderParams(ps: seq<Param>)
    requires forall i :: 0 <= i < |ps| ==> WellFormed(ps[i])
    ensures ParseQsl(RenderParams(ps)) == ps
  {
    var texts := seq(|ps|, i requires 0 <= i < |ps| => ParamText(ps[i]));
    if ps == [] {
      assert Split("", '&') == [""];
    } else {
      forall i | 0 <= i < |texts|
        ensures '&' !in texts[i]
      {
        assert texts[i] == ps[i].name + "=" + ps[i].value;
      }
      SplitJoin(texts, '&');
      PiecesOfTexts(ps);
    }
  }

  lemma {:induction false} PiecesOfTexts(ps: seq<Param>)
    requires forall i :: 0 <= i < |ps| ==> WellFormed(ps[i])
    ensures var texts := seq(|ps|, i requires 0 <= i < |ps| => ParamText(ps[i]));
      && (forall i :: 0 <= i < |texts| ==> '&' !in texts[i])
      && PiecesParams(texts) == ps
  {
    var texts := seq(|ps|, i requires 0 <= i < |ps| => ParamText(ps[i]));
    forall i | 0 <= i < |texts|
      ensures '&' !in texts[i]
    {
      assert texts[i] == ps[i].name + "=" + ps[i].value;
    }
    if ps != [] {
      PiecesOfTexts(ps[1..]);
      assert texts[1..] == seq(|ps| - 1, i requires 0 <= i < |ps| - 1 => ParamText(ps[1..][i]));
      PieceOfText(ps[0]);
      assert ps == [ps[0]] + ps[1..];
    }
  }

  lemma PieceOfText(p: Param)
    requires WellFormed(p)
    ensures '&' !in ParamText(p) && PieceParams(ParamText(p)) == [p]
  {
    var t := ParamText(p);
    assert t == p.name + "=" + p.value;
    assert t[..|p.name|] == p.name;
    IndexOfUnique(t, '=', |p.name|);
    assert t[|p.name| + 1..] == p.value;
  }

  /** A query without `c` (other than `=`, `&` or a space) rebuilds into a query without `c`. */
  lemma CleanQueryAvoids(query: string, c: char)
    requires c !in query && c != ' ' && c != '=' && c != '&'
    ensures c !in CleanQuery(query)
  {
    var ps := ParseQsl(query);
    var r := CleanParams(query);
    var kept := CleanedFields(ParseQs(ps));
    forall i | 0 <= i < |r|
      ensures ParamAvoids(r[i], c)
    {
      assert kept[i] in ParseQs(ps);
      var j := IndexOf(Names(ps), r[i].name);
      assert ParamAvoids(ps[j], c);
    }
    var texts := seq(|r|, i requires 0 <= i < |r| => ParamText(r[i]));
    forall i | 0 <= i < |texts|
      ensures c !in texts[i]
    {
      assert texts[i] == r[i].name + "=" + r[i].value;
    }
    JoinAvoids(texts, "&", c);
  }

  lemma {:induction false} JoinAvoids(parts: seq<string>, sep: string, c: char)
    requires c !in sep && forall i :: 0 <= i < |parts| ==> c !in parts[i]
    ensures c !in Join(parts, sep)
  {
    if |parts| > 1 {
      JoinAvoids(parts[1..], sep, c);
    }
  }

  /** The names in a list of pairs that have distinct names each carry only their own value. */
  lemma {:induction false} ValuesOfDistinct(ps: seq<Param>, i: nat)
    requires Distinct(Names(ps)) && i < |ps|
    ensures ValuesOf(ps, ps[i].name) == [ps[i].value]
  {
    assert Names(ps[1..]) == Names(ps)[1..];
    if i == 0 {
      ValuesAbsent(ps[1..], ps[0].name);
    } else {
      ValuesOfDistinct(ps[1..], i - 1);
    }
  }

  lemma {:induction false} ValuesAbsent(ps: seq<Param>, name: string)
    requires name !in Names(ps)
    ensures ValuesOf(ps, name) == []
  {
    if ps != [] {
      assert Names(ps[1..]) == Names(ps)[1..];
      ValuesAbsent(ps[1..], name);
    }
  }

  /**
   * Cleaning a query twice gives what cleaning it once gives: the rebuilt
   * query has no blocked name and no repeated name left to drop.
   */
  lemma CleanQueryIdempotent(query: string)
    ensures CleanQuery(CleanQuery(query)) == CleanQuery(query)
  {
    var r := CleanParams(query);
    CleanParamsSpec(query);
    CleanParamsWellFormed(query);
    ParseRenderParams(r);
    CleanOfClean(r);
  }

  /** Every pair of the rebuilt query is one that `parse_qsl` could have read. */
  lemma CleanParamsWellFormed(query: string)
    ensures forall i :: 0 <= i < |CleanParams(query)| ==> WellFormed(CleanParams(query)[i])
  {
    var ps := ParseQsl(query);
    var r := CleanParams(query);
    CleanParamsValues(ps);
    forall i | 0 <= i < |r|
      ensures WellFormed(r[i])
    {
      var j := IndexOf(Names(ps), r[i].name);
      assert WellFormed(ps[j]);
    }
  }

  /** Pairs with distinct, unblocked names come through the dictionary and the filter unchanged. */
  lemma CleanOfClean(r: seq<Param>)
    requires Distinct(Names(r))
    requires forall i :: 0 <= i < |r| ==> r[i].name !in Blocked
    ensures FirstParams(CleanedFields(ParseQs(r))) == r
  {
    DedupOfDistinct(Names(r));
    var fields := ParseQs(r);
    forall i | 0 <= i < |fields|
      ensures fields[i] == Field(r[i].name, [r[i].value])
    {
      ValuesOfDistinct(r, i);
    }
    FilterKeepsAll(fields, NotBlocked);
  }

  /** The three parts of a URL that `clean_url` tells apart. */
  datatype UrlParts = UrlParts(base: string, query: string, fragment: string)

  /** The text before the first `c` and the text after it; without a `c`, all of `s` and nothing. */
  function Cut(s: string, c: char): (r: (string, string))
    ensures c !in r.0
    ensures if c in s then s == r.0 + [c] + r.1 else r == (s, "")
  {
    if c in s then (s[..IndexOf(s, c)], s[IndexOf(s, c) + 1..]) else (s, "")
  }

  /** `x` followed by `c` and `y`, the separator written only before a non-empty `y`. */
  function Attach(x: string, c: char, y: string): string {
    if y != "" then x + [c] + y else x
  }

  /** Cutting at the first `c` undoes attaching after a text free of `c`. */
  lemma CutAttach(x: string, c: char, y: string)
    requires c !in x
    ensures Cut(Attach(x, c, y), c) == (x, y)
  {
    if y != "" {
      var s := x + [c] + y;
      assert s[..|x|] == x;
      assert s[|x|] == c;
      IndexOfUnique(s, c, |x|);
      assert s[|x| + 1..] == y;
    }
  }

  /**
   * `urlparse`, as far as the query goes: the fragment follows the first
   * `#`, the query follows the first `?` before it, and the rest is the base.
   */
  function SplitUrl(url: string): (parts: UrlParts)
    ensures '#' !in parts.base && '?' !in parts.base && '#' !in parts.query
  {
    var rest := Cut(url, '#');
    var head := Cut(rest.0, '?');
    UrlParts(head.0, head.1, rest.1)
  }

  /** `urlunparse`: `?` and `#` are written only before a non-empty query or fragment. */
  function UrlUnsplit(parts: UrlParts): string {
    Attach(Attach(parts.base, '?', parts.query), '#', parts.fragment)
  }

  /** Splitting a URL rebuilt from parts that `SplitUrl` could produce gives those parts back. */
  lemma SplitUnsplit(parts: UrlParts)
    requires '#' !in parts.base && '?' !in parts.base && '#' !in parts.query
    ensures SplitUrl(UrlUnsplit(parts)) == parts
  {
    var head := Attach(parts.base, '?', parts.query);
    assert '#' !in head;
    CutAttach(head, '#', parts.fragment);
    CutAttach(parts.base, '?', parts.query);
  }

  /** `params["q"][0]` of a Google redirect link that carries a non-blank `q`. */
  function RedirectTarget(url: string): Option<string> {
    if !Contains(url, "google.com/url") then None
    else
      match Lookup(ParseQs(ParseQsl(SplitUrl(url).query)), "q")
      case Some(vs) => if vs != [] then Some(vs[0]) else None
      case None => None
  }

  /**
   * The redirect target is the value of the first non-blank `q` pair of a
   * link that mentions `google.com/url`, and there is none otherwise.
   */
  lemma RedirectTargetIsFirstQ(url: string)
    ensures var ps := ParseQsl(SplitUrl(url).query);
      && (RedirectTarget(url).Some? <==> Contains(url, "google.com/url") && "q" in Names(ps))
      && (RedirectTarget(url).Some? ==> RedirectTarget(url).value == ps[IndexOf(Names(ps), "q")].value)
  {
    LookupParseQs(ParseQsl(SplitUrl(url).query), "q");
  }

  /** Looking a name up in the dictionary built by `parse_qs` finds its first value first. */
  lemma LookupParseQs(ps: seq<Param>, name: string)
    ensures var r := Lookup(ParseQs(ps), name);
      && (r.Some? <==> name in Names(ps))
      && (r.Some? ==> r.value != [] && r.value[0] == ps[IndexOf(Names(ps), name)].value)
  {
    var fields := ParseQs(ps);
    var keys := Dedup(Names(ps));
    assert FieldNames(fields) == keys;
    if name in Names(ps) {
      var k := IndexOf(Names(ps), name);
      assert Names(ps)[k] in keys;
      var m := IndexOf(keys, name);
      assert fields[m].name == name;
    } else {
      assert name !in keys;
    }
  }

  const SchemeMarker := "://"
  const Https := "https://"
  const HttpHttps := "http://https://"
  const HttpsHttps := "https://https://"

  /**
   * The doubled-scheme repair: when the URL starts with `https://https://`
   * or `http://https://`, every occurrence of `http://https://` and then
   * every occurrence of `https://https://` becomes `https://`.
   */
  function FixDoubleScheme(u: string): string {
    if StartsWith(u, HttpsHttps) || StartsWith(u, HttpHttps) then
      ReplaceAll(ReplaceAll(u, HttpHttps, Https), HttpsHttps, Https)
    else u
  }

  /** One mismatching character rules an occurrence out. */
  lemma NotOccursAt(s: string, sub: string, i: nat, k: nat)
    requires k < |sub| && i + k < |s| && s[i + k] != sub[k]
    ensures !OccursAt(s, sub, i)
  {
    if i + |sub| <= |s| {
      assert s[i..i + |sub|][k] == s[i + k];
    }
  }

  /** A marker occurrence that starts at or after the prefix lies inside the rest. */
  lemma MarkerInRest(prefix: string, rest: string, k: nat)
    requires |prefix| <= k && k + 3 <= |prefix| + |rest|
    requires (prefix + rest)[k..k + 3] == SchemeMarker
    ensures Contains(rest, SchemeMarker)
  {
    var i := k - |prefix|;
    assert rest[i..i + 3] == (prefix + rest)[k..k + 3];
    assert OccursAt(rest, SchemeMarker, i);
  }

  /** A pattern with a `://` at offset `m` cannot occur where that marker would fall in the rest. */
  lemma NoLateOccurrence(prefix: string, rest: string, pat: string, m: nat, i: nat)
    requires !Contains(rest, SchemeMarker)
    requires m + 3 <= |pat| && pat[m..m + 3] == SchemeMarker
    requires |prefix| <= i + m
    ensures !OccursAt(prefix + rest, pat, i)
  {
    if OccursAt(prefix + rest, pat, i) {
      var s := prefix + rest;
      assert s[i + m..i + m + 3] == s[i..i + |pat|][m..m + 3];
      MarkerInRest(prefix, rest, i + m);
    }
  }

  lemma NoMarkerNoPattern(rest: string, pat: string, m: nat)
    requires !Contains(rest, SchemeMarker)
    requires m + 3 <= |pat| && pat[m..m + 3] == SchemeMarker
    ensures !Contains(rest, pat)
  {
    assert OccursAt(pat, SchemeMarker, m);
    if Contains(rest, pat) {
      ContainsTrans(rest, pat, SchemeMarker);
    }
  }

  /**
   * A doubled scheme in front of a rest holding no further `://` collapses
   * to a single `https://`.
   */
  lemma FixDoubleSchemeCollapses(scheme: string, rest: string)
    requires scheme == "http://" || scheme == Https
    requires !Contains(rest, SchemeMarker)
    ensures FixDoubleScheme(scheme + Https + rest) == Https + rest
  {
    var u := scheme + Https + rest;
    NoMarkerNoPattern(rest, HttpHttps, 12);
    NoMarkerNoPattern(rest, HttpsHttps, 13);
    // After the first replacement the URL is `https://` followed by the rest.
    forall i | 0 <= i
      ensures !OccursAt(Https + rest, HttpsHttps, i)
    {
      NoLateOccurrence(Https, rest, HttpsHttps, 13, i);
    }
    if scheme == "http://" {
      assert u == HttpHttps + rest;
      assert StartsWith(u, HttpHttps);
      ReplaceAllLeading(HttpHttps, rest, Https);
    } else {
      assert u == HttpsHttps + rest;
      assert StartsWith(u, HttpsHttps);
      forall i | 0 <= i
        ensures !OccursAt(u, HttpHttps, i)
      {
        if i == 0 {
          NotOccursAt(u, HttpHttps, 0, 4);
        } else if i < 4 {
          NotOccursAt(u, HttpHttps, i, 0);
        } else {
          NoLateOccurrence(HttpsHttps, rest, HttpHttps, 12, i);
        }
      }
      assert !Contains(u, HttpHttps);
    }
    ReplaceAllLeading(HttpsHttps, rest, Https);
  }

  /**
   * `clean_url` on a stripped, percent-decoded URL: unwrap a redirect link,
   * rebuild the query without tracking parameters, repair a doubled scheme.
   */
  function CleanUrl(url: string): string {
    var target := RedirectTarget(url).GetOr(url);
    var parts := SplitUrl(target);
    FixDoubleScheme(UrlUnsplit(UrlParts(parts.base, CleanQuery(parts.query), parts.fragment)))
  }

  /**
   * Unless the doubled-scheme repair applies, the cleaned URL keeps the base
   * and fragment of the (unwrapped) URL and its query is exactly the rebuilt
   * query: no blocked name, every other name once with its first value.
   */
  lemma CleanUrlQuery(url: string)
    requires var target := RedirectTarget(url).GetOr(url);
      var parts := SplitUrl(target);
      var rebuilt := UrlUnsplit(UrlParts(parts.base, CleanQuery(parts.query), parts.fragment));
      !StartsWith(rebuilt, HttpsHttps) && !StartsWith(rebuilt, HttpHttps)
    ensures var target := RedirectTarget(url).GetOr(url);
      var parts := SplitUrl(target);
      && SplitUrl(CleanUrl(url)) == UrlParts(parts.base, CleanQuery(parts.query), parts.fragment)
      && ParseQsl(SplitUrl(CleanUrl(url)).query) == CleanParams(parts.query)
  {
    var target := RedirectTarget(url).GetOr(url);
    var parts := SplitUrl(target);
    CleanQueryAvoids(parts.query, '#');
    SplitUnsplit(UrlParts(parts.base, CleanQuery(parts.query), parts.fragment));
    var r := CleanParams(parts.query);
    var ps := ParseQsl(parts.query);
    CleanParamsSpec(parts.query);
    forall i | 0 <= i < |r|
      ensures WellFormed(r[i])
    {
      var j := IndexOf(Names(ps), r[i].name);
      assert WellFormed(ps[j]);
    }
    ParseRenderParams(r);
  }
}
