/**
 * The result aggregator of the bot: a SauceNAO search response is filtered
 * by a similarity threshold and the surviving candidates are folded, in
 * order, into one composite `Sauce` and a list of attribution links.
 *
 * HTML escaping (`StyleFixer.Default.FixToHTML`) comes from a library whose
 * code is not part of this model; it is the parameter `fix`.
 */
module SauceAggregation {
  import opened Wrappers
  import opened Text

  // ---------------------------------------------------------------------
  // The search response, as the JSON client hands it over.
  // ---------------------------------------------------------------------

  /** The `creator` field is an untyped JSON value: a string or something else (a list of names). */
  datatype Creator = TextCreator(name: string) | OtherCreator

  /** The optional attribution fields of one candidate; None is a JSON null or a missing key. */
  datatype ResultData = ResultData(
    title: Option<string>,
    source: Option<string>,
    characters: Option<string>,
    material: Option<string>,
    part: Option<string>,
    creator: Option<Creator>,
    year: Option<string>,
    estTime: Option<string>,
    extUrls: Option<seq<string>>)

  /** One candidate, its similarity already parsed from the header text. */
  datatype SearchResult = SearchResult(similarity: real, data: ResultData)

  /** The header status and (possibly null) message, and the (possibly absent) candidate list in API order. */
  datatype SearchResponse = SearchResponse(status: int, message: Option<string>, results: Option<seq<SearchResult>>)

  /** What the search client throws on a malformed response. */
  datatype SearchResponseException = SearchResponseException(message: string, hasInnerException: bool)

  // ---------------------------------------------------------------------
  // The aggregate.
  // ---------------------------------------------------------------------

  datatype SauceStatus = Found | NotFound | Error | BadRequest

  /** The composite record; each field is an HTML line, or null. */
  datatype Sauce = Sauce(
    title: Option<string>,
    characters: Option<string>,
    material: Option<string>,
    part: Option<string>,
    author: Option<string>,  // the `By` property
    year: Option<string>,
    estTime: Option<string>)

  const EmptySauce := Sauce(None, None, None, None, None, None, None)

  /** An attribution link with the similarity of the candidate it came from. */
  datatype SauceUrl = SauceUrl(url: string, similarity: real)

  datatype SauceBowl = SauceBowl(
    status: SauceStatus,
    message: Option<string>,
    sauce: Option<Sauce>,
    urls: Option<seq<SauceUrl>>,
    similarity: Option<real>)

  /** The threshold the bot uses when the caller gives none. */
  const DefaultSimilarity: real := 55.0

  /** `StyleFixer.Default.FixToHTML`. */
  type HtmlFixer = string -> string

  /** The status discipline of a bowl: sauce and links exist exactly when something was found, and then no message. */
  predicate Consistent(b: SauceBowl)
  {
    && (b.sauce.Some? <==> b.status == Found)
    && (b.urls.Some? <==> b.status == Found)
    && (b.status == Found ==> b.message.None?)
  }

  // ---------------------------------------------------------------------
  // The threshold filter.
  // ---------------------------------------------------------------------

  /** `results.Where(r => r.similarity > threshold)`. */
  function Kept(results: seq<SearchResult>, threshold: real): (kept: seq<SearchResult>)
    ensures |kept| <= |results|
    ensures forall r :: r in kept <==> r in results && r.similarity > threshold
  {
    if results == [] then []
    else (if results[0].similarity > threshold then [results[0]] else []) + Kept(results[1..], threshold)
  }

  /** The filter keeps the input order: it distributes over concatenation. */
  lemma {:induction false} KeptConcat(a: seq<SearchResult>, b: seq<SearchResult>, threshold: real)
    ensures Kept(a + b, threshold) == Kept(a, threshold) + Kept(b, threshold)
  {
    if a == [] {
      assert a + b == b;
    } else {
      assert (a + b)[0] == a[0];
      assert (a + b)[1..] == a[1..] + b;
      KeptConcat(a[1..], b, threshold);
    }
  }

  // ---------------------------------------------------------------------
  // The composite sauce: first candidate with a field wins it.
  // ---------------------------------------------------------------------

  datatype Field = Title | Characters | Material | Part | By | Year | EstTime

  function Get(s: Sauce, f: Field): Option<string>
  {
    match f
    case Title => s.title
    case Characters => s.characters
    case Material => s.material
    case Part => s.part
    case By => s.author
    case Year => s.year
    case EstTime => s.estTime
  }

  function TitleLine(text: string): string
  {
    "<b>" + text + "</b>\n\n"
  }

  /** A labelled line; `{0}` is filled with the localised label when the reply is rendered. */
  function LabelLine(text: string): string
  {
    "<b>{0}:</b> " + text + "\n"
  }

  /** The title a candidate offers: its own title, or else its source unless that starts with "http". */
  function TitleOffer(d: ResultData, fix: HtmlFixer): (o: Option<string>)
    ensures o.Some? <==> d.title.Some? || (d.source.Some? && !StartsWithHttp(d.source.value))
    ensures d.title.Some? ==> o == Some(TitleLine(fix(d.title.value)))
    ensures d.title.None? && o.Some? ==> o == Some(TitleLine(fix(d.source.value)))
  {
    if d.title.Some? then Some(TitleLine(fix(d.title.value)))
    else if d.source.Some? && !StartsWithHttp(d.source.value) then Some(TitleLine(fix(d.source.value)))
    else None
  }

  /** A labelled, HTML-escaped line for a non-empty field. */
  function EscapedOffer(field: Option<string>, fix: HtmlFixer): Option<string>
  {
    if IsNullOrEmpty(field) then None else Some(LabelLine(fix(field.value)))
  }

  /** The creator line: only a non-empty text creator offers one. */
  function CreatorOffer(creator: Option<Creator>, fix: HtmlFixer): Option<string>
  {
    if creator.Some? && creator.value.TextCreator? && creator.value.name != ""
    then Some(LabelLine(fix(creator.value.name)))
    else None
  }

  /** A labelled line for a non-empty field, copied without escaping. */
  function VerbatimOffer(field: Option<string>): Option<string>
  {
    if IsNullOrEmpty(field) then None else Some(LabelLine(field.value))
  }

  /** What candidate `d` would write into field `f` of an empty composite. */
  function Offer(f: Field, d: ResultData, fix: HtmlFixer): Option<string>
  {
    match f
    case Title => TitleOffer(d, fix)
    case Characters => EscapedOffer(d.characters, fix)
    case Material => EscapedOffer(d.material, fix)
    case Part => EscapedOffer(d.part, fix)
    case By => CreatorOffer(d.creator, fix)
    case Year => VerbatimOffer(d.year)
    case EstTime => VerbatimOffer(d.estTime)
  }

  /** Every offer is a non-empty line, so a field once written counts as set. */
  lemma OfferNotEmpty(d: ResultData, fix: HtmlFixer)
    ensures forall f :: Offer(f, d, fix).Some? ==> Offer(f, d, fix).value != ""
  {
  }

  /** A field is written only while it is still null or empty. */
  function Keep(current: Option<string>, offer: Option<string>): Option<string>
  {
    if IsNullOrEmpty(current) && offer.Some? then offer else current
  }

  /** One pass of the loop body over one candidate: every field keeps its value unless it is empty and `d` offers one. */
  function Merge(acc: Sauce, d: ResultData, fix: HtmlFixer): (r: Sauce)
    ensures forall f :: Get(r, f) == Keep(Get(acc, f), Offer(f, d, fix))
  {
    Sauce(
      Keep(acc.title, TitleOffer(d, fix)),
      Keep(acc.characters, EscapedOffer(d.characters, fix)),
      Keep(acc.material, EscapedOffer(d.material, fix)),
      Keep(acc.part, EscapedOffer(d.part, fix)),
      Keep(acc.author, CreatorOffer(d.creator, fix)),
      Keep(acc.year, VerbatimOffer(d.year)),
      Keep(acc.estTime, VerbatimOffer(d.estTime)))
  }

  /**
   * The left fold of Merge over the kept candidates, starting from an empty
   * sauce. No field ever holds an empty line, so `string.IsNullOrEmpty` of a
   * field is exactly "not set yet".
   */
  function FoldSauce(rs: seq<SearchResult>, fix: HtmlFixer): (s: Sauce)
    ensures forall f :: Get(s, f).Some? ==> Get(s, f).value != ""
  {
    if rs == [] then EmptySauce
    else
      OfferNotEmpty(rs[|rs| - 1].data, fix);
      Merge(FoldSauce(rs[..|rs| - 1], fix), rs[|rs| - 1].data, fix)
  }

  /** Reference definition: the offer of the first candidate that makes one. */
  function FirstOffer(rs: seq<SearchResult>, f: Field, fix: HtmlFixer): (o: Option<string>)
    ensures o.None? <==> forall i :: 0 <= i < |rs| ==> Offer(f, rs[i].data, fix).None?
    ensures o.Some? ==> exists i :: 0 <= i < |rs| && Offer(f, rs[i].data, fix) == o
                          && forall j :: 0 <= j < i ==> Offer(f, rs[j].data, fix).None?
  {
    if rs == [] then None
    else if Offer(f, rs[0].data, fix).Some? then Offer(f, rs[0].data, fix)
    else
      var o := FirstOffer(rs[1..], f, fix);
      assert forall i :: 1 <= i < |rs| ==> rs[i] == rs[1..][i - 1];
      if o.Some? then
        var i :| 0 <= i < |rs| - 1 && Offer(f, rs[1..][i].data, fix) == o
                 && forall j :: 0 <= j < i ==> Offer(f, rs[1..][j].data, fix).None?;
        assert Offer(f, rs[i + 1].data, fix) == o;
        assert forall j :: 0 <= j < i + 1 ==> Offer(f, rs[j].data, fix).None?;
        o
      else o
  }

  lemma {:induction false} FirstOfferSnoc(rs: seq<SearchResult>, x: SearchResult, f: Field, fix: HtmlFixer)
    ensures FirstOffer(rs + [x], f, fix)
         == if FirstOffer(rs, f, fix).Some? then FirstOffer(rs, f, fix) else Offer(f, x.data, fix)
  {
    if rs != [] {
      assert (rs + [x])[1..] == rs[1..] + [x];
      FirstOfferSnoc(rs[1..], x, f, fix);
    }
  }

  /** The fold gives field `f` the value of the first candidate that offers one. */
  lemma {:induction false} FoldIsFirstOffer(rs: seq<SearchResult>, f: Field, fix: HtmlFixer)
    ensures Get(FoldSauce(rs, fix), f) == FirstOffer(rs, f, fix)
  {
    if rs != [] {
      var p, x := rs[..|rs| - 1], rs[|rs| - 1];
      assert rs == p + [x];
      FoldIsFirstOffer(p, f, fix);
      FirstOfferSnoc(p, x, f, fix);
    }
  }

  lemma {:induction false} FirstOfferPrefix(rs: seq<SearchResult>, k: nat, f: Field, fix: HtmlFixer)
    requires k <= |rs|
    requires FirstOffer(rs[..k], f, fix).Some?
    ensures FirstOffer(rs, f, fix) == FirstOffer(rs[..k], f, fix)
  {
    assert rs[..k][0] == rs[0];
    if Offer(f, rs[0].data, fix).None? {
      assert rs[..k][1..] == rs[1..][..k - 1];
      FirstOfferPrefix(rs[1..], k - 1, f, fix);
    }
  }

  /** Once a field is set by a prefix of the candidates, the rest never change it. */
  lemma SetFieldsStay(rs: seq<SearchResult>, k: nat, f: Field, fix: HtmlFixer)
    requires k <= |rs|
    requires Get(FoldSauce(rs[..k], fix), f).Some?
    ensures Get(FoldSauce(rs, fix), f) == Get(FoldSauce(rs[..k], fix), f)
  {
    FoldIsFirstOffer(rs, f, fix);
    FoldIsFirstOffer(rs[..k], f, fix);
    FirstOfferPrefix(rs, k, f, fix);
  }

  /** `title` is the title line made from `d`'s own title, or from its source when that is no link. */
  predicate TitleFrom(title: string, d: ResultData, fix: HtmlFixer)
  {
    || (d.title.Some? && title == TitleLine(fix(d.title.value)))
    || (d.title.None? && d.source.Some? && !StartsWithHttp(d.source.value)
        && title == TitleLine(fix(d.source.value)))
  }

  /** An "http" source never becomes a title: the composite title is an explicit title or a non-link source. */
  lemma TitleOrigin(rs: seq<SearchResult>, fix: HtmlFixer)
    requires FoldSauce(rs, fix).title.Some?
    ensures exists i :: 0 <= i < |rs| && TitleFrom(FoldSauce(rs, fix).title.value, rs[i].data, fix)
  {
    FoldIsFirstOffer(rs, Title, fix);
  }

  /** Year and EstTime are copied verbatim: the HTML fixer has no influence on them. */
  lemma {:induction false} VerbatimFieldsIgnoreFixer(rs: seq<SearchResult>, fix1: HtmlFixer, fix2: HtmlFixer)
    ensures FoldSauce(rs, fix1).year == FoldSauce(rs, fix2).year
    ensures FoldSauce(rs, fix1).estTime == FoldSauce(rs, fix2).estTime
  {
    if rs != [] {
      VerbatimFieldsIgnoreFixer(rs[..|rs| - 1], fix1, fix2);
    }
  }

  // ---------------------------------------------------------------------
  // The attribution links.
  // ---------------------------------------------------------------------

  /** `Urls.AddRange(urls, sim)`: each link tagged with the similarity, in order. */
  function Tagged(urls: seq<string>, sim: real): (r: seq<SauceUrl>)
    ensures |r| == |urls|
    ensures forall i :: 0 <= i < |r| ==> r[i].url == urls[i] && r[i].similarity == sim
  {
    seq(|urls|, i requires 0 <= i < |urls| => SauceUrl(urls[i], sim))
  }

  /** The links one candidate adds: its ext-urls, then its source when it starts with "http". */
  function Contribution(r: SearchResult): (c: seq<SauceUrl>)
    ensures |c| == ContributionSize(r)
  {
    (if r.data.extUrls.Some? then Tagged(r.data.extUrls.value, r.similarity) else [])
    + (if r.data.source.Some? && StartsWithHttp(r.data.source.value)
       then [SauceUrl(r.data.source.value, r.similarity)] else [])
  }

  /** Each link a candidate adds is one of its ext-urls or its "http" source, with its similarity. */
  lemma ContributionLinks(r: SearchResult)
    ensures forall k :: 0 <= k < |Contribution(r)| ==> LinkFrom(Contribution(r)[k], r)
  {
    var e := if r.data.extUrls.Some? then Tagged(r.data.extUrls.value, r.similarity) else [];
    assert forall k :: 0 <= k < |e| ==> r.data.extUrls.value[k] in r.data.extUrls.value;
  }

  /** How many links a candidate contributes, counted from its fields. */
  function ContributionSize(r: SearchResult): nat
  {
    (if r.data.extUrls.Some? then |r.data.extUrls.value| else 0)
    + (if r.data.source.Some? && StartsWithHttp(r.data.source.value) then 1 else 0)
  }

  function TotalContribution(rs: seq<SearchResult>): nat
  {
    if rs == [] then 0 else TotalContribution(rs[..|rs| - 1]) + ContributionSize(rs[|rs| - 1])
  }

  /** The links of all candidates, in candidate order; their number is the sum of the candidates' contributions. */
  function UrlsOf(rs: seq<SearchResult>): (urls: seq<SauceUrl>)
    ensures |urls| == TotalContribution(rs)
  {
    if rs == [] then [] else UrlsOf(rs[..|rs| - 1]) + Contribution(rs[|rs| - 1])
  }

  /** Candidate order is kept: the links of a + b are those of a, then those of b. */
  lemma {:induction false} UrlsOfConcat(a: seq<SearchResult>, b: seq<SearchResult>)
    ensures UrlsOf(a + b) == UrlsOf(a) + UrlsOf(b)
  {
    if b == [] {
      assert a + b == a;
    } else {
      var b', y := b[..|b| - 1], b[|b| - 1];
      assert b == b' + [y];
      assert a + b == (a + b') + [y];
      calc {
        UrlsOf(a + b);
      == { UrlsOfSnoc(a + b', y); }
        UrlsOf(a + b') + Contribution(y);
      == { UrlsOfConcat(a, b'); }
        (UrlsOf(a) + UrlsOf(b')) + Contribution(y);
      ==
        UrlsOf(a) + (UrlsOf(b') + Contribution(y));
      == { UrlsOfSnoc(b', y); }
        UrlsOf(a) + UrlsOf(b);
      }
    }
  }

  lemma UrlsOfSnoc(rs: seq<SearchResult>, y: SearchResult)
    ensures UrlsOf(rs + [y]) == UrlsOf(rs) + Contribution(y)
  {
    assert (rs + [y])[..|rs|] == rs;
  }

  /** `u` is one of `r`'s ext-urls or its "http" source, tagged with `r`'s similarity. */
  predicate LinkFrom(u: SauceUrl, r: SearchResult)
  {
    && u.similarity == r.similarity
    && ((r.data.extUrls.Some? && u.url in r.data.extUrls.value)
        || (r.data.source == Some(u.url) && StartsWithHttp(u.url)))
  }

  /** Every link comes from one candidate, from its ext-urls or its "http" source, carrying its similarity. */
  lemma {:induction false} UrlOrigin(rs: seq<SearchResult>, k: nat)
    requires k < |UrlsOf(rs)|
    ensures exists i :: 0 <= i < |rs| && LinkFrom(UrlsOf(rs)[k], rs[i])
  {
    var p, x := rs[..|rs| - 1], rs[|rs| - 1];
    if k < |UrlsOf(p)| {
      UrlOrigin(p, k);
      var i :| 0 <= i < |p| && LinkFrom(UrlsOf(p)[k], p[i]);
      assert p[i] == rs[i];
    } else {
      var c := Contribution(x);
      assert UrlsOf(rs)[k] == c[k - |UrlsOf(p)|];
      ContributionLinks(x);
      assert LinkFrom(c[k - |UrlsOf(p)|], rs[|rs| - 1]);
    }
  }

  // ---------------------------------------------------------------------
  // The constructors.
  // ---------------------------------------------------------------------

  /**
   * The first half of the foreach body for one kept candidate `r`: its
   * ext-urls are appended, the title is filled if still empty, and an "http"
   * source is appended as a link.
   */
  method AbsorbTitleAndLinks(title: Option<string>, urls: seq<SauceUrl>, r: SearchResult, fix: HtmlFixer)
    returns (title': Option<string>, urls': seq<SauceUrl>)
    ensures title' == Keep(title, TitleOffer(r.data, fix))
    ensures urls' == urls + Contribution(r)
  {
    title', urls' := title, urls;
    var data := r.data;
    var resultSimilarity := r.similarity;
    if data.extUrls.Some? {
      urls' := urls' + Tagged(data.extUrls.value, resultSimilarity);
    }
    if IsNullOrEmpty(title') {
      if data.title.Some? {
        title' := Some(TitleLine(fix(data.title.value)));
      } else if data.source.Some? {
        if !StartsWithHttp(data.source.value) {
          title' := Some(TitleLine(fix(data.source.value)));
        }
      }
    }
    if data.source.Some? {
      if StartsWithHttp(data.source.value) {
        urls' := urls' + [SauceUrl(data.source.value, resultSimilarity)];
      }
    }
  }

  /**
   * The second half of the foreach body: each detail field of `sauce` is
   * filled from `data` when `data` has it and the field is still empty.
   */
  method AbsorbDetails(sauce: Sauce, data: ResultData, fix: HtmlFixer) returns (sauce': Sauce)
    ensures sauce' == Merge(sauce, data, fix).(title := sauce.title)
  {
    var characters, material, part := sauce.characters, sauce.material, sauce.part;
    var author, year, estTime := sauce.author, sauce.year, sauce.estTime;
    if !IsNullOrEmpty(data.characters) && IsNullOrEmpty(characters) {
      characters := Some(LabelLine(fix(data.characters.value)));
    }
    if !IsNullOrEmpty(data.material) && IsNullOrEmpty(material) {
      material := Some(LabelLine(fix(data.material.value)));
    }
    if !IsNullOrEmpty(data.part) && IsNullOrEmpty(part) {
      part := Some(LabelLine(fix(data.part.value)));
    }
    if data.creator.Some? && IsNullOrEmpty(author) {
      if data.creator.value.TextCreator? {
        if data.creator.value.name != "" {
          author := Some(LabelLine(fix(data.creator.value.name)));
        }
      }
    }
    if !IsNullOrEmpty(data.year) && IsNullOrEmpty(year) {
      year := Some(LabelLine(data.year.value));
    }
    if !IsNullOrEmpty(data.estTime) && IsNullOrEmpty(estTime) {
      estTime := Some(LabelLine(data.estTime.value));
    }
    sauce' := Sauce(sauce.title, characters, material, part, author, year, estTime);
  }

  /** The foreach loop of the response constructor: folds the kept candidates into a sauce and its links. */
  method Gather(kept: seq<SearchResult>, fix: HtmlFixer) returns (sauce: Sauce, urls: seq<SauceUrl>)
    ensures sauce == FoldSauce(kept, fix)
    ensures urls == UrlsOf(kept)
  {
    sauce := EmptySauce;
    urls := [];
    var i := 0;
    while i < |kept|
      invariant 0 <= i <= |kept|
      invariant sauce == FoldSauce(kept[..i], fix)
      invariant urls == UrlsOf(kept[..i])
    {
      var title;
      title, urls := AbsorbTitleAndLinks(sauce.title, urls, kept[i], fix);
      sauce := AbsorbDetails(sauce.(title := title), kept[i].data, fix);
      assert kept[..i + 1][..i] == kept[..i];
      i := i + 1;
    }
    assert kept[..i] == kept;
  }

  /** `new SauceBowl(response, similarity)`. */
  method FromResponse(response: SearchResponse, similarity: real, fix: HtmlFixer) returns (bowl: SauceBowl)
    ensures Consistent(bowl)
    ensures bowl.similarity == Some(similarity)
    ensures response.status != 0 || response.results.None? ==>
              bowl.status == Error && bowl.message == response.message
    ensures response.status == 0 && response.results.Some? ==>
              var kept := Kept(response.results.value, similarity);
              && (kept == [] ==> bowl.status == NotFound && bowl.message == Some(""))
              && (kept != [] ==> bowl.status == Found
                                 && bowl.sauce == Some(FoldSauce(kept, fix))
                                 && bowl.urls == Some(UrlsOf(kept)))
  {
    if response.status == 0 && response.results.Some? {
      var results := Kept(response.results.value, similarity);
      if results != [] {
        var sauce, urls := Gather(results, fix);
        bowl := SauceBowl(Found, None, Some(sauce), Some(urls), Some(similarity));
      } else {
        bowl := SauceBowl(NotFound, Some(""), None, None, Some(similarity));
      }
    } else {
      bowl := SauceBowl(Error, response.message, None, None, Some(similarity));
    }
  }

  /** `new SauceBowl(responseException)`: an exception with a cause is an Error, one without is a BadRequest. */
  function FromException(e: SearchResponseException): (bowl: SauceBowl)
    ensures Consistent(bowl)
    ensures bowl.status == BadRequest <==> !e.hasInnerException
    ensures bowl.status == Error <==> e.hasInnerException
    ensures bowl.message == Some(e.message) && bowl.similarity.None?
  {
    SauceBowl(if e.hasInnerException then Error else BadRequest, Some(e.message), None, None, None)
  }

  // ---------------------------------------------------------------------
  // Worked cases of the aggregation rules.
  // ---------------------------------------------------------------------

  /** A link-like source is skipped as a title, yet kept as a link; the later explicit title wins. */
  lemma HttpSourceSkippedForTitle(fix: HtmlFixer, s1: real, s2: real)
    ensures
      var none := ResultData(None, None, None, None, None, None, None, None, None);
      var rs := [SearchResult(s1, none.(source := Some("http://x"))),
                 SearchResult(s2, none.(title := Some("Real Title")))];
      && FoldSauce(rs, fix).title == Some(TitleLine(fix("Real Title")))
      && UrlsOf(rs) == [SauceUrl("http://x", s1)]
  {
    var none := ResultData(None, None, None, None, None, None, None, None, None);
    var rs := [SearchResult(s1, none.(source := Some("http://x"))),
               SearchResult(s2, none.(title := Some("Real Title")))];
    assert StartsWithHttp("http://x");
    assert rs[..1] == [rs[0]];
    assert rs[..1][..0] == [];
    assert FoldSauce(rs[..1], fix) == Merge(EmptySauce, rs[0].data, fix);
    assert FoldSauce(rs[..1], fix).title == None;
    assert UrlsOf(rs[..1]) == [SauceUrl("http://x", s1)];
  }

  /** Under the default threshold of 55, a candidate at exactly 55 is dropped and one above it kept. */
  lemma DefaultThresholdIsStrict(d: ResultData)
    ensures Kept([SearchResult(DefaultSimilarity, d)], DefaultSimilarity) == []
    ensures Kept([SearchResult(55.5, d)], DefaultSimilarity) == [SearchResult(55.5, d)]
  {
    assert [SearchResult(DefaultSimilarity, d)][1..] == [];
    assert [SearchResult(55.5, d)][1..] == [];
  }

  /** A non-text creator does not fill By, so a later text creator can. */
  lemma NonTextCreatorLeavesByOpen(fix: HtmlFixer, s1: real, s2: real)
    ensures
      var none := ResultData(None, None, None, None, None, None, None, None, None);
      var rs := [SearchResult(s1, none.(creator := Some(OtherCreator))),
                 SearchResult(s2, none.(creator := Some(TextCreator("Artist"))))];
      FoldSauce(rs, fix).author == Some(LabelLine(fix("Artist")))
  {
    var none := ResultData(None, None, None, None, None, None, None, None, None);
    var rs := [SearchResult(s1, none.(creator := Some(OtherCreator))),
               SearchResult(s2, none.(creator := Some(TextCreator("Artist"))))];
    assert rs[..1] == [rs[0]];
    assert rs[..1][..0] == [];
    assert FoldSauce(rs[..1], fix) == Merge(EmptySauce, rs[0].data, fix);
    assert FoldSauce(rs[..1], fix).author == None;
  }
}
