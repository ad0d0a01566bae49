/**
 * The inline-query handler of the bot: a user types `@bot words` and gets
 * back, ten at a time, the searches they made before, newest first,
 * optionally filtered by the words.
 *
 * The Telegram and database calls are left out. What the handler takes from
 * code outside this model is passed in as `Collaborators`: the title stored
 * in a search's JSON, the caption text of a search, the case-insensitive
 * containment test and the localised "no history" text.
 */
module InlineHandler {
  import opened Wrappers
  import opened Text

  // ---------------------------------------------------------------------
  // History entries and inline results.
  // ---------------------------------------------------------------------

  /** The media kinds of a stored search; `Unhandled` is any kind the handler's switch has no case for. */
  datatype MediaType = Animation | Document | Photo | Sticker | Video | Unhandled(name: string)

  /** The `Type` text of a stored search, shown as a result's description. */
  function TypeName(t: MediaType): (s: string)
    ensures t.Unhandled? ==> s == t.name
    ensures !t.Unhandled? ==> |s| >= 5 && 'A' <= s[0] <= 'Z'
  {
    match t
    case Animation => "Animation"
    case Document => "Document"
    case Photo => "Photo"
    case Sticker => "Sticker"
    case Video => "Video"
    case Unhandled(name) => name
  }

  /** A search the bot answered: `info` holds the JSON of its sauce, `fileId` the Telegram file. */
  datatype SuccessfulSauce = SuccessfulSauce(info: string, mediaType: MediaType, fileId: string)

  /** One row of a user's history, with its owner and timestamp. */
  datatype UserSauce = UserSauce(userId: int, date: int, sauce: SuccessfulSauce)

  /** A result's `Id`: the running counter, or the placeholder of the "no history" article. */
  datatype ResultId = Ordinal(n: int) | Placeholder

  /** The `Id` text sent to Telegram: `offset.ToString()`, or "None". */
  function IdText(id: ResultId): (s: string)
    ensures s == NoneId <==> id.Placeholder?
    ensures id.Ordinal? ==> s != [] && IsDigit(s[|s| - 1])
  {
    match id
    case Ordinal(n) => IntToString(n)
    case Placeholder => NoneId
  }

  /** Different ids have different texts, and a counter's text reads back as the counter. */
  lemma IdTextDecodes(a: ResultId, b: ResultId)
    ensures a.Ordinal? ==> ParseInteger(IdText(a)) == Some(a.n)
    ensures IdText(a) == IdText(b) ==> a == b
  {
    assert ParseInteger(NoneId) == None by {
      assert NoneId[0] == 'N';
    }
    if a.Ordinal? {
      ParseIntegerOfIntToString(a.n);
    }
    if b.Ordinal? {
      ParseIntegerOfIntToString(b.n);
    }
  }

  /** Which `InlineQueryResult` class a result is. */
  datatype ResultKind = CachedGif | CachedDocument | CachedPhoto | CachedSticker | CachedVideo | Article

  /**
   * An inline result with the fields the handler sets; `text` is the
   * caption, or for a sticker or an article the text of the message sent.
   */
  datatype InlineResult = InlineResult(
    kind: ResultKind,
    id: ResultId,
    fileId: Option<string>,
    title: Option<string>,
    description: Option<string>,
    text: string)

  /** Where the next page starts, if the client should ask for one. */
  datatype NextOffset = NoMore | ResumeAt(n: int)

  /** The `NextOffset` text sent to Telegram: `string.Empty`, or `offset.ToString()`. */
  function OffsetText(o: NextOffset): (s: string)
    ensures s == "" <==> o.NoMore?
    ensures o.ResumeAt? && o.n >= 0 ==> AllDigits(s)
  {
    match o
    case NoMore => ""
    case ResumeAt(n) => IntToString(n)
  }

  /** The answer to an inline query: the results and the offset of the next page. */
  datatype Answer = Answer(results: seq<InlineResult>, nextOffset: NextOffset)

  /** `int.Parse` threw on the incoming offset. */
  datatype InlineError = InvalidOffset

  datatype Collaborators = Collaborators(
    infoTitle: string -> Option<string>,     // JsonSerializer.Deserialize<Sauce>(info)?.Title
    sauceText: SuccessfulSauce -> string,    // sauce.GetInfo(language)
    contains: (string, string) -> bool,      // Contains(term, InvariantCultureIgnoreCase)
    historyNone: string)                     // MSG.HistoryNone(language)

  const PageSize: nat := 10
  const NoneId: string := "None"
  const Noname: string := "Noname"

  // ---------------------------------------------------------------------
  // The user's history, newest first.
  // ---------------------------------------------------------------------

  /** `UserSauces.Where(h => h.UserId == userId)`: every entry of the user, as often as it occurs, and no other. */
  function OwnedBy(us: seq<UserSauce>, userId: int): (r: seq<UserSauce>)
    ensures |r| <= |us|
    ensures forall u :: u in r <==> u in us && u.userId == userId
    ensures forall u :: multiset(r)[u] == if u.userId == userId then multiset(us)[u] else 0
  {
    if us == [] then []
    else
      assert us == [us[0]] + us[1..];
      (if us[0].userId == userId then [us[0]] else []) + OwnedBy(us[1..], userId)
  }

  /** The user filter keeps the input order: it distributes over concatenation. */
  lemma {:induction false} OwnedByConcat(a: seq<UserSauce>, b: seq<UserSauce>, userId: int)
    ensures OwnedBy(a + b, userId) == OwnedBy(a, userId) + OwnedBy(b, userId)
  {
    if a == [] {
      assert a + b == b;
    } else {
      assert (a + b)[0] == a[0];
      assert (a + b)[1..] == a[1..] + b;
      OwnedByConcat(a[1..], b, userId);
    }
  }

  predicate NewestFirst(s: seq<UserSauce>)
  {
    forall i, j :: 0 <= i < j < |s| ==> s[i].date >= s[j].date
  }

  /** Puts `x` before the first entry that is not newer, keeping equal dates in input order. */
  function InsertByDate(x: UserSauce, s: seq<UserSauce>): (r: seq<UserSauce>)
    requires NewestFirst(s)
    ensures NewestFirst(r)
    ensures multiset(r) == multiset(s) + multiset{x}
    ensures |r| == |s| + 1 && (r[0] == x || (s != [] && r[0] == s[0]))
  {
    if s == [] || x.date >= s[0].date then [x] + s
    else
      assert s == [s[0]] + s[1..];
      [s[0]] + InsertByDate(x, s[1..])
  }

  /** `OrderByDescending(h => h.Date)`: a stable sort, newest first. */
  function OrderByDateDescending(s: seq<UserSauce>): (r: seq<UserSauce>)
    ensures NewestFirst(r)
    ensures multiset(r) == multiset(s)
  {
    if s == [] then []
    else
      assert s == [s[0]] + s[1..];
      InsertByDate(s[0], OrderByDateDescending(s[1..]))
  }

  /** `.Select(s => s.Sauce)`. */
  function Sauces(s: seq<UserSauce>): (r: seq<SuccessfulSauce>)
    ensures |r| == |s| && forall i :: 0 <= i < |s| ==> r[i] == s[i].sauce
  {
    seq(|s|, i requires 0 <= i < |s| => s[i].sauce)
  }

  /** The searches of `userId`, newest first: one per entry of the user. */
  function History(us: seq<UserSauce>, userId: int): (h: seq<SuccessfulSauce>)
    ensures |h| == |OwnedBy(us, userId)|
  {
    var own := OwnedBy(us, userId);
    var sorted := OrderByDateDescending(own);
    assert |sorted| == |multiset(sorted)| == |multiset(own)| == |own|;
    Sauces(sorted)
  }

  /** The history holds exactly the user's own searches, and nobody else's: each of them appears, and only they do. */
  lemma HistoryIsOwn(us: seq<UserSauce>, userId: int)
    ensures forall i :: 0 <= i < |History(us, userId)| ==>
              exists u :: u in us && u.userId == userId && u.sauce == History(us, userId)[i]
    ensures forall u :: u in us && u.userId == userId ==> u.sauce in History(us, userId)
  {
    var own := OwnedBy(us, userId);
    var sorted := OrderByDateDescending(own);
    assert History(us, userId) == Sauces(sorted);
    SearchesOfEntries(own, sorted, us, userId);
  }

  /** A rearrangement of the user's entries holds the searches of exactly those entries. */
  lemma SearchesOfEntries(own: seq<UserSauce>, sorted: seq<UserSauce>, us: seq<UserSauce>, userId: int)
    requires multiset(sorted) == multiset(own)
    requires forall u :: u in own <==> u in us && u.userId == userId
    ensures forall i :: 0 <= i < |Sauces(sorted)| ==>
              exists u :: u in us && u.userId == userId && u.sauce == Sauces(sorted)[i]
    ensures forall u :: u in us && u.userId == userId ==> u.sauce in Sauces(sorted)
  {
    var h := Sauces(sorted);
    forall i | 0 <= i < |sorted|
      ensures exists u :: u in us && u.userId == userId && u.sauce == h[i]
    {
      assert sorted[i] in multiset(sorted);
      assert sorted[i] in own;
    }
    forall u | u in us && u.userId == userId
      ensures u.sauce in h
    {
      assert u in multiset(sorted);
      var i :| 0 <= i < |sorted| && sorted[i] == u;
      assert h[i] == u.sauce;
    }
  }

  /**
   * The history lists, newest first, the searches of a rearrangement of the
   * user's own entries that holds each of them exactly as often as the table does.
   */
  lemma HistoryIsRearrangement(us: seq<UserSauce>, userId: int)
    ensures exists entries: seq<UserSauce> ::
              && NewestFirst(entries)
              && Sauces(entries) == History(us, userId)
              && forall u :: multiset(entries)[u] == if u.userId == userId then multiset(us)[u] else 0
  {
    var own := OwnedBy(us, userId);
    var sorted := OrderByDateDescending(own);
    assert NewestFirst(sorted) && Sauces(sorted) == History(us, userId);
    assert forall u :: multiset(sorted)[u] == multiset(own)[u];
  }

  // ---------------------------------------------------------------------
  // Filtering and paging.
  // ---------------------------------------------------------------------

  /** LINQ `Skip(n)`: a count of zero or less skips nothing. */
  function Skip<T>(s: seq<T>, n: int): seq<T>
  {
    if n <= 0 then s else if n >= |s| then [] else s[n..]
  }

  /** LINQ `Take(n)`: a count of zero or less takes nothing. */
  function Take<T>(s: seq<T>, n: int): seq<T>
  {
    if n <= 0 then [] else if n >= |s| then s else s[..n]
  }

  /** `Skip(n)` leaves the suffix after the first n elements, all of them when n <= 0 and none past the end. */
  lemma SkipIsSuffix<T>(s: seq<T>, n: int)
    ensures |Skip(s, n)| == if n <= 0 then |s| else if n >= |s| then 0 else |s| - n
    ensures forall k :: 0 <= k < |Skip(s, n)| ==> Skip(s, n)[k] == s[|s| - |Skip(s, n)| + k]
  {
  }

  /** `Take(n)` keeps the prefix of the first n elements, none when n <= 0 and all of them past the end. */
  lemma TakeIsPrefix<T>(s: seq<T>, n: int)
    ensures |Take(s, n)| == if n <= 0 then 0 else if n >= |s| then |s| else n
    ensures forall k :: 0 <= k < |Take(s, n)| ==> Take(s, n)[k] == s[k]
  {
  }

  /** `args.Any(a => info.Contains(a, ...))`: some term of the query occurs in the search's info. */
  predicate MatchesAny(info: string, terms: seq<string>, contains: (string, string) -> bool): (b: bool)
    ensures terms == [] ==> !b
  {
    terms != [] && (contains(info, terms[0]) || MatchesAny(info, terms[1..], contains))
  }

  /** `MatchesAny` holds exactly when some term is contained in the info. */
  lemma {:induction false} MatchesAnyMeans(info: string, terms: seq<string>, contains: (string, string) -> bool)
    ensures MatchesAny(info, terms, contains) <==> exists k :: 0 <= k < |terms| && contains(info, terms[k])
  {
    if terms != [] {
      MatchesAnyMeans(info, terms[1..], contains);
      if MatchesAny(info, terms[1..], contains) {
        var k :| 0 <= k < |terms[1..]| && contains(info, terms[1..][k]);
        assert contains(info, terms[k + 1]);
      }
      if exists k :: 0 <= k < |terms| && contains(info, terms[k]) {
        var k :| 0 <= k < |terms| && contains(info, terms[k]);
        if k > 0 {
          assert contains(info, terms[1..][k - 1]);
        }
      }
    }
  }

  /** `Where(s => args.Any(a => s.Info.Contains(a, ...)))`. */
  function Matching(h: seq<SuccessfulSauce>, terms: seq<string>, contains: (string, string) -> bool)
    : (r: seq<SuccessfulSauce>)
    ensures |r| <= |h|
    ensures forall s :: s in r <==> s in h && MatchesAny(s.info, terms, contains)
  {
    if h == [] then []
    else (if MatchesAny(h[0].info, terms, contains) then [h[0]] else []) + Matching(h[1..], terms, contains)
  }

  /** The query filter keeps every matching search as often as the history holds it, and drops the rest. */
  lemma {:induction false} MatchingCounts(h: seq<SuccessfulSauce>, terms: seq<string>, contains: (string, string) -> bool)
    ensures forall s :: multiset(Matching(h, terms, contains))[s]
                     == if MatchesAny(s.info, terms, contains) then multiset(h)[s] else 0
  {
    if h != [] {
      assert h == [h[0]] + h[1..];
      MatchingCounts(h[1..], terms, contains);
    }
  }

  /** The query filter keeps the history's order: it distributes over concatenation. */
  lemma {:induction false} MatchingConcat(a: seq<SuccessfulSauce>, b: seq<SuccessfulSauce>, terms: seq<string>,
                                          contains: (string, string) -> bool)
    ensures Matching(a + b, terms, contains) == Matching(a, terms, contains) + Matching(b, terms, contains)
  {
    if a == [] {
      assert a + b == b;
    } else {
      assert (a + b)[0] == a[0];
      assert (a + b)[1..] == a[1..] + b;
      MatchingConcat(a[1..], b, terms, contains);
    }
  }

  /** A filter every search passes keeps the whole history. */
  lemma {:induction false} MatchingEverything(h: seq<SuccessfulSauce>, terms: seq<string>, contains: (string, string) -> bool)
    requires forall s :: s in h ==> MatchesAny(s.info, terms, contains)
    ensures Matching(h, terms, contains) == h
  {
    if h != [] {
      assert h[0] in h;
      assert forall s :: s in h[1..] ==> s in h;
      MatchingEverything(h[1..], terms, contains);
      assert h == [h[0]] + h[1..];
    }
  }

  /** The history as the query sees it: all of it for an empty query, else the entries matching a space-separated term. */
  function Candidates(h: seq<SuccessfulSauce>, query: Option<string>, contains: (string, string) -> bool)
    : (c: seq<SuccessfulSauce>)
    ensures |c| <= |h|
    ensures IsNullOrEmpty(query) ==> c == h
    ensures !IsNullOrEmpty(query) ==>
              forall s :: s in c <==> s in h && MatchesAny(s.info, Split(query.value, ' '), contains)
  {
    if IsNullOrEmpty(query) then h else Matching(h, Split(query.value, ' '), contains)
  }

  /** The searches one answer shows: skip `offset`, take ten. */
  function Page(h: seq<SuccessfulSauce>, query: Option<string>, offset: int, contains: (string, string) -> bool)
    : (page: seq<SuccessfulSauce>)
    ensures |page| <= PageSize
    ensures var c := Candidates(h, query, contains);
            var lo := if offset <= 0 then 0 else if offset >= |c| then |c| else offset;
            var hi := if lo + PageSize <= |c| then lo + PageSize else |c|;
            page == c[lo..hi]
  {
    Take(Skip(Candidates(h, query, contains), offset), PageSize)
  }

  /** Two consecutive full pages are the next twenty candidates: paging neither skips nor repeats. */
  lemma PagesTile(h: seq<SuccessfulSauce>, query: Option<string>, offset: int, contains: (string, string) -> bool)
    requires offset >= 0
    requires |Page(h, query, offset, contains)| == PageSize
    ensures Page(h, query, offset, contains) + Page(h, query, offset + PageSize, contains)
         == Take(Skip(Candidates(h, query, contains), offset), 2 * PageSize)
  {
    var c := Candidates(h, query, contains);
    assert Page(h, query, offset, contains) == Take(Skip(c, offset), PageSize);
    assert Page(h, query, offset + PageSize, contains) == Take(Skip(c, offset + PageSize), PageSize);
    TakeSkipTile(c, offset, PageSize);
  }

  /** Taking n after skipping `offset`, then n after `offset + n`, is taking 2n after `offset`. */
  lemma TakeSkipTile<T>(c: seq<T>, offset: nat, n: nat)
    requires |Take(Skip(c, offset), n)| == n
    ensures Take(Skip(c, offset), n) + Take(Skip(c, offset + n), n) == Take(Skip(c, offset), 2 * n)
  {
    if n > 0 {
      var hi := if offset + 2 * n <= |c| then offset + 2 * n else |c|;
      assert offset + n <= |c|;
      assert Skip(c, offset) == c[offset..];
      assert Take(Skip(c, offset), n) == c[offset..offset + n];
      assert Skip(c, offset + n) == c[offset + n..];
      assert Take(Skip(c, offset + n), n) == c[offset + n..hi];
      assert Take(Skip(c, offset), 2 * n) == c[offset..hi];
    }
  }

  // ---------------------------------------------------------------------
  // One result per processed search.
  // ---------------------------------------------------------------------

  /** "Noname", unless the search's info is non-empty and yields a non-empty title. */
  function ResultTitle(s: SuccessfulSauce, env: Collaborators): (title: string)
    ensures title != ""
    ensures title != Noname ==> s.info != "" && env.infoTitle(s.info) == Some(title)
    ensures s.info != "" && env.infoTitle(s.info).Some? && env.infoTitle(s.info).value != "" ==>
              title == env.infoTitle(s.info).value
  {
    if s.info != "" && env.infoTitle(s.info).Some? && env.infoTitle(s.info).value != ""
    then env.infoTitle(s.info).value
    else Noname
  }

  /** The result class the switch picks for a handled media kind. */
  function KindOf(t: MediaType): (k: ResultKind)
    requires !t.Unhandled?
    ensures k != Article
  {
    match t
    case Animation => CachedGif
    case Document => CachedDocument
    case Photo => CachedPhoto
    case Sticker => CachedSticker
    case Video => CachedVideo
  }

  /** The handled media kinds have distinct `Type` texts and distinct result classes. */
  lemma HandledKindsDistinct(a: MediaType, b: MediaType)
    requires !a.Unhandled? && !b.Unhandled?
    ensures TypeName(a) == TypeName(b) ==> a == b
    ensures KindOf(a) == KindOf(b) ==> a == b
  {
  }

  /**
   * The result built for search `s` under `id`: nothing for a media kind the
   * switch does not handle; a sticker carries neither title nor description,
   * an animation no description.
   */
  function ResultFor(s: SuccessfulSauce, id: ResultId, env: Collaborators): (r: seq<InlineResult>)
    ensures |r| == (if s.mediaType.Unhandled? then 0 else 1)
  {
    var t := s.mediaType;
    if t.Unhandled? then []
    else
      var title := if t.Sticker? then None else Some(ResultTitle(s, env));
      var description := if t.Sticker? || t.Animation? then None else Some(TypeName(t));
      [InlineResult(KindOf(t), id, Some(s.fileId), title, description, env.sauceText(s))]
  }

  /** The results for `sauces` when the counter starts at `offset`: the k-th search has Id offset + k + 1. */
  function Emitted(sauces: seq<SuccessfulSauce>, offset: int, env: Collaborators): (r: seq<InlineResult>)
    ensures |r| <= |sauces|
  {
    if sauces == [] then []
    else Emitted(sauces[..|sauces| - 1], offset, env)
         + ResultFor(sauces[|sauces| - 1], Ordinal(offset + |sauces|), env)
  }

  /** The counter values of the searches that produce a result. */
  function Numbers(sauces: seq<SuccessfulSauce>, offset: int): (ns: seq<int>)
    ensures |ns| <= |sauces|
    ensures forall k :: 0 <= k < |ns| ==> offset < ns[k] <= offset + |sauces|
    ensures forall i, j :: 0 <= i < j < |ns| ==> ns[i] < ns[j]
    ensures (forall k :: 0 <= k < |sauces| ==> !sauces[k].mediaType.Unhandled?) ==>
              |ns| == |sauces| && forall k :: 0 <= k < |ns| ==> ns[k] == offset + k + 1
  {
    if sauces == [] then []
    else
      var p := sauces[..|sauces| - 1];
      assert forall k :: 0 <= k < |p| ==> p[k] == sauces[k];
      Numbers(p, offset)
      + (if sauces[|sauces| - 1].mediaType.Unhandled? then [] else [offset + |sauces|])
  }

  /** Result Ids are the counter values of their searches. */
  lemma {:induction false} EmittedIds(sauces: seq<SuccessfulSauce>, offset: int, env: Collaborators)
    ensures |Emitted(sauces, offset, env)| == |Numbers(sauces, offset)|
    ensures forall k :: 0 <= k < |Numbers(sauces, offset)| ==>
              Emitted(sauces, offset, env)[k].id == Ordinal(Numbers(sauces, offset)[k])
  {
    if sauces != [] {
      var p := sauces[..|sauces| - 1];
      var last := sauces[|sauces| - 1];
      EmittedIds(p, offset, env);
      var e, ns := Emitted(p, offset, env), Numbers(p, offset);
      var r := ResultFor(last, Ordinal(offset + |sauces|), env);
      assert Emitted(sauces, offset, env) == e + r;
      assert Numbers(sauces, offset) == ns + (if last.mediaType.Unhandled? then [] else [offset + |sauces|]);
    }
  }

  /**
   * Each result's Id text reads back as its search's counter value, so the
   * Ids are strictly increasing (consecutive when every kind is handled) and
   * never the "None" placeholder's.
   */
  lemma EmittedIdsDecode(sauces: seq<SuccessfulSauce>, offset: int, env: Collaborators)
    ensures forall k :: 0 <= k < |Emitted(sauces, offset, env)| ==>
              && k < |Numbers(sauces, offset)|
              && ParseInteger(IdText(Emitted(sauces, offset, env)[k].id)) == Some(Numbers(sauces, offset)[k])
              && IdText(Emitted(sauces, offset, env)[k].id) != NoneId
  {
    EmittedIds(sauces, offset, env);
    var e, ns := Emitted(sauces, offset, env), Numbers(sauces, offset);
    forall k | 0 <= k < |e|
      ensures ParseInteger(IdText(e[k].id)) == Some(ns[k]) && IdText(e[k].id) != NoneId
    {
      IdTextDecodes(e[k].id, Placeholder);
    }
  }

  lemma EmittedStep(sauces: seq<SuccessfulSauce>, i: nat, offset: int, env: Collaborators)
    requires i < |sauces|
    ensures Emitted(sauces[..i + 1], offset, env)
         == Emitted(sauces[..i], offset, env) + ResultFor(sauces[i], Ordinal(offset + i + 1), env)
  {
    assert sauces[..i + 1][..i] == sauces[..i];
  }

  /** The "no history" article: the placeholder Id "None", its text as title and message, no file or description. */
  function NoneArticle(text: string): (a: InlineResult)
    ensures a.kind == Article && IdText(a.id) == NoneId
    ensures a.title == Some(text) && a.text == text && a.fileId.None? && a.description.None?
  {
    InlineResult(Article, Placeholder, None, Some(text), None, text)
  }

  /** `string.IsNullOrEmpty(offset) ? 0 : int.Parse(offset)`; None is the exception. */
  function ParseOffset(offsetText: Option<string>): (r: Option<int>)
    ensures IsNullOrEmpty(offsetText) ==> r == Some(0)
    ensures r.Some? ==> InInt32(r.value)
    ensures r.None? ==> offsetText.Some? && offsetText.value != ""
  {
    if IsNullOrEmpty(offsetText) then Some(0) else ParseInt32(offsetText.value)
  }

  /**
   * The next offset an answer hands out is read back as the same number by
   * the query that asks for the next page; no offset reads back as the start.
   */
  lemma NextOffsetResumes(o: NextOffset)
    requires o.ResumeAt? ==> InInt32(o.n)
    ensures ParseOffset(Some(OffsetText(o))) == Some(if o.ResumeAt? then o.n else 0)
  {
    if o.ResumeAt? {
      ParseInt32OfIntToString(o.n);
    }
  }

  // ---------------------------------------------------------------------
  // The handler.
  // ---------------------------------------------------------------------

  /** The local `AddUserSauces`: counts each search, then adds its result under the new count. */
  method AddUserSauces(sauces: seq<SuccessfulSauce>, offset: int, results: seq<InlineResult>, env: Collaborators)
    returns (offset': int, results': seq<InlineResult>)
    ensures offset' == offset + |sauces|
    ensures results' == results + Emitted(sauces, offset, env)
  {
    offset', results' := offset, results;
    var i := 0;
    assert sauces[..0] == [];
    assert results' == results + Emitted(sauces[..0], offset, env);
    while i < |sauces|
      invariant 0 <= i <= |sauces|
      invariant offset' == offset + i
      invariant results' == results + Emitted(sauces[..i], offset, env)
    {
      var sauce := sauces[i];
      var title := ResultTitle(sauce, env);
      var description := TypeName(sauce.mediaType);
      var sauceText := env.sauceText(sauce);
      offset' := offset' + 1;
      ghost var step := ResultFor(sauce, Ordinal(offset'), env);
      EmittedStep(sauces, i, offset, env);
      var added: seq<InlineResult> := [];
      match sauce.mediaType {
        case Animation =>
          added := [InlineResult(CachedGif, Ordinal(offset'), Some(sauce.fileId), Some(title), None, sauceText)];
          assert added == step;
        case Document =>
          added := [InlineResult(CachedDocument, Ordinal(offset'), Some(sauce.fileId), Some(title), Some(description), sauceText)];
          assert added == step;
        case Photo =>
          added := [InlineResult(CachedPhoto, Ordinal(offset'), Some(sauce.fileId), Some(title), Some(description), sauceText)];
          assert added == step;
        case Sticker =>
          added := [InlineResult(CachedSticker, Ordinal(offset'), Some(sauce.fileId), None, None, sauceText)];
          assert added == step;
        case Video =>
          added := [InlineResult(CachedVideo, Ordinal(offset'), Some(sauce.fileId), Some(title), Some(description), sauceText)];
          assert added == step;
        case Unhandled(_) =>
          assert added == step;
      }
      ghost var e := Emitted(sauces[..i], offset, env);
      assert results' + added == results + (e + step);
      results' := results' + added;
      assert results' == results + Emitted(sauces[..i + 1], offset, env);
      i := i + 1;
    }
    assert sauces[..i] == sauces;
  }

  /**
   * The answer to a query at `offset` over the history `h`: the results for
   * one page, or the "no history" article when there are none, and the
   * offset of the next page when the results fill a page.
   */
  function Expected(h: seq<SuccessfulSauce>, query: Option<string>, offset: int, env: Collaborators): (a: Answer)
    ensures 1 <= |a.results| <= PageSize
    ensures a.nextOffset.ResumeAt? ==> a.nextOffset.n == offset + PageSize
  {
    var page := Page(h, query, offset, env.contains);
    var emitted := Emitted(page, offset, env);
    var results := if emitted == [] then [NoneArticle(env.historyNone)] else emitted;
    Answer(results, if |results| < PageSize then NoMore else ResumeAt(offset + |page|))
  }

  /**
   * An answer holds one to ten results; the "no history" article exactly when
   * the page produced nothing; and a next offset exactly when ten results were
   * produced, which is then the offset just past a full page.
   */
  lemma ExpectedShape(h: seq<SuccessfulSauce>, query: Option<string>, offset: int, env: Collaborators)
    ensures var a := Expected(h, query, offset, env);
            var page := Page(h, query, offset, env.contains);
            var emitted := Emitted(page, offset, env);
            && 1 <= |a.results| <= PageSize
            && (emitted == [] <==> a.results == [NoneArticle(env.historyNone)])
            && (emitted != [] ==> a.results == emitted)
            && (a.nextOffset.ResumeAt? <==> |emitted| == PageSize)
            && (a.nextOffset.ResumeAt? ==> |page| == PageSize && a.nextOffset == ResumeAt(offset + PageSize))
  {
    var page := Page(h, query, offset, env.contains);
    var emitted := Emitted(page, offset, env);
    EmittedIds(page, offset, env);
    if emitted != [] {
      assert emitted[0].id != Placeholder;
      assert emitted != [NoneArticle(env.historyNone)];
    }
  }

  /**
   * Following a next offset: it parses back as the offset just past the full
   * page, and that page and the one the follow-up query gets are the next
   * twenty candidates, with no search skipped or repeated.
   */
  lemma NextPageFollows(h: seq<SuccessfulSauce>, query: Option<string>, offset: int, env: Collaborators)
    requires 0 <= offset && InInt32(offset + PageSize)
    requires Expected(h, query, offset, env).nextOffset.ResumeAt?
    ensures ParseOffset(Some(OffsetText(Expected(h, query, offset, env).nextOffset))) == Some(offset + PageSize)
    ensures Page(h, query, offset, env.contains) + Page(h, query, offset + PageSize, env.contains)
         == Take(Skip(Candidates(h, query, env.contains), offset), 2 * PageSize)
  {
    ExpectedShape(h, query, offset, env);
    NextOffsetResumes(Expected(h, query, offset, env).nextOffset);
    PagesTile(h, query, offset, env.contains);
  }

  /** The searches a non-empty history shows: all of them or the matching ones, skip `offset`, take ten. */
  method SelectPage(myHistory: seq<SuccessfulSauce>, query: Option<string>, offset: int, contains: (string, string) -> bool)
    returns (mySauces: seq<SuccessfulSauce>)
    ensures mySauces == Page(myHistory, query, offset, contains)
  {
    if IsNullOrEmpty(query) {
      mySauces := Take(Skip(myHistory, offset), PageSize);
    } else {
      var args := Split(query.value, ' ');
      mySauces := Take(Skip(Matching(myHistory, args, contains), offset), PageSize);
    }
  }

  // ---------------------------------------------------------------------
  // Edge cases of the paging, as the code behaves.
  // ---------------------------------------------------------------------

  /** A search of a kind the switch does not handle still takes a counter value but gives no result. */
  lemma {:induction false} NumbersMissUnhandled(sauces: seq<SuccessfulSauce>, offset: int, k: nat)
    requires k < |sauces| && sauces[k].mediaType.Unhandled?
    ensures |Numbers(sauces, offset)| < |sauces|
  {
    var p := sauces[..|sauces| - 1];
    if k < |p| {
      assert p[k] == sauces[k];
      NumbersMissUnhandled(p, offset, k);
    }
  }

  /**
   * A negative offset text parses, and `Skip` of a negative count skips
   * nothing: the page is the first page, but the next offset it hands out
   * is offset + 10 < 10, so the following page shows -offset of the same
   * searches again.
   */
  lemma NegativeOffsetRepeats(h: seq<SuccessfulSauce>, query: Option<string>, offset: int, env: Collaborators)
    requires -(PageSize as int) < offset < 0
    requires |Page(h, query, offset, env.contains)| == PageSize
    requires forall k :: 0 <= k < PageSize ==> !Page(h, query, offset, env.contains)[k].mediaType.Unhandled?
    ensures Page(h, query, offset, env.contains) == Page(h, query, 0, env.contains)
    ensures Expected(h, query, offset, env).nextOffset == ResumeAt(offset + PageSize)
    ensures |Page(h, query, offset + PageSize, env.contains)| >= -offset
    ensures Page(h, query, offset, env.contains)[offset + PageSize..]
         == Page(h, query, offset + PageSize, env.contains)[..-offset]
  {
    var c := Candidates(h, query, env.contains);
    var page := Page(h, query, offset, env.contains);
    assert page == c[0..PageSize];
    var next := Page(h, query, offset + PageSize, env.contains);
    var lo := offset + PageSize;
    assert next == c[lo..(if lo + PageSize <= |c| then lo + PageSize else |c|)];
    assert page[lo..] == c[lo..PageSize];
    assert next[..-offset] == c[lo..PageSize];
    EmittedIds(page, offset, env);
    assert |Emitted(page, offset, env)| == PageSize;
    ExpectedShape(h, query, offset, env);
  }

  /**
   * On a full page holding a search of an unhandled kind, fewer than ten
   * results come back, so no next offset is handed out and the searches
   * after this page cannot be reached by scrolling.
   */
  lemma UnhandledEndsPaging(h: seq<SuccessfulSauce>, query: Option<string>, offset: int, env: Collaborators, k: nat)
    requires |Page(h, query, offset, env.contains)| == PageSize
    requires k < PageSize && Page(h, query, offset, env.contains)[k].mediaType.Unhandled?
    ensures |Expected(h, query, offset, env).results| < PageSize
    ensures Expected(h, query, offset, env).nextOffset == NoMore
  {
    var page := Page(h, query, offset, env.contains);
    NumbersMissUnhandled(page, offset, k);
    EmittedIds(page, offset, env);
    ExpectedShape(h, query, offset, env);
  }

  /**
   * `Split(' ')` keeps empty pieces, so a query with a doubled, leading or
   * trailing space has an empty term; when every text contains the empty
   * string, as .NET's `Contains` does, such a query matches the whole history.
   */
  lemma EmptyTermMatchesAll(h: seq<SuccessfulSauce>, query: Option<string>, contains: (string, string) -> bool)
    requires forall x :: contains(x, "")
    requires query.Some? && "" in Split(query.value, ' ')
    ensures Candidates(h, query, contains) == h
  {
    var terms := Split(query.value, ' ');
    var k :| 0 <= k < |terms| && terms[k] == "";
    forall s | s in h
      ensures MatchesAny(s.info, terms, contains)
    {
      assert contains(s.info, terms[k]);
      MatchesAnyMeans(s.info, terms, contains);
    }
    MatchingEverything(h, terms, contains);
  }

  /** The query "cat " has the terms "cat" and "": it matches every search. */
  lemma TrailingSpaceMatchesAll(h: seq<SuccessfulSauce>, contains: (string, string) -> bool)
    requires forall x :: contains(x, "")
    ensures Split("cat ", ' ') == ["cat", ""]
    ensures Candidates(h, Some("cat "), contains) == h
  {
    SplitWithoutSeparator("cat", ' ');
    SplitWithoutSeparator("", ' ');
    assert "cat " == "cat" + [' '] + "";
    SplitAtSeparator("cat", ' ', "");
    EmptyTermMatchesAll(h, Some("cat "), contains);
  }

  /**
   * The part of `OnInlineQueryAsync` after the offset is parsed: the history
   * is paged only when it is not empty, by the query's terms when there are
   * any, and the counter the results were numbered with becomes the next offset.
   */
  method Respond(myHistory: seq<SuccessfulSauce>, query: Option<string>, offset: int, env: Collaborators)
    returns (answer: Answer)
    ensures answer == Expected(myHistory, query, offset, env)
  {
    var results: seq<InlineResult> := [];
    var counter := offset;
    ghost var page := Page(myHistory, query, offset, env.contains);
    ghost var emitted := Emitted(page, offset, env);
    if |myHistory| > 0 {
      var mySauces := SelectPage(myHistory, query, offset, env.contains);
      counter, results := AddUserSauces(mySauces, counter, results, env);
    } else {
      assert page == [];
    }
    assert results == emitted && counter == offset + |page|;
    ghost var expected := Expected(myHistory, query, offset, env);
    assert expected.results == if emitted == [] then [NoneArticle(env.historyNone)] else emitted;
    if |results| == 0 {
      results := results + [NoneArticle(env.historyNone)];
      assert results == [NoneArticle(env.historyNone)];
    }
    assert results == expected.results;
    var nextOffset := NoMore;
    if |results| >= PageSize {
      nextOffset := ResumeAt(counter);
    }
    assert nextOffset == expected.nextOffset;
    answer := Answer(results, nextOffset);
  }

  /** `OnInlineQueryAsync` without the database and Telegram calls: the answer it sends, or the parse failure. */
  method OnInlineQuery(
    userSauces: seq<UserSauce>, userId: int, query: Option<string>, offsetText: Option<string>, env: Collaborators)
    returns (answer: Result<Answer, InlineError>)
    ensures ParseOffset(offsetText).None? ==> answer == Failure(InvalidOffset)
    ensures ParseOffset(offsetText).Some? ==>
              answer == Success(Expected(History(userSauces, userId), query, ParseOffset(offsetText).value, env))
  {
    var parsed := ParseOffset(offsetText);
    if parsed.None? {
      return Failure(InvalidOffset);
    }
    var response := Respond(History(userSauces, userId), query, parsed.value, env);
    answer := Success(response);
  }
}
