# SauceNAObot core in Dafny

A model of two pieces of the SauceNAO Telegram bot, with proofs about each.

**The result aggregator.** These are the `SauceBowl` constructors, in module `SauceAggregation` (`sauce_bowl.dfy`).
- A SauceNAO search response first goes through a strict similarity threshold.
- The surviving candidates are folded, in order, into one composite `Sauce`. Each of the seven fields is won by the first candidate that offers it. The title can also come from a source that is not an "http" link.
- The fold also builds the attribution links. Each link is tagged with the similarity of the candidate it came from.
- Around this is the status decision: Found, NotFound, Error or BadRequest.
- The `foreach` loop is the method `Gather`. It is proved equal to a left fold, `FoldSauce`, and to `UrlsOf`. `FoldSauce` is in turn proved equal, field by field, to an independent "first offer wins" definition, `FirstOffer`.

**The inline-query history pager.** This is `OnInlineQueryAsync` with its local `AddUserSauces`, in module `InlineHandler` (`inline_handler.dfy`).
- It parses the offset and orders the user's history by date, newest first.
- It can filter the history by the space-separated query terms. Then it skips the offset and takes ten.
- It numbers each processed search with the incremented counter.
- When nothing was produced it falls back to the "None" article. It hands out a next offset only when a full page came back.
- The counting loop is the method `AddUserSauces`. It is proved against `Emitted`. The whole answer is proved equal to the function `Expected`, whose shape and paging properties are lemmas.

**Shared helpers.** `text.dfy` (module `Text`) holds the .NET string behaviour the two parts rely on:
- `string.IsNullOrEmpty`;
- the literal "http" prefix test;
- `Split(' ')`, which keeps empty pieces;
- `int.ToString()`;
- `int.Parse`: surrounding white space, an optional sign, decimal digits and the 32-bit range, with None standing for the exception.

`wrappers.dfy` holds `Option` and `Result`.

**Collaborators passed in as parameters.** Calls into code that is not part of this model become function parameters:
- `StyleFixer.Default.FixToHTML` is `fix: HtmlFixer`;
- in `InlineHandler.Collaborators`:
  - the `Title` read from a stored search's JSON is `infoTitle`;
  - `SuccessfulSauce.GetInfo` is `sauceText`;
  - the culture-insensitive `Contains` is `contains`;
  - `MSG.HistoryNone` is `historyNone`.

**Facts about the code that are easy to miss.**
- On NotFound, `Message` is the empty string (SauceBowl.cs:91), not null.
- Under the assumption on `Urls.Add`/`Urls.AddRange` (see "Left out"), a URL offered by two candidates appears twice (SauceBowl.cs:32, 52).
- On Error, `Message` is the header's message as it is, so it may be null (SauceBowl.cs:97).

**Edge cases of the code that are modelled.**
- A candidate exactly at the threshold is dropped.
- An offset text such as "-5" parses. `Skip` with a negative count skips nothing, so the first page is shown with Ids from -4. The next offset it hands out is "5", so the following page shows five of the same searches again (`NegativeOffsetRepeats`).
- A media kind without a `case` in the switch still takes a counter value but yields no result. On a full page, the answer then holds fewer than ten results, so no next offset is handed out. The searches after that page cannot be reached by scrolling (`UnhandledEndsPaging`).
- `Split(' ')` keeps empty pieces, so a doubled, leading or trailing space gives an empty term. When `Contains` holds for the empty string, as .NET's does, such a query matches every search. The query "cat " is one (`EmptyTermMatchesAll`, `TrailingSpaceMatchesAll`).

## Model

| member | source | states |
|---|---|---|
| SauceAggregation.Kept | src/SauceNao.Core/Models/SauceBowl.cs:18-19 | a candidate is kept exactly when its similarity is strictly above the threshold; nothing is added |
| SauceAggregation.KeptConcat | src/SauceNao.Core/Models/SauceBowl.cs:18-19 | the filter keeps input order: it distributes over concatenation |
| SauceAggregation.FirstOffer | src/SauceNao.Core/Models/SauceBowl.cs:34-85 | reference "first wins" rule: None exactly when no candidate offers the field; otherwise the offer of a candidate that all earlier candidates fail to offer |
| SauceAggregation.FoldIsFirstOffer | src/SauceNao.Core/Models/SauceBowl.cs:26-86 | every field of the folded sauce is the first offer among the kept candidates, in order |
| SauceAggregation.SetFieldsStay | src/SauceNao.Core/Models/SauceBowl.cs:34-85 | once a prefix of the candidates has set a field, later candidates never change it |
| SauceAggregation.TitleOrigin | src/SauceNao.Core/Models/SauceBowl.cs:34-47 | the composite title is built from some candidate's own title, or from a source of a candidate without a title that does not start with "http" |
| SauceAggregation.VerbatimFieldsIgnoreFixer | src/SauceNao.Core/Models/SauceBowl.cs:77-85 | Year and EstTime are the same whatever the HTML fixer does: they are copied without escaping |
| SauceAggregation.UrlsOfConcat | src/SauceNao.Core/Models/SauceBowl.cs:26-53 | the links keep candidate order: those of a + b are those of a, then those of b |
| SauceAggregation.UrlsOf | src/SauceNao.Core/Models/SauceBowl.cs:26-53 | the number of links is the sum over candidates of their ext-url count plus one for an "http" source |
| SauceAggregation.Contribution | src/SauceNao.Core/Models/SauceBowl.cs:30-53 | one candidate adds its ext-url count plus one for an "http" source |
| SauceAggregation.ContributionLinks | src/SauceNao.Core/Models/SauceBowl.cs:30-53 | each link one candidate adds is one of its ext-urls or its "http" source, tagged with its similarity |
| SauceAggregation.TitleOffer | src/SauceNao.Core/Models/SauceBowl.cs:36-46 | a candidate offers a title exactly when it has one, or has a source that does not start with "http"; its own title takes precedence over its source |
| SauceAggregation.Tagged | src/SauceNao.Core/Models/SauceBowl.cs:32 | `AddRange(urls, sim)` adds one link per ext-url, in order, each carrying the candidate's similarity |
| SauceAggregation.Merge | src/SauceNao.Core/Models/SauceBowl.cs:34-85 | one pass over a candidate leaves every field as it was unless it is empty and the candidate offers a value, which then fills it |
| SauceAggregation.FoldSauce | src/SauceNao.Core/Models/SauceBowl.cs:26-86 | no field of the composite ever holds an empty line, so `IsNullOrEmpty` of a field means "not set yet" |
| SauceAggregation.UrlOrigin | src/SauceNao.Core/Models/SauceBowl.cs:30-53 | every link is an ext-url or the "http" source of some kept candidate, tagged with that candidate's similarity |
| SauceAggregation.AbsorbTitleAndLinks | src/SauceNao.Core/Models/SauceBowl.cs:28-53 | the first half of the loop body fills the title only while it is empty; it appends exactly the candidate's ext-urls, then its "http" source |
| SauceAggregation.AbsorbDetails | src/SauceNao.Core/Models/SauceBowl.cs:55-85 | the second half fills each detail field only while it is empty, and only from a non-empty value; only a non-empty text creator fills By; the title is untouched |
| SauceAggregation.Gather | src/SauceNao.Core/Models/SauceBowl.cs:23-86 | the foreach loop yields exactly the left fold of the kept candidates, and exactly their links in order |
| SauceAggregation.FromResponse | src/SauceNao.Core/Models/SauceBowl.cs:13-99 | a nonzero status or missing results gives Error with the header message; no kept candidate gives NotFound with message ""; otherwise Found with the folded sauce and the links; Similarity is always the threshold; sauce and links exist exactly on Found |
| SauceAggregation.FromException | src/SauceNao.Core/Models/SauceBowl.cs:100-104 | BadRequest exactly when there is no inner exception, Error exactly when there is one; message is the exception's; no sauce, links or similarity |
| SauceAggregation.HttpSourceSkippedForTitle | src/SauceNao.Core/Models/SauceBowl.cs:40-53 | an "http" source is not used as the title but becomes a link; a later explicit title wins |
| SauceAggregation.DefaultThresholdIsStrict | src/SauceNao.Core/Models/SauceBowl.cs:13-19 | under the default threshold of 55, a candidate at exactly 55 is dropped and one at 55.5 kept |
| SauceAggregation.NonTextCreatorLeavesByOpen | src/SauceNao.Core/Models/SauceBowl.cs:67-76 | a creator that is not a string leaves By empty, so a later string creator fills it |
| Text.StartsWithHttpMeans | src/SauceNao.Core/Models/SauceBowl.cs:42 | the "http" test holds exactly of the texts that are "http" followed by anything |
| Text.IntToString | src/SauceNao.Core/Bot/SauceNaoBot.InlineHandler.cs:58 | `ToString` of a non-negative number is all digits; of a negative one, "-" then digits; never empty |
| Text.ParseInt32 | src/SauceNao.Core/Bot/SauceNaoBot.InlineHandler.cs:25 | a parsed offset is always a 32-bit value |
| Text.ParseInt32RejectsForeignChar | src/SauceNao.Core/Bot/SauceNaoBot.InlineHandler.cs:25 | a text holding a character that is not white space, a sign or a digit is the exception |
| Text.ParseInt32RejectsOverflow | src/SauceNao.Core/Bot/SauceNaoBot.InlineHandler.cs:25 | the decimal text of a number outside the 32-bit range is the exception |
| Text.TrimStart | src/SauceNao.Core/Bot/SauceNaoBot.InlineHandler.cs:25 | `int.Parse` skips only leading white space: what remains is a suffix and everything dropped is white |
| Text.TrimEnd | src/SauceNao.Core/Bot/SauceNaoBot.InlineHandler.cs:25 | `int.Parse` skips only trailing white space: what remains is a prefix and everything dropped is white |
| Text.ParseInt32OfIntToString | src/SauceNao.Core/Bot/SauceNaoBot.InlineHandler.cs:25 | `int.Parse` of the text `ToString` writes gives back every 32-bit integer |
| Text.ParseIntegerOfIntToString | src/SauceNao.Core/Bot/SauceNaoBot.InlineHandler.cs:58 | the decimal text of any integer reads back as that integer |
| Text.Split | src/SauceNao.Core/Bot/SauceNaoBot.InlineHandler.cs:122 | `Split(' ')` returns at least one piece, and no piece contains a space |
| Text.JoinSplit | src/SauceNao.Core/Bot/SauceNaoBot.InlineHandler.cs:122 | joining the pieces with the separator gives back the query: no character is lost and empty pieces are kept |
| Text.SplitJoin | src/SauceNao.Core/Bot/SauceNaoBot.InlineHandler.cs:122 | splitting a join of separator-free pieces returns those pieces |
| InlineHandler.ParseOffset | src/SauceNao.Core/Bot/SauceNaoBot.InlineHandler.cs:25 | a null or empty offset is 0; a parsed offset is a 32-bit value; only a non-empty text can fail to parse |
| InlineHandler.OwnedBy | src/SauceNao.Core/Bot/SauceNaoBot.InlineHandler.cs:26 | an entry is kept exactly when it belongs to the user, and each of the user's entries as often as it occurs |
| InlineHandler.OwnedByConcat | src/SauceNao.Core/Bot/SauceNaoBot.InlineHandler.cs:26 | the user filter keeps the table's order: it distributes over concatenation |
| InlineHandler.Sauces | src/SauceNao.Core/Bot/SauceNaoBot.InlineHandler.cs:26 | the i-th search is the search of the i-th entry |
| InlineHandler.History | src/SauceNao.Core/Bot/SauceNaoBot.InlineHandler.cs:26 | the history has one search per entry of the user |
| InlineHandler.OrderByDateDescending | src/SauceNao.Core/Bot/SauceNaoBot.InlineHandler.cs:26 | the history is newest first and a permutation of the user's entries |
| InlineHandler.HistoryIsOwn | src/SauceNao.Core/Bot/SauceNaoBot.InlineHandler.cs:26 | each search of the history is the search of one of the user's own entries, and each of the user's entries has its search in the history |
| InlineHandler.HistoryIsRearrangement | src/SauceNao.Core/Bot/SauceNaoBot.InlineHandler.cs:26 | the history is the searches of a newest-first sequence holding each of the user's entries exactly as often as the table does, and no other entry |
| InlineHandler.Matching | src/SauceNao.Core/Bot/SauceNaoBot.InlineHandler.cs:123 | a search is kept exactly when it is in the history and its info contains some query term |
| InlineHandler.MatchingCounts | src/SauceNao.Core/Bot/SauceNaoBot.InlineHandler.cs:123 | each matching search is kept as often as the history holds it, and no other search is kept |
| InlineHandler.MatchingConcat | src/SauceNao.Core/Bot/SauceNaoBot.InlineHandler.cs:123 | the query filter keeps the history's newest-first order: it distributes over concatenation |
| InlineHandler.MatchingEverything | src/SauceNao.Core/Bot/SauceNaoBot.InlineHandler.cs:123 | a filter every search passes keeps the whole history, in order |
| InlineHandler.MatchesAny | src/SauceNao.Core/Bot/SauceNaoBot.InlineHandler.cs:123 | `Any` over no terms is false |
| InlineHandler.MatchesAnyMeans | src/SauceNao.Core/Bot/SauceNaoBot.InlineHandler.cs:123 | `args.Any(...)` holds exactly when some term is contained in the info |
| InlineHandler.SkipIsSuffix | src/SauceNao.Core/Bot/SauceNaoBot.InlineHandler.cs:117 | `Skip(n)` is the suffix after the first n elements: all of it for n <= 0, nothing past the end |
| InlineHandler.TakeIsPrefix | src/SauceNao.Core/Bot/SauceNaoBot.InlineHandler.cs:117 | `Take(n)` is the prefix of the first n elements: nothing for n <= 0, all of it past the end |
| InlineHandler.TakeSkipTile | src/SauceNao.Core/Bot/SauceNaoBot.InlineHandler.cs:117 | after a full page of n, skipping n more and taking n continues it: together they are the next 2n elements |
| InlineHandler.Candidates | src/SauceNao.Core/Bot/SauceNaoBot.InlineHandler.cs:115-123 | the whole history for a null or empty query; otherwise exactly the searches whose info contains one of the space-separated terms |
| InlineHandler.Page | src/SauceNao.Core/Bot/SauceNaoBot.InlineHandler.cs:115-125 | the page is the candidates from the offset (0 if negative, the end if past it) through at most ten entries; the candidates are the whole history for an empty query, else the matching searches |
| InlineHandler.PagesTile | src/SauceNao.Core/Bot/SauceNaoBot.InlineHandler.cs:115-125 | after a full page at a non-negative offset, the page at offset + 10 continues it: together they are the next twenty candidates |
| InlineHandler.ResultTitle | src/SauceNao.Core/Bot/SauceNaoBot.InlineHandler.cs:39-47 | the title is "Noname" unless the info is non-empty and yields a non-empty title, which is then used; it is never empty |
| InlineHandler.ResultFor | src/SauceNao.Core/Bot/SauceNaoBot.InlineHandler.cs:53-112 | a handled media kind yields exactly one result, an unhandled one none |
| InlineHandler.Emitted | src/SauceNao.Core/Bot/SauceNaoBot.InlineHandler.cs:37-112 | at most one result per processed search |
| InlineHandler.Numbers | src/SauceNao.Core/Bot/SauceNaoBot.InlineHandler.cs:52-58 | the counter values of the emitted results lie in (offset, offset + n], strictly increase, and are exactly offset+1 .. offset+n when every kind is handled |
| InlineHandler.EmittedIds | src/SauceNao.Core/Bot/SauceNaoBot.InlineHandler.cs:52-58 | each emitted result's Id is the counter value after its own increment |
| InlineHandler.EmittedIdsDecode | src/SauceNao.Core/Bot/SauceNaoBot.InlineHandler.cs:58 | each emitted Id text reads back as its counter value and is never "None" |
| InlineHandler.TypeName | src/SauceNao.Core/Bot/SauceNaoBot.InlineHandler.cs:48 | the description is the stored `Type` text: an unhandled kind shows its own name, a handled kind a non-empty member name |
| InlineHandler.IdText | src/SauceNao.Core/Bot/SauceNaoBot.InlineHandler.cs:58 | an `Id` is "None" (the placeholder's literal at line 133) exactly for the placeholder article; a counter's `Id` text is non-empty and ends in a digit |
| InlineHandler.OffsetText | src/SauceNao.Core/Bot/SauceNaoBot.InlineHandler.cs:141 | the `NextOffset` text is empty exactly when no further page is offered; a non-negative resume offset is written as digits only |
| InlineHandler.KindOf | src/SauceNao.Core/Bot/SauceNaoBot.InlineHandler.cs:53-111 | a handled media kind never yields the article class used for the "no history" placeholder |
| InlineHandler.HandledKindsDistinct | src/SauceNao.Core/Bot/SauceNaoBot.InlineHandler.cs:48-111 | distinct handled media kinds have distinct `Type` texts and are sent as distinct result classes |
| InlineHandler.IdTextDecodes | src/SauceNao.Core/Bot/SauceNaoBot.InlineHandler.cs:58 | different Ids have different texts; a counter's text reads back as the counter |
| InlineHandler.NextOffsetResumes | src/SauceNao.Core/Bot/SauceNaoBot.InlineHandler.cs:141 | a handed-out next offset is parsed by the follow-up query as the same number; no next offset is parsed as 0 |
| InlineHandler.AddUserSauces | src/SauceNao.Core/Bot/SauceNaoBot.InlineHandler.cs:35-113 | the counter advances by exactly one per processed search; the results gain exactly the emitted results, in order |
| InlineHandler.NoneArticle | src/SauceNao.Core/Bot/SauceNaoBot.InlineHandler.cs:130-136 | the "no history" article has Id text "None" and the localised text as title and message, and no file or description |
| InlineHandler.Expected | src/SauceNao.Core/Bot/SauceNaoBot.InlineHandler.cs:128-141 | one to ten results; a next offset is offset + 10 |
| InlineHandler.ExpectedShape | src/SauceNao.Core/Bot/SauceNaoBot.InlineHandler.cs:128-141 | one to ten results; the "None" article exactly when the page produced nothing; a next offset exactly when ten results were produced, then equal to offset + 10 |
| InlineHandler.NextPageFollows | src/SauceNao.Core/Bot/SauceNaoBot.InlineHandler.cs:141 | following a next offset resumes right after the full page: no search is skipped or shown twice |
| InlineHandler.NegativeOffsetRepeats | src/SauceNao.Core/Bot/SauceNaoBot.InlineHandler.cs:115-141 | an offset between -9 and -1 shows the first page; with ten handled searches the next offset is offset + 10, and the next page repeats the last -offset searches of this one |
| InlineHandler.UnhandledEndsPaging | src/SauceNao.Core/Bot/SauceNaoBot.InlineHandler.cs:52-141 | a full page with a search of an unhandled kind gives fewer than ten results and no next offset |
| InlineHandler.NumbersMissUnhandled | src/SauceNao.Core/Bot/SauceNaoBot.InlineHandler.cs:52-111 | a search of an unhandled kind takes a counter value without a result, so fewer results than searches come back |
| InlineHandler.EmptyTermMatchesAll | src/SauceNao.Core/Bot/SauceNaoBot.InlineHandler.cs:122-123 | a query with an empty term matches the whole history when every text contains the empty string |
| InlineHandler.TrailingSpaceMatchesAll | src/SauceNao.Core/Bot/SauceNaoBot.InlineHandler.cs:122-123 | "cat " splits into "cat" and "", so it matches every search |
| InlineHandler.SelectPage | src/SauceNao.Core/Bot/SauceNaoBot.InlineHandler.cs:115-125 | both branches of the query test select exactly the page of the candidates |
| InlineHandler.Respond | src/SauceNao.Core/Bot/SauceNaoBot.InlineHandler.cs:33-141 | the answer built after parsing is the `Expected` answer for the history, query and offset |
| InlineHandler.OnInlineQuery | src/SauceNao.Core/Bot/SauceNaoBot.InlineHandler.cs:25-141 | an offset that does not parse fails; otherwise the answer is `Expected` over the user's own history, newest first |

## Left out

- `float.Parse` of the similarity text (SauceBowl.cs:19, 29): similarities are already-parsed `real` values. Single-precision rounding and the malformed-number exception are not modelled.
- The `similarity = 55` default argument is the constant `DefaultSimilarity`. `FromResponse` always takes the threshold explicitly; `DefaultThresholdIsStrict` applies the filter at that default.
- `data.Creator is string` (SauceBowl.cs:69) is modelled as `TextCreator` exactly when the JSON value is a string. That holds only if the search client, which is not part of this model, turns JSON strings into `System.String`. Under System.Text.Json an `object` property becomes a `JsonElement`, and then no creator would ever fill By.
- `Urls.Add` and `Urls.AddRange` are extension methods that are not part of this model. They are assumed to append `SauceUrl(url, similarity)`, in order.
- `int.Parse` and `int.ToString()` use the current culture's sign symbols. The model uses the invariant "-" and "+". `int.Parse` also accepts trailing `'\0'` characters, which the model rejects. The general shape of an accepted text (white space, optional sign, digits) is in `ParseInt32`'s definition; the contracts state only the range, the two rejection lemmas and the round trip.
- `StartsWith("http")` is culture-sensitive in .NET. It is modelled as a literal prefix test.
- `Contains(..., InvariantCultureIgnoreCase)` and the JSON read of `Title` are parameters:
  - a malformed `Info` that makes `JsonSerializer.Deserialize` throw is not modelled;
  - a null `Info` is modelled as the empty string, so the `NullReferenceException` that `s.Info.Contains` would raise under a query is not modelled.
- `Enum.Parse<MediaType>(sauce.Type)` throws for a `Type` text that names no member, and this is not modelled. The model takes the parsed kind, with `Unhandled` for members without a `case` and `TypeName` for the description text. The stored `Type` text is assumed to be the member's own name: `Enum.Parse` also accepts numeric and space-padded texts, for which the source's description (the raw text) would differ from `TypeName`.
- InlineHandler.AddUserSauces: the counter is an unbounded integer. The 32-bit wrap-around of `offset++` at `int.MaxValue` is not modelled. `NextPageFollows` assumes offset + 10 fits in 32 bits.
- InlineHandler.NextPageFollows: holds only for a non-negative offset. For a negative one the code repeats searches, as `NegativeOffsetRepeats` states.
- InlineHandler.OrderByDateDescending: the contract states newest-first order and a permutation. It does not state that equal dates keep their input order, although the definition is a stable insertion.
- Result fields supplied by library code are omitted: `ReplyMarkup` (`GetKeyboard`), `ParseMode`, `IsPersonal` and `CacheTime`. So is the `InputMessageContent` wrapper; its text is the result's `text`.
- I/O and ambient state are not modelled: `GetUserAsync`, `AnswerInlineQueryAsync`, cancellation tokens, the debug log line (InlineHandler.cs:29-31) and the user's language. The history is passed in as the user's `UserSauces`.
- The other parts of the repository are not part of this model:
  - `CleanerService` is a background job driven by Telegram and database calls. Its removal from `group.AntiCheats` inside a `foreach` over that same collection (CleanerService.cs:82-95) would throw at run time.
  - `UserRepository` and `IUserRepository` are Entity Framework plumbing.
  - `TempController` is an HTTP endpoint.
  - `ISauce` is only the shape of the `Sauce` record.
