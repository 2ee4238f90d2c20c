# Hacker News listing scraper — verified model

This project models the core of a small scraper. The scraper turns Hacker News
listing pages into `Post` records and prints them as a JSON array, capped at a
requested count. Two pieces are modelled:

- **Row field extraction** (`src/athing.rs`). A story row (`tr.athing`) and the
  row after it ("line 2") give the uri and title, the rank, the author, the
  points and the comment count. Every number is read by one primitive: the
  leading run of digits of a node's first text child. There is no number when
  the text does not start with a digit.
- **Post assembly and aggregation** (`src/main.rs`).
  - `Post::try_from` drops a row that has no line 2 or no rank. It cuts
    `title` and `author` to 256 characters and passes the other fields through.
  - `fetch_posts(n)` walks pages 1, 2, 3, … and keeps each page's surviving
    posts in document order. It returns the first `n` of them.
  - `main` computes the count: 30 by default, at most `MAX_POSTS` = 100. A
    count of 0 prints `[]` without fetching anything.

The HTML document is replaced by an abstract tree (`Dom.Node`). Each node has:

- an optional tag name (text nodes have none);
- a set of classes;
- an optional `href`;
- its first child (none, a text node, or an element);
- its text;
- its descendants in document order, the node itself excluded, as the HTML
  library's `find` visits them.

A story row (`Athing.AThing`) is a node together with the siblings that follow
it. The selectors the source uses (`Class("storylink")`, `Name("a")`, …) become
`Dom.Selector` values. "First match" and "last match" are defined once, as
`Dom.IsFirst` and `Dom.IsLast`, and every extractor is specified against them.

The transport is not modelled. A page source is a function from page number to
either `Unavailable(reason)` or `Listing(rows)`. Here `rows` holds the extracted
fields of the page's `tr.athing` rows, in document order (`Athing.StoryRow`, as
`Athing.Fields` computes them). `Scraper.Flatten(fetch, k)` is the posts of pages
1..k, each page in row order. `Scraper.FetchPosts` is a loop over page numbers.
It is proved to return exactly the first `n` posts of `Flatten`, and to request
page k+1 only while pages 1..k hold fewer than `n` posts.

Files: `wrappers.dfy` (Option, Result), `dom.dfy` (the abstract document),
`numerals.dfy` (the digit-prefix parser), `athing.dfy` (the extractors),
`athing_fixture.dfy` (the extractor unit-test row), `scraper.dfy` (posts,
aggregation, the entry point).

Three behaviours of the code that the model keeps:

- A story row without a story link, or whose story link has no `href`, makes
  the code abort (`expect`). It does not drop the row. In the model, `TryFrom`
  requires a link with an `href`, and `StoryRow` always carries one.
- The code allows a rank of 0. `rank` is a `nat`.
- The code's `truncate` counts bytes. The model counts characters, which is
  the same for ASCII text (see Left out).

## Model

| member | source | states |
|---|---|---|
| `Dom.FindFirst` | src/athing.rs:14 | `find(sel).next()`: the position of the first descendant matching the selector; none exactly when nothing matches |
| `Dom.FindLast` | src/athing.rs:45 | `find(sel).last()`: the position of the last matching descendant; none exactly when nothing matches |
| `Numerals.DigitRunLength` | src/athing.rs:57 | the `take_while` run: a prefix of digits that is followed by the end of the text or by a non-digit |
| `Numerals.NumberPrefix` | src/athing.rs:57-58 | none exactly when the text is empty or does not start with a digit; otherwise the decimal value of the whole leading digit run, whatever follows it |
| `Numerals.NumeralRoundTrip` | src/athing.rs:58 | reading the decimal numeral of any `n` back gives `n` |
| `Numerals.LeadingZeros` | src/athing.rs:58 | leading zeros do not change the parsed value |
| `Numerals.NumberPrefixOfNumeral` | src/athing.rs:57-58 | the numeral of `n` followed by any text that does not start with a digit reads as `n` |
| `Numerals.RankExample` | src/athing.rs:70 | `"22."` reads as 22 |
| `Numerals.PointsExample` | src/athing.rs:81 | `"82 points"` reads as 82 |
| `Numerals.CommentsExample` | src/athing.rs:82 | `"14&nbsp;comments"` (with the entity decoded to a no-break space) reads as 14 |
| `Numerals.LeadingZerosExample` | src/athing.rs:58 | `"007"` reads as 7 |
| `Numerals.NoNumberExamples` | src/athing.rs:57 | `"discuss"` and `""` have no number |
| `Athing.ExtractNumberPrefix` | src/athing.rs:55-59 | none when the node has no first child or the first child is not text; otherwise the number prefix of that text |
| `Athing.UriAndTitle` | src/athing.rs:13-16 | none when there is no `storylink` descendant or the first one has no `href`; otherwise that element's `href` and text |
| `Athing.Rank` | src/athing.rs:18-20 | the number of the first `rank` descendant; none when there is none |
| `Athing.RankAbsent` | src/athing.rs:18-20 | the rank is none exactly when there is no `rank` descendant or its number prefix is none |
| `Athing.Line2` | src/athing.rs:22-26 | the first following sibling named `tr`, skipping text and other nodes; none exactly when no such sibling exists |
| `Athing.Author` | src/athing.rs:36-38 | the text of the first `hnuser` descendant; none exactly when there is none |
| `Athing.Points` | src/athing.rs:40-42 | the number of the first `score` descendant; none when there is none |
| `Athing.Comments` | src/athing.rs:44-46 | the number of the last `a` descendant (not the first); none when there is no anchor |
| `Athing.DiscussHasNoCount` | src/athing.rs:44-46 | when the last anchor reads "discuss", the comment count is none, not zero |
| `Athing.Fields` | src/main.rs:81-95 | a record constructor: the story row's fields, each exactly as its extractor yields it (the extractor calls of `try_from` gathered in one value) |
| `AthingFixture.FixtureUriAndTitle` | src/athing.rs:86-94 | the test row yields its story link's href and the title "Words that do Handstands" |
| `AthingFixture.FixtureRank` | src/athing.rs:96-102 | the test row's rank is 22 |
| `AthingFixture.FixtureLine2` | src/athing.rs:104-108 | line 2 is the `tr` after the text node that follows the story row |
| `AthingFixture.FixtureAuthor` | src/athing.rs:104-110 | the author is "hardmath123" |
| `AthingFixture.FixturePoints` | src/athing.rs:112-118 | the points are 82 |
| `AthingFixture.FixtureComments` | src/athing.rs:120-126 | among four anchors in line 2, the last one gives 14 comments |
| `Scraper.PostCount` | src/main.rs:28 | 30 when the option is absent; the requested value when it is at most 100; otherwise 100; never more than `MAX_POSTS` |
| `Scraper.Truncate` | src/main.rs:84 | the result is a prefix of the input; it is unchanged when at most the limit long, and exactly the limit long otherwise |
| `Scraper.Assemble` | src/main.rs:80-97 | no post exactly when line 2 or the rank is absent; otherwise uri, rank, points and comments are passed through, and title and author are cut to 256 characters (author absent exactly when it was not found) |
| `Scraper.TryFrom` | src/main.rs:80-97 | `Post::try_from`: no post exactly when line 2 or the rank is absent; the field-by-field contract is `TryFromSpec` |
| `Scraper.TryFromSpec` | src/main.rs:80-97 | the whole contract of `TryFrom`, stated against the extractors of the `tr.athing` row and its line 2: no post exactly when line 2 or the rank is absent; otherwise the uri, rank, points and comments as extracted, and title and author cut to 256 characters (author absent exactly when it was not found) |
| `Scraper.Survivors` | src/main.rs:53 | the `filter_map` over a page's rows: never more posts than rows; membership and order are `SurvivorsMembers` and `SurvivorsAppend` |
| `Scraper.SurvivorsMembers` | src/main.rs:53 | `filter_map`: a post is kept exactly when some row assembles to it |
| `Scraper.SurvivorsKeepAll` | src/main.rs:53 | when every row yields a post, none is dropped |
| `Scraper.SurvivorsAppend` | src/main.rs:51-55 | the survivors of two runs of rows are those of the first run followed by those of the second: document order is kept |
| `Scraper.PagePosts` | src/main.rs:51-55 | the posts one page contributes to the `flat_map`: none for a failed page, at most one per row of a listing |
| `Scraper.Flatten` | src/main.rs:45-55 | the `flat_map` over pages 1..k: empty for no pages, and at least as long as page k's posts; that it only grows is `FlattenPrefix` |
| `Scraper.FlattenPrefix` | src/main.rs:51-57 | the posts of pages 1..k are a prefix of the posts of pages 1..m for k <= m |
| `Scraper.FirstPostsStable` | src/main.rs:45-57 | once pages 1..k hold `n` posts, the first `n` posts do not depend on any later page |
| `Scraper.FetchPosts` | src/main.rs:42-58 | pages 1..`requested` are requested in order. For `n` = 0 no page is requested. Every page before the last was a listing, and the pages before the last held fewer than `n` posts. A failed page gives that failure and no posts. Otherwise the result is exactly the first `n` posts of pages 1..`requested` |
| `Scraper.EarlierPagesShort` | src/main.rs:45-57 | every page before the last one requested left the walk short of `n`, so no page is requested after `n` posts were available |
| `Scraper.Run` | src/main.rs:28-35 | a count of 0 prints `[]` and requests nothing. Otherwise the output is exactly `PostCount` posts (at most 100), the first posts of the pages requested, or an abort naming the failed page. Either way, every page before the last one requested was a listing, and those pages held fewer posts than the count |
| `Scraper.JsonKeys` | src/main.rs:63-74 | `title`, `uri` and `rank` are always present; `author`, `points` and `comments` are present exactly when they have a value |
| `Scraper.PostWithoutLine2Data` | src/main.rs:164-181 | a row whose line 2 has no user, score or anchor still yields a post, with author, points and comments absent and left out of the JSON |
| `Scraper.FullPagesRankedInOrder` | src/main.rs:183-188 | when every page holds 30 posts ranked in page order, the posts of pages 1..k are ranked 1, 2, …, 30k |

## Left out

- HTTP retrieval (`reqwest`, the `?p=` query, response status checks): network I/O. A page source is a function from page number to a listing or a failure reason.
- The mock page loader and the three HTML fixture pages: test plumbing. The `fetch_top_3` and `fetch_hiring_post_12` expectations depend on those pages. They are used only as the shape of the lemmas above.
- `clap` argument declaration and validation: a foreign library. The option reaches `PostCount` already parsed, as `Option<nat>`. An unparsable value is refused by the validator before line 28, so the `parse().ok()` fallback to 30 is not modelled.
- JSON serialization (`serde_json`) and the printed text: a foreign serializer. Only the set of keys an object carries is modelled (`JsonKeys`). `Run` returns the posts to print or the abort, not the text.
- The `select` HTML parser and its predicates: replaced by the abstract `Dom.Node` tree. Finding the `tr.athing` rows of a page and extracting their fields happen inside the page source: `Page.Listing` holds `Athing.Fields` of each row.
- `extract_number_prefix` uses `char::is_numeric`, which also accepts non-ASCII numerals. The model accepts ASCII digits only. So the cases where `parse` then fails, or the slice ends mid-character, are not modelled.
- `usize` overflow in `parse`, which gives no number: numbers are unbounded `nat`s.
- Truncate: `String::truncate(256)` counts bytes and panics inside a multi-byte character. The model cuts at 256 characters, which is the same for ASCII text. The panic is not modelled.
- A story row without a story link, or whose story link has no `href`, makes the source abort (`expect`). The model makes this a precondition of `TryFrom`. A page's `StoryRow` always carries a link, so the aggregator never meets such a row.
- FetchPosts: the source keeps requesting pages forever if no page fails and the pages never hold `n` posts. Dafny methods must terminate, so `FetchPosts` and `Run` take a ghost page `bound` and require that the walk stops by then (`StopsBy`). Non-termination is not modelled.
- Page requests are the `requested` count, not real side effects. Panics on a failed page are the `Failure`/`Aborted` results. The process exit status is not modelled.
