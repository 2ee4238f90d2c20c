/**
 Post assembly from extracted row fields, and the aggregator that walks the
 listing pages 1, 2, 3, ... until it holds the requested number of posts.
 A page source is a function from page number to the page's story rows or
 a failure; the transport that produces it is not part of this model.
 */
module Scraper {
  import opened Wrappers
  import opened Dom
  import opened Athing

  /** The largest number of posts the program will fetch. */
  const MAX_POSTS: nat := 100
  /** The number of posts fetched when none is requested. */
  const DEFAULT_POSTS: nat := 30
  /** The longest `title` or `author` a post keeps. */
  const MAX_FIELD_LEN: nat := 256
  /** The number of story rows on a full listing page. */
  const PAGE_SIZE: nat := 30

  /** One listed post; absent optional fields are omitted from the output. */
  datatype Post = Post(
    title: string,
    uri: string,
    rank: nat,
    author: Option<string>,
    points: Option<nat>,
    comments: Option<nat>)

  /** The number of posts to fetch, from the value of the `--posts` option if given. */
  function PostCount(requested: Option<nat>): (n: nat)
    ensures n <= MAX_POSTS
    ensures requested.None? ==> n == DEFAULT_POSTS
    ensures requested.Some? && requested.value <= MAX_POSTS ==> n == requested.value
    ensures requested.Some? && requested.value > MAX_POSTS ==> n == MAX_POSTS
  {
    var n := match requested case Some(p) => p case None => DEFAULT_POSTS;
    if n < MAX_POSTS then n else MAX_POSTS
  }

  /**
   `t` is `s` cut to at most 256 characters: a prefix of `s`, equal to `s`
   when `s` is short enough and exactly 256 long otherwise.
   */
  predicate TruncatedFrom(t: string, s: string) {
    t <= s && if |s| <= MAX_FIELD_LEN then t == s else |t| == MAX_FIELD_LEN
  }

  /** `s` cut down to its first `max` characters when it is longer. */
  function Truncate(s: string, max: nat): (t: string)
    ensures t <= s && |t| <= max
    ensures |s| <= max ==> t == s
    ensures |s| > max ==> |t| == max
  {
    if |s| <= max then s else s[..max]
  }

  /**
   The post of a story row's fields: absent when the row has no line 2 or no
   rank. Title and author are cut to 256 characters; everything else is
   passed on unchanged.
   */
  function Assemble(row: StoryRow): (r: Option<Post>)
    ensures r.None? <==> row.line2.None? || row.rank.None?
    ensures r.Some? ==>
      var fields := row.line2.value;
      && r.value.uri == row.uri
      && TruncatedFrom(r.value.title, row.title)
      && r.value.rank == row.rank.value
      && (r.value.author.None? <==> fields.author.None?)
      && (r.value.author.Some? ==> TruncatedFrom(r.value.author.value, fields.author.value))
      && r.value.points == fields.points
      && r.value.comments == fields.comments
  {
    match row.line2
    case None => None
    case Some(fields) =>
      match row.rank
      case None => None
      case Some(rank) =>
        var author := match fields.author
          case None => None
          case Some(name) => Some(Truncate(name, MAX_FIELD_LEN));
        Some(Post(Truncate(row.title, MAX_FIELD_LEN), row.uri, rank, author, fields.points, fields.comments))
  }

  /**
   The post of a `tr.athing` row, built from what the extractors read from
   it. A story row always has a story link; the source aborts otherwise.
   */
  function TryFrom(a: AThing): (r: Option<Post>)
    requires UriAndTitle(a).Some?
    ensures r.None? <==> Line2(a).None? || Rank(a).None?
  {
    Assemble(Fields(a))
  }

  /** What `TryFrom` promises in terms of the extractors of the row and its line 2. */
  lemma TryFromSpec(a: AThing)
    requires UriAndTitle(a).Some?
    ensures TryFrom(a).None? <==> Line2(a).None? || Rank(a).None?
    ensures TryFrom(a).Some? ==>
      var post := TryFrom(a).value;
      var (uri, title) := UriAndTitle(a).value;
      var line2 := Line2(a).value;
      && post.uri == uri
      && TruncatedFrom(post.title, title)
      && post.rank == Rank(a).value
      && (post.author.None? <==> Author(line2).None?)
      && (post.author.Some? ==> TruncatedFrom(post.author.value, Author(line2).value))
      && post.points == Points(line2)
      && post.comments == Comments(line2)
  {
  }

  /** The posts of the rows that yield one, in row order. */
  function Survivors(rows: seq<StoryRow>): (ps: seq<Post>)
    ensures |ps| <= |rows|
  {
    if rows == [] then []
    else
      var head := match Assemble(rows[0]) case Some(p) => [p] case None => [];
      head + Survivors(rows[1..])
  }

  /** A post survives exactly when some row assembles to it. */
  lemma {:induction false} SurvivorsMembers(rows: seq<StoryRow>, p: Post)
    ensures p in Survivors(rows) <==> exists i | 0 <= i < |rows| :: Assemble(rows[i]) == Some(p)
  {
    if rows != [] {
      SurvivorsMembers(rows[1..], p);
      if Assemble(rows[0]) != Some(p) && p in Survivors(rows) {
        var i :| 0 <= i < |rows[1..]| && Assemble(rows[1..][i]) == Some(p);
        assert Assemble(rows[i + 1]) == Some(p);
      }
      if exists i | 0 <= i < |rows| :: Assemble(rows[i]) == Some(p) {
        var i :| 0 <= i < |rows| && Assemble(rows[i]) == Some(p);
        if i > 0 {
          assert Assemble(rows[1..][i - 1]) == Some(p);
        }
      }
    }
  }

  /** When every row yields a post, none is dropped. */
  lemma {:induction false} SurvivorsKeepAll(rows: seq<StoryRow>)
    requires forall i | 0 <= i < |rows| :: Assemble(rows[i]).Some?
    ensures |Survivors(rows)| == |rows|
  {
    if rows != [] {
      assert forall i | 0 <= i < |rows[1..]| :: rows[1..][i] == rows[i + 1];
      SurvivorsKeepAll(rows[1..]);
    }
  }

  /** Surviving rows of two runs of rows are those of each run, in order. */
  lemma {:induction false} SurvivorsAppend(xs: seq<StoryRow>, ys: seq<StoryRow>)
    ensures Survivors(xs + ys) == Survivors(xs) + Survivors(ys)
  {
    if xs != [] {
      assert (xs + ys)[1..] == xs[1..] + ys;
      SurvivorsAppend(xs[1..], ys);
    } else {
      assert xs + ys == ys;
    }
  }

  /**
   What one page request yields: the fields of the page's `tr.athing` rows in
   document order, or a transport failure.
   */
  datatype Page = Unavailable(reason: string) | Listing(rows: seq<StoryRow>)

  datatype FetchError = FetchFailed(page: nat, reason: string)

  /** The posts a listing page contributes (none for a failed page). */
  function PagePosts(page: Page): (r: seq<Post>)
    ensures page.Unavailable? ==> r == []
    ensures page.Listing? ==> |r| <= |page.rows|
  {
    match page
    case Unavailable(_) => []
    case Listing(rows) => Survivors(rows)
  }

  /** The posts of pages 1..k, page by page, each in row order. */
  function Flatten(fetch: nat -> Page, k: nat): (r: seq<Post>)
    ensures k == 0 ==> r == []
    ensures k > 0 ==> |PagePosts(fetch(k))| <= |r|
  {
    if k == 0 then [] else Flatten(fetch, k - 1) + PagePosts(fetch(k))
  }

  /** Gathering more pages only extends the posts gathered so far. */
  lemma {:induction false} FlattenPrefix(fetch: nat -> Page, k: nat, m: nat)
    requires k <= m
    ensures Flatten(fetch, k) <= Flatten(fetch, m)
    decreases m
  {
    if k < m {
      FlattenPrefix(fetch, k, m - 1);
    }
  }

  /**
   Once pages 1..k hold `n` posts, the first `n` posts of any longer run of
   pages are those same posts: the result does not depend on later pages.
   */
  lemma FirstPostsStable(fetch: nat -> Page, n: nat, k: nat, m: nat)
    requires k <= m && n <= |Flatten(fetch, k)|
    ensures n <= |Flatten(fetch, m)| && Flatten(fetch, m)[..n] == Flatten(fetch, k)[..n]
  {
    FlattenPrefix(fetch, k, m);
  }

  /**
   The walk over pages ends by page `bound`: page `bound` fails, or pages
   1..bound hold at least `n` posts. The source has no such bound; it keeps
   requesting pages until one of the two happens.
   */
  predicate StopsBy(fetch: nat -> Page, n: nat, bound: nat) {
    n > 0 ==> 1 <= bound && (fetch(bound).Unavailable? || n <= |Flatten(fetch, bound)|)
  }

  /**
   Pages 1..k were all listings, and pages 1..k-1 held fewer than `n` posts,
   so page k had to be requested.
   */
  predicate Walked(fetch: nat -> Page, n: nat, k: nat) {
    (forall j | 1 <= j <= k :: fetch(j).Listing?) &&
    (k >= 1 ==> |Flatten(fetch, k - 1)| < n)
  }

  /**
   While pages 1..k are listings holding fewer than `n` posts, the walk has
   not yet reached its bound, so page k+1 is still within it.
   */
  lemma WalkContinues(fetch: nat -> Page, n: nat, bound: nat, k: nat)
    requires StopsBy(fetch, n, bound)
    requires 0 < n && k <= bound
    requires Walked(fetch, n, k) && |Flatten(fetch, k)| < n
    ensures k < bound
  {
    assert 1 <= k ==> fetch(k).Listing?;
  }

  /**
   The first `n` posts of pages 1, 2, 3, ..., requesting a page only while
   fewer than `n` posts have been gathered. The walk requests pages
   1..`requested` in that order. A failed page ends it with that failure and
   no posts.
   */
  method FetchPosts(n: nat, fetch: nat -> Page, ghost bound: nat)
    returns (result: Result<seq<Post>, FetchError>, requested: nat)
    requires StopsBy(fetch, n, bound)
    ensures requested <= bound
    ensures requested == 0 <==> n == 0
    ensures forall k | 1 <= k < requested :: fetch(k).Listing?
    ensures requested >= 1 ==> |Flatten(fetch, requested - 1)| < n
    ensures result.Failure? <==> n > 0 && fetch(requested).Unavailable?
    ensures result.Failure? ==> result.error == FetchFailed(requested, fetch(requested).reason)
    ensures result.Success? ==>
      n <= |Flatten(fetch, requested)| &&
      result.value == Flatten(fetch, requested)[..n] &&
      |result.value| == n
  {
    var posts: seq<Post> := [];
    requested := 0;
    while |posts| < n
      invariant requested <= bound
      invariant Walked(fetch, n, requested)
      invariant posts == Flatten(fetch, requested)
      invariant requested > 0 ==> n > 0
      decreases bound - requested
    {
      WalkContinues(fetch, n, bound, requested);
      var page := fetch(requested + 1);
      requested := requested + 1;
      if page.Unavailable? {
        return Failure(FetchFailed(requested, page.reason)), requested;
      }
      posts := posts + Survivors(page.rows);
    }
    result := Success(posts[..n]);
  }

  /**
   No page is requested once the pages before it hold `n` posts: every page
   before the last one requested still left the walk short.
   */
  lemma EarlierPagesShort(fetch: nat -> Page, n: nat, k: nat, last: nat)
    requires 1 <= last && |Flatten(fetch, last - 1)| < n
    requires k < last
    ensures |Flatten(fetch, k)| < n
  {
    FlattenPrefix(fetch, k, last - 1);
  }

  /** What the program prints: the posts as a JSON array, or an abort on a failed page. */
  datatype Output = Printed(posts: seq<Post>) | Aborted(error: FetchError)

  /**
   The program: compute the count, print `[]` without requesting any page
   when it is 0, and otherwise print the posts `FetchPosts` gathers, or abort
   on the page that failed.
   */
  method Run(option: Option<nat>, fetch: nat -> Page, ghost bound: nat)
    returns (out: Output, requested: nat)
    requires StopsBy(fetch, PostCount(option), bound)
    ensures PostCount(option) == 0 ==> out == Printed([]) && requested == 0
    ensures requested <= bound
    ensures forall k | 1 <= k < requested :: fetch(k).Listing?
    ensures requested >= 1 ==> |Flatten(fetch, requested - 1)| < PostCount(option)
    ensures out.Aborted? <==> requested > 0 && fetch(requested).Unavailable?
    ensures out.Aborted? ==> out.error.page == requested
    ensures out.Printed? ==>
      var n := PostCount(option);
      |out.posts| == n <= MAX_POSTS &&
      n <= |Flatten(fetch, requested)| &&
      out.posts == Flatten(fetch, requested)[..n]
  {
    var n := PostCount(option);
    if n == 0 {
      return Printed([]), 0;
    }
    var result;
    result, requested := FetchPosts(n, fetch, bound);
    match result
    case Success(posts) => out := Printed(posts);
    case Failure(e) => out := Aborted(e);
  }

  /** The keys a post's JSON object carries: absent optional fields are left out. */
  function JsonKeys(p: Post): (keys: set<string>)
    ensures "title" in keys && "uri" in keys && "rank" in keys
    ensures "author" in keys <==> p.author.Some?
    ensures "points" in keys <==> p.points.Some?
    ensures "comments" in keys <==> p.comments.Some?
  {
    {"title", "uri", "rank"}
      + (if p.author.Some? then {"author"} else {})
      + (if p.points.Some? then {"points"} else {})
      + (if p.comments.Some? then {"comments"} else {})
  }

  /**
   A story row whose line 2 has no user, score or anchor element (a hiring
   notice) still yields a post, with author, points and comments absent and
   left out of its JSON object.
   */
  lemma PostWithoutLine2Data(a: AThing)
    requires UriAndTitle(a).Some? && Rank(a).Some? && Line2(a).Some?
    requires NoneMatch(Line2(a).value.row.descendants, UserMarker)
    requires NoneMatch(Line2(a).value.row.descendants, ScoreMarker)
    requires NoneMatch(Line2(a).value.row.descendants, Anchor)
    ensures TryFrom(a).Some?
    ensures TryFrom(a).value.rank == Rank(a).value
    ensures TryFrom(a).value.author.None? && TryFrom(a).value.points.None? && TryFrom(a).value.comments.None?
    ensures JsonKeys(TryFrom(a).value) == {"title", "uri", "rank"}
  {
    TryFromSpec(a);
    var keys := JsonKeys(TryFrom(a).value);
    assert forall k | k in keys :: k in {"title", "uri", "rank"};
  }

  /** The posts of one full listing page `k`: 30 of them, ranked 30(k-1)+1 to 30k. */
  predicate FullPage(posts: seq<Post>, k: nat) {
    |posts| == PAGE_SIZE &&
    forall i | 0 <= i < |posts| :: posts[i].rank == PAGE_SIZE * (k - 1) + i + 1
  }

  /** When every page is full, the posts of pages 1..k are ranked 1, 2, ..., 30k in order. */
  lemma {:induction false} FullPagesRankedInOrder(fetch: nat -> Page, k: nat)
    requires forall p | 1 <= p <= k :: FullPage(PagePosts(fetch(p)), p)
    ensures |Flatten(fetch, k)| == PAGE_SIZE * k
    ensures forall i | 0 <= i < |Flatten(fetch, k)| :: Flatten(fetch, k)[i].rank == i + 1
  {
    if k > 0 {
      FullPagesRankedInOrder(fetch, k - 1);
      assert FullPage(PagePosts(fetch(k)), k);
    }
  }
}
