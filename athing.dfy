/**
 Field extraction from one listing row (`tr.athing`) and the row that
 follows it ("line 2"). Every query is a search over the row's descendants
 or its following siblings in document order.
 */
module Athing {
  import opened Wrappers
  import opened Dom
  import opened Numerals

  const StoryLink := Class("storylink")
  const RankMarker := Class("rank")
  const UserMarker := Class("hnuser")
  const ScoreMarker := Class("score")
  const Anchor := Name("a")
  const TableRow := Name("tr")

  /** A `tr.athing` node together with the siblings that follow it, in document order. */
  datatype AThing = AThing(row: Node, following: seq<Node>)

  /** The `tr` that follows a `tr.athing` node. */
  datatype AThingLine2 = AThingLine2(row: Node)

  /**
   The number at the start of a node's first child: absent when the node has
   no first child or that child is not text; otherwise the number prefix of
   the child's text.
   */
  function ExtractNumberPrefix(n: Node): (r: Option<nat>)
    ensures !n.firstChild.TextChild? ==> r.None?
    ensures n.firstChild.TextChild? ==> r == NumberPrefix(n.firstChild.content)
  {
    match n.firstChild
    case TextChild(t) => NumberPrefix(t)
    case _ => None
  }

  /**
   The target and text of the first story link below the row; absent when
   there is no story link or the first one has no `href`.
   */
  function UriAndTitle(a: AThing): (r: Option<(string, string)>)
    ensures NoneMatch(a.row.descendants, StoryLink) ==> r.None?
    ensures forall i | IsFirst(a.row.descendants, StoryLink, i) ::
      var link := a.row.descendants[i];
      r == if link.href.Some? then Some((link.href.value, link.text)) else None
  {
    var ds := a.row.descendants;
    match FindFirst(ds, StoryLink)
    case None => None
    case Some(i) =>
      match ds[i].href
      case None => None
      case Some(href) => Some((href, ds[i].text))
  }

  /** The number of the first rank marker below the row. */
  function Rank(a: AThing): (r: Option<nat>)
    ensures NoneMatch(a.row.descendants, RankMarker) ==> r.None?
    ensures forall i | IsFirst(a.row.descendants, RankMarker, i) ::
      r == ExtractNumberPrefix(a.row.descendants[i])
  {
    var ds := a.row.descendants;
    match FindFirst(ds, RankMarker)
    case None => None
    case Some(i) => ExtractNumberPrefix(ds[i])
  }

  /** The first following sibling that is a `tr`, skipping text and other nodes. */
  function Line2(a: AThing): (r: Option<AThingLine2>)
    ensures r.None? <==> NoneMatch(a.following, TableRow)
    ensures forall i | IsFirst(a.following, TableRow, i) ::
      r == Some(AThingLine2(a.following[i]))
  {
    match FindFirst(a.following, TableRow)
    case None => None
    case Some(i) => Some(AThingLine2(a.following[i]))
  }

  /** The text of the first user marker below line 2. */
  function Author(l: AThingLine2): (r: Option<string>)
    ensures r.None? <==> NoneMatch(l.row.descendants, UserMarker)
    ensures forall i | IsFirst(l.row.descendants, UserMarker, i) ::
      r == Some(l.row.descendants[i].text)
  {
    var ds := l.row.descendants;
    match FindFirst(ds, UserMarker)
    case None => None
    case Some(i) => Some(ds[i].text)
  }

  /** The number of the first score marker below line 2. */
  function Points(l: AThingLine2): (r: Option<nat>)
    ensures NoneMatch(l.row.descendants, ScoreMarker) ==> r.None?
    ensures forall i | IsFirst(l.row.descendants, ScoreMarker, i) ::
      r == ExtractNumberPrefix(l.row.descendants[i])
  {
    var ds := l.row.descendants;
    match FindFirst(ds, ScoreMarker)
    case None => None
    case Some(i) => ExtractNumberPrefix(ds[i])
  }

  /** The number of the LAST anchor below line 2, which is the comments link. */
  function Comments(l: AThingLine2): (r: Option<nat>)
    ensures NoneMatch(l.row.descendants, Anchor) ==> r.None?
    ensures forall i | IsLast(l.row.descendants, Anchor, i) ::
      r == ExtractNumberPrefix(l.row.descendants[i])
  {
    var ds := l.row.descendants;
    match FindLast(ds, Anchor)
    case None => None
    case Some(i) => ExtractNumberPrefix(ds[i])
  }

  /** What line 2 yields: author, points and comments, each possibly absent. */
  datatype Line2Fields = Line2Fields(author: Option<string>, points: Option<nat>, comments: Option<nat>)

  /**
   Everything the extractors read from one story row and its line 2. The
   story link is always present: the source aborts on a row without one.
   */
  datatype StoryRow = StoryRow(uri: string, title: string, rank: Option<nat>, line2: Option<Line2Fields>)

  /** The fields of a story row, each as its extractor yields it. */
  function Fields(a: AThing): (r: StoryRow)
    requires UriAndTitle(a).Some?
    ensures (r.uri, r.title) == UriAndTitle(a).value && r.rank == Rank(a)
    ensures r.line2.None? <==> Line2(a).None?
    ensures r.line2.Some? ==>
      var l := Line2(a).value;
      r.line2.value == Line2Fields(Author(l), Points(l), Comments(l))
  {
    var (uri, title) := UriAndTitle(a).value;
    var line2 := match Line2(a)
      case None => None
      case Some(l) => Some(Line2Fields(Author(l), Points(l), Comments(l)));
    StoryRow(uri, title, Rank(a), line2)
  }

  /** A rank is absent exactly when there is no rank marker or its text has no leading digit. */
  lemma RankAbsent(a: AThing)
    ensures Rank(a).None? <==>
      NoneMatch(a.row.descendants, RankMarker) ||
      exists i | IsFirst(a.row.descendants, RankMarker, i) ::
        ExtractNumberPrefix(a.row.descendants[i]).None?
  {
    var f := FindFirst(a.row.descendants, RankMarker);
    if f.Some? {
      assert IsFirst(a.row.descendants, RankMarker, f.value);
    }
  }

  /**
   On a post with no comments the last anchor reads "discuss", so the count
   is absent rather than zero.
   */
  lemma DiscussHasNoCount(l: AThingLine2, i: int)
    requires IsLast(l.row.descendants, Anchor, i)
    requires l.row.descendants[i].firstChild == TextChild("discuss")
    ensures Comments(l) == None
  {
    NoNumberExamples();
  }
}
