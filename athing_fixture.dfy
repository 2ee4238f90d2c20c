/**
 The listing row used by the extractor unit tests (src/athing.rs:67-84),
 written as an abstract document, and what each extractor yields on it.
 */
module AthingFixture {
  import opened Wrappers
  import opened Dom
  import opened Numerals
  import opened Athing

  function TextNode(s: string): Node {
    Node(None, {}, None, NoChild, s, [])
  }

  /** An element whose only child is the text `s`. */
  function Leaf(tag: string, classes: set<string>, href: Option<string>, s: string): Node {
    Node(Some(tag), classes, href, TextChild(s), s, [TextNode(s)])
  }

  const Uri := "http://hardmath123.github.io/ambigrams.html"
  const Title := "Words that do Handstands"

  const RankSpan := Leaf("span", {"rank"}, None, "22.")
  const Story := Leaf("a", {"storylink"}, Some(Uri), Title)
  const SiteLink := Node(Some("a"), {}, Some("from?site=hardmath123.github.io"), ElementChild,
                         "hardmath123.github.io", [])

  /** The descendants of the `tr.athing` row that the extractors consult, in document order. */
  const RowDescendants := [
    Node(Some("td"), {"title"}, None, ElementChild, "22.", []),
    RankSpan,
    TextNode("22."),
    Node(Some("td"), {"votelinks"}, None, TextChild(" "), "", []),
    Node(Some("a"), {}, Some("vote?id=20820036&how=up&goto=news%3Fp%3D1"), TextChild(" "), "", []),
    Node(Some("div"), {"votearrow"}, None, NoChild, "", []),
    Node(Some("td"), {"title"}, None, ElementChild, Title, []),
    Story,
    TextNode(Title),
    SiteLink
  ]

  const Score := Leaf("span", {"score"}, None, "82 points")
  const User := Leaf("a", {"hnuser"}, Some("user?id=hardmath123"), "hardmath123")
  const CommentsLink := Leaf("a", {}, Some("item?id=20820036"), "14\U{00A0}comments")

  /** The descendants of the row that follows that the extractors consult, in document order. */
  const Line2Descendants := [
    Node(Some("td"), {}, None, NoChild, "", []),
    Node(Some("td"), {"subtext"}, None, TextChild(" "), "", []),
    Score,
    TextNode("82 points"),
    TextNode(" by "),
    User,
    Leaf("a", {}, Some("item?id=20820036"), "1 hour ago"),
    Leaf("a", {}, Some("hide?id=20820036&goto=news%3Fp%3D1"), "hide"),
    CommentsLink,
    TextNode("14\U{00A0}comments")
  ]

  const Line2Row := Node(Some("tr"), {}, None, TextChild(" "), "", Line2Descendants)

  const Fixture := AThing(
    Node(Some("tr"), {"athing"}, None, TextChild(" "), "", RowDescendants),
    [TextNode(" "), Line2Row, TextNode(" ")])

  lemma FixtureUriAndTitle()
    ensures UriAndTitle(Fixture) == Some((Uri, Title))
  {
    assert IsFirst(RowDescendants, StoryLink, 7);
  }

  lemma FixtureRank()
    ensures Rank(Fixture) == Some(22)
  {
    assert IsFirst(RowDescendants, RankMarker, 1);
    RankExample();
  }

  lemma FixtureLine2()
    ensures Line2(Fixture) == Some(AThingLine2(Line2Row))
  {
    assert IsFirst(Fixture.following, TableRow, 1);
  }

  lemma FixtureAuthor()
    ensures Author(AThingLine2(Line2Row)) == Some("hardmath123")
  {
    assert IsFirst(Line2Descendants, UserMarker, 5);
  }

  lemma FixturePoints()
    ensures Points(AThingLine2(Line2Row)) == Some(82)
  {
    assert IsFirst(Line2Descendants, ScoreMarker, 2);
    PointsExample();
  }

  /** Three anchors follow the author link; the count comes from the last one. */
  lemma FixtureComments()
    ensures Comments(AThingLine2(Line2Row)) == Some(14)
  {
    assert IsLast(Line2Descendants, Anchor, 8);
    CommentsExample();
  }
}
