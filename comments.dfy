/** Comment nodes (TypeParser.parseCommentTree): the comment is the text of
    each child followed by one space, in order. */
module Comments {
  import opened Ast
  import opened Errors

  /** The text a comment with these children yields. */
  function CommentText(cs: seq<Node>): string
  {
    if cs == [] then "" else cs[0].text + " " + CommentText(cs[1..])
  }

  /** A comment node's text; a comment without children has a null child list. */
  function CommentOf(n: Node): Result<string>
  {
    if |n.children| == 0 then Err(NullReference) else Ok(CommentText(n.children))
  }

  /** The summed lengths of the children's texts, one separator each. */
  function TextLengths(cs: seq<Node>): nat
  {
    if cs == [] then 0 else |cs[0].text| + 1 + TextLengths(cs[1..])
  }

  /** The comment of a concatenation is the concatenation of the comments: the
      children contribute in order and independently of each other. */
  lemma {:induction false} CommentTextAppend(a: seq<Node>, b: seq<Node>)
    ensures CommentText(a + b) == CommentText(a) + CommentText(b)
  {
    if a != [] {
      assert (a + b)[1..] == a[1..] + b;
      CommentTextAppend(a[1..], b);
    } else {
      assert a + b == b;
    }
  }

  /** The comment's length is the sum over the children of text length plus one. */
  lemma {:induction false} CommentLength(cs: seq<Node>)
    ensures |CommentText(cs)| == TextLengths(cs)
  {
    if cs != [] {
      CommentLength(cs[1..]);
    }
  }

  /** Each child's text, then a space, sits at the offset given by the lengths before it. */
  lemma {:induction false} CommentTextAt(cs: seq<Node>, j: nat)
    requires j < |cs|
    ensures TextLengths(cs[..j]) + |cs[j].text| + 1 <= |CommentText(cs)|
    ensures CommentText(cs)[TextLengths(cs[..j])..TextLengths(cs[..j]) + |cs[j].text|] == cs[j].text
    ensures CommentText(cs)[TextLengths(cs[..j]) + |cs[j].text|] == ' '
  {
    assert cs == cs[..j] + cs[j..];
    CommentTextAppend(cs[..j], cs[j..]);
    CommentLength(cs[..j]);
    var pre := CommentText(cs[..j]);
    var rest := CommentText(cs[j..]);
    assert rest == cs[j].text + " " + CommentText(cs[j + 1..]) by {
      assert cs[j..][1..] == cs[j + 1..];
    }
    assert CommentText(cs) == pre + rest;
  }

  /** parseCommentTree: the StringBuilder loop. */
  method ParseCommentTree(n: Node) returns (r: Result<string>)
    ensures r == CommentOf(n)
  {
    if |n.children| == 0 {
      return Err(NullReference);
    }
    var builder := "";
    for i := 0 to |n.children|
      invariant builder == CommentText(n.children[..i])
    {
      var child := n.children[i];
      assert n.children[..i + 1] == n.children[..i] + [child];
      CommentTextAppend(n.children[..i], [child]);
      builder := builder + child.text + " ";
    }
    assert n.children[..|n.children|] == n.children;
    return Ok(builder);
  }
}
