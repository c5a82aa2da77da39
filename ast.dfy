/** The parsed schema tree the compiler consumes, in place of ANTLR's CommonTree. */
module Ast {

  /** Token types of the schema grammar that the compiler distinguishes.
      `NoToken` is a node without a token (ANTLR's nil list root);
      `OtherToken` is any other token, such as an identifier or a literal. */
  datatype Kind =
    | NoToken
    | DataToken
    | EnumToken
    | PropertyToken
    | OptionToken
    | PairToken
    | CommentToken
    | PrimitiveMarker
    | ListMarker
    | SetMarker
    | MapMarker
    | EofToken
    | OtherToken

  /** A tree node: its token type, its token text and its ordered children.
      An empty `children` stands for the absent (null) child list of a leaf. */
  datatype Node = Node(kind: Kind, text: string, children: seq<Node>)
}
