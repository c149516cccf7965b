/**
 The interface of JEXL's generated parser, as seen from the engine: a tree of
 tagged nodes, or the throwable the parse ended with. The grammar itself is
 not modelled; the engine receives the parser as a function from text to
 `ParseResult`.
 */
module Parser {
  import opened JavaLang

  /** A parsed node: its syntactic kind (the node class the parser created)
      and its ordered children. */
  datatype Node = Node(tag: string, children: seq<Node>)

  /** The kind of the whole-program root, class `ASTJexlScript`. */
  const ScriptTag: string := "JexlScript"

  predicate IsScript(n: Node) {
    n.tag == ScriptTag
  }

  /** What one call of `Parser.parse` produces. */
  datatype ParseResult = Parsed(root: Node) | Threw(thrown: Throwable)
}
