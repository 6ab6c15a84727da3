/** The parse tree of Go's text/template, as pkg/templates/fields.go inspects it. */
module TemplateSyntax {
  import opened Wrappers

  /** An abstract path: None is Go's nil slice (unknown value), Some([]) the root. */
  type Path = Option<seq<string>>

  /** Absent stands for a nil *ListNode or *PipeNode; Plain for text, comments,
      numbers and booleans, which the analysis never looks at. */
  datatype Node =
    | Absent
    | Plain(number: int)
    | Break
    | Continue
    | NilWord
    | Dot
    | Str(text: string)
    | Identifier(ident: string)
    | Field(idents: seq<string>)
    | Variable(name: string, idents: seq<string>)
    | Chain(base: Node, fields: seq<string>)
    | Command(args: seq<Node>)
    | Pipe(decl: seq<string>, isAssign: bool, cmds: seq<Node>)
    | Action(pipe: Node)
    | List(nodes: seq<Node>)
    | If(pipe: Node, list: Node, elseList: Node)
    | With(pipe: Node, list: Node, elseList: Node)
    | Range(pipe: Node, list: Node, elseList: Node)
    | Template(template: string, pipe: Node)
  {
    /** `n.Pipe.Decl`: the variables that a branch declares. */
    function DeclOf(): seq<string> {
      if Pipe? then decl else []
    }
  }

  /** A parsed format: its main tree and the trees it defines by name. */
  datatype Parsed = ParseError | Parsed(root: Node, defined: map<string, Node>)

  predicate IndexOrGet(node: Node) {
    node.Identifier? && (node.ident == "index" || node.ident == "get")
  }

  /** Every name that a field path could start with when it is read off the tree. */
  function Idents(node: Node): set<string> {
    match node
    case Str(text) => {text}
    case Field(idents) => set s | s in idents
    case Variable(_, idents) => set s | s in idents
    case Chain(base, fields) => Idents(base) + set s | s in fields
    case Command(args) => IdentsOfAll(args)
    case Pipe(_, _, cmds) => IdentsOfAll(cmds)
    case Action(pipe) => Idents(pipe)
    case List(nodes) => IdentsOfAll(nodes)
    case If(pipe, list, elseList) => Idents(pipe) + Idents(list) + Idents(elseList)
    case With(pipe, list, elseList) => Idents(pipe) + Idents(list) + Idents(elseList)
    case Range(pipe, list, elseList) => Idents(pipe) + Idents(list) + Idents(elseList)
    case Template(_, pipe) => Idents(pipe)
    case _ => {}
  }

  function IdentsOfAll(nodes: seq<Node>): set<string> {
    if nodes == [] then {} else Idents(nodes[0]) + IdentsOfAll(nodes[1..])
  }

  /** Every template name that the tree calls. */
  function Calls(node: Node): set<string> {
    match node
    case Chain(base, _) => Calls(base)
    case Command(args) => CallsOfAll(args)
    case Pipe(_, _, cmds) => CallsOfAll(cmds)
    case Action(pipe) => Calls(pipe)
    case List(nodes) => CallsOfAll(nodes)
    case If(pipe, list, elseList) => Calls(pipe) + Calls(list) + Calls(elseList)
    case With(pipe, list, elseList) => Calls(pipe) + Calls(list) + Calls(elseList)
    case Range(pipe, list, elseList) => Calls(pipe) + Calls(list) + Calls(elseList)
    case Template(name, pipe) => {name} + Calls(pipe)
    case _ => {}
  }

  function CallsOfAll(nodes: seq<Node>): set<string> {
    if nodes == [] then {} else Calls(nodes[0]) + CallsOfAll(nodes[1..])
  }
}
