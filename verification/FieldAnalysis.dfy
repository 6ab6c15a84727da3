/** pkg/templates/fields.go: the scope-tracking walk that describes which root
    keys a template reads.

    `Walk` specifies the recursive closure, threading the facts that it mutates; its
    recursion ends although templates may call each other with paths that keep
    growing, because every expansion uses up a visit key from a finite set. */
module FieldAnalysis {
  import opened Wrappers
  import opened TemplateSyntax
  import Strings

  type Vars = map<string, Path>

  /** What the walk mutates: `result.Advanced`, `found` and `visited`. */
  datatype Facts = Facts(advanced: bool, found: map<string, bool>, visited: set<string>)

  const AUTOMATIC: set<string> := {"member", "budget", "amount", "cotisations", "expenses"}

  /** White space as Unicode defines it for strings.TrimSpace. */
  predicate IsSpace(c: char) {
    || '\t' <= c <= '\r' || c == ' ' || c == '\U{85}' || c == '\U{A0}' || c == '\U{1680}'
    || '\U{2000}' <= c <= '\U{200A}' || c == '\U{2028}' || c == '\U{2029}' || c == '\U{202F}'
    || c == '\U{205F}' || c == '\U{3000}'
  }

  /** A name that strings.TrimSpace would shorten. */
  predicate Padded(s: string) {
    s != "" && (IsSpace(s[0]) || IsSpace(s[|s| - 1]))
  }

  /** strings.TrimSpace. */
  function TrimSpace(s: string): string
    decreases |s|
  {
    if s != "" && IsSpace(s[0]) then TrimSpace(s[1..])
    else if s != "" && IsSpace(s[|s| - 1]) then TrimSpace(s[..|s| - 1])
    else s
  }

  lemma {:induction false} TrimShortens(s: string)
    ensures |TrimSpace(s)| <= |s|
    decreases |s|
  {
    if s != "" && IsSpace(s[0]) {
      TrimShortens(s[1..]);
    } else if s != "" && IsSpace(s[|s| - 1]) {
      TrimShortens(s[..|s| - 1]);
    }
  }

  lemma PaddedIff(s: string)
    ensures Padded(s) <==> TrimSpace(s) != s
  {
    if s != "" {
      TrimShortens(s[1..]);
      TrimShortens(s[..|s| - 1]);
    }
  }

  function PathOf(vars: Vars, name: string): Path {
    if name in vars then vars[name] else None
  }

  /** `append(base, tail...)`, nil when the base is unknown. */
  function Extend(base: Path, tail: seq<string>): Path {
    if base.None? then None else Some(base.value + tail)
  }

  /** The texts of literal keys, or None when one of them is computed. */
  function LiteralKeys(args: seq<Node>): Path {
    if args == [] then Some([])
    else if !args[0].Str? then None
    else
      var rest := LiteralKeys(args[1..]);
      if rest.None? then None else Some([args[0].text] + rest.value)
  }

  function FieldPath(node: Node, dot: Path, vars: Vars): Path {
    match node
    case Dot => dot
    case Field(idents) => Extend(dot, idents)
    case Variable(name, idents) => Extend(PathOf(vars, name), idents)
    case Chain(base, fields) => Extend(FieldPath(base, dot, vars), fields)
    case Pipe(_, _, cmds) => if |cmds| == 1 then FieldPath(cmds[0], dot, vars) else None
    case Command(args) =>
      if |args| == 1 then FieldPath(args[0], dot, vars)
      else if |args| >= 3 && IndexOrGet(args[0]) then
        var keys := LiteralKeys(args[2..]);
        if keys.None? then None else Extend(FieldPath(args[1], dot, vars), keys.value)
      else None
    case _ => None
  }

  /** The `add` closure. */
  function Add(path: Path, complex: bool, st: Facts): (r: Facts)
    ensures st.advanced ==> r.advanced
    ensures st.found.Keys <= r.found.Keys
    ensures r.visited == st.visited
    ensures !r.advanced && path.Some? && path.value != [] ==> path.value[0] in r.found.Keys + AUTOMATIC
  {
    if path.None? || path.value == [] then st
    else if path.value[0] == "" || Padded(path.value[0]) then st.(advanced := true)
    else if path.value[0] in AUTOMATIC then st
    else
      var name := path.value[0];
      st.(found := st.found[name := (name in st.found && st.found[name]) || complex || |path.value| > 1])
  }

  /** Whether some argument is the whole root context. */
  predicate PassesRoot(args: seq<Node>, dot: Path, vars: Vars) {
    exists i :: 0 <= i < |args| && FieldPath(args[i], dot, vars) == Some([])
  }

  /** What a CommandNode adds before its arguments are walked. */
  function CommandFacts(args: seq<Node>, dot: Path, vars: Vars, st: Facts): (r: Facts)
    ensures st.advanced ==> r.advanced
    ensures st.found.Keys <= r.found.Keys
    ensures r.visited == st.visited
  {
    var st1 :=
      if |args| > 1 && args[0].Identifier? && !IndexOrGet(args[0]) && PassesRoot(args[1..], dot, vars)
      then st.(advanced := true) else st;
    if |args| >= 3 && IndexOrGet(args[0]) then
      var p := FieldPath(Command(args), dot, vars);
      var st2 := Add(FieldPath(args[1], dot, vars), true, st1);
      if p.None? then st2.(advanced := true) else Add(p, false, st2)
    else st1
  }

  /** A context that must be known for the analysis to be complete. */
  function KnownOr(p: Path, st: Facts): Facts {
    if p.None? then st.(advanced := true) else st
  }

  /** The variable that a pipeline with one declaration binds. */
  function Declare(pipe: Node, dot: Path, vars: Vars): Vars
    requires pipe.Pipe?
  {
    if |pipe.decl| == 1 then vars[pipe.decl[0] := FieldPath(pipe, dot, vars)] else vars
  }

  /** The key under which a template call is remembered. */
  function VisitKey(name: string, p: Path): string {
    name + "/" + (if p.None? then "unknown" else if p.value == [] then "" else p.value[0])
  }

  // ---- Termination: everything the walk can visit is fixed by the trees ----

  /** The called names and the first path elements that occur in a template set, and
      the finite set of visit keys over them, which the walk uses up. */
  datatype Alphabet = Alphabet(names: set<string>, firsts: set<string>, keys: set<string>)

  ghost predicate KeysComplete(a: Alphabet) {
    forall n, p :: n in a.names && PathWithin(p, a) ==> VisitKey(n, p) in a.keys
  }

  /** The names in a tree belong to an alphabet. */
  ghost predicate NodeWithin(node: Node, a: Alphabet) {
    match node
    case Str(text) => text in a.firsts
    case Field(idents) => forall s :: s in idents ==> s in a.firsts
    case Variable(_, idents) => forall s :: s in idents ==> s in a.firsts
    case Chain(base, fields) => NodeWithin(base, a) && forall s :: s in fields ==> s in a.firsts
    case Command(args) => NodesWithin(args, a)
    case Pipe(_, _, cmds) => NodesWithin(cmds, a)
    case Action(pipe) => NodeWithin(pipe, a)
    case List(nodes) => NodesWithin(nodes, a)
    case If(pipe, list, elseList) => NodeWithin(pipe, a) && NodeWithin(list, a) && NodeWithin(elseList, a)
    case With(pipe, list, elseList) => NodeWithin(pipe, a) && NodeWithin(list, a) && NodeWithin(elseList, a)
    case Range(pipe, list, elseList) => NodeWithin(pipe, a) && NodeWithin(list, a) && NodeWithin(elseList, a)
    case Template(name, pipe) => name in a.names && NodeWithin(pipe, a)
    case _ => true
  }

  ghost predicate NodesWithin(nodes: seq<Node>, a: Alphabet) {
    nodes == [] || (NodeWithin(nodes[0], a) && NodesWithin(nodes[1..], a))
  }

  ghost predicate PathWithin(p: Path, a: Alphabet) {
    p.Some? && p.value != [] ==> p.value[0] in a.firsts
  }

  ghost predicate ScopeWithin(dot: Path, vars: Vars, a: Alphabet) {
    && PathWithin(dot, a)
    && forall x :: x in vars ==> PathWithin(vars[x], a)
  }

  ghost predicate DefinedWithin(defined: map<string, Node>, a: Alphabet) {
    && "[]" in a.firsts && KeysComplete(a)
    && forall n :: n in defined ==> NodeWithin(defined[n], a)
  }

  /** A tree is within any alphabet that holds its names. */
  lemma {:induction false} OwnAlphabet(node: Node, a: Alphabet)
    requires Idents(node) <= a.firsts && Calls(node) <= a.names
    ensures NodeWithin(node, a)
    decreases node
  {
    match node
    case Chain(base, _) => OwnAlphabet(base, a);
    case Command(args) => OwnAlphabetOfAll(args, a);
    case Pipe(_, _, cmds) => OwnAlphabetOfAll(cmds, a);
    case Action(pipe) => OwnAlphabet(pipe, a);
    case List(nodes) => OwnAlphabetOfAll(nodes, a);
    case If(pipe, list, elseList) => OwnAlphabet(pipe, a); OwnAlphabet(list, a); OwnAlphabet(elseList, a);
    case With(pipe, list, elseList) => OwnAlphabet(pipe, a); OwnAlphabet(list, a); OwnAlphabet(elseList, a);
    case Range(pipe, list, elseList) => OwnAlphabet(pipe, a); OwnAlphabet(list, a); OwnAlphabet(elseList, a);
    case Template(_, pipe) => OwnAlphabet(pipe, a);
    case _ =>
  }

  lemma {:induction false} OwnAlphabetOfAll(nodes: seq<Node>, a: Alphabet)
    requires IdentsOfAll(nodes) <= a.firsts && CallsOfAll(nodes) <= a.names
    ensures NodesWithin(nodes, a)
    decreases nodes
  {
    if nodes != [] {
      assert Idents(nodes[0]) <= IdentsOfAll(nodes) && IdentsOfAll(nodes[1..]) <= IdentsOfAll(nodes);
      assert Calls(nodes[0]) <= CallsOfAll(nodes) && CallsOfAll(nodes[1..]) <= CallsOfAll(nodes);
      OwnAlphabet(nodes[0], a);
      OwnAlphabetOfAll(nodes[1..], a);
    }
  }

  lemma {:induction false} LiteralKeysWithin(args: seq<Node>, a: Alphabet)
    requires NodesWithin(args, a)
    ensures PathWithin(LiteralKeys(args), a)
  {}

  lemma {:induction false} FieldPathWithin(node: Node, dot: Path, vars: Vars, a: Alphabet)
    requires NodeWithin(node, a) && ScopeWithin(dot, vars, a)
    ensures PathWithin(FieldPath(node, dot, vars), a)
    decreases node
  {
    match node
    case Chain(base, fields) => FieldPathWithin(base, dot, vars, a);
    case Pipe(_, _, cmds) =>
      if |cmds| == 1 {
        FieldPathWithin(cmds[0], dot, vars, a);
      }
    case Command(args) =>
      if |args| == 1 {
        FieldPathWithin(args[0], dot, vars, a);
      } else if |args| >= 3 {
        assert NodesWithin(args[1..], a);
        assert NodesWithin(args[1..][1..], a);
        assert args[1..][1..] == args[2..];
        FieldPathWithin(args[1], dot, vars, a);
        LiteralKeysWithin(args[2..], a);
      }
    case _ =>
  }

  lemma KeysShrink(a: Alphabet, visited: set<string>, key: string)
    requires key in a.keys && key !in visited
    ensures |a.keys - (visited + {key})| < |a.keys - visited|
  {
    assert a.keys - (visited + {key}) == (a.keys - visited) - {key};
  }

  lemma KeysMonotone(a: Alphabet, visited: set<string>, more: set<string>)
    requires visited <= more
    ensures |a.keys - more| <= |a.keys - visited|
  {
    assert a.keys - visited == (a.keys - more) + ((a.keys - visited) * more);
  }

  // ---- The walk ----

  /** The variables in scope after a node, and the facts gathered so far. */
  datatype Walked = Walked(vars: Vars, facts: Facts)

  /** The part of the scope that a range body sees: its element and its variables. */
  function ElementPath(p: Path): Path {
    Extend(p, ["[]"])
  }

  /** The loop over `n.Pipe.Decl`: the last variable is the element, others unknown. */
  function BindRange(vars: Vars, decl: seq<string>, element: Path): (r: Vars)
    decreases |decl|
  {
    if decl == [] then vars
    else if |decl| == 1 then vars[decl[0] := element]
    else BindRange(vars[decl[0] := None], decl[1..], element)
  }

  lemma {:induction false} BindRangeWithin(vars: Vars, decl: seq<string>, dot: Path, element: Path, a: Alphabet)
    requires ScopeWithin(dot, vars, a) && PathWithin(element, a)
    ensures ScopeWithin(element, BindRange(vars, decl, element), a)
    decreases |decl|
  {
    if |decl| > 1 {
      BindRangeWithin(vars[decl[0] := None], decl[1..], dot, element, a);
    }
  }

  ghost predicate WalkReady(defined: map<string, Node>, dot: Path, vars: Vars, st: Facts, a: Alphabet) {
    && DefinedWithin(defined, a)
    && ScopeWithin(dot, vars, a)
    && st.visited <= a.keys
  }

  /** What every walk keeps: the scope stays within the alphabet, visited keys are
      only added and stay within the finite universe, no finding is withdrawn. */
  ghost predicate Progress(dot: Path, st: Facts, r: Walked, a: Alphabet) {
    && ScopeWithin(dot, r.vars, a)
    && st.visited <= r.facts.visited <= a.keys
    && (st.advanced ==> r.facts.advanced)
    && st.found.Keys <= r.facts.found.Keys
  }

  ghost function Walk(node: Node, defined: map<string, Node>, dot: Path, vars: Vars, st: Facts, a: Alphabet): (r: Walked)
    requires NodeWithin(node, a) && WalkReady(defined, dot, vars, st, a)
    ensures Progress(dot, st, r, a)
    decreases |a.keys - st.visited|, node, 2
  {
    match node
    case List(nodes) => WalkAll(nodes, defined, dot, vars, st, a)
    case Action(pipe) => Walk(pipe, defined, dot, vars, st, a)
    case Pipe(_, _, _) => WalkPipe(node, defined, dot, vars, st, a)
    case Command(args) =>
      WalkAll(args, defined, dot, vars, CommandFacts(args, dot, vars, st), a)
    case Field(_) => Walked(vars, Add(FieldPath(node, dot, vars), false, st))
    case Variable(_, _) => Walked(vars, Add(FieldPath(node, dot, vars), false, st))
    case Chain(base, _) =>
      Walk(base, defined, dot, vars, Add(FieldPath(node, dot, vars), false, st), a)
    case If(_, _, _) => Walked(vars, WalkBranch(node, defined, dot, vars, st, a))
    case Range(_, _, _) => Walked(vars, WalkBranch(node, defined, dot, vars, st, a))
    case With(_, _, _) => Walked(vars, WalkBranch(node, defined, dot, vars, st, a))
    case Template(_, _) => WalkTemplate(node, defined, dot, vars, st, a)
    case _ => Walked(vars, st)
  }

  /** A pipeline: its commands in order, then the variable it declares. */
  ghost function WalkPipe(node: Node, defined: map<string, Node>, dot: Path, vars: Vars, st: Facts, a: Alphabet): (r: Walked)
    requires node.Pipe?
    requires NodeWithin(node, a) && WalkReady(defined, dot, vars, st, a)
    ensures Progress(dot, st, r, a)
    decreases |a.keys - st.visited|, node, 1
  {
    var w := WalkAll(node.cmds, defined, dot, vars, st, a);
    FieldPathWithin(node, dot, w.vars, a);
    w.(vars := Declare(node, dot, w.vars))
  }

  /** The context that the body of a branch sees. */
  function BodyDot(node: Node, dot: Path, vars: Vars): Path {
    match node
    case Range(pipe, _, _) => ElementPath(FieldPath(pipe, dot, vars))
    case With(pipe, _, _) => FieldPath(pipe, dot, vars)
    case _ => dot
  }

  /** The variables that the body of a branch sees once its pipeline declared `local`. */
  function BodyVars(node: Node, dot: Path, vars: Vars, local: Vars): Vars {
    match node
    case Range(pipe, _, _) => BindRange(local, pipe.DeclOf(), BodyDot(node, dot, vars))
    case _ => local
  }

  /** What a branch adds once its pipeline has been walked. */
  function BranchFacts(node: Node, dot: Path, vars: Vars, st: Facts): (r: Facts)
    ensures st.advanced ==> r.advanced
    ensures st.found.Keys <= r.found.Keys
    ensures r.visited == st.visited
  {
    match node
    case Range(pipe, _, _) => KnownOr(FieldPath(pipe, dot, vars), Add(FieldPath(pipe, dot, vars), true, st))
    case With(pipe, _, _) => KnownOr(FieldPath(pipe, dot, vars), st)
    case _ => st
  }

  lemma BodyScopeWithin(node: Node, dot: Path, vars: Vars, local: Vars, a: Alphabet)
    requires node.If? || node.With? || node.Range?
    requires NodeWithin(node, a) && "[]" in a.firsts && ScopeWithin(dot, vars, a) && ScopeWithin(dot, local, a)
    ensures ScopeWithin(BodyDot(node, dot, vars), BodyVars(node, dot, vars, local), a)
  {
    FieldPathWithin(node.pipe, dot, vars, a);
    if node.Range? {
      BindRangeWithin(local, node.pipe.DeclOf(), dot, BodyDot(node, dot, vars), a);
    }
  }

  /** `if`, `range` and `with`: the pipeline in a scope of its own, then the bodies. */
  ghost function WalkBranch(node: Node, defined: map<string, Node>, dot: Path, vars: Vars, st: Facts, a: Alphabet): (r: Facts)
    requires node.If? || node.With? || node.Range?
    requires NodeWithin(node, a) && WalkReady(defined, dot, vars, st, a)
    ensures Progress(dot, st, Walked(vars, r), a)
    decreases |a.keys - st.visited|, node, 1
  {
    var w := Walk(node.pipe, defined, dot, vars, st, a);
    KeysMonotone(a, st.visited, w.facts.visited);
    BodyScopeWithin(node, dot, vars, w.vars, a);
    WalkBodies(node, defined, BodyDot(node, dot, vars), BodyVars(node, dot, vars, w.vars), dot, w.vars,
               BranchFacts(node, dot, vars, w.facts), a)
  }

  /** The body of a branch, then its alternative, each in a scope of its own. */
  ghost function WalkBodies(node: Node, defined: map<string, Node>, bodyDot: Path, bodyVars: Vars,
                            dot: Path, vars: Vars, st: Facts, a: Alphabet): (r: Facts)
    requires node.If? || node.With? || node.Range?
    requires NodeWithin(node, a) && WalkReady(defined, dot, vars, st, a) && ScopeWithin(bodyDot, bodyVars, a)
    ensures Progress(dot, st, Walked(vars, r), a)
    decreases |a.keys - st.visited|, node, 0
  {
    var body := Walk(node.list, defined, bodyDot, bodyVars, st, a);
    KeysMonotone(a, st.visited, body.facts.visited);
    Walk(node.elseList, defined, dot, vars, body.facts, a).facts
  }

  ghost function WalkTemplate(node: Node, defined: map<string, Node>, dot: Path, vars: Vars, st: Facts, a: Alphabet): (r: Walked)
    requires node.Template?
    requires NodeWithin(node, a) && WalkReady(defined, dot, vars, st, a)
    ensures Progress(dot, st, r, a)
    decreases |a.keys - st.visited|, node, 1
  {
    var w := Walk(node.pipe, defined, dot, vars, st, a);
    KeysMonotone(a, st.visited, w.facts.visited);
    Walked(w.vars, WalkCall(node, defined, dot, w.vars, w.facts, a))
  }

  /** A template call, once its pipeline has been walked: each visit key is expanded once. */
  ghost function WalkCall(node: Node, defined: map<string, Node>, dot: Path, vars: Vars, st: Facts, a: Alphabet): (r: Facts)
    requires node.Template?
    requires NodeWithin(node, a) && WalkReady(defined, dot, vars, st, a)
    ensures Progress(dot, st, Walked(vars, r), a)
    decreases |a.keys - st.visited|, node, 0
  {
    var p := FieldPath(node.pipe, dot, vars);
    FieldPathWithin(node.pipe, dot, vars, a);
    var st1 := KnownOr(p, st);
    var key := VisitKey(node.template, p);
    if key in st1.visited then st1
    else
      KeysShrink(a, st1.visited, key);
      var st2 := st1.(visited := st1.visited + {key});
      if node.template in defined then
        Walk(defined[node.template], defined, p, map["$" := p], st2, a).facts
      else st2.(advanced := true)
  }

  ghost function WalkAll(nodes: seq<Node>, defined: map<string, Node>, dot: Path, vars: Vars, st: Facts, a: Alphabet): (r: Walked)
    requires NodesWithin(nodes, a) && WalkReady(defined, dot, vars, st, a)
    ensures Progress(dot, st, r, a)
    decreases |a.keys - st.visited|, nodes, 0
  {
    if nodes == [] then Walked(vars, st)
    else
      var w := Walk(nodes[0], defined, dot, vars, st, a);
      KeysMonotone(a, st.visited, w.facts.visited);
      WalkAll(nodes[1..], defined, dot, w.vars, w.facts, a)
  }

  // ---- The description of several formats ----

  /** The trees of a parsed format, over the alphabet of all of them. */
  ghost function AlphabetOf(format: Parsed): (a: Alphabet)
    requires format.Parsed?
  {
    var names := Calls(format.root) + set n, x | n in format.defined && x in Calls(format.defined[n]) :: x;
    var firsts := {"[]"} + Idents(format.root) + set n, x | n in format.defined && x in Idents(format.defined[n]) :: x;
    Alphabet(names, firsts, set n, x | n in names && x in firsts + {"unknown", ""} :: n + "/" + x)
  }

  lemma RootReady(format: Parsed, st: Facts)
    requires format.Parsed? && st.visited == {}
    ensures NodeWithin(format.root, AlphabetOf(format))
    ensures WalkReady(format.defined, Some([]), map["$" := Some([])], st, AlphabetOf(format))
  {
    var a := AlphabetOf(format);
    OwnAlphabet(format.root, a);
    forall n | n in format.defined
      ensures NodeWithin(format.defined[n], a)
    {
      OwnAlphabet(format.defined[n], a);
    }
    forall n, p | n in a.names && PathWithin(p, a)
      ensures VisitKey(n, p) in a.keys
    {
      var x := if p.None? then "unknown" else if p.value == [] then "" else p.value[0];
      assert VisitKey(n, p) == n + "/" + x;
    }
  }

  /** The facts after one more format; `visited` starts empty for each. */
  ghost function Described(format: Parsed, st: Facts): (r: Facts)
    ensures st.advanced ==> r.advanced
    ensures st.found.Keys <= r.found.Keys
  {
    if format.ParseError? then st.(advanced := true)
    else
      var st0 := st.(visited := {});
      RootReady(format, st0);
      Walk(format.root, format.defined, Some([]), map["$" := Some([])], st0, AlphabetOf(format)).facts
  }

  ghost function DescribedAll(formats: seq<Parsed>, st: Facts): (r: Facts)
    ensures st.advanced ==> r.advanced
    ensures st.found.Keys <= r.found.Keys
  {
    if formats == [] then st else DescribedAll(formats[1..], Described(formats[0], st))
  }

  const NOTHING := Facts(false, map[], {})

  datatype CustomField = CustomField(name: string, complex: bool)

  datatype FieldDescription = FieldDescription(fields: seq<CustomField>, advanced: bool)

  /** The facts without what is private to the walk of one format. */
  function Findings(st: Facts): (map<string, bool>, bool) {
    (st.found, st.advanced)
  }

  function FieldName(f: CustomField): string {
    f.name
  }

  function Names(d: FieldDescription): set<string> {
    set f | f in d.fields :: f.name
  }

  /** The fields of a description are the findings, each once, sorted by name. */
  ghost predicate Describes(d: FieldDescription, st: Facts) {
    && d.advanced == st.advanced
    && |d.fields| == |st.found|
    && (forall f :: f in d.fields <==> f.name in st.found && f.complex == st.found[f.name])
    && Strings.AscendingBy(FieldName, d.fields)
  }

  lemma NamesOfDescription(d: FieldDescription, st: Facts)
    requires Describes(d, st)
    ensures Names(d) == st.found.Keys
  {
    forall name | name in st.found
      ensures name in Names(d)
    {
      assert CustomField(name, st.found[name]) in d.fields;
    }
  }
}
