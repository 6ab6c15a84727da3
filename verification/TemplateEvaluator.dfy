/** A reference evaluator for the templates that pkg/templates/templates.go:32-47
    executes with Go's text/template and `missingkey=error`.

    It follows the execution rules of that package: a stack of variables that is cut
    back at the end of each control structure, pipelines, lazy `and`/`or`, `index`,
    field chains, and called templates with a stack of their own. Functions are given by
    the world. `seen` collects the keys that were looked up by name at the root. */
module TemplateEvaluator {
  import opened Wrappers
  import opened TemplateSyntax

  /** Root is the data map itself; every other value is apart from it unless a
      function was handed the root and built it in. Opaque values have methods. */
  datatype Value =
    | Root
    | Nil
    | Number(n: int)
    | Text(s: string)
    | Opaque(handle: int)
    | Listing(items: seq<Value>)
    | Mapping(entries: seq<Entry>)

  datatype Entry = Entry(key: string, value: Value)

  /** The root's entries in key order, the functions (methods as ".Name"), and the
      templates that can be called by name. */
  datatype World = World(data: seq<Entry>, call: (string, seq<Value>) -> Option<Value>, templates: map<string, Node>)

  /** How deep text/template lets templates call each other. */
  const MAX_DEPTH: nat := 100_000

  datatype Slot = Slot(name: string, value: Value)
  type Env = seq<Slot>

  datatype Outcome = Got(value: Value) | MissingKey(key: string) | Failure
  datatype Read = Read(out: Outcome, seen: set<string>)
  datatype Eval = Eval(out: Outcome, env: Env, seen: set<string>)
  /** Evaluated arguments; `stop` is Some when one of them failed. */
  datatype Many = Many(values: seq<Value>, stop: Option<Outcome>, env: Env, seen: set<string>)

  datatype Status = Normal | Broke | Continued | MissingRoot(key: string) | Aborted
  datatype Run = Run(status: Status, env: Env, seen: set<string>)

  function Lookup(entries: seq<Entry>, key: string): Option<Value> {
    if entries == [] then None
    else if entries[0].key == key then Some(entries[0].value)
    else Lookup(entries[1..], key)
  }

  /** The variable nearest to the top of the stack. */
  function Top(env: Env, name: string): Option<Value> {
    if env == [] then None
    else if env[|env| - 1].name == name then Some(env[|env| - 1].value)
    else Top(env[..|env| - 1], name)
  }

  /** Assignment with `=`: the nearest variable of that name changes. */
  function SetVar(env: Env, name: string, v: Value): Env {
    if env == [] then []
    else if env[|env| - 1].name == name then env[..|env| - 1] + [Slot(name, v)]
    else SetVar(env[..|env| - 1], name, v) + [env[|env| - 1]]
  }

  function Bind(decl: seq<string>, isAssign: bool, v: Value, env: Env): Env {
    if decl == [] then env
    else Bind(decl[1..], isAssign, v, if isAssign then SetVar(env, decl[0], v) else env + [Slot(decl[0], v)])
  }

  predicate Truth(w: World, v: Value) {
    match v
    case Root => w.data != []
    case Nil => false
    case Number(n) => n != 0
    case Text(s) => s != ""
    case Opaque(_) => true
    case Listing(items) => items != []
    case Mapping(entries) => entries != []
  }

  function FromCall(r: Option<Value>): Outcome {
    if r.Some? then Got(r.value) else Failure
  }

  // ---- Lookups ----

  function FieldStep(w: World, v: Value, name: string): Outcome {
    match v
    case Root => var r := Lookup(w.data, name); if r.Some? then Got(r.value) else MissingKey(name)
    case Mapping(entries) => FromCall(Lookup(entries, name))
    case Opaque(_) => FromCall(w.call("." + name, [v]))
    case _ => Failure
  }

  function Named(v: Value, name: string): set<string> {
    if v.Root? then {name} else {}
  }

  function FieldChain(w: World, v: Value, idents: seq<string>): Read
    decreases |idents|
  {
    if idents == [] then Read(Got(v), {})
    else
      var out := FieldStep(w, v, idents[0]);
      if !out.Got? then Read(out, Named(v, idents[0]))
      else
        var rest := FieldChain(w, out.value, idents[1..]);
        Read(rest.out, Named(v, idents[0]) + rest.seen)
  }

  /** One key of `index`: a missing map key gives the zero value, not an error. */
  function IndexStep(w: World, v: Value, key: Value): Read {
    match v
    case Root =>
      if !key.Text? then Read(Failure, {})
      else
        var r := Lookup(w.data, key.s);
        Read(Got(if r.Some? then r.value else Nil), {key.s})
    case Mapping(entries) =>
      if !key.Text? then Read(Failure, {})
      else
        var r := Lookup(entries, key.s);
        Read(Got(if r.Some? then r.value else Nil), {})
    case Listing(items) =>
      if key.Number? && 0 <= key.n < |items| then Read(Got(items[key.n]), {}) else Read(Failure, {})
    case Text(s) =>
      if key.Number? && 0 <= key.n < |s| then Read(Got(Number(s[key.n] as int)), {}) else Read(Failure, {})
    case _ => Read(Failure, {})
  }

  function IndexAll(w: World, v: Value, keys: seq<Value>): Read
    decreases |keys|
  {
    if keys == [] then Read(Got(v), {})
    else
      var r := IndexStep(w, v, keys[0]);
      if !r.out.Got? then r
      else
        var rest := IndexAll(w, r.out.value, keys[1..]);
        Read(rest.out, r.seen + rest.seen)
  }

  /** Sprig's `get`: a map and a key, with an empty default. */
  function GetKey(w: World, vals: seq<Value>): Read {
    if |vals| != 2 || !vals[1].Text? || !(vals[0].Root? || vals[0].Mapping?) then Read(Failure, {})
    else
      var r := Lookup(if vals[0].Root? then w.data else vals[0].entries, vals[1].s);
      Read(Got(if r.Some? then r.value else Text("")), Named(vals[0], vals[1].s))
  }

  function CallFunction(w: World, name: string, vals: seq<Value>): Read {
    if name == "index" then
      if vals == [] then Read(Failure, {}) else IndexAll(w, vals[0], vals[1..])
    else if name == "get" then GetKey(w, vals)
    else Read(FromCall(w.call(name, vals)), {})
  }

  // ---- Expressions ----

  function EvalArg(w: World, node: Node, dot: Value, env: Env): Eval
    decreases node, 1
  {
    match node
    case Dot => Eval(Got(dot), env, {})
    case NilWord => Eval(Got(Nil), env, {})
    case Plain(n) => Eval(Got(Number(n)), env, {})
    case Str(text) => Eval(Got(Text(text)), env, {})
    case Identifier(name) =>
      var r := if name == "and" || name == "or" then Read(Failure, {}) else CallFunction(w, name, []);
      Eval(r.out, env, r.seen)
    case Field(idents) =>
      var r := FieldChain(w, dot, idents);
      Eval(r.out, env, r.seen)
    case Variable(name, idents) =>
      var v := Top(env, name);
      if v.None? then Eval(Failure, env, {})
      else
        var r := FieldChain(w, v.value, idents);
        Eval(r.out, env, r.seen)
    case Chain(base, fields) =>
      var b := EvalArg(w, base, dot, env);
      if fields == [] || !b.out.Got? then Eval(if b.out.Got? then Failure else b.out, b.env, b.seen)
      else
        var r := FieldChain(w, b.out.value, fields);
        Eval(r.out, b.env, b.seen + r.seen)
    case Pipe(_, _, _) => EvalPipe(w, node, dot, env)
    case _ => Eval(Failure, env, {})
  }

  /** A pipeline: each command receives the value of the one before as last argument. */
  function EvalPipe(w: World, node: Node, dot: Value, env: Env): Eval
    requires node.Pipe?
    decreases node, 0
  {
    var r := EvalCommands(w, node.cmds, dot, env, None);
    if r.out.Got? then r.(env := Bind(node.decl, node.isAssign, r.out.value, r.env)) else r
  }

  function EvalCommands(w: World, cmds: seq<Node>, dot: Value, env: Env, final: Option<Value>): Eval
    decreases cmds, 0
  {
    if cmds == [] then Eval(if final.Some? then Got(final.value) else Failure, env, {})
    else
      var c := EvalCommand(w, cmds[0], dot, env, final);
      if !c.out.Got? then c
      else
        var rest := EvalCommands(w, cmds[1..], dot, c.env, Some(c.out.value));
        rest.(seen := c.seen + rest.seen)
  }

  function EvalCommand(w: World, node: Node, dot: Value, env: Env, final: Option<Value>): Eval
    decreases node, 1
  {
    if !node.Command? || node.args == [] then Eval(Failure, env, {})
    else
      var first := node.args[0];
      if first.Identifier? then
        if first.ident == "and" || first.ident == "or" then
          EvalShort(w, node.args[1..], first.ident == "or", dot, env, final)
        else
          var m := EvalAll(w, node.args[1..], dot, env);
          if m.stop.Some? then Eval(m.stop.value, m.env, m.seen)
          else
            var r := CallFunction(w, first.ident, m.values + FinalArg(final));
            Eval(r.out, m.env, m.seen + r.seen)
      else if |node.args| > 1 || final.Some? then EvalMethod(w, node, dot, env, final)
      else if first.NilWord? then Eval(Failure, env, {})
      else EvalArg(w, first, dot, env)
  }

  function FinalArg(final: Option<Value>): seq<Value> {
    if final.Some? then [final.value] else []
  }

  /** `and` and `or` stop at the first argument that decides. */
  function EvalShort(w: World, args: seq<Node>, isOr: bool, dot: Value, env: Env, final: Option<Value>): Eval
    decreases args, 0
  {
    if args == [] then Eval(if final.Some? then Got(final.value) else Failure, env, {})
    else
      var a := EvalArg(w, args[0], dot, env);
      if !a.out.Got? then a
      else if Truth(w, a.out.value) == isOr || (|args| == 1 && final.None?) then a
      else
        var rest := EvalShort(w, args[1..], isOr, dot, a.env, final);
        rest.(seen := a.seen + rest.seen)
  }

  function EvalAll(w: World, args: seq<Node>, dot: Value, env: Env): Many
    decreases args, 0
  {
    if args == [] then Many([], None, env, {})
    else
      var a := EvalArg(w, args[0], dot, env);
      if !a.out.Got? then Many([], Some(a.out), a.env, a.seen)
      else
        var rest := EvalAll(w, args[1..], dot, a.env);
        rest.(values := [a.out.value] + rest.values, seen := a.seen + rest.seen)
  }

  /** The receiver of a method call, and the idents that lead to the method. */
  function Receiver(w: World, first: Node, dot: Value, env: Env): (Eval, seq<string>)
    decreases first, 1
  {
    match first
    case Field(idents) => (Eval(Got(dot), env, {}), idents)
    case Variable(name, idents) => (Eval(FromCall(Top(env, name)), env, {}), idents)
    case Chain(base, fields) => (EvalArg(w, base, dot, env), fields)
    case _ => (Eval(Failure, env, {}), [])
  }

  /** A chain with arguments: only the methods of opaque values accept them. */
  function EvalMethod(w: World, node: Node, dot: Value, env: Env, final: Option<Value>): Eval
    requires node.Command? && node.args != []
    decreases node, 0
  {
    var (b, idents) := Receiver(w, node.args[0], dot, env);
    if !b.out.Got? then b
    else if idents == [] then Eval(Failure, b.env, b.seen)
    else
      var r := FieldChain(w, b.out.value, idents[..|idents| - 1]);
      if !r.out.Got? then Eval(r.out, b.env, b.seen + r.seen)
      else if !r.out.value.Opaque? then Eval(Failure, b.env, b.seen + r.seen)
      else
        var m := EvalAll(w, node.args[1..], dot, b.env);
        if m.stop.Some? then Eval(m.stop.value, m.env, b.seen + r.seen + m.seen)
        else
          var called := w.call("." + idents[|idents| - 1], [r.out.value] + m.values + FinalArg(final));
          Eval(FromCall(called), m.env, b.seen + r.seen + m.seen)
  }

  // ---- Statements ----

  function Stopped(out: Outcome): Status {
    match out
    case Got(_) => Normal
    case MissingKey(key) => MissingRoot(key)
    case Failure => Aborted
  }

  /** What a range visits: an index and an element at a time, or nothing at all. */
  datatype Visit = Visit(index: Value, element: Value)

  function VisitItems(items: seq<Value>): seq<Visit> {
    seq(|items|, i requires 0 <= i < |items| => Visit(Number(i), items[i]))
  }

  function VisitEntries(entries: seq<Entry>): seq<Visit> {
    seq(|entries|, i requires 0 <= i < |entries| => Visit(Text(entries[i].key), entries[i].value))
  }

  function Visits(w: World, v: Value): Option<seq<Visit>> {
    match v
    case Root => Some(VisitEntries(w.data))
    case Nil => Some([])
    case Number(n) => Some(if n <= 0 then [] else seq(n, i => Visit(Number(i), Number(i))))
    case Listing(items) => Some(VisitItems(items))
    case Mapping(entries) => Some(VisitEntries(entries))
    case _ => None
  }

  /** The slots of a range's variables before each iteration. */
  function SetRange(decl: seq<string>, isAssign: bool, v: Visit, env: Env): Env {
    if |decl| == 1 then
      if isAssign then SetVar(env, decl[0], v.element)
      else if env == [] then env else env[..|env| - 1] + [env[|env| - 1].(value := v.element)]
    else if |decl| == 2 then
      if isAssign then SetVar(SetVar(env, decl[0], v.index), decl[1], v.element)
      else if |env| < 2 then env
      else env[..|env| - 2] + [env[|env| - 2].(value := v.index), env[|env| - 1].(value := v.element)]
    else env
  }

  function Cut(env: Env, mark: nat): Env {
    if mark <= |env| then env[..mark] else env
  }

  function EvalNode(w: World, node: Node, dot: Value, env: Env, depth: nat): Run
    decreases depth, node, 1
  {
    match node
    case Plain(_) => Run(Normal, env, {})
    case Absent => Run(Normal, env, {})
    case Break => Run(Broke, env, {})
    case Continue => Run(Continued, env, {})
    case List(nodes) => EvalNodes(w, nodes, dot, env, depth)
    case Action(pipe) =>
      var r := EvalArg(w, pipe, dot, env);
      Run(Stopped(r.out), r.env, r.seen)
    case If(_, _, _) => EvalIf(w, node, dot, env, depth)
    case With(_, _, _) => EvalIf(w, node, dot, env, depth)
    case Range(_, _, _) => EvalRange(w, node, dot, env, depth)
    case Template(_, _) => EvalTemplate(w, node, dot, env, depth)
    case _ => Run(Aborted, env, {})
  }

  function EvalNodes(w: World, nodes: seq<Node>, dot: Value, env: Env, depth: nat): Run
    decreases depth, nodes, 0
  {
    if nodes == [] then Run(Normal, env, {})
    else
      var r := EvalNode(w, nodes[0], dot, env, depth);
      if !r.status.Normal? then r
      else
        var rest := EvalNodes(w, nodes[1..], dot, r.env, depth);
        rest.(seen := r.seen + rest.seen)
  }

  function EvalIf(w: World, node: Node, dot: Value, env: Env, depth: nat): Run
    requires node.If? || node.With?
    decreases depth, node, 0
  {
    var p := EvalArg(w, node.pipe, dot, env);
    if !p.out.Got? then Run(Stopped(p.out), Cut(p.env, |env|), p.seen)
    else
      var r :=
        if Truth(w, p.out.value) then EvalNode(w, node.list, if node.With? then p.out.value else dot, p.env, depth)
        else EvalNode(w, node.elseList, dot, p.env, depth);
      Run(r.status, Cut(r.env, |env|), p.seen + r.seen)
  }

  function EvalRange(w: World, node: Node, dot: Value, env: Env, depth: nat): Run
    requires node.Range?
    decreases depth, node, 0
  {
    var p := EvalArg(w, node.pipe, dot, env);
    if !p.out.Got? then Run(Stopped(p.out), Cut(p.env, |env|), p.seen)
    else
      var visits := Visits(w, p.out.value);
      if visits.None? then Run(Aborted, Cut(p.env, |env|), p.seen)
      else
        var r := if visits.value == [] then EvalNode(w, node.elseList, dot, p.env, depth)
                 else EvalLoop(w, node.list, node.pipe, visits.value, p.env, depth);
        Run(r.status, Cut(r.env, |env|), p.seen + r.seen)
  }

  /** The iterations of a range; `break` ends them, `continue` goes to the next. */
  function EvalLoop(w: World, list: Node, pipe: Node, visits: seq<Visit>, env: Env, depth: nat): Run
    decreases depth, list, 2 + |visits|
  {
    if visits == [] then Run(Normal, env, {})
    else
      var env0 := if pipe.Pipe? then SetRange(pipe.decl, pipe.isAssign, visits[0], env) else env;
      var r := EvalNode(w, list, visits[0].element, env0, depth);
      if r.status.Broke? then Run(Normal, Cut(r.env, |env|), r.seen)
      else if !r.status.Normal? && !r.status.Continued? then r
      else
        var rest := EvalLoop(w, list, pipe, visits[1..], Cut(r.env, |env|), depth);
        rest.(seen := r.seen + rest.seen)
  }

  /** A called template: its dot and its `$` are the value of the pipeline, which is nil
      when there is none. The caller's variables stay out of its sight. */
  function EvalTemplate(w: World, node: Node, dot: Value, env: Env, depth: nat): Run
    requires node.Template?
    decreases depth, node, 0
  {
    if node.template !in w.templates || depth == 0 then Run(Aborted, env, {})
    else
      var p := if node.pipe.Absent? then Eval(Got(Nil), env, {}) else EvalArg(w, node.pipe, dot, env);
      if !p.out.Got? then Run(Stopped(p.out), p.env, p.seen)
      else
        var r := EvalNode(w, w.templates[node.template], p.out.value, [Slot("$", p.out.value)], depth - 1);
        Run(r.status, p.env, p.seen + r.seen)
  }

  /** A parsed format on the data of the world: `$` and dot are the root. */
  function Execute(w: World, format: Parsed): Run
    requires format.Parsed?
  {
    EvalNode(w.(templates := format.defined), format.root, Root, [Slot("$", Root)], MAX_DEPTH)
  }
}
