/** Templates outside the fragment whose root lookups the analysis misses without
    reporting itself advanced: why each restriction of the fragment is needed. */
module FieldLimits {
  import opened Wrappers
  import opened TemplateSyntax
  import opened TemplateEvaluator
  import opened FieldAnalysis
  import opened FieldNotes
  import opened FieldSoundness
  import opened FieldStatements

  function Only(root: Node): Parsed {
    Parsed(root, map[])
  }

  function Word(node: Node): Node {
    Command([node])
  }

  function Print(node: Node): Node {
    Action(Pipe([], false, [Word(node)]))
  }

  /** The format reads a key at the root that the analysis neither lists nor warns of. */
  ghost predicate Misses(w: World, format: Parsed, key: string)
    requires format.Parsed?
  {
    var st := Described(format, NOTHING);
    !st.advanced && key !in st.found && key !in AUTOMATIC && key in Execute(w, format).seen
  }

  /** `{{(index .).key}}`: index with one operand returns the operand itself. */
  function OneOperandIndex(key: string): Node {
    Print(Chain(Pipe([], false, [Command([Identifier("index"), Dot])]), [key]))
  }

  /** `{{range $i, $x := .}}{{else}}{{$i.key}}{{end}}`, on empty data. */
  function TwoVariablesElse(i: string, x: string, key: string): Node {
    Range(Pipe([i, x], false, [Word(Dot)]), List([]), Print(Variable(i, [key])))
  }

  /** `{{(. | f).key}}`: a second command hides from the analysis what flows into it. */
  function PipedRoot(f: string, key: string): Node {
    Print(Chain(TwoCommands(f), [key]))
  }

  function TwoCommands(f: string): Node {
    Pipe([], false, [Word(Dot), Word(Identifier(f))])
  }

  /** `{{$x := 0}}{{if 1}}{{$x = .}}{{end}}{{$x.key}}`: the reassignment is written to a
      copy of the variables, which is forgotten at the end of the branch. */
  function NestedAssignment(x: string, key: string): Node {
    List([Declares(x), Reassigns(x), Print(Variable(x, [key]))])
  }

  function Declares(x: string): Node {
    Action(Pipe([x], false, [Word(Plain(0))]))
  }

  function Reassigns(x: string): Node {
    If(Pipe([], false, [Word(Plain(1))]), List([Action(Pipe([x], true, [Word(Dot)]))]), Absent)
  }

  /** `{{(.o.m .).key}}`: a method hides from the analysis what it is handed. */
  function MethodOfRoot(o: string, m: string, key: string): Node {
    Print(Chain(MethodPipe(o, m), [key]))
  }

  function MethodPipe(o: string, m: string): Node {
    Pipe([], false, [Command([Field([o, m]), Dot])])
  }

  /** `{{template "n" (index . "x/")}}{{template "n/x" .}}`: the two calls have the same
      visit key, so that the second template is never looked into. */
  function SlashedName(n: string, x: string, key: string): Parsed {
    Parsed(List([FirstCall(n, x), SecondCall(n, x)]), map[n := List([]), n + "/" + x := Print(Field([key]))])
  }

  function FirstCall(n: string, x: string): Node {
    Template(n, Pipe([], false, [IndexRoot(x)]))
  }

  function IndexRoot(x: string): Node {
    Command([Identifier("index"), Dot, Str(x + "/")])
  }

  function SecondCall(n: string, x: string): Node {
    Template(n + "/" + x, Pipe([], false, [Word(Dot)]))
  }

  // ---- One command at a time ----

  lemma NotesOfWord(decl: seq<string>, isAssign: bool, node: Node, dot: Path, vars: Vars)
    ensures var pipe := Pipe(decl, isAssign, [Word(node)]);
            && NotesOf(pipe, dot, vars) == NotesOf(node, dot, vars)
            && After(pipe, dot, vars) == Declare(pipe, dot, After(node, dot, vars))
            && FieldPath(pipe, dot, vars) == FieldPath(node, dot, vars)
  {
    hide Declare;
    var word := Word(node);
    assert word.args[1..] == [] && [word][1..] == [];
    if node.Identifier? {
      NothingPassed(word.args, dot, vars);
    }
    assert CommandNotes(word.args, dot, vars) == {};
    assert NotesOfAll(word.args, dot, vars) == NotesOf(node, dot, vars);
    assert NotesOf(word, dot, vars) == NotesOf(node, dot, vars);
    assert AfterAll(word.args, dot, vars) == After(node, dot, vars);
    assert NotesOfAll([word], dot, vars) == NotesOf(word, dot, vars);
  }

  lemma NotesOfPrint(node: Node, dot: Path, vars: Vars)
    ensures NotesOf(Print(node), dot, vars) == NotesOf(node, dot, vars)
  {
    NotesOfWord([], false, node, dot, vars);
  }

  lemma EvalPipeOfWord(w: World, decl: seq<string>, isAssign: bool, node: Node, dot: Value, env: Env)
    requires !node.Identifier? && !node.NilWord?
    ensures var r := EvalArg(w, node, dot, env);
            EvalPipe(w, Pipe(decl, isAssign, [Word(node)]), dot, env)
            == if r.out.Got? then r.(env := Bind(decl, isAssign, r.out.value, r.env)) else r
  {
    var pipe := Pipe(decl, isAssign, [Word(node)]);
    var r := EvalArg(w, node, dot, env);
    assert EvalCommand(w, Word(node), dot, env, None) == r;
    if r.out.Got? {
      assert pipe.cmds[1..] == [];
      assert EvalCommands(w, pipe.cmds[1..], dot, r.env, Some(r.out.value)) == Eval(r.out, r.env, {});
      assert r.seen + {} == r.seen;
    }
  }

  lemma EvalPrint(w: World, node: Node, dot: Value, env: Env, depth: nat)
    requires !node.Identifier? && !node.NilWord?
    ensures EvalNode(w, Print(node), dot, env, depth).seen == EvalArg(w, node, dot, env).seen
  {
    EvalPipeOfWord(w, [], false, node, dot, env);
  }

  /** A variable whose path is unknown does not hide the key read through it. */
  lemma KeyRead(w: World, dot: Value, env: Env, name: string, key: string, depth: nat)
    requires Top(env, name) == Some(Root)
    ensures key in EvalNode(w, Print(Variable(name, [key])), dot, env, depth).seen
  {
    EvalPrint(w, Variable(name, [key]), dot, env, depth);
  }

  /** Where a format starts. */
  const START: Env := [Slot("$", Root)]

  /** A lone tree whose notes do not name a key that its run reads. */
  lemma MissesByNotes(w: World, root: Node, key: string)
    requires key !in AUTOMATIC && key in EvalNode(w.(templates := map[]), root, Root, START, MAX_DEPTH).seen
    requires var notes := NotesOf(root, TOP, HOME);
             && Doubt !in notes && Reads(key, false) !in notes && Reads(key, true) !in notes
             && forall n, p :: Invokes(n, p) !in notes
    ensures Misses(w, Only(root), key)
  {
    hide NotesOf, EvalNode, Described;
    var exps := FormatIsSummary(Only(root), NOTHING);
    NothingExpanded(map[], NotesOf(root, TOP, HOME), exps);
  }

  lemma NothingExpanded(defined: map<string, Node>, notes: Notes, exps: seq<Expansion>)
    requires Answers(defined, notes, exps) && forall n, p :: Invokes(n, p) !in notes
    ensures exps == []
  {
    if exps != [] {
      FirstAnswers(defined, notes, exps);
    }
  }

  lemma FirstAnswers(defined: map<string, Node>, notes: Notes, exps: seq<Expansion>)
    requires Answers(defined, notes, exps) && exps != []
    ensures Invokes(exps[0].template, exps[0].path) in notes
  {
    assert exps[..0] == [];
    assert Invokes(exps[0].template, exps[0].path) in notes + AllNotes(defined, exps[..0]);
  }

  // ---- The escapes ----

  lemma IndexHasNoNotes(pipe: Node, vars: Vars)
    requires pipe == Pipe([], false, [Command([Identifier("index"), Dot])])
    ensures NotesOf(pipe, TOP, vars) == {} && FieldPath(pipe, TOP, vars) == None
  {
    var call := pipe.cmds[0];
    var rest := call.args[1..];
    assert pipe.cmds[1..] == [] && rest == [Dot] && rest[1..] == [];
    assert NotesOfAll(rest, TOP, vars) == {};
    assert NotesOfAll(call.args, TOP, vars) == {};
    assert NotesOf(call, TOP, vars) == {};
  }

  lemma IndexReads(w: World, pipe: Node, env: Env)
    requires pipe == Pipe([], false, [Command([Identifier("index"), Dot])])
    ensures EvalPipe(w, pipe, Root, env).out == Got(Root)
  {
    var call := pipe.cmds[0];
    var rest := call.args[1..];
    assert pipe.cmds[1..] == [] && rest == [Dot] && rest[1..] == [];
    assert EvalAll(w, rest, Root, env) == Many([Root], None, env, {});
    assert EvalCommand(w, call, Root, env, None) == Eval(Got(Root), env, {});
  }

  lemma OneOperandIndexReads(w: World, key: string, env: Env, depth: nat)
    ensures key in EvalNode(w, OneOperandIndex(key), Root, env, depth).seen
  {
    var pipe := Pipe([], false, [Command([Identifier("index"), Dot])]);
    IndexReads(w, pipe, env);
    EvalPrint(w, Chain(pipe, [key]), Root, env, depth);
  }

  /** For every key and all data. */
  lemma OneOperandIndexEscapes(w: World, key: string)
    requires key !in AUTOMATIC
    ensures Misses(w, Only(OneOperandIndex(key)), key)
  {
    hide EvalNode, Misses;
    var pipe := Pipe([], false, [Command([Identifier("index"), Dot])]);
    IndexHasNoNotes(pipe, HOME);
    NotesOfPrint(Chain(pipe, [key]), TOP, HOME);
    OneOperandIndexReads(w.(templates := map[]), key, START, MAX_DEPTH);
    MissesByNotes(w, OneOperandIndex(key), key);
  }

  /** A function that hands back what is piped into it, as `default` does. */
  predicate HandsBack(w: World, f: string) {
    f != "and" && f != "or" && !IndexOrGet(Identifier(f)) && w.call(f, [Root]) == Some(Root)
  }

  lemma TwoCommandsHaveNoNotes(f: string, vars: Vars)
    ensures NotesOf(TwoCommands(f), TOP, vars) == {} && FieldPath(TwoCommands(f), TOP, vars) == None
  {
    var first, second := Word(Dot), Word(Identifier(f));
    assert first.args[1..] == [] && second.args[1..] == [];
    NothingPassed(second.args, TOP, vars);
    assert NotesOfAll(first.args, TOP, vars) == {} && NotesOfAll(second.args, TOP, vars) == {};
    assert NotesOf(first, TOP, vars) == {} && NotesOf(second, TOP, vars) == {};
    assert After(first, TOP, vars) == vars;
    assert [first, second][1..] == [second] && [second][1..] == [];
    assert NotesOfAll([second], TOP, vars) == {};
  }

  lemma PipedRootReads(w: World, f: string, key: string, env: Env, depth: nat)
    requires HandsBack(w, f)
    ensures key in EvalNode(w, PipedRoot(f, key), Root, env, depth).seen
  {
    TwoCommandsReads(w, TwoCommands(f), f, env);
    EvalPrint(w, Chain(TwoCommands(f), [key]), Root, env, depth);
  }

  lemma TwoCommandsReads(w: World, pipe: Node, f: string, env: Env)
    requires pipe == TwoCommands(f) && HandsBack(w, f)
    ensures EvalPipe(w, pipe, Root, env).out == Got(Root)
  {
    var first, second := Word(Dot), Word(Identifier(f));
    assert pipe.cmds[1..] == [second] && [second][1..] == [] && second.args[1..] == [];
    assert EvalCommand(w, first, Root, env, None) == Eval(Got(Root), env, {});
    assert EvalAll(w, second.args[1..], Root, env) == Many([], None, env, {});
    assert [] + FinalArg(Some(Root)) == [Root];
    assert EvalCommand(w, second, Root, env, Some(Root)).out == Got(Root);
    assert EvalCommands(w, [second], Root, env, Some(Root)).out == Got(Root);
  }

  lemma PipedRootEscapes(w: World, f: string, key: string)
    requires key !in AUTOMATIC && HandsBack(w, f)
    ensures Misses(w, Only(PipedRoot(f, key)), key)
  {
    hide EvalNode, Misses, TwoCommands;
    TwoCommandsHaveNoNotes(f, HOME);
    NotesOfPrint(Chain(TwoCommands(f), [key]), TOP, HOME);
    PipedRootReads(w.(templates := map[]), f, key, START, MAX_DEPTH);
    MissesByNotes(w, PipedRoot(f, key), key);
  }

  // ---- A method that is handed the root ----

  lemma MethodNotes(o: string, m: string, vars: Vars)
    ensures NotesOf(MethodPipe(o, m), TOP, vars) == PathNote(Some([o, m]), false)
    ensures FieldPath(MethodPipe(o, m), TOP, vars) == None
  {
    hide PathNote;
    var pipe := MethodPipe(o, m);
    var call := pipe.cmds[0];
    assert pipe.cmds[1..] == [] && call.args[1..] == [Dot] && [Dot][1..] == [];
    assert [] + [o, m] == [o, m];
    assert NotesOfAll([Dot], TOP, vars) == {};
    assert NotesOfAll(call.args, TOP, vars) == PathNote(Some([o, m]), false);
    assert NotesOf(call, TOP, vars) == PathNote(Some([o, m]), false);
    assert NotesOfAll(pipe.cmds, TOP, vars) == NotesOf(call, TOP, vars);
  }

  lemma MethodReads(w: World, o: string, m: string, h: int, key: string, env: Env, depth: nat)
    requires Lookup(w.data, o) == Some(Opaque(h)) && w.call("." + m, [Opaque(h), Root]) == Some(Root)
    ensures key in EvalNode(w, MethodOfRoot(o, m, key), Root, env, depth).seen
  {
    MethodGives(w, o, m, h, env);
    EvalPrint(w, Chain(MethodPipe(o, m), [key]), Root, env, depth);
  }

  lemma MethodGives(w: World, o: string, m: string, h: int, env: Env)
    requires Lookup(w.data, o) == Some(Opaque(h)) && w.call("." + m, [Opaque(h), Root]) == Some(Root)
    ensures EvalPipe(w, MethodPipe(o, m), Root, env).out == Got(Root)
  {
    var pipe := MethodPipe(o, m);
    var call := pipe.cmds[0];
    assert pipe.cmds[1..] == [] && call.args[1..] == [Dot] && [Dot][1..] == [];
    assert [o, m][..1] == [o] && [o][1..] == [];
    assert FieldChain(w, Root, [o]).out == Got(Opaque(h));
    assert EvalAll(w, [Dot], Root, env) == Many([Root], None, env, {});
    assert [Opaque(h)] + [Root] + FinalArg(None) == [Opaque(h), Root];
    assert EvalMethod(w, call, Root, env, None).out == Got(Root);
    var c := EvalCommand(w, call, Root, env, None);
    assert c.out == Got(Root);
    assert EvalCommands(w, pipe.cmds[1..], Root, c.env, Some(Root)).out == Got(Root);
  }

  /** For every other key, whenever the data has an object whose method hands back its
      argument. */
  lemma MethodOfRootEscapes(w: World, o: string, m: string, h: int, key: string)
    requires key !in AUTOMATIC && key != o && o != "" && !Padded(o)
    requires Lookup(w.data, o) == Some(Opaque(h)) && w.call("." + m, [Opaque(h), Root]) == Some(Root)
    ensures Misses(w, Only(MethodOfRoot(o, m, key)), key)
  {
    hide EvalNode, Misses, MethodPipe, Padded;
    MethodNotes(o, m, HOME);
    NotesOfPrint(Chain(MethodPipe(o, m), [key]), TOP, HOME);
    MethodReads(w.(templates := map[]), o, m, h, key, START, MAX_DEPTH);
    MissesByNotes(w, MethodOfRoot(o, m, key), key);
  }

  // ---- A reassignment in a branch ----

  lemma NestedAssignmentNotes(x: string, key: string)
    ensures NotesOf(NestedAssignment(x, key), TOP, HOME) == {}
  {
    hide Declares, Reassigns, Print;
    var nodes := NestedAssignment(x, key).nodes;
    var after := HOME[x := None];
    DeclaresNotes(x, HOME);
    ReassignsNotes(x, after);
    NotesOfPrint(Variable(x, [key]), TOP, after);
    assert nodes[1..] == [Reassigns(x), Print(Variable(x, [key]))] && nodes[1..][1..] == [Print(Variable(x, [key]))];
    assert nodes[1..][1..][1..] == [];
    assert NotesOfAll(nodes[1..][1..], TOP, after) == {};
    assert NotesOfAll(nodes[1..], TOP, after) == {};
  }

  lemma DeclaresNotes(x: string, vars: Vars)
    ensures NotesOf(Declares(x), TOP, vars) == {} && After(Declares(x), TOP, vars) == vars[x := None]
  {
    NotesOfWord([x], false, Plain(0), TOP, vars);
  }

  lemma ReassignsNotes(x: string, vars: Vars)
    ensures NotesOf(Reassigns(x), TOP, vars) == {} && After(Reassigns(x), TOP, vars) == vars
  {
    hide NotesOfAll, AfterAll, Word;
    var node := Reassigns(x);
    NotesOfWord([], false, Plain(1), TOP, vars);
    InnerNotes(x, vars);
    NotesOfBranch(node, TOP, vars);
  }

  lemma InnerNotes(x: string, vars: Vars)
    ensures NotesOf(Reassigns(x).list, TOP, vars) == {}
  {
    hide Word, Declare;
    var inner := Reassigns(x).list.nodes;
    NotesOfWord([x], true, Dot, TOP, vars);
    assert inner[1..] == [];
    assert NotesOf(inner[0], TOP, vars) == {};
    assert NotesOfAll(inner, TOP, vars) == {};
  }

  lemma NestedAssignmentReads(w: World, x: string, key: string, env: Env, depth: nat)
    ensures key in EvalNode(w, NestedAssignment(x, key), Root, env, depth).seen
  {
    hide EvalNode, EvalNodes, Declares, Reassigns, Print, Top;
    var root := NestedAssignment(x, key);
    var declared, rebound := env + [Slot(x, Number(0))], env + [Slot(x, Root)];
    OfList(w, root.nodes, env, depth);
    TopOfStack(env, x);
    EvalDeclares(w, x, env, depth);
    ReassignsReads(w, x, env, depth);
    assert rebound[..|env|] == env;
    KeyRead(w, Root, rebound, x, key, depth);
    assert root.nodes == [Declares(x), Reassigns(x), Print(Variable(x, [key]))];
    EvalThree(w, root.nodes, env, declared, rebound, key, depth);
  }

  lemma OfList(w: World, nodes: seq<Node>, env: Env, depth: nat)
    ensures EvalNode(w, List(nodes), Root, env, depth) == EvalNodes(w, nodes, Root, env, depth)
  {}

  lemma TopOfStack(env: Env, x: string)
    ensures Top(env + [Slot(x, Root)], x) == Some(Root)
  {}

  lemma EvalThree(w: World, nodes: seq<Node>, env: Env, env1: Env, env2: Env, key: string, depth: nat)
    requires |nodes| == 3
    requires EvalNode(w, nodes[0], Root, env, depth) == Run(Normal, env1, {})
    requires EvalNode(w, nodes[1], Root, env1, depth) == Run(Normal, env2, {})
    requires key in EvalNode(w, nodes[2], Root, env2, depth).seen
    ensures key in EvalNodes(w, nodes, Root, env, depth).seen
  {
    hide EvalNode;
    var two, one := nodes[1..], nodes[2..];
    assert two[1..] == one && two[0] == nodes[1] && one[0] == nodes[2];
    assert key in EvalNodes(w, one, Root, env2, depth).seen;
    assert key in EvalNodes(w, two, Root, env1, depth).seen;
  }

  lemma EvalDeclares(w: World, x: string, env: Env, depth: nat)
    ensures EvalNode(w, Declares(x), Root, env, depth) == Run(Normal, env + [Slot(x, Number(0))], {})
  {
    EvalPipeOfWord(w, [x], false, Plain(0), Root, env);
    assert [x][1..] == [];
  }

  /** `$x = .` when the variable is on top of the stack. */
  lemma EvalReassigns(w: World, x: string, env: Env, depth: nat)
    ensures EvalNode(w, Action(Pipe([x], true, [Word(Dot)])), Root, env + [Slot(x, Number(0))], depth) == Run(Normal, env + [Slot(x, Root)], {})
  {
    var declared, rebound := env + [Slot(x, Number(0))], env + [Slot(x, Root)];
    EvalPipeOfWord(w, [x], true, Dot, Root, declared);
    assert [x][1..] == [] && declared[..|declared| - 1] == env;
    assert SetVar(declared, x, Root) == rebound;
    assert Bind([x], true, Root, declared) == rebound;
  }

  lemma ReassignsReads(w: World, x: string, env: Env, depth: nat)
    ensures EvalNode(w, Reassigns(x), Root, env + [Slot(x, Number(0))], depth) == Run(Normal, env + [Slot(x, Root)], {})
  {
    var node := Reassigns(x);
    var declared, rebound := env + [Slot(x, Number(0))], env + [Slot(x, Root)];
    EvalReassigns(w, x, env, depth);
    EvalOne(w, node.list.nodes[0], declared, depth);
    EvalPipeOfWord(w, [], false, Plain(1), Root, declared);
    IfTaken(w, node, declared, rebound, depth);
  }

  lemma IfTaken(w: World, node: Node, env: Env, env2: Env, depth: nat)
    requires node.If? && EvalArg(w, node.pipe, Root, env) == Eval(Got(Number(1)), env, {})
    requires EvalNode(w, node.list, Root, env, depth) == Run(Normal, env2, {}) && |env2| == |env|
    ensures EvalNode(w, node, Root, env, depth) == Run(Normal, env2, {})
  {
    hide EvalArg, EvalNodes, EvalRange;
    assert env2[..|env|] == env2;
    assert EvalIf(w, node, Root, env, depth) == Run(Normal, env2, {});
  }

  lemma EvalOne(w: World, node: Node, env: Env, depth: nat)
    requires EvalNode(w, node, Root, env, depth).status.Normal?
    ensures EvalNode(w, List([node]), Root, env, depth) == EvalNode(w, node, Root, env, depth)
  {
    var r := EvalNode(w, node, Root, env, depth);
    assert [node][1..] == [];
    assert EvalNodes(w, [node][1..], Root, r.env, depth) == Run(Normal, r.env, {});
    assert r.seen + {} == r.seen;
    assert EvalNodes(w, [node], Root, env, depth) == r;
  }

  /** For every key and all data, without any function. */
  lemma NestedAssignmentEscapes(w: World, x: string, key: string)
    requires key !in AUTOMATIC
    ensures Misses(w, Only(NestedAssignment(x, key)), key)
  {
    hide EvalNode, Misses, NestedAssignment;
    NestedAssignmentNotes(x, key);
    NestedAssignmentReads(w.(templates := map[]), x, key, START, MAX_DEPTH);
    MissesByNotes(w, NestedAssignment(x, key), key);
  }

  // ---- The alternative of a range with two variables ----

  lemma TwoVariablesNotes(i: string, x: string, key: string)
    requires i != x && i != "$"
    ensures NotesOf(TwoVariablesElse(i, x, key), TOP, HOME) == {}
  {
    var root := TwoVariablesElse(i, x, key);
    NotesOfWord([i, x], false, Dot, TOP, HOME);
    NotesOfPrint(Variable(i, [key]), TOP, HOME);
    hide Print, BodyVars, BodyDot;
    NotesOfBranch(root, TOP, HOME);
    assert NotesOf(root.list, BodyDot(root, TOP, HOME), BodyVars(root, TOP, HOME, HOME)) == {};
  }

  lemma BothBound(i: string, x: string, env: Env) returns (env2: Env)
    requires i != x
    ensures Bind([i, x], false, Root, env) == env2 && Top(env2, i) == Some(Root)
  {
    var env1 := env + [Slot(i, Root)];
    env2 := env1 + [Slot(x, Root)];
    assert [i, x][1..] == [x] && [x][1..] == [];
    assert Bind([x], false, Root, env1) == env2;
    assert env2[..|env2| - 1] == env1;
  }

  lemma PipeBinds(w: World, i: string, x: string, env: Env, env2: Env)
    requires Bind([i, x], false, Root, env) == env2
    ensures EvalArg(w, Pipe([i, x], false, [Word(Dot)]), Root, env) == Eval(Got(Root), env2, {})
  {
    hide Bind;
    EvalPipeOfWord(w, [i, x], false, Dot, Root, env);
  }

  lemma TwoVariablesReads(w: World, i: string, x: string, key: string, env: Env, depth: nat)
    requires i != x && w.data == []
    ensures key in EvalNode(w, TwoVariablesElse(i, x, key), Root, env, depth).seen
  {
    hide EvalNode, EvalArg, EvalPipe;
    var env2 := BothBound(i, x, env);
    PipeBinds(w, i, x, env, env2);
    KeyRead(w, Root, env2, i, key, depth);
    EmptyRange(w, TwoVariablesElse(i, x, key), env, env2, depth);
  }

  /** A range over empty data runs its alternative. */
  lemma EmptyRange(w: World, node: Node, env: Env, env2: Env, depth: nat)
    requires node.Range? && w.data == [] && EvalArg(w, node.pipe, Root, env) == Eval(Got(Root), env2, {})
    ensures EvalNode(w, node.elseList, Root, env2, depth).seen <= EvalNode(w, node, Root, env, depth).seen
  {
    hide EvalArg, EvalLoop, EvalNodes;
    assert VisitEntries(w.data) == [];
    assert Visits(w, Root) == Some([]);
  }

  lemma TwoVariablesElseEscapes(w: World, i: string, x: string, key: string)
    requires key !in AUTOMATIC && i != x && i != "$" && w.data == []
    ensures Misses(w, Only(TwoVariablesElse(i, x, key)), key)
  {
    hide EvalNode, Misses, TwoVariablesElse;
    TwoVariablesNotes(i, x, key);
    TwoVariablesReads(w.(templates := map[]), i, x, key, START, MAX_DEPTH);
    MissesByNotes(w, TwoVariablesElse(i, x, key), key);
  }

  // ---- A name with a slash ----

  lemma FirstCallNotes(n: string, x: string)
    ensures NotesOf(FirstCall(n, x), TOP, HOME) == PathNote(Some([x + "/"]), false) + {Invokes(n, Some([x + "/"]))}
    ensures After(FirstCall(n, x), TOP, HOME) == HOME
  {
    hide PathNote;
    var node, call := FirstCall(n, x), IndexRoot(x);
    assert FragCommand(call) by {
      assert call.args[1..] == [Dot, Str(x + "/")] && call.args[1..][1..] == [Str(x + "/")] && call.args[1..][1..][1..] == [];
      assert FragArgs(call.args[1..][1..]) && FragArgs(call.args[1..]) && FragArgs(call.args);
    }
    IndexRootNotes(x);
    PipeOfOne(node.pipe, TOP, HOME);
    NotesOfCall(node, TOP, HOME);
  }

  lemma IndexRootNotes(x: string)
    ensures NotesOf(IndexRoot(x), TOP, HOME) == PathNote(Some([x + "/"]), false)
    ensures FieldPath(IndexRoot(x), TOP, HOME) == Some([x + "/"])
  {
    hide PathNote;
    var call := IndexRoot(x);
    var args := call.args;
    assert args[2..] == [Str(x + "/")] && args[2..][1..] == [];
    assert LiteralKeys(args[2..][1..]) == Some([]) && [x + "/"] + [] == [x + "/"];
    assert LiteralKeys(args[2..]) == Some([x + "/"]);
    assert args[1..] == [Dot, Str(x + "/")] && args[1..][1..] == [Str(x + "/")];
    assert NotesOfAll(args[1..][1..], TOP, HOME) == {};
    assert NotesOfAll(args[1..], TOP, HOME) == {};
    assert NotesOfAll(args, TOP, HOME) == {};
    assert [] + [x + "/"] == [x + "/"];
    NothingAtRoot();
  }

  lemma NothingAtRoot()
    ensures PathNote(TOP, true) == {}
  {}

  lemma SecondCallNotes(n: string, x: string)
    ensures NotesOf(SecondCall(n, x), TOP, HOME) == {Invokes(n + "/" + x, TOP)}
    ensures After(SecondCall(n, x), TOP, HOME) == HOME
  {
    NotesOfWord([], false, Dot, TOP, HOME);
    NotesOfCall(SecondCall(n, x), TOP, HOME);
  }

  lemma SameKey(n: string, x: string)
    ensures VisitKey(n, Some([x + "/"])) == VisitKey(n + "/" + x, TOP)
  {
    assert n + "/" + (x + "/") == n + "/" + x + "/" + "";
  }

  /** What the first call expands uses up the key of the second. */
  lemma FirstExpansion(defined: map<string, Node>, n: string, x: string, st: Facts, exps: seq<Expansion>, r: Facts)
    requires st.visited == {} && n in defined && defined[n] == List([])
    requires Summary(defined, st, NotesOf(FirstCall(n, x), TOP, HOME), exps, r)
    ensures Sums(st, PathNote(Some([x + "/"]), false) + {Invokes(n, Some([x + "/"]))}, r)
    ensures VisitKey(n, Some([x + "/"])) in r.visited
  {
    hide PathNote, Sums, VisitKey, NotesOf, AllNotes, Fresh, Answers, FirstCall;
    FirstCallNotes(n, x);
    var notes := NotesOf(FirstCall(n, x), TOP, HOME);
    PathCallsNothing(Some([x + "/"]));
    OnlyExpansion(defined, n, x, notes, exps);
    assert notes + {} == notes;
    assert Invokes(n, Some([x + "/"])) in notes + AllNotes(defined, exps);
  }

  lemma {:induction false} OnlyExpansion(defined: map<string, Node>, n: string, x: string, notes: Notes, exps: seq<Expansion>)
    requires n in defined && defined[n] == List([])
    requires forall m, p :: Invokes(m, p) in notes ==> m == n
    requires Answers(defined, notes, exps)
    ensures AllNotes(defined, exps) == {}
    decreases |exps|
  {
    if exps != [] {
      var k := |exps| - 1;
      assert forall i :: 0 <= i < k ==> exps[..k][..i] == exps[..i];
      OnlyExpansion(defined, n, x, notes, exps[..k]);
      assert Invokes(exps[k].template, exps[k].path) in notes + AllNotes(defined, exps[..k]);
      assert exps[k].template == n;
      assert ExpansionNotes(defined, exps[k]) == {};
    }
  }

  /** The second call expands nothing. */
  lemma SecondExpansion(defined: map<string, Node>, n: string, x: string, st: Facts, exps: seq<Expansion>, r: Facts)
    requires VisitKey(n, Some([x + "/"])) in st.visited
    requires Summary(defined, st, NotesOf(SecondCall(n, x), TOP, HOME), exps, r)
    ensures Sums(st, {Invokes(n + "/" + x, TOP)}, r)
  {
    hide Sums, VisitKey, NotesOf;
    SecondCallNotes(n, x);
    SameKey(n, x);
    var notes := NotesOf(SecondCall(n, x), TOP, HOME);
    if exps != [] {
      FirstAnswers(defined, notes, exps);
    }
    assert notes + AllNotes(defined, []) == notes;
  }

  lemma SlashedNameFacts(n: string, x: string, key: string)
    ensures Sums(NOTHING, PathNote(Some([x + "/"]), false) + {Invokes(n, Some([x + "/"]))} + {Invokes(n + "/" + x, TOP)},
                 Described(SlashedName(n, x, key), NOTHING))
  {
    hide Summary, Sums, Walk, NotesOf, PathNote, FirstCall, SecondCall, Idents, Calls, KeysComplete, AlphabetOf;
    var format := SlashedName(n, x, key);
    var a, nodes := AlphabetOf(format), format.root.nodes;
    RootReady(format, NOTHING);
    TwoWithin(format.root, a);
    var first := Walk(nodes[0], format.defined, TOP, HOME, NOTHING, a);
    var e1 := WalkIsSummary(nodes[0], format.defined, TOP, HOME, NOTHING, a);
    FirstExpansion(format.defined, n, x, NOTHING, e1, first.facts);
    FirstCallNotes(n, x);
    var e2 := WalkIsSummary(nodes[1], format.defined, TOP, HOME, first.facts, a);
    var second := Walk(nodes[1], format.defined, TOP, HOME, first.facts, a);
    SecondExpansion(format.defined, n, x, first.facts, e2, second.facts);
    SumsBoth(NOTHING, PathNote(Some([x + "/"]), false) + {Invokes(n, Some([x + "/"]))}, first.facts, {Invokes(n + "/" + x, TOP)},
             second.facts);
    WalkTwo(format.root, format.defined, NOTHING, a, first, second);
    assert NOTHING.(visited := {}) == NOTHING;
  }

  lemma TwoWithin(root: Node, a: Alphabet)
    requires root.List? && |root.nodes| == 2 && NodeWithin(root, a)
    ensures NodeWithin(root.nodes[0], a) && NodeWithin(root.nodes[1], a)
  {
    hide NodeWithin;
    assert NodesWithin(root.nodes, a) by {
      WithinList(root, a);
    }
    assert root.nodes[1..][0] == root.nodes[1];
    assert NodesWithin(root.nodes[1..], a);
  }

  lemma WithinList(root: Node, a: Alphabet)
    requires root.List? && NodeWithin(root, a)
    ensures NodesWithin(root.nodes, a)
  {}

  lemma WalkTwo(root: Node, defined: map<string, Node>, st: Facts, a: Alphabet, first: Walked, second: Walked)
    requires root.List? && |root.nodes| == 2 && NodeWithin(root, a) && NodeWithin(root.nodes[0], a) && NodeWithin(root.nodes[1], a)
    requires WalkReady(defined, TOP, HOME, st, a) && first == Walk(root.nodes[0], defined, TOP, HOME, st, a)
    requires first.vars == HOME && WalkReady(defined, TOP, HOME, first.facts, a)
    requires second == Walk(root.nodes[1], defined, TOP, HOME, first.facts, a)
    ensures Walk(root, defined, TOP, HOME, st, a).facts == second.facts
  {
    var nodes := root.nodes;
    WithinList(root, a);
    assert nodes[1..][0] == nodes[1] && nodes[1..][1..] == [];
    assert WalkAll(nodes[1..], defined, TOP, HOME, first.facts, a) == WalkAll([], defined, TOP, second.vars, second.facts, a);
    assert WalkAll(nodes, defined, TOP, HOME, st, a) == WalkAll(nodes[1..], defined, TOP, HOME, first.facts, a);
  }

  lemma RootIndexed(w: World, key: string)
    ensures CallFunction(w, "index", [Root, Text(key)]).out.Got?
  {
    var vals := [Root, Text(key)];
    assert vals[1..] == [Text(key)] && [Text(key)][1..] == [];
    var r := IndexStep(w, Root, Text(key));
    assert IndexAll(w, r.out.value, []).out.Got?;
  }

  lemma IndexPipeRuns(w: World, x: string, env: Env)
    ensures var p := EvalPipe(w, Pipe([], false, [IndexRoot(x)]), Root, env); p.out.Got? && p.env == env
  {
    hide CallFunction;
    var pipe, call := Pipe([], false, [IndexRoot(x)]), IndexRoot(x);
    var args := call.args;
    assert args[1..] == [Dot, Str(x + "/")] && args[1..][1..] == [Str(x + "/")] && args[1..][1..][1..] == [];
    assert EvalAll(w, args[1..][1..], Root, env) == Many([Text(x + "/")], None, env, {});
    assert EvalAll(w, args[1..], Root, env) == Many([Root, Text(x + "/")], None, env, {});
    assert [Root, Text(x + "/")] + FinalArg(None) == [Root, Text(x + "/")];
    RootIndexed(w, x + "/");
    var c := EvalCommand(w, call, Root, env, None);
    assert c.out.Got? && c.env == env;
    assert pipe.cmds[1..] == [];
    assert EvalCommands(w, pipe.cmds[1..], Root, c.env, Some(c.out.value)) == Eval(c.out, c.env, {});
  }

  lemma FirstCallRuns(w: World, n: string, x: string, env: Env, depth: nat)
    requires depth > 0 && n in w.templates && w.templates[n] == List([])
    ensures var r := EvalNode(w, FirstCall(n, x), Root, env, depth); r.status.Normal? && r.env == env
  {
    hide EvalPipe, IndexRoot;
    IndexPipeRuns(w, x, env);
    var p := EvalPipe(w, Pipe([], false, [IndexRoot(x)]), Root, env);
    assert EvalNode(w, List([]), p.out.value, [Slot("$", p.out.value)], depth - 1).status.Normal?;
  }

  lemma SecondCallReads(w: World, n: string, x: string, key: string, env: Env, depth: nat)
    requires depth > 0 && n + "/" + x in w.templates && w.templates[n + "/" + x] == Print(Field([key]))
    ensures key in EvalNode(w, SecondCall(n, x), Root, env, depth).seen
  {
    hide Print;
    EvalPipeOfWord(w, [], false, Dot, Root, env);
    EvalPrint(w, Field([key]), Root, START, depth - 1);
    assert key in EvalArg(w, Field([key]), Root, START).seen;
  }

  lemma SlashedNameReads(w: World, n: string, x: string, key: string)
    ensures key in Execute(w, SlashedName(n, x, key)).seen
  {
    hide EvalNode, FirstCall, SecondCall, Print;
    var format := SlashedName(n, x, key);
    var w', nodes := w.(templates := format.defined), format.root.nodes;
    assert |n + "/" + x| > |n|;
    FirstCallRuns(w', n, x, START, MAX_DEPTH);
    SecondCallReads(w', n, x, key, START, MAX_DEPTH);
    assert nodes[1..][0] == nodes[1];
    assert key in EvalNodes(w', nodes[1..], Root, START, MAX_DEPTH).seen;
    assert key in EvalNodes(w', nodes, Root, START, MAX_DEPTH).seen;
    RunOfList(w', nodes);
  }

  lemma RunOfList(w: World, nodes: seq<Node>)
    ensures EvalNode(w, List(nodes), Root, START, MAX_DEPTH) == EvalNodes(w, nodes, Root, START, MAX_DEPTH)
  {}

  /** For every key and all data, without any function. */
  lemma SlashedNameEscapes(w: World, n: string, x: string, key: string)
    requires key !in AUTOMATIC && key != x + "/" && !Padded(x + "/")
    ensures Misses(w, SlashedName(n, x, key), key)
  {
    hide Execute, Described, Padded, SlashedName;
    SlashedNameFacts(n, x, key);
    SlashedNameReads(w, n, x, key);
  }

  // ---- None of them is in the fragment ----

  lemma OutsideTheFragment(i: string, x: string, f: string, o: string, m: string, key: string, reach: set<string>)
    ensures !InFragment(OneOperandIndex(key), reach) && !InFragment(TwoVariablesElse(i, x, key), reach)
    ensures !InFragment(PipedRoot(f, key), reach) && !InFragment(NestedAssignment(x, key), reach)
    ensures !InFragment(MethodOfRoot(o, m, key), reach)
  {
    ReassignmentOutside(x, key, reach);
    hide AllInFragment, NestedAssignment, MethodOfRoot;
    MethodOutside(o, m, key, reach);
    var piped := PipedRoot(f, key);
    assert !FragArg(TwoCommands(f));
    assert !FragArg(piped.pipe.cmds[0].args[0]);
    assert !FragArgs(piped.pipe.cmds[0].args);
    var one := OneOperandIndex(key);
    assert !FragCommand(Command([Identifier("index"), Dot]));
    assert !FragArg(one.pipe.cmds[0].args[0]);
    assert !FragArgs(one.pipe.cmds[0].args);
  }

  lemma MethodOutside(o: string, m: string, key: string, reach: set<string>)
    ensures !InFragment(MethodOfRoot(o, m, key), reach)
  {
    var call := MethodPipe(o, m).cmds[0];
    assert !NeverRoot(call.args[1]);
    assert !FragCommand(call);
    assert !FragArg(MethodPipe(o, m));
    assert !FragArg(MethodOfRoot(o, m, key).pipe.cmds[0].args[0]);
    assert !FragArgs(MethodOfRoot(o, m, key).pipe.cmds[0].args);
  }

  lemma ReassignmentOutside(x: string, key: string, reach: set<string>)
    ensures !InFragment(NestedAssignment(x, key), reach)
  {
    hide FragCommand, FragArg, FragArgs;
    var nodes := NestedAssignment(x, key).nodes;
    var inner := nodes[1].list.nodes;
    assert !InFragment(inner[0], reach);
    assert !AllInFragment(inner, reach);
    assert !InFragment(nodes[1], reach) && nodes[1..][0] == nodes[1];
    assert !AllInFragment(nodes[1..], reach);
  }

  /** Only its name keeps the slashed set out. */
  lemma SlashedNameOutside(n: string, x: string, key: string, reach: set<string>)
    ensures !SetInFragment(SlashedName(n, x, key), reach)
  {
    var format := SlashedName(n, x, key);
    assert '/' in n + "/" + x;
    if InFragment(format.root, reach) {
      SecondInFragment(format.root.nodes, reach);
    }
  }

  lemma SecondInFragment(nodes: seq<Node>, reach: set<string>)
    requires |nodes| == 2 && InFragment(List(nodes), reach)
    ensures InFragment(nodes[1], reach)
  {
    hide FragPipe;
    assert AllInFragment(nodes, reach);
    assert AllInFragment(nodes[1..], reach) && nodes[1..][0] == nodes[1];
  }

  // ---- One world for all of them ----

  /** A sane world with one object, whose functions and methods return their last argument. */
  function OneObject(o: string): World {
    World([Entry(o, Opaque(0))], Last, map[])
  }

  /** One without data. */
  function NoData(): World {
    World([], Last, map[])
  }

  function Last(name: string, vals: seq<Value>): Option<Value> {
    if vals == [] then None else Some(vals[|vals| - 1])
  }

  /** Sane worlds in which each of the six, all outside the fragment, reads a key that the
      analysis misses: the assumption on worlds does not exclude them. */
  lemma FragmentIsNeeded(i: string, x: string, f: string, o: string, m: string, n: string, key: string, reach: set<string>)
    requires key !in AUTOMATIC && i != x && i != "$" && key != o && o != "" && !Padded(o)
    requires f != "and" && f != "or" && !IndexOrGet(Identifier(f)) && key != x + "/" && !Padded(x + "/")
    ensures Sane(OneObject(o)) && Sane(NoData())
    ensures forall root <- [OneOperandIndex(key), PipedRoot(f, key), NestedAssignment(x, key), MethodOfRoot(o, m, key)] ::
              !InFragment(root, reach) && Misses(OneObject(o), Only(root), key)
    ensures !InFragment(TwoVariablesElse(i, x, key), reach) && Misses(NoData(), Only(TwoVariablesElse(i, x, key)), key)
    ensures !SetInFragment(SlashedName(n, x, key), reach) && Misses(OneObject(o), SlashedName(n, x, key), key)
  {
    hide Misses, InFragment, Sane, OneOperandIndex, TwoVariablesElse, PipedRoot, NestedAssignment, MethodOfRoot, SlashedName, Padded,
         SetInFragment;
    LastIsSane(o);
    OutsideTheFragment(i, x, f, o, m, key, reach);
    SlashedNameOutside(n, x, key, reach);
    var w := OneObject(o);
    OneOperandIndexEscapes(w, key);
    PipedRootEscapes(w, f, key);
    NestedAssignmentEscapes(w, x, key);
    MethodOfRootEscapes(w, o, m, 0, key);
    TwoVariablesElseEscapes(NoData(), i, x, key);
    SlashedNameEscapes(w, n, x, key);
  }

  lemma LastIsSane(o: string)
    ensures Sane(OneObject(o)) && Sane(NoData())
  {}
}
