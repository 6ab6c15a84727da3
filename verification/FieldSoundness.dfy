/** Soundness of the notes over expressions: when a tree gives rise to no doubt, every
    root key that its evaluation looks up by name has been noted.

    The abstraction is exact about one thing: a path is Some([]) only for the root
    itself, and a value with any other path contains no reference to the root. */
module FieldSoundness {
  import opened Wrappers
  import opened TemplateSyntax
  import opened TemplateEvaluator
  import opened FieldAnalysis
  import opened FieldNotes

  // ---- Values without the root ----

  predicate Clean(v: Value) {
    match v
    case Root => false
    case Listing(items) => forall i :: 0 <= i < |items| ==> Clean(items[i])
    case Mapping(entries) => forall i :: 0 <= i < |entries| ==> Clean(entries[i].value)
    case _ => true
  }

  predicate AllClean(vals: seq<Value>) {
    forall i :: 0 <= i < |vals| ==> Clean(vals[i])
  }

  predicate CleanEntries(entries: seq<Entry>) {
    forall i :: 0 <= i < |entries| ==> Clean(entries[i].value)
  }

  /** The data is plain, and no function invents a reference to the root. */
  ghost predicate Sane(w: World) {
    && CleanEntries(w.data)
    && forall name, vals :: AllClean(vals) && w.call(name, vals).Some? ==> Clean(w.call(name, vals).value)
  }

  predicate Abs(p: Path, v: Value) {
    if p == Some([]) then v.Root? else Clean(v)
  }

  ghost predicate RelEnv(vars: Vars, env: Env) {
    forall x :: Top(env, x).Some? ==> Abs(PathOf(vars, x), Top(env, x).value)
  }

  ghost predicate Match(w: World, dot: Value, env: Env, pdot: Path, vars: Vars) {
    Sane(w) && Abs(pdot, dot) && RelEnv(vars, env)
  }

  /** The names that a form built from the notes will have filled in. */
  ghost function Known(all: Notes): set<string> {
    (set n | n in all && n.Reads? :: n.name) + AUTOMATIC
  }

  /** Notes that were taken into account, none of them a doubt. */
  ghost predicate Noted(notes: Notes, all: Notes) {
    notes <= all && Doubt !in all
  }

  lemma PathKnown(p: Path, complex: bool, all: Notes)
    requires Noted(PathNote(p, complex), all) && p.Some? && p.value != []
    ensures p.value[0] in Known(all) && p.value[0] != ""
  {
    if p.value[0] !in AUTOMATIC {
      assert Reads(p.value[0], complex || |p.value| > 1) in all;
    }
  }

  // ---- The fragment ----

  /** Arguments that are never the whole context, whatever the scope. */
  predicate NeverRoot(node: Node) {
    match node
    case Field(idents) => idents != []
    case Variable(_, idents) => idents != []
    case Chain(_, fields) => fields != []
    case Str(_) => true
    case Plain(_) => true
    case NilWord => true
    case Identifier(_) => true
    case _ => false
  }

  predicate FragArg(node: Node) {
    match node
    case Dot => true
    case NilWord => true
    case Plain(_) => true
    case Str(_) => true
    case Identifier(_) => true
    case Field(idents) => idents != []
    case Variable(_, _) => true
    case Chain(base, fields) => fields != [] && FragArg(base)
    case Pipe(decl, _, cmds) => decl == [] && |cmds| == 1 && FragCommand(cmds[0])
    case _ => false
  }

  predicate FragArgs(nodes: seq<Node>) {
    nodes == [] || (FragArg(nodes[0]) && FragArgs(nodes[1..]))
  }

  /** Not a one-operand index; the arguments of a method are never the root. */
  predicate FragCommand(node: Node) {
    && node.Command?
    && node.args != []
    && FragArgs(node.args)
    && (IndexOrGet(node.args[0]) ==> |node.args| != 2)
    && (!node.args[0].Identifier? ==> forall i :: 1 <= i < |node.args| ==> NeverRoot(node.args[i]))
  }

  /** One command, and `:=` if anything is declared. */
  predicate FragPipe(node: Node, most: nat) {
    && node.Pipe?
    && !node.isAssign
    && |node.cmds| == 1
    && FragCommand(node.cmds[0])
    && |node.decl| <= most
  }

  /** Called templates are among those in reach; a range with two variables has no
      alternative. */
  predicate InFragment(node: Node, reach: set<string>) {
    match node
    case Absent => true
    case Plain(_) => true
    case Break => true
    case Continue => true
    case List(nodes) => AllInFragment(nodes, reach)
    case Action(pipe) => FragPipe(pipe, 1)
    case If(pipe, list, elseList) => FragPipe(pipe, 1) && InFragment(list, reach) && InFragment(elseList, reach)
    case With(pipe, list, elseList) => FragPipe(pipe, 1) && InFragment(list, reach) && InFragment(elseList, reach)
    case Range(pipe, list, elseList) =>
      && FragPipe(pipe, 2) && (|pipe.decl| == 2 ==> elseList.Absent?)
      && InFragment(list, reach) && InFragment(elseList, reach)
    case Template(name, pipe) => name in reach && (pipe.Absent? || FragPipe(pipe, 0))
    case _ => false
  }

  predicate AllInFragment(nodes: seq<Node>, reach: set<string>) {
    nodes == [] || (InFragment(nodes[0], reach) && AllInFragment(nodes[1..], reach))
  }

  // ---- Lookups ----

  lemma {:induction false} LookupClean(entries: seq<Entry>, key: string)
    requires CleanEntries(entries)
    ensures Lookup(entries, key).Some? ==> Clean(Lookup(entries, key).value)
  {
    if entries != [] && entries[0].key != key {
      LookupClean(entries[1..], key);
    }
  }

  lemma FieldStepSound(w: World, v: Value, name: string)
    requires Sane(w) && (v.Root? || Clean(v))
    ensures FieldStep(w, v, name).Got? ==> Clean(FieldStep(w, v, name).value)
    ensures FieldStep(w, v, name).MissingKey? ==>
              v.Root? && FieldStep(w, v, name).key == name && Lookup(w.data, name).None?
  {
    match v
    case Root => LookupClean(w.data, name);
    case Mapping(entries) => LookupClean(entries, name);
    case Opaque(_) => assert AllClean([v]);
    case _ =>
  }

  /** What a sound read of a value promises: the root keys it names, and the value it gets. */
  ghost predicate SoundRead(w: World, r: Read, p: Path, named: set<string>) {
    && r.seen <= named
    && (r.out.Got? ==> Abs(p, r.out.value))
    && (r.out.MissingKey? ==> r.out.key in r.seen && Lookup(w.data, r.out.key).None?)
  }

  function RootNames(p: Path, idents: seq<string>): set<string> {
    if p == Some([]) && idents != [] then {idents[0]} else {}
  }

  lemma {:induction false} FieldChainSound(w: World, v: Value, p: Path, idents: seq<string>)
    requires Sane(w) && Abs(p, v)
    ensures SoundRead(w, FieldChain(w, v, idents), Extend(p, idents), RootNames(p, idents))
    decreases |idents|
  {
    if idents == [] {
      assert p.Some? ==> p.value + idents == p.value;
    } else {
      FieldStepSound(w, v, idents[0]);
      var out := FieldStep(w, v, idents[0]);
      if out.Got? {
        FieldChainSound(w, out.value, None, idents[1..]);
      }
    }
  }

  function Texts(keys: seq<string>): seq<Value> {
    seq(|keys|, i requires 0 <= i < |keys| => Text(keys[i]))
  }

  lemma IndexStepSound(w: World, v: Value, key: Value)
    requires Sane(w) && (v.Root? || Clean(v))
    ensures !IndexStep(w, v, key).out.MissingKey?
    ensures IndexStep(w, v, key).out.Got? ==> Clean(IndexStep(w, v, key).out.value)
    ensures IndexStep(w, v, key).seen <= if v.Root? && key.Text? then {key.s} else {}
  {
    match v
    case Root => if key.Text? { LookupClean(w.data, key.s); }
    case Mapping(entries) => if key.Text? { LookupClean(entries, key.s); }
    case _ =>
  }

  lemma {:induction false} IndexSound(w: World, v: Value, p: Path, keys: seq<string>)
    requires Sane(w) && Abs(p, v)
    ensures SoundRead(w, IndexAll(w, v, Texts(keys)), Extend(p, keys), RootNames(p, keys))
    decreases |keys|
  {
    if keys == [] {
      assert p.Some? ==> p.value + keys == p.value;
    } else {
      IndexStepSound(w, v, Text(keys[0]));
      var r := IndexStep(w, v, Text(keys[0]));
      assert Texts(keys)[1..] == Texts(keys[1..]);
      if r.out.Got? {
        IndexSound(w, r.out.value, None, keys[1..]);
      }
    }
  }

  lemma GetSound(w: World, v: Value, p: Path, keys: seq<string>)
    requires Sane(w) && Abs(p, v) && keys != []
    ensures SoundRead(w, GetKey(w, [v] + Texts(keys)), Extend(p, keys), RootNames(p, keys))
  {
    if |keys| == 1 {
      assert ([v] + Texts(keys))[1] == Text(keys[0]);
      if v.Root? {
        LookupClean(w.data, keys[0]);
      } else if v.Mapping? {
        LookupClean(v.entries, keys[0]);
      }
    }
  }

  // ---- Expressions ----

  /** A sound evaluation: the stack is unchanged and the read is sound. */
  ghost predicate SoundEval(w: World, r: Eval, p: Path, env: Env, all: Notes) {
    r.env == env && SoundRead(w, Read(r.out, r.seen), p, Known(all))
  }

  /** Arguments of the fragment declare nothing. */
  lemma {:induction false} ArgAfter(node: Node, dot: Path, vars: Vars)
    requires FragArg(node) || FragCommand(node)
    ensures After(node, dot, vars) == vars
    decreases node
  {
    match node
    case Chain(base, _) => ArgAfter(base, dot, vars);
    case Pipe(_, _, cmds) =>
      ArgAfter(cmds[0], dot, vars);
      assert AfterAll(cmds[1..], dot, vars) == vars;
    case Command(args) => ArgsAfter(args, dot, vars);
    case _ =>
  }

  lemma {:induction false} ArgsAfter(nodes: seq<Node>, dot: Path, vars: Vars)
    requires FragArgs(nodes)
    ensures AfterAll(nodes, dot, vars) == vars
    decreases nodes
  {
    if nodes != [] {
      ArgAfter(nodes[0], dot, vars);
      ArgsAfter(nodes[1..], dot, vars);
    }
  }

  /** A pipeline of the fragment: the notes of its command, and its declaration. */
  lemma PipeOfOne(node: Node, dot: Path, vars: Vars)
    requires node.Pipe? && |node.cmds| == 1 && FragCommand(node.cmds[0])
    ensures NotesOf(node, dot, vars) == NotesOf(node.cmds[0], dot, vars)
    ensures After(node, dot, vars) == Declare(node, dot, vars)
    ensures FieldPath(node, dot, vars) == FieldPath(node.cmds[0], dot, vars)
  {
    hide Declare;
    ArgAfter(node.cmds[0], dot, vars);
    assert node.cmds[1..] == [];
    assert NotesOfAll(node.cmds[1..], dot, vars) == {};
    assert AfterAll(node.cmds[1..], dot, vars) == vars;
  }

  lemma ArgsNoted(nodes: seq<Node>, dot: Path, vars: Vars)
    requires nodes != [] && FragArgs(nodes)
    ensures NotesOfAll(nodes, dot, vars) == NotesOf(nodes[0], dot, vars) + NotesOfAll(nodes[1..], dot, vars)
    ensures FragArg(nodes[0]) && FragArgs(nodes[1..])
  {
    hide NotesOf, After;
    ArgAfter(nodes[0], dot, vars);
  }

  ghost predicate SoundMany(w: World, m: Many, nodes: seq<Node>, pdot: Path, vars: Vars, env: Env, all: Notes) {
    && m.env == env
    && m.seen <= Known(all)
    && (m.stop.Some? ==> !m.stop.value.Got?)
    && (m.stop.Some? && m.stop.value.MissingKey? ==> m.stop.value.key in m.seen && Lookup(w.data, m.stop.value.key).None?)
    && (m.stop.None? ==>
          && |m.values| == |nodes|
          && forall i :: 0 <= i < |nodes| ==> Abs(FieldPath(nodes[i], pdot, vars), m.values[i]))
  }

  /** The first name of a noted path is known, whatever the rest of it. */
  lemma NamesKnown(base: Path, tail: seq<string>, complex: bool, all: Notes)
    requires Noted(PathNote(Extend(base, tail), complex), all)
    ensures RootNames(base, tail) <= Known(all)
  {
    if base == Some([]) && tail != [] {
      PathKnown(Extend(base, tail), complex, all);
    }
  }

  lemma {:induction false} ArgSound(w: World, node: Node, dot: Value, env: Env, pdot: Path, vars: Vars, all: Notes)
    requires FragArg(node) && Match(w, dot, env, pdot, vars) && Noted(NotesOf(node, pdot, vars), all)
    ensures SoundEval(w, EvalArg(w, node, dot, env), FieldPath(node, pdot, vars), env, all)
    decreases node, 2
  {
    hide Sane, RelEnv, Clean, Known, PathNote, Lookup;
    match node
    case Identifier(name) => NoArguments(w, name);
    case Field(idents) =>
      FieldChainSound(w, dot, pdot, idents);
      NamesKnown(pdot, idents, false, all);
    case Variable(name, idents) => VariableSound(w, name, idents, dot, env, pdot, vars, all);
    case Chain(base, fields) =>
      ArgSound(w, base, dot, env, pdot, vars, all);
      ChainSound(w, node, dot, env, pdot, vars, all);
    case Pipe(_, _, _) => PipeSound(w, node, dot, env, pdot, vars, all);
    case Dot =>
    case _ => PlainIsClean(w, node, dot, env);
  }

  lemma PlainIsClean(w: World, node: Node, dot: Value, env: Env)
    requires node.NilWord? || node.Plain? || node.Str?
    ensures var r := EvalArg(w, node, dot, env);
            r.env == env && r.seen == {} && !r.out.MissingKey? && (r.out.Got? ==> Clean(r.out.value))
  {}

  lemma NoArguments(w: World, name: string)
    requires Sane(w)
    ensures var r := CallFunction(w, name, []);
            r.seen == {} && !r.out.MissingKey? && (r.out.Got? ==> Clean(r.out.value))
  {
    assert AllClean([]);
  }

  lemma VariableSound(w: World, name: string, idents: seq<string>, dot: Value, env: Env, pdot: Path, vars: Vars, all: Notes)
    requires Sane(w) && RelEnv(vars, env) && Noted(PathNote(Extend(PathOf(vars, name), idents), false), all)
    ensures SoundEval(w, EvalArg(w, Variable(name, idents), dot, env), Extend(PathOf(vars, name), idents), env, all)
  {
    hide Sane, Known, PathNote, PathOf, Lookup;
    if Top(env, name).Some? {
      FieldChainSound(w, Top(env, name).value, PathOf(vars, name), idents);
      NamesKnown(PathOf(vars, name), idents, false, all);
    }
  }

  lemma ChainSound(w: World, node: Node, dot: Value, env: Env, pdot: Path, vars: Vars, all: Notes)
    requires Sane(w) && node.Chain? && Noted(PathNote(FieldPath(node, pdot, vars), false), all)
    requires SoundEval(w, EvalArg(w, node.base, dot, env), FieldPath(node.base, pdot, vars), env, all)
    ensures SoundEval(w, EvalArg(w, node, dot, env), FieldPath(node, pdot, vars), env, all)
  {
    hide Sane, Known, PathNote, Lookup;
    var b := EvalArg(w, node.base, dot, env);
    var base := FieldPath(node.base, pdot, vars);
    if b.out.Got? {
      FieldChainSound(w, b.out.value, base, node.fields);
      NamesKnown(base, node.fields, false, all);
    }
  }

  lemma {:induction false} ArgsSound(w: World, nodes: seq<Node>, dot: Value, env: Env, pdot: Path, vars: Vars, all: Notes)
    requires FragArgs(nodes) && Match(w, dot, env, pdot, vars) && Noted(NotesOfAll(nodes, pdot, vars), all)
    ensures SoundMany(w, EvalAll(w, nodes, dot, env), nodes, pdot, vars, env, all)
    decreases nodes, 0
  {
    hide Clean, Sane, RelEnv, EvalArg, FieldPath, NotesOf, NotesOfAll, After, Known, Lookup;
    if nodes != [] {
      ArgsNoted(nodes, pdot, vars);
      ArgSound(w, nodes[0], dot, env, pdot, vars, all);
      ArgsSound(w, nodes[1..], dot, env, pdot, vars, all);
    }
  }

  /** `and` and `or` return one of their arguments. */
  lemma {:induction false} ShortSound(w: World, nodes: seq<Node>, isOr: bool, dot: Value, env: Env, pdot: Path, vars: Vars, all: Notes)
    requires FragArgs(nodes) && Match(w, dot, env, pdot, vars) && Noted(NotesOfAll(nodes, pdot, vars), all)
    requires !PassesRoot(nodes, pdot, vars)
    ensures SoundEval(w, EvalShort(w, nodes, isOr, dot, env, None), None, env, all)
    decreases nodes, 0
  {
    hide Sane, RelEnv, EvalArg, NotesOf, NotesOfAll, After, FieldPath, Lookup, Known, FragArgs;
    if nodes != [] {
      ArgsNoted(nodes, pdot, vars);
      ArgSound(w, nodes[0], dot, env, pdot, vars, all);
      assert FieldPath(nodes[0], pdot, vars) != Some([]);
      forall i | 0 <= i < |nodes[1..]|
        ensures FieldPath(nodes[1..][i], pdot, vars) != Some([])
      {
        assert nodes[1..][i] == nodes[i + 1];
      }
      ShortSound(w, nodes[1..], isOr, dot, env, pdot, vars, all);
    }
  }

  lemma {:induction false} LiteralValues(w: World, args: seq<Node>, dot: Value, env: Env)
    requires LiteralKeys(args).Some?
    ensures EvalAll(w, args, dot, env) == Many(Texts(LiteralKeys(args).value), None, env, {})
    decreases |args|
  {
    if args != [] {
      LiteralValues(w, args[1..], dot, env);
    }
  }

  /** A command with a function: the notes of the command, then those of its arguments. */
  lemma CallNoted(args: seq<Node>, pdot: Path, vars: Vars, all: Notes)
    requires args != [] && FragArgs(args) && args[0].Identifier? && Noted(NotesOf(Command(args), pdot, vars), all)
    ensures FragArgs(args[1..])
    ensures Noted(CommandNotes(args, pdot, vars), all) && Noted(NotesOfAll(args[1..], pdot, vars), all)
  {
    hide CommandNotes;
    ArgsNoted(args, pdot, vars);
  }

  lemma IndexCommandSound(w: World, node: Node, dot: Value, env: Env, pdot: Path, vars: Vars, all: Notes)
    requires FragCommand(node) && Match(w, dot, env, pdot, vars) && Noted(NotesOf(node, pdot, vars), all)
    requires |node.args| >= 3 && IndexOrGet(node.args[0])
    ensures SoundEval(w, EvalCommand(w, node, dot, env, None), FieldPath(node, pdot, vars), env, all)
    decreases node, 0
  {
    hide Sane, RelEnv, EvalAll, CommandNotes, LiteralKeys, FieldPath, Known, NotesOf, NotesOfAll, SoundMany, RootNames, Clean;
    var args := node.args;
    CallNoted(args, pdot, vars, all);
    ArgsSound(w, args[1..], dot, env, pdot, vars, all);
    IndexKeysKnown(args, pdot, vars, all);
    IndexCall(w, node, dot, env, pdot, vars, all);
  }

  /** A call of `index` or `get` is sound once its arguments are. */
  lemma IndexCall(w: World, node: Node, dot: Value, env: Env, pdot: Path, vars: Vars, all: Notes)
    requires Sane(w) && node.Command? && |node.args| >= 3 && IndexOrGet(node.args[0])
    requires SoundMany(w, EvalAll(w, node.args[1..], dot, env), node.args[1..], pdot, vars, env, all)
    requires var base, keys := FieldPath(node.args[1], pdot, vars), LiteralKeys(node.args[2..]);
             && keys.Some? && keys.value != []
             && FieldPath(node, pdot, vars) == Extend(base, keys.value)
             && RootNames(base, keys.value) <= Known(all)
    ensures SoundEval(w, EvalCommand(w, node, dot, env, None), FieldPath(node, pdot, vars), env, all)
  {
    hide Sane, RelEnv, EvalArg, EvalAll, CallFunction, Lookup, Clean, RootNames, LiteralKeys, FieldPath, NeverRoot, Known;
    var args := node.args;
    var m := EvalAll(w, args[1..], dot, env);
    var base, keys := FieldPath(args[1], pdot, vars), LiteralKeys(args[2..]);
    assert args[1..][1..] == args[2..];
    if m.stop.None? {
      KeysAfterOperand(w, args[1..], dot, env);
      assert m.values + FinalArg(None) == m.values == [m.values[0]] + Texts(keys.value);
      assert args[1..][0] == args[1];
      IndexOrGetSound(w, args[0], m.values[0], base, keys.value);
    }
  }

  /** What is noted of `index` and `get` has their first key at the root. */
  lemma IndexKeysKnown(args: seq<Node>, pdot: Path, vars: Vars, all: Notes)
    requires |args| >= 3 && IndexOrGet(args[0]) && Noted(CommandNotes(args, pdot, vars), all)
    ensures var base, keys := FieldPath(args[1], pdot, vars), LiteralKeys(args[2..]);
            && keys.Some? && keys.value != []
            && FieldPath(Command(args), pdot, vars) == Extend(base, keys.value)
            && RootNames(base, keys.value) <= Known(all)
  {
    hide PathNote, Known, RootNames;
    var path := FieldPath(Command(args), pdot, vars);
    var base, keys := FieldPath(args[1], pdot, vars), LiteralKeys(args[2..]);
    assert args[2..] != [];
    assert path.Some? by {
      assert Doubt !in UnlessKnown(path);
    }
    NamesKnown(base, keys.value, false, all);
  }

  lemma IndexOrGetSound(w: World, word: Node, v: Value, base: Path, keys: seq<string>)
    requires Sane(w) && IndexOrGet(word) && Abs(base, v) && keys != []
    ensures SoundRead(w, CallFunction(w, word.ident, [v] + Texts(keys)), Extend(base, keys), RootNames(base, keys))
  {
    hide Sane, SoundRead, Abs;
    IndexSound(w, v, base, keys);
    GetSound(w, v, base, keys);
    assert ([v] + Texts(keys))[1..] == Texts(keys);
  }

  lemma KeysAfterOperand(w: World, args: seq<Node>, dot: Value, env: Env)
    requires args != [] && LiteralKeys(args[1..]).Some?
    requires EvalAll(w, args, dot, env).stop.None?
    ensures var m := EvalAll(w, args, dot, env);
            m.values != [] && m.values == [m.values[0]] + Texts(LiteralKeys(args[1..]).value)
  {
    LiteralValues(w, args[1..], dot, EvalArg(w, args[0], dot, env).env);
  }

  lemma CallCommandSound(w: World, node: Node, dot: Value, env: Env, pdot: Path, vars: Vars, all: Notes)
    requires FragCommand(node) && Match(w, dot, env, pdot, vars) && Noted(NotesOf(node, pdot, vars), all)
    requires node.args[0].Identifier? && (|node.args| == 1 || !IndexOrGet(node.args[0]))
    ensures SoundEval(w, EvalCommand(w, node, dot, env, None), FieldPath(node, pdot, vars), env, all)
    decreases node, 0
  {
    hide Sane, RelEnv, EvalArg, EvalAll, EvalShort, NotesOf, NotesOfAll, Clean, Known, PassesRoot, SoundMany, FragArgs;
    var args := node.args;
    CallNoted(args, pdot, vars, all);
    assert !PassesRoot(args[1..], pdot, vars) by {
      if |args| == 1 {
        NothingPassed(args, pdot, vars);
      }
    }
    assert FieldPath(node, pdot, vars).None?;
    if args[0].ident == "and" || args[0].ident == "or" {
      ShortSound(w, args[1..], args[0].ident == "or", dot, env, pdot, vars, all);
    } else {
      ArgsSound(w, args[1..], dot, env, pdot, vars, all);
      FunctionCall(w, node, dot, env, pdot, vars, all);
    }
  }

  lemma FunctionCall(w: World, node: Node, dot: Value, env: Env, pdot: Path, vars: Vars, all: Notes)
    requires Sane(w) && node.Command? && node.args != [] && node.args[0].Identifier?
    requires node.args[0].ident != "and" && node.args[0].ident != "or" && (|node.args| == 1 || !IndexOrGet(node.args[0]))
    requires SoundMany(w, EvalAll(w, node.args[1..], dot, env), node.args[1..], pdot, vars, env, all)
    requires !PassesRoot(node.args[1..], pdot, vars)
    ensures SoundEval(w, EvalCommand(w, node, dot, env, None), None, env, all)
  {
    hide Sane, EvalArg, EvalAll, Clean, Known, FieldPath, Lookup;
    var m := EvalAll(w, node.args[1..], dot, env);
    assert m.values + FinalArg(None) == m.values;
    if m.stop.None? {
      assert AllClean(m.values);
      CallIsClean(w, node.args[0].ident, m.values);
      if |node.args| == 1 {
        assert m.values == [];
        NoArguments(w, node.args[0].ident);
      }
    }
  }

  lemma MethodSound(w: World, node: Node, dot: Value, env: Env, pdot: Path, vars: Vars, all: Notes)
    requires FragCommand(node) && Match(w, dot, env, pdot, vars) && Noted(NotesOf(node, pdot, vars), all)
    requires |node.args| > 1 && !node.args[0].Identifier?
    ensures SoundEval(w, EvalCommand(w, node, dot, env, None), FieldPath(node, pdot, vars), env, all)
    decreases node, 0
  {
    hide Sane, RelEnv, EvalAll, EvalMethod, Receiver, NotesOfAll, Clean, Known, SoundMany, RootNames;
    var args := node.args;
    ArgsNoted(args, pdot, vars);
    ReceiverSound(w, args[0], dot, env, pdot, vars, all);
    ArgsSound(w, args[1..], dot, env, pdot, vars, all);
    forall i | 0 <= i < |args[1..]|
      ensures NeverRoot(args[1..][i])
    {
      assert args[1..][i] == args[i + 1];
    }
    CallOnReceiver(w, node, dot, env, ReceiverPath(args[0], pdot, vars), pdot, vars, all);
  }

  lemma SoundManyParts(w: World, m: Many, nodes: seq<Node>, pdot: Path, vars: Vars, env: Env, all: Notes)
    requires SoundMany(w, m, nodes, pdot, vars, env, all)
    ensures m.env == env && m.seen <= Known(all)
    ensures m.stop.Some? ==> !m.stop.value.Got?
    ensures m.stop.Some? && m.stop.value.MissingKey? ==> m.stop.value.key in m.seen && Lookup(w.data, m.stop.value.key).None?
  {}

  lemma ArgsAreClean(w: World, receiver: Value, m: Many, nodes: seq<Node>, pdot: Path, vars: Vars, env: Env, all: Notes)
    requires SoundMany(w, m, nodes, pdot, vars, env, all) && m.stop.None? && receiver.Opaque?
    requires forall i :: 0 <= i < |nodes| ==> NeverRoot(nodes[i])
    ensures AllClean([receiver] + m.values + FinalArg(None))
  {
    hide Known;
    assert AllClean(m.values);
  }

  /** A method call is sound once its receiver and its arguments are. */
  lemma CallOnReceiver(w: World, node: Node, dot: Value, env: Env, rp: Path, pdot: Path, vars: Vars, all: Notes)
    requires Sane(w) && node.Command? && |node.args| > 1
    requires SoundEval(w, Receiver(w, node.args[0], dot, env).0, rp, env, all)
    requires RootNames(rp, Receiver(w, node.args[0], dot, env).1) <= Known(all)
    requires SoundMany(w, EvalAll(w, node.args[1..], dot, env), node.args[1..], pdot, vars, env, all)
    requires forall i :: 0 <= i < |node.args[1..]| ==> NeverRoot(node.args[1..][i])
    ensures SoundEval(w, EvalMethod(w, node, dot, env, None), None, env, all)
  {
    hide EvalAll, Receiver, RelEnv, Known, NeverRoot, FieldPath, AllClean, Clean, FieldChain, SoundMany, Lookup, RootNames, Sane, Abs;
    SoundManyParts(w, EvalAll(w, node.args[1..], dot, env), node.args[1..], pdot, vars, env, all);
    var (b, idents) := Receiver(w, node.args[0], dot, env);
    if b.out.Got? && idents != [] {
      var lead := idents[..|idents| - 1];
      FieldChainSound(w, b.out.value, rp, lead);
      LeadNames(rp, idents);
      var r := FieldChain(w, b.out.value, lead);
      var m := EvalAll(w, node.args[1..], dot, env);
      if r.out.Got? && r.out.value.Opaque? && m.stop.None? {
        ArgsAreClean(w, r.out.value, m, node.args[1..], pdot, vars, env, all);
        CallIsClean(w, "." + idents[|idents| - 1], [r.out.value] + m.values + FinalArg(None));
      }
    }
  }

  lemma LeadNames(p: Path, idents: seq<string>)
    requires idents != []
    ensures RootNames(p, idents[..|idents| - 1]) <= RootNames(p, idents)
  {}

  /** A function or method that is handed no root returns none. */
  lemma CallIsClean(w: World, name: string, vals: seq<Value>)
    requires Sane(w) && AllClean(vals)
    ensures var out := FromCall(w.call(name, vals));
            !out.MissingKey? && (out.Got? ==> Abs(None, out.value))
  {}

  function ReceiverPath(first: Node, pdot: Path, vars: Vars): Path {
    match first
    case Field(_) => pdot
    case Variable(name, _) => PathOf(vars, name)
    case Chain(base, _) => FieldPath(base, pdot, vars)
    case _ => None
  }

  lemma {:induction false} ReceiverSound(w: World, first: Node, dot: Value, env: Env, pdot: Path, vars: Vars, all: Notes)
    requires FragArg(first) && Match(w, dot, env, pdot, vars) && Noted(NotesOf(first, pdot, vars), all)
    ensures SoundEval(w, Receiver(w, first, dot, env).0, ReceiverPath(first, pdot, vars), env, all)
    ensures RootNames(ReceiverPath(first, pdot, vars), Receiver(w, first, dot, env).1) <= Known(all)
    decreases first, 3
  {
    hide Sane, Clean, Known, PathNote, RootNames, EvalArg, Lookup;
    match first
    case Field(idents) => NamesKnown(pdot, idents, false, all);
    case Variable(name, idents) => NamesKnown(PathOf(vars, name), idents, false, all);
    case Chain(base, fields) =>
      ArgSound(w, base, dot, env, pdot, vars, all);
      NamesKnown(FieldPath(base, pdot, vars), fields, false, all);
    case _ => NoNames(ReceiverPath(first, pdot, vars), all);
  }

  lemma NoNames(p: Path, all: Notes)
    ensures RootNames(p, []) <= Known(all)
  {}

  lemma {:induction false} CommandSound(w: World, node: Node, dot: Value, env: Env, pdot: Path, vars: Vars, all: Notes)
    requires FragCommand(node) && Match(w, dot, env, pdot, vars) && Noted(NotesOf(node, pdot, vars), all)
    ensures SoundEval(w, EvalCommand(w, node, dot, env, None), FieldPath(node, pdot, vars), env, all)
    decreases node, 1
  {
    hide Match, Known, NotesOfAll;
    var args := node.args;
    if args[0].Identifier? {
      if |args| > 1 && IndexOrGet(args[0]) {
        IndexCommandSound(w, node, dot, env, pdot, vars, all);
      } else {
        CallCommandSound(w, node, dot, env, pdot, vars, all);
      }
    } else if |args| > 1 {
      MethodSound(w, node, dot, env, pdot, vars, all);
    } else {
      ArgsNoted(args, pdot, vars);
      ArgSound(w, args[0], dot, env, pdot, vars, all);
    }
  }

  /** A pipeline in the fragment: its value, and the slot of the variable it declares. */
  lemma {:induction false} PipeSound(w: World, node: Node, dot: Value, env: Env, pdot: Path, vars: Vars, all: Notes)
    requires node.Pipe? && |node.cmds| == 1 && FragCommand(node.cmds[0])
    requires Match(w, dot, env, pdot, vars) && Noted(NotesOf(node, pdot, vars), all)
    ensures var r := EvalPipe(w, node, dot, env);
            && SoundRead(w, Read(r.out, r.seen), FieldPath(node, pdot, vars), Known(all))
            && r.env == if r.out.Got? then Bind(node.decl, node.isAssign, r.out.value, env) else env
    decreases node, 1
  {
    hide Match, Known, NotesOf, Bind, FragCommand, EvalCommand;
    var cmd := node.cmds[0];
    PipeOfOne(node, pdot, vars);
    CommandSound(w, cmd, dot, env, pdot, vars, all);
    var c := EvalCommand(w, cmd, dot, env, None);
    if c.out.Got? {
      assert EvalCommands(w, node.cmds[1..], dot, c.env, Some(c.out.value)) == Eval(c.out, c.env, {});
    }
  }
}
