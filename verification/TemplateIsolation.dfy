/** A tree that is handed no root never gets hold of it: whatever the tree, the templates
    it calls and the functions, nothing is looked up at the root. */
module TemplateIsolation {
  import opened Wrappers
  import opened TemplateSyntax
  import opened TemplateEvaluator
  import opened FieldSoundness

  predicate CleanEnv(env: Env) {
    forall i :: 0 <= i < |env| ==> Clean(env[i].value)
  }

  predicate CleanRead(r: Read) {
    r.seen == {} && !r.out.MissingKey? && (r.out.Got? ==> Clean(r.out.value))
  }

  predicate CleanEval(r: Eval) {
    CleanRead(Read(r.out, r.seen)) && CleanEnv(r.env)
  }

  predicate CleanMany(m: Many) {
    && m.seen == {} && CleanEnv(m.env) && AllClean(m.values)
    && (m.stop.Some? ==> m.stop.value.Failure?)
  }

  predicate CleanRun(r: Run) {
    r.seen == {} && !r.status.MissingRoot? && CleanEnv(r.env)
  }

  // ---- Variables ----

  lemma {:induction false} TopClean(env: Env, name: string)
    requires CleanEnv(env)
    ensures Top(env, name).Some? ==> Clean(Top(env, name).value)
  {
    if env != [] && env[|env| - 1].name != name {
      TopClean(env[..|env| - 1], name);
    }
  }

  lemma {:induction false} SetVarClean(env: Env, name: string, v: Value)
    requires CleanEnv(env) && Clean(v)
    ensures CleanEnv(SetVar(env, name, v))
  {
    if env != [] && env[|env| - 1].name != name {
      SetVarClean(env[..|env| - 1], name, v);
    }
  }

  lemma {:induction false} BindClean(decl: seq<string>, isAssign: bool, v: Value, env: Env)
    requires CleanEnv(env) && Clean(v)
    ensures CleanEnv(Bind(decl, isAssign, v, env))
    decreases |decl|
  {
    if decl != [] {
      if isAssign {
        SetVarClean(env, decl[0], v);
        BindClean(decl[1..], isAssign, v, SetVar(env, decl[0], v));
      } else {
        BindClean(decl[1..], isAssign, v, env + [Slot(decl[0], v)]);
      }
    }
  }

  lemma SetRangeClean(decl: seq<string>, isAssign: bool, v: Visit, env: Env)
    requires CleanEnv(env) && Clean(v.index) && Clean(v.element)
    ensures CleanEnv(SetRange(decl, isAssign, v, env))
  {
    hide Clean;
    if |decl| == 1 {
      SetVarClean(env, decl[0], v.element);
    } else if |decl| == 2 {
      SetVarClean(env, decl[0], v.index);
      SetVarClean(SetVar(env, decl[0], v.index), decl[1], v.element);
    }
  }

  // ---- Values ----

  lemma ChainClean(w: World, v: Value, idents: seq<string>)
    requires Sane(w) && Clean(v)
    ensures CleanRead(FieldChain(w, v, idents))
  {
    FieldChainSound(w, v, None, idents);
  }

  lemma {:induction false} IndexClean(w: World, v: Value, keys: seq<Value>)
    requires Sane(w) && Clean(v)
    ensures CleanRead(IndexAll(w, v, keys))
    decreases |keys|
  {
    if keys != [] {
      IndexStepSound(w, v, keys[0]);
      var r := IndexStep(w, v, keys[0]);
      if r.out.Got? {
        IndexClean(w, r.out.value, keys[1..]);
      }
    }
  }

  lemma FunctionClean(w: World, name: string, vals: seq<Value>)
    requires Sane(w) && AllClean(vals)
    ensures CleanRead(CallFunction(w, name, vals))
  {
    hide Sane, Clean;
    if name == "index" {
      if vals != [] {
        IndexClean(w, vals[0], vals[1..]);
      }
    } else if name == "get" {
      GetClean(w, vals);
    } else {
      CallIsClean(w, name, vals);
    }
  }

  lemma GetClean(w: World, vals: seq<Value>)
    requires Sane(w) && AllClean(vals)
    ensures CleanRead(GetKey(w, vals))
  {
    if |vals| == 2 && vals[1].Text? && vals[0].Mapping? {
      LookupClean(vals[0].entries, vals[1].s);
    }
  }

  // ---- Expressions ----

  lemma {:induction false} ArgClean(w: World, node: Node, dot: Value, env: Env)
    requires Sane(w) && Clean(dot) && CleanEnv(env)
    ensures CleanEval(EvalArg(w, node, dot, env))
    decreases node, 1
  {
    hide Sane, Clean, CleanEnv, EvalPipe;
    match node
    case Identifier(name) => FunctionClean(w, name, []);
    case Field(idents) => ChainClean(w, dot, idents);
    case Variable(name, idents) =>
      TopClean(env, name);
      if Top(env, name).Some? {
        ChainClean(w, Top(env, name).value, idents);
      }
    case Chain(base, fields) =>
      ArgClean(w, base, dot, env);
      var b := EvalArg(w, base, dot, env);
      if b.out.Got? {
        ChainClean(w, b.out.value, fields);
      }
    case Pipe(_, _, _) => PipeClean(w, node, dot, env);
    case NilWord => PlainIsClean(w, node, dot, env);
    case Plain(_) => PlainIsClean(w, node, dot, env);
    case Str(_) => PlainIsClean(w, node, dot, env);
    case _ =>
  }

  lemma {:induction false} PipeClean(w: World, node: Node, dot: Value, env: Env)
    requires node.Pipe? && Sane(w) && Clean(dot) && CleanEnv(env)
    ensures CleanEval(EvalPipe(w, node, dot, env))
    decreases node, 0
  {
    hide Sane, Clean, CleanEnv;
    CommandsClean(w, node.cmds, dot, env, None);
    var r := EvalCommands(w, node.cmds, dot, env, None);
    if r.out.Got? {
      BindClean(node.decl, node.isAssign, r.out.value, r.env);
    }
  }

  predicate CleanFinal(final: Option<Value>) {
    final.Some? ==> Clean(final.value)
  }

  lemma {:induction false} CommandsClean(w: World, cmds: seq<Node>, dot: Value, env: Env, final: Option<Value>)
    requires Sane(w) && Clean(dot) && CleanEnv(env) && CleanFinal(final)
    ensures CleanEval(EvalCommands(w, cmds, dot, env, final))
    decreases cmds, 0
  {
    hide Sane, Clean, CleanEnv, EvalCommand;
    if cmds != [] {
      CommandClean(w, cmds[0], dot, env, final);
      var c := EvalCommand(w, cmds[0], dot, env, final);
      if c.out.Got? {
        CommandsClean(w, cmds[1..], dot, c.env, Some(c.out.value));
      }
    }
  }

  lemma {:induction false} CommandClean(w: World, node: Node, dot: Value, env: Env, final: Option<Value>)
    requires Sane(w) && Clean(dot) && CleanEnv(env) && CleanFinal(final)
    ensures CleanEval(EvalCommand(w, node, dot, env, final))
    decreases node, 1
  {
    hide Sane, Clean, CleanEnv, EvalMethod, EvalShort, EvalAll, EvalArg, CallFunction;
    if node.Command? && node.args != [] {
      var first := node.args[0];
      if first.Identifier? {
        if first.ident == "and" || first.ident == "or" {
          ShortClean(w, node.args[1..], first.ident == "or", dot, env, final);
        } else {
          AllArgsClean(w, node.args[1..], dot, env);
          var m := EvalAll(w, node.args[1..], dot, env);
          if m.stop.None? {
            FunctionClean(w, first.ident, m.values + FinalArg(final));
          }
        }
      } else if |node.args| > 1 || final.Some? {
        MethodClean(w, node, dot, env, final);
      } else {
        ArgClean(w, first, dot, env);
      }
    }
  }

  lemma {:induction false} ShortClean(w: World, args: seq<Node>, isOr: bool, dot: Value, env: Env, final: Option<Value>)
    requires Sane(w) && Clean(dot) && CleanEnv(env) && CleanFinal(final)
    ensures CleanEval(EvalShort(w, args, isOr, dot, env, final))
    decreases args, 0
  {
    hide Sane, Clean, CleanEnv, EvalArg;
    if args != [] {
      ArgClean(w, args[0], dot, env);
      var a := EvalArg(w, args[0], dot, env);
      if a.out.Got? {
        ShortClean(w, args[1..], isOr, dot, a.env, final);
      }
    }
  }

  lemma {:induction false} AllArgsClean(w: World, args: seq<Node>, dot: Value, env: Env)
    requires Sane(w) && Clean(dot) && CleanEnv(env)
    ensures CleanMany(EvalAll(w, args, dot, env))
    decreases args, 0
  {
    hide Sane, Clean, CleanEnv, EvalArg;
    if args != [] {
      ArgClean(w, args[0], dot, env);
      var a := EvalArg(w, args[0], dot, env);
      if a.out.Got? {
        AllArgsClean(w, args[1..], dot, a.env);
      }
    }
  }

  lemma {:induction false} ReceiverClean(w: World, first: Node, dot: Value, env: Env)
    requires Sane(w) && Clean(dot) && CleanEnv(env)
    ensures CleanEval(Receiver(w, first, dot, env).0)
    decreases first, 2
  {
    hide Sane, Clean, CleanEnv, EvalArg;
    match first
    case Variable(name, _) => TopClean(env, name);
    case Chain(base, _) => ArgClean(w, base, dot, env);
    case _ =>
  }

  lemma {:induction false} MethodClean(w: World, node: Node, dot: Value, env: Env, final: Option<Value>)
    requires node.Command? && node.args != []
    requires Sane(w) && Clean(dot) && CleanEnv(env) && CleanFinal(final)
    ensures CleanEval(EvalMethod(w, node, dot, env, final))
    decreases node, 0
  {
    hide Sane, Clean, CleanEnv, EvalAll, Receiver, FieldChain;
    ReceiverClean(w, node.args[0], dot, env);
    var (b, idents) := Receiver(w, node.args[0], dot, env);
    if b.out.Got? && idents != [] {
      ChainClean(w, b.out.value, idents[..|idents| - 1]);
      var r := FieldChain(w, b.out.value, idents[..|idents| - 1]);
      AllArgsClean(w, node.args[1..], dot, b.env);
      var m := EvalAll(w, node.args[1..], dot, b.env);
      if r.out.Got? && r.out.value.Opaque? && m.stop.None? {
        CallIsClean(w, "." + idents[|idents| - 1], [r.out.value] + m.values + FinalArg(final));
      }
    }
  }

  // ---- Statements ----

  lemma VisitsAreClean(w: World, v: Value)
    requires Clean(v) && Visits(w, v).Some?
    ensures forall i :: 0 <= i < |Visits(w, v).value| ==> Clean(Visits(w, v).value[i].index) && Clean(Visits(w, v).value[i].element)
  {}

  /** The theorem: no lookup at the root and no missing key of it, from any tree that starts
      from values without it. */
  lemma {:induction false} NodeClean(w: World, node: Node, dot: Value, env: Env, depth: nat)
    requires Sane(w) && Clean(dot) && CleanEnv(env)
    ensures CleanRun(EvalNode(w, node, dot, env, depth))
    decreases depth, node, 1
  {
    hide Sane, Clean, CleanEnv, EvalArg, EvalIf, EvalRange, EvalTemplate, EvalNodes;
    match node
    case List(nodes) => NodesClean(w, nodes, dot, env, depth);
    case Action(pipe) => ArgClean(w, pipe, dot, env);
    case If(_, _, _) => BranchClean(w, node, dot, env, depth);
    case With(_, _, _) => BranchClean(w, node, dot, env, depth);
    case Range(_, _, _) => RangeClean(w, node, dot, env, depth);
    case Template(_, _) => TemplateClean(w, node, dot, env, depth);
    case _ =>
  }

  lemma {:induction false} NodesClean(w: World, nodes: seq<Node>, dot: Value, env: Env, depth: nat)
    requires Sane(w) && Clean(dot) && CleanEnv(env)
    ensures CleanRun(EvalNodes(w, nodes, dot, env, depth))
    decreases depth, nodes, 0
  {
    hide Sane, Clean, CleanEnv, EvalNode;
    if nodes != [] {
      NodeClean(w, nodes[0], dot, env, depth);
      NodesClean(w, nodes[1..], dot, EvalNode(w, nodes[0], dot, env, depth).env, depth);
    }
  }

  lemma {:induction false} BranchClean(w: World, node: Node, dot: Value, env: Env, depth: nat)
    requires node.If? || node.With?
    requires Sane(w) && Clean(dot) && CleanEnv(env)
    ensures CleanRun(EvalIf(w, node, dot, env, depth))
    decreases depth, node, 0
  {
    hide Sane, Clean, EvalArg, EvalNode, Truth;
    ArgClean(w, node.pipe, dot, env);
    var p := EvalArg(w, node.pipe, dot, env);
    if p.out.Got? {
      NodeClean(w, node.list, if node.With? then p.out.value else dot, p.env, depth);
      NodeClean(w, node.elseList, dot, p.env, depth);
    }
  }

  lemma {:induction false} RangeClean(w: World, node: Node, dot: Value, env: Env, depth: nat)
    requires node.Range?
    requires Sane(w) && Clean(dot) && CleanEnv(env)
    ensures CleanRun(EvalRange(w, node, dot, env, depth))
    decreases depth, node, 0
  {
    hide Sane, Clean, EvalArg, EvalNode, EvalLoop, Visits;
    ArgClean(w, node.pipe, dot, env);
    var p := EvalArg(w, node.pipe, dot, env);
    if p.out.Got? && Visits(w, p.out.value).Some? {
      VisitsAreClean(w, p.out.value);
      NodeClean(w, node.elseList, dot, p.env, depth);
      LoopClean(w, node.list, node.pipe, Visits(w, p.out.value).value, p.env, depth);
    }
  }

  lemma {:induction false} LoopClean(w: World, list: Node, pipe: Node, visits: seq<Visit>, env: Env, depth: nat)
    requires Sane(w) && CleanEnv(env)
    requires forall i :: 0 <= i < |visits| ==> Clean(visits[i].index) && Clean(visits[i].element)
    ensures CleanRun(EvalLoop(w, list, pipe, visits, env, depth))
    decreases depth, list, 2 + |visits|
  {
    hide Sane, Clean, EvalNode, SetRange;
    if visits != [] {
      var env0 := if pipe.Pipe? then SetRange(pipe.decl, pipe.isAssign, visits[0], env) else env;
      if pipe.Pipe? {
        SetRangeClean(pipe.decl, pipe.isAssign, visits[0], env);
      }
      NodeClean(w, list, visits[0].element, env0, depth);
      LoopClean(w, list, pipe, visits[1..], Cut(EvalNode(w, list, visits[0].element, env0, depth).env, |env|), depth);
    }
  }

  lemma {:induction false} TemplateClean(w: World, node: Node, dot: Value, env: Env, depth: nat)
    requires node.Template?
    requires Sane(w) && Clean(dot) && CleanEnv(env)
    ensures CleanRun(EvalTemplate(w, node, dot, env, depth))
    decreases depth, node, 0
  {
    hide Sane, EvalArg, EvalNode;
    ArgClean(w, node.pipe, dot, env);
    if node.template in w.templates && depth > 0 {
      var p := if node.pipe.Absent? then Eval(Got(Nil), env, {}) else EvalArg(w, node.pipe, dot, env);
      if p.out.Got? {
        NodeClean(w, w.templates[node.template], p.out.value, [Slot("$", p.out.value)], depth - 1);
      }
    }
  }
}
