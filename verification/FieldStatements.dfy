/** Soundness of the notes over statements and called templates, and the theorem about
    DescribeFields. */
module FieldStatements {
  import opened Wrappers
  import opened TemplateSyntax
  import opened TemplateEvaluator
  import opened FieldAnalysis
  import opened FieldNotes
  import opened FieldSoundness
  import opened TemplateIsolation

  // ---- The stack of variables ----

  lemma PushRel(vars: Vars, env: Env, name: string, p: Path, v: Value)
    requires RelEnv(vars, env) && Abs(p, v)
    ensures RelEnv(vars[name := p], env + [Slot(name, v)])
  {
    var env' := env + [Slot(name, v)];
    assert env'[..|env'| - 1] == env && env'[|env'| - 1] == Slot(name, v);
    forall x | Top(env', x).Some?
      ensures Abs(PathOf(vars[name := p], x), Top(env', x).value)
    {
      if x != name {
        assert Top(env', x) == Top(env, x);
      }
    }
  }

  lemma BindOne(name: string, v: Value, env: Env)
    ensures Bind([name], false, v, env) == env + [Slot(name, v)]
  {
    assert [name][1..] == [];
  }

  /** The scope after a pipeline with at most one declaration still matches. */
  lemma DeclareRel(pipe: Node, pdot: Path, vars: Vars, env: Env, v: Value)
    requires FragPipe(pipe, 1) && RelEnv(vars, env) && Abs(FieldPath(pipe, pdot, vars), v)
    ensures RelEnv(Declare(pipe, pdot, vars), Bind(pipe.decl, false, v, env))
  {
    if |pipe.decl| == 1 {
      assert pipe.decl == [pipe.decl[0]];
      BindOne(pipe.decl[0], v, env);
      PushRel(vars, env, pipe.decl[0], FieldPath(pipe, pdot, vars), v);
    }
  }

  /** The stack is a base with one slot above it for each declared variable. */
  predicate Slots(decl: seq<string>, base: Env, env: Env) {
    && |env| == |base| + |decl|
    && env[..|base|] == base
    && forall i :: 0 <= i < |decl| ==> env[|base| + i].name == decl[i]
  }

  lemma {:induction false} BindSlots(decl: seq<string>, v: Value, env: Env)
    ensures |Bind(decl, false, v, env)| == |env| + |decl|
    ensures Slots(decl, env, Bind(decl, false, v, env))
    decreases |decl|
  {
    if decl != [] {
      var env1 := env + [Slot(decl[0], v)];
      BindSlots(decl[1..], v, env1);
      var r := Bind(decl, false, v, env);
      assert r[..|env1|] == env1;
      assert r[..|env|] == r[..|env1|][..|env|] == env;
      assert r[|env|] == r[..|env1|][|env|];
      forall i | 0 <= i < |decl|
        ensures r[|env| + i].name == decl[i]
      {
        if i > 0 {
          assert decl[1..][i - 1] == decl[i];
          assert r[|env1| + (i - 1)].name == decl[1..][i - 1];
        }
      }
    }
  }

  /** What an iteration sees: the range's variables bound to its index and element. */
  lemma RangeRel(pipe: Node, pdot: Path, vars: Vars, base: Env, env: Env, visit: Visit, element: Path)
    requires FragPipe(pipe, 2) && RelEnv(vars, base) && Slots(pipe.decl, base, env)
    requires element != Some([]) && Clean(visit.index) && Clean(visit.element)
    ensures var env0 := SetRange(pipe.decl, false, visit, env);
            && Slots(pipe.decl, base, env0)
            && RelEnv(BindRange(Declare(pipe, pdot, vars), pipe.decl, element), env0)
  {
    var decl := pipe.decl;
    var env0 := SetRange(decl, false, visit, env);
    if decl == [] {
      assert env == base;
    } else if |decl| == 1 {
      assert env[..|env| - 1] == base;
      assert env0 == base + [Slot(decl[0], visit.element)];
      PushRel(vars, base, decl[0], element, visit.element);
      assert Declare(pipe, pdot, vars)[decl[0] := element] == vars[decl[0] := element];
    } else {
      assert env[..|env| - 2] == base;
      var mid := base + [Slot(decl[0], visit.index)];
      assert env0 == mid + [Slot(decl[1], visit.element)];
      PushRel(vars, base, decl[0], None, visit.index);
      PushRel(vars[decl[0] := None], mid, decl[1], element, visit.element);
      assert decl[1..] == [decl[1]];
    }
  }

  lemma VisitsClean(w: World, v: Value)
    requires Sane(w) && (v.Root? || Clean(v)) && Visits(w, v).Some?
    ensures forall i :: 0 <= i < |Visits(w, v).value| ==>
              Clean(Visits(w, v).value[i].index) && Clean(Visits(w, v).value[i].element)
  {}

  // ---- Statements ----

  /** A sound run names known keys only, stops at the root only on a key that the data
      lacks, and leaves the stack as the scope says. */
  ghost predicate SoundRun(w: World, r: Run, vars: Vars, env: Env, all: Notes) {
    && r.seen <= Known(all)
    && (r.status.MissingRoot? ==> r.status.key in r.seen && Lookup(w.data, r.status.key).None?)
    && (r.status.Normal? || r.status.Broke? || r.status.Continued? ==> |env| <= |r.env| && r.env[..|env|] == env)
    && (r.status.Normal? ==> RelEnv(vars, r.env))
  }

  /** The templates in reach are in the fragment, and what those called with the root tell
      has been taken into account. */
  ghost predicate Closed(templates: map<string, Node>, reach: set<string>, all: Notes) {
    && (forall n :: n in reach && n in templates ==> InFragment(templates[n], reach))
    && (forall n :: n in reach && Invokes(n, TOP) in all ==> n in templates && NotesOf(templates[n], TOP, HOME) <= all)
  }

  lemma {:induction false} NodeSound(w: World, node: Node, dot: Value, env: Env, depth: nat,
                                     pdot: Path, vars: Vars, all: Notes, reach: set<string>)
    requires InFragment(node, reach) && Match(w, dot, env, pdot, vars)
    requires Noted(NotesOf(node, pdot, vars), all) && Closed(w.templates, reach, all)
    ensures SoundRun(w, EvalNode(w, node, dot, env, depth), After(node, pdot, vars), env, all)
    decreases depth, node, 2
  {
    hide Clean, Sane, RelEnv, Closed, Known, Lookup, EvalArg, EvalIf, EvalRange, EvalTemplate, BranchNotes, CallNotes, Declare, Bind,
         NotesOfAll, AfterAll;
    assert env[..|env|] == env;
    match node
    case List(nodes) => NodesSound(w, nodes, dot, env, depth, pdot, vars, all, reach);
    case Action(pipe) => ActionSound(w, pipe, dot, env, depth, pdot, vars, all);
    case If(_, _, _) => BranchSound(w, node, dot, env, depth, pdot, vars, all, reach);
    case With(_, _, _) => BranchSound(w, node, dot, env, depth, pdot, vars, all, reach);
    case Range(_, _, _) => RangeSound(w, node, dot, env, depth, pdot, vars, all, reach);
    case Template(_, _) => TemplateSound(w, node, dot, env, depth, pdot, vars, all, reach);
    case _ =>
  }

  lemma ActionSound(w: World, pipe: Node, dot: Value, env: Env, depth: nat, pdot: Path, vars: Vars, all: Notes)
    requires FragPipe(pipe, 1) && Match(w, dot, env, pdot, vars) && Noted(NotesOf(pipe, pdot, vars), all)
    ensures SoundRun(w, EvalNode(w, Action(pipe), dot, env, depth), After(pipe, pdot, vars), env, all)
  {
    hide Clean, Sane, RelEnv, Known, Lookup, Declare, Bind, FragCommand, NotesOf, FieldPath, EvalPipe;
    PipeOfOne(pipe, pdot, vars);
    PipeSound(w, pipe, dot, env, pdot, vars, all);
    var r := EvalPipe(w, pipe, dot, env);
    if r.out.Got? {
      DeclareRel(pipe, pdot, vars, env, r.out.value);
      BindSlots(pipe.decl, r.out.value, env);
    }
  }

  lemma {:induction false} NodesSound(w: World, nodes: seq<Node>, dot: Value, env: Env, depth: nat,
                                      pdot: Path, vars: Vars, all: Notes, reach: set<string>)
    requires AllInFragment(nodes, reach) && Match(w, dot, env, pdot, vars)
    requires Noted(NotesOfAll(nodes, pdot, vars), all) && Closed(w.templates, reach, all)
    ensures SoundRun(w, EvalNodes(w, nodes, dot, env, depth), AfterAll(nodes, pdot, vars), env, all)
    decreases depth, nodes, 0
  {
    hide Clean, Sane, RelEnv, Closed, Known, Lookup, NotesOf, After, EvalNode, InFragment;
    if nodes == [] {
      assert env[..|env|] == env;
    } else {
      NodeSound(w, nodes[0], dot, env, depth, pdot, vars, all, reach);
      var r := EvalNode(w, nodes[0], dot, env, depth);
      if r.status.Normal? {
        NodesSound(w, nodes[1..], dot, r.env, depth, pdot, After(nodes[0], pdot, vars), all, reach);
        CutBack(EvalNodes(w, nodes[1..], dot, r.env, depth), r.env, env);
      }
    }
  }

  // ---- Control structures ----

  /** A control structure whose pipeline failed, or whose part `r` ran and is cut back. */
  ghost predicate PartSound(w: World, p: Eval, r: Run, env: Env, all: Notes) {
    && p.seen <= Known(all) && r.seen <= Known(all)
    && (r.status.MissingRoot? ==> r.status.key in r.seen && Lookup(w.data, r.status.key).None?)
    && (r.status.Normal? || r.status.Broke? || r.status.Continued? ==> Cut(r.env, |env|) == env)
  }

  lemma CutRunSound(w: World, p: Eval, r: Run, vars: Vars, env: Env, all: Notes)
    requires PartSound(w, p, r, env, all) && RelEnv(vars, env)
    ensures SoundRun(w, Run(r.status, Cut(r.env, |env|), p.seen + r.seen), vars, env, all)
  {
    hide RelEnv, Known, Lookup;
    assert env[..|env|] == env;
  }

  lemma StoppedSound(w: World, p: Eval, vars: Vars, env: Env, all: Notes)
    requires p.env == env && p.seen <= Known(all) && !p.out.Got?
    requires p.out.MissingKey? ==> p.out.key in p.seen && Lookup(w.data, p.out.key).None?
    ensures SoundRun(w, Run(Stopped(p.out), Cut(p.env, |env|), p.seen), vars, env, all)
  {
    hide RelEnv, Known, Lookup;
  }

  lemma InnerSound(w: World, p: Eval, r: Run, inner: Vars, mid: Env, env: Env, all: Notes)
    requires SoundRun(w, r, inner, mid, all) && p.seen <= Known(all)
    requires |env| <= |mid| && mid[..|env|] == env
    ensures PartSound(w, p, r, env, all)
  {
    hide RelEnv, Known, Lookup;
    CutBack(r, mid, env);
  }

  lemma CutBack(r: Run, mid: Env, env: Env)
    requires |env| <= |mid| && mid[..|env|] == env
    ensures |mid| <= |r.env| && r.env[..|mid|] == mid ==> Cut(r.env, |env|) == env && r.env[..|env|] == env
  {
    if |mid| <= |r.env| && r.env[..|mid|] == mid {
      assert r.env[..|env|] == r.env[..|mid|][..|env|];
    }
  }

  /** The notes of a branch, part by part. */
  lemma BranchNoted(node: Node, most: nat, pdot: Path, vars: Vars, all: Notes)
    requires node.If? || node.With? || node.Range?
    requires FragPipe(node.pipe, most) && Noted(NotesOf(node, pdot, vars), all)
    ensures Noted(NotesOf(node.pipe, pdot, vars), all) && Noted(ContextNotes(node, pdot, vars), all)
    ensures var local := Declare(node.pipe, pdot, vars);
            && Noted(NotesOf(node.list, BodyDot(node, pdot, vars), BodyVars(node, pdot, vars, local)), all)
            && Noted(NotesOf(node.elseList, pdot, local), all)
  {
    hide FieldPath, After, BodyDot, BodyVars, ContextNotes, Declare, FragCommand;
    PipeOfOne(node.pipe, pdot, vars);
  }

  lemma {:induction false} BranchSound(w: World, node: Node, dot: Value, env: Env, depth: nat,
                                       pdot: Path, vars: Vars, all: Notes, reach: set<string>)
    requires node.If? || node.With?
    requires InFragment(node, reach) && Match(w, dot, env, pdot, vars)
    requires Noted(NotesOf(node, pdot, vars), all) && Closed(w.templates, reach, all)
    ensures SoundRun(w, EvalIf(w, node, dot, env, depth), vars, env, all)
    decreases depth, node, 1
  {
    hide Clean, Sane, RelEnv, Bind, Declare, NotesOf, EvalNode, EvalPipe, SoundRun, Known, Lookup, Closed, FragCommand, FieldPath, After;
    BranchNoted(node, 1, pdot, vars, all);
    PipeSound(w, node.pipe, dot, env, pdot, vars, all);
    var p := EvalPipe(w, node.pipe, dot, env);
    var local := Declare(node.pipe, pdot, vars);
    if p.out.Got? {
      DeclareRel(node.pipe, pdot, vars, env, p.out.value);
      BindSlots(node.pipe.decl, p.out.value, env);
      var r: Run;
      if Truth(w, p.out.value) {
        var inner := if node.With? then p.out.value else dot;
        NodeSound(w, node.list, inner, p.env, depth, BodyDot(node, pdot, vars), local, all, reach);
        r := EvalNode(w, node.list, inner, p.env, depth);
        InnerSound(w, p, r, After(node.list, BodyDot(node, pdot, vars), local), p.env, env, all);
      } else {
        NodeSound(w, node.elseList, dot, p.env, depth, pdot, local, all, reach);
        r := EvalNode(w, node.elseList, dot, p.env, depth);
        InnerSound(w, p, r, After(node.elseList, pdot, local), p.env, env, all);
      }
      CutRunSound(w, p, r, vars, env, all);
    } else {
      StoppedSound(w, p, vars, env, all);
    }
  }

  lemma {:induction false} RangeSound(w: World, node: Node, dot: Value, env: Env, depth: nat,
                                      pdot: Path, vars: Vars, all: Notes, reach: set<string>)
    requires node.Range?
    requires InFragment(node, reach) && Match(w, dot, env, pdot, vars)
    requires Noted(NotesOf(node, pdot, vars), all) && Closed(w.templates, reach, all)
    ensures SoundRun(w, EvalRange(w, node, dot, env, depth), vars, env, all)
    decreases depth, node, 1
  {
    hide Clean, Sane, RelEnv, Bind, Declare, NotesOf, EvalNode, EvalPipe, EvalLoop, SoundRun, Known, Lookup, Closed, FragCommand,
         FieldPath, After, Visits;
    BranchNoted(node, 2, pdot, vars, all);
    PipeSound(w, node.pipe, dot, env, pdot, vars, all);
    var p := EvalPipe(w, node.pipe, dot, env);
    if !p.out.Got? {
      StoppedSound(w, p, vars, env, all);
    } else {
      BindSlots(node.pipe.decl, p.out.value, env);
      var visits := Visits(w, p.out.value);
      if visits.Some? {
        var r := VisitsSound(w, node, dot, env, depth, pdot, vars, all, reach, p);
        CutRunSound(w, p, r, vars, env, all);
      } else {
        CutRunSound(w, p, Run(Aborted, p.env, {}), vars, env, all);
        assert p.seen + {} == p.seen;
      }
    }
  }

  /** The part of a range that runs: its body for each element, or its alternative. */
  lemma {:induction false} VisitsSound(w: World, node: Node, dot: Value, env: Env, depth: nat,
                                       pdot: Path, vars: Vars, all: Notes, reach: set<string>, p: Eval) returns (r: Run)
    requires node.Range?
    requires InFragment(node, reach) && Match(w, dot, env, pdot, vars)
    requires Noted(NotesOf(node, pdot, vars), all) && Closed(w.templates, reach, all)
    requires p.out.Got? && p.seen <= Known(all) && Abs(FieldPath(node.pipe, pdot, vars), p.out.value)
    requires p.env == Bind(node.pipe.decl, false, p.out.value, env) && Visits(w, p.out.value).Some?
    requires Slots(node.pipe.decl, env, p.env) && |env| <= |p.env| && p.env[..|env|] == env
    ensures var visits := Visits(w, p.out.value).value;
            && r == (if visits == [] then EvalNode(w, node.elseList, dot, p.env, depth)
                     else EvalLoop(w, node.list, node.pipe, visits, p.env, depth))
            && PartSound(w, p, r, env, all)
    decreases depth, node, 0, 1
  {
    hide Clean, RelEnv, Bind, Declare, NotesOf, EvalNode, EvalLoop, Known, Lookup, Closed, FragCommand, FieldPath, After, Visits, SoundRun;
    BranchNoted(node, 2, pdot, vars, all);
    RangeKnown(node, pdot, vars, all);
    var visits := Visits(w, p.out.value).value;
    if visits != [] {
      VisitsClean(w, p.out.value);
      LoopSound(w, node.list, node.pipe, visits, p.env, depth, env, pdot, vars, BodyDot(node, pdot, vars), all, reach);
      r := EvalLoop(w, node.list, node.pipe, visits, p.env, depth);
      CutBack(r, p.env[..|env|], env);
    } else {
      ElseSound(w, node, dot, p.out.value, env, depth, pdot, vars, all, reach);
      r := EvalNode(w, node.elseList, dot, p.env, depth);
      CutBack(r, p.env, env);
    }
  }

  lemma RangeKnown(node: Node, pdot: Path, vars: Vars, all: Notes)
    requires node.Range? && Noted(ContextNotes(node, pdot, vars), all)
    ensures FieldPath(node.pipe, pdot, vars).Some?
    ensures BodyDot(node, pdot, vars).Some? && BodyDot(node, pdot, vars).value != []
  {
    hide FieldPath;
    assert Doubt !in UnlessKnown(FieldPath(node.pipe, pdot, vars));
  }

  /** The alternative of a range, which runs when there is nothing to visit. */
  lemma {:induction false} ElseSound(w: World, node: Node, dot: Value, v: Value, env: Env, depth: nat,
                                     pdot: Path, vars: Vars, all: Notes, reach: set<string>)
    requires node.Range? && InFragment(node, reach)
    requires Match(w, dot, env, pdot, vars) && Abs(FieldPath(node.pipe, pdot, vars), v)
    requires Noted(NotesOf(node.elseList, pdot, Declare(node.pipe, pdot, vars)), all) && Closed(w.templates, reach, all)
    ensures var r := EvalNode(w, node.elseList, dot, Bind(node.pipe.decl, false, v, env), depth);
            var env1 := Bind(node.pipe.decl, false, v, env);
            && r.seen <= Known(all)
            && (r.status.MissingRoot? ==> r.status.key in r.seen && Lookup(w.data, r.status.key).None?)
            && (r.status.Normal? || r.status.Broke? || r.status.Continued? ==> |env1| <= |r.env| && r.env[..|env1|] == env1)
    decreases depth, node, 0, 0
  {
    hide Clean, RelEnv, Declare, NotesOf, Known, Lookup, Closed, FragCommand, FieldPath, After;
    if |node.pipe.decl| <= 1 {
      DeclareRel(node.pipe, pdot, vars, env, v);
      NodeSound(w, node.elseList, dot, Bind(node.pipe.decl, false, v, env), depth, pdot, Declare(node.pipe, pdot, vars), all, reach);
    } else {
      var env1 := Bind(node.pipe.decl, false, v, env);
      assert env1[..|env1|] == env1;
    }
  }

  lemma {:induction false} LoopSound(w: World, list: Node, pipe: Node, visits: seq<Visit>, env: Env, depth: nat, base: Env,
                                     pdot: Path, vars: Vars, element: Path, all: Notes, reach: set<string>)
    requires Sane(w) && RelEnv(vars, base) && FragPipe(pipe, 2) && Slots(pipe.decl, base, env)
    requires InFragment(list, reach) && Closed(w.templates, reach, all)
    requires element.Some? && element.value != []
    requires forall i :: 0 <= i < |visits| ==> Clean(visits[i].index) && Clean(visits[i].element)
    requires Noted(NotesOf(list, element, BindRange(Declare(pipe, pdot, vars), pipe.decl, element)), all)
    ensures LoopDone(w, EvalLoop(w, list, pipe, visits, env, depth), base, all)
    decreases depth, list, 3 + |visits|
  {
    hide Clean, Sane, RelEnv, BindRange, Declare, InFragment, EvalNode, FragCommand, Known, Lookup, EvalLoop, SoundRun, LoopDone, NotesOf,
         After, Closed;
    if visits == [] {
      NoVisits(w, list, pipe, env, depth, base, all);
    } else {
      var bodyVars := BindRange(Declare(pipe, pdot, vars), pipe.decl, element);
      RangeRel(pipe, pdot, vars, base, env, visits[0], element);
      var env0 := SetRange(pipe.decl, false, visits[0], env);
      NodeSound(w, list, visits[0].element, env0, depth, element, bodyVars, all, reach);
      var r := EvalNode(w, list, visits[0].element, env0, depth);
      if r.status.Normal? || r.status.Continued? {
        LoopSound(w, list, pipe, visits[1..], env0, depth, base, pdot, vars, element, all, reach);
      }
      LoopStep(w, list, pipe, visits, env, depth, env0, r, After(list, element, bodyVars), base, all);
    }
  }

  /** The end of a loop above a base of the stack. */
  ghost predicate LoopDone(w: World, r: Run, base: Env, all: Notes) {
    && r.seen <= Known(all)
    && (r.status.MissingRoot? ==> r.status.key in r.seen && Lookup(w.data, r.status.key).None?)
    && !r.status.Broke? && !r.status.Continued?
    && (r.status.Normal? ==> |base| <= |r.env| && r.env[..|base|] == base)
  }

  lemma NoVisits(w: World, list: Node, pipe: Node, env: Env, depth: nat, base: Env, all: Notes)
    requires |base| <= |env| && env[..|base|] == base
    ensures LoopDone(w, EvalLoop(w, list, pipe, [], env, depth), base, all)
  {}

  /** One iteration, then the rest unless it ended the loop. */
  lemma LoopStep(w: World, list: Node, pipe: Node, visits: seq<Visit>, env: Env, depth: nat, env0: Env, r: Run, inner: Vars,
                 base: Env, all: Notes)
    requires visits != [] && pipe.Pipe? && env0 == SetRange(pipe.decl, pipe.isAssign, visits[0], env)
    requires r == EvalNode(w, list, visits[0].element, env0, depth) && SoundRun(w, r, inner, env0, all)
    requires |env0| == |env| && |base| <= |env0| && env0[..|base|] == base
    requires r.status.Normal? || r.status.Continued? ==> LoopDone(w, EvalLoop(w, list, pipe, visits[1..], env0, depth), base, all)
    ensures LoopDone(w, EvalLoop(w, list, pipe, visits, env, depth), base, all)
  {
    hide EvalNode, SetRange, RelEnv, Known, Lookup;
    CutBack(r, env0, env0);
    assert env0[..|env0|] == env0;
  }

  // ---- Called templates ----

  /** A call in the fragment: its context is known, and a call with the root is noted. */
  lemma CallNotesNoted(node: Node, pdot: Path, vars: Vars, all: Notes)
    requires node.Template? && (node.pipe.Absent? || FragPipe(node.pipe, 0)) && Noted(NotesOf(node, pdot, vars), all)
    ensures FragPipe(node.pipe, 0) && Noted(NotesOf(node.pipe, pdot, vars), all)
    ensures FieldPath(node.pipe, pdot, vars).Some? && Invokes(node.template, FieldPath(node.pipe, pdot, vars)) in all
    ensures After(node.pipe, pdot, vars) == vars
  {
    hide FieldPath, FragCommand, After;
    NotesOfCall(node, pdot, vars);
    var path := FieldPath(node.pipe, pdot, After(node.pipe, pdot, vars));
    assert path.Some? by {
      assert Doubt !in UnlessKnown(path);
    }
    AbsentHasNoPath(node.pipe, pdot, After(node.pipe, pdot, vars));
    PipeOfOne(node.pipe, pdot, vars);
  }

  lemma AbsentHasNoPath(node: Node, pdot: Path, vars: Vars)
    ensures node.Absent? ==> FieldPath(node, pdot, vars).None?
  {}

  lemma HomeRel()
    ensures RelEnv(HOME, [Slot("$", Root)])
  {
    var none: Vars := map[];
    PushRel(none, [], "$", Some([]), Root);
    assert none["$" := Some([])] == HOME;
    assert [] + [Slot("$", Root)] == [Slot("$", Root)];
  }

  /** A called template: handed the root it is sound by its own notes, otherwise it cannot
      get hold of the root at all. */
  lemma {:induction false} TemplateSound(w: World, node: Node, dot: Value, env: Env, depth: nat,
                                         pdot: Path, vars: Vars, all: Notes, reach: set<string>)
    requires node.Template?
    requires InFragment(node, reach) && Match(w, dot, env, pdot, vars)
    requires Noted(NotesOf(node, pdot, vars), all) && Closed(w.templates, reach, all)
    ensures SoundRun(w, EvalTemplate(w, node, dot, env, depth), After(node, pdot, vars), env, all)
    decreases depth, node, 1
  {
    hide Clean, Sane, RelEnv, Declare, NotesOf, EvalNode, EvalPipe, Known, Lookup, FragCommand, FieldPath;
    CallNotesNoted(node, pdot, vars, all);
    assert env[..|env|] == env;
    if node.template in w.templates && depth > 0 {
      PipeSound(w, node.pipe, dot, env, pdot, vars, all);
      var p := EvalPipe(w, node.pipe, dot, env);
      if p.out.Got? {
        var callee, v := w.templates[node.template], p.out.value;
        if FieldPath(node.pipe, pdot, vars) == TOP {
          HomeRel();
          NodeSound(w, callee, Root, [Slot("$", Root)], depth - 1, TOP, HOME, all, reach);
        } else {
          NodeClean(w, callee, v, [Slot("$", v)], depth - 1);
        }
      }
    }
  }

  // ---- Every call with the root is expanded ----

  /** A path whose first name is not empty. */
  predicate Proper(p: Path) {
    p.Some? && (p.value != [] ==> p.value[0] != "")
  }

  lemma {:induction false} ArgCallsNothing(node: Node, dot: Path, vars: Vars)
    requires FragArg(node) || FragCommand(node)
    ensures forall n, p :: Invokes(n, p) !in NotesOf(node, dot, vars)
    decreases node
  {
    hide FieldPath, PathNote;
    match node
    case Field(_) => PathCallsNothing(FieldPath(node, dot, vars));
    case Variable(_, _) => PathCallsNothing(FieldPath(node, dot, vars));
    case Chain(base, _) =>
      PathCallsNothing(FieldPath(node, dot, vars));
      ArgCallsNothing(base, dot, vars);
    case Pipe(_, _, cmds) =>
      PipeOfOne(node, dot, vars);
      ArgCallsNothing(cmds[0], dot, vars);
    case Command(args) =>
      CommandCallsNothing(args, dot, vars);
      ArgsCallNothing(args, dot, vars);
    case _ =>
  }

  lemma PathCallsNothing(path: Path)
    ensures forall n, p :: Invokes(n, p) !in PathNote(path, false)
  {}

  lemma {:induction false} ArgsCallNothing(nodes: seq<Node>, dot: Path, vars: Vars)
    requires FragArgs(nodes)
    ensures forall n, p :: Invokes(n, p) !in NotesOfAll(nodes, dot, vars)
    decreases nodes
  {
    if nodes != [] {
      ArgsNoted(nodes, dot, vars);
      ArgCallsNothing(nodes[0], dot, vars);
      ArgsCallNothing(nodes[1..], dot, vars);
    }
  }

  lemma PipeCallsNothing(pipe: Node, dot: Path, vars: Vars, most: nat)
    requires FragPipe(pipe, most)
    ensures forall n, p :: Invokes(n, p) !in NotesOf(pipe, dot, vars)
  {
    PipeOfOne(pipe, dot, vars);
    ArgCallsNothing(pipe.cmds[0], dot, vars);
  }

  /** Without a doubt, every known path of the fragment is proper in a proper context. */
  lemma {:induction false} PathProper(node: Node, dot: Path, vars: Vars, all: Notes)
    requires FragArg(node) || FragCommand(node)
    requires Proper(dot) && Noted(NotesOf(node, dot, vars), all)
    ensures FieldPath(node, dot, vars).Some? ==> Proper(FieldPath(node, dot, vars))
    decreases node
  {
    hide PathNote;
    match node
    case Field(_) => NotedIsProper(FieldPath(node, dot, vars), all);
    case Variable(_, _) => NotedIsProper(FieldPath(node, dot, vars), all);
    case Chain(_, _) => NotedIsProper(FieldPath(node, dot, vars), all);
    case Pipe(_, _, cmds) =>
      PipeOfOne(node, dot, vars);
      PathProper(cmds[0], dot, vars, all);
    case Command(args) =>
      if |args| == 1 {
        ArgsNoted(args, dot, vars);
        PathProper(args[0], dot, vars, all);
      } else if |args| >= 3 && IndexOrGet(args[0]) {
        assert Noted(CommandNotes(args, dot, vars), all);
        NotedIsProper(FieldPath(node, dot, vars), all);
      }
    case _ =>
  }

  lemma NotedIsProper(path: Path, all: Notes)
    requires Noted(PathNote(path, false), all)
    ensures path.Some? ==> Proper(path)
  {
    if path.Some? && path.value != [] {
      PathKnown(path, false, all);
    }
  }

  /** What a tree of the fragment calls is in reach, with a proper context. */
  lemma {:induction false} CallsAreProper(node: Node, dot: Path, vars: Vars, all: Notes, reach: set<string>)
    requires InFragment(node, reach) && Proper(dot) && Noted(NotesOf(node, dot, vars), all)
    ensures forall n, p :: Invokes(n, p) in NotesOf(node, dot, vars) ==> n in reach && Proper(p)
    decreases node
  {
    hide FieldPath, PathNote, FragCommand, Declare, BodyVars, After;
    match node
    case List(nodes) => AllCallsAreProper(nodes, dot, vars, all, reach);
    case Action(pipe) => PipeCallsNothing(pipe, dot, vars, 1);
    case If(pipe, list, elseList) => BranchCallsAreProper(node, dot, vars, all, reach);
    case With(pipe, list, elseList) => BranchCallsAreProper(node, dot, vars, all, reach);
    case Range(pipe, list, elseList) => BranchCallsAreProper(node, dot, vars, all, reach);
    case Template(name, pipe) =>
      CallNotesNoted(node, dot, vars, all);
      NotesOfCall(node, dot, vars);
      PipeCallsNothing(pipe, dot, vars, 0);
      PipeOfOne(pipe, dot, vars);
      PathProper(pipe.cmds[0], dot, vars, all);
    case _ =>
  }

  lemma {:induction false} BranchCallsAreProper(node: Node, dot: Path, vars: Vars, all: Notes, reach: set<string>)
    requires node.If? || node.With? || node.Range?
    requires InFragment(node, reach) && Proper(dot) && Noted(NotesOf(node, dot, vars), all)
    ensures forall n, p :: Invokes(n, p) in NotesOf(node, dot, vars) ==> n in reach && Proper(p)
    decreases node, 0
  {
    hide FieldPath, PathNote, FragCommand, Declare, BodyVars, After, NotesOf;
    BranchNoted(node, 2, dot, vars, all);
    NotesOfBranch(node, dot, vars);
    PipeCallsNothing(node.pipe, dot, vars, 2);
    PipeOfOne(node.pipe, dot, vars);
    PathProper(node.pipe.cmds[0], dot, vars, all);
    ContextIsProper(node, dot, vars, all);
    var local := Declare(node.pipe, dot, vars);
    CallsAreProper(node.list, BodyDot(node, dot, vars), BodyVars(node, dot, vars, local), all, reach);
    CallsAreProper(node.elseList, dot, local, all, reach);
  }

  lemma ContextIsProper(node: Node, dot: Path, vars: Vars, all: Notes)
    requires node.If? || node.With? || node.Range?
    requires Noted(ContextNotes(node, dot, vars), all) && Proper(dot)
    requires FieldPath(node.pipe, dot, vars).Some? ==> Proper(FieldPath(node.pipe, dot, vars))
    ensures Proper(BodyDot(node, dot, vars))
    ensures forall n, p :: Invokes(n, p) !in ContextNotes(node, dot, vars)
  {
    hide FieldPath;
    assert Doubt !in ContextNotes(node, dot, vars);
    assert node.If? || Doubt !in UnlessKnown(FieldPath(node.pipe, dot, vars));
  }

  lemma {:induction false} AllCallsAreProper(nodes: seq<Node>, dot: Path, vars: Vars, all: Notes, reach: set<string>)
    requires AllInFragment(nodes, reach) && Proper(dot) && Noted(NotesOfAll(nodes, dot, vars), all)
    ensures forall n, p :: Invokes(n, p) in NotesOfAll(nodes, dot, vars) ==> n in reach && Proper(p)
    decreases nodes
  {
    hide NotesOf, After, InFragment;
    if nodes != [] {
      CallsAreProper(nodes[0], dot, vars, all, reach);
      AllCallsAreProper(nodes[1..], dot, After(nodes[0], dot, vars), all, reach);
    }
  }

  /** A template set in the fragment: no name in reach holds a slash, and what is in reach
      of a tree is in reach of the set. */
  predicate SetInFragment(format: Parsed, reach: set<string>)
    requires format.Parsed?
  {
    && InFragment(format.root, reach)
    && forall n :: n in reach ==> '/' !in n && (n in format.defined ==> InFragment(format.defined[n], reach))
  }

  lemma {:induction false} ExpansionsAreProper(format: Parsed, exps: seq<Expansion>, reach: set<string>, i: nat)
    requires format.Parsed? && SetInFragment(format, reach) && Complete(format, exps) && i < |exps|
    requires Doubt !in FormatNotes(format, exps)
    ensures exps[i].template in reach && Proper(exps[i].path)
    decreases i
  {
    hide InFragment, NotesOf, KeyOf;
    var e, all := exps[i], FormatNotes(format, exps);
    if Invokes(e.template, e.path) in NotesOf(format.root, TOP, HOME) {
      CallsAreProper(format.root, TOP, HOME, all, reach);
    } else {
      var j := CallerOf(format.defined, exps[..i], Invokes(e.template, e.path));
      ExpansionsAreProper(format, exps, reach, j);
      ExpansionInAll(format.defined, exps, j);
      CallsAreProper(format.defined[exps[j].template], exps[j].path, map["$" := exps[j].path], all, reach);
    }
  }

  lemma {:induction false} CallerOf(defined: map<string, Node>, exps: seq<Expansion>, note: Note) returns (j: nat)
    requires note.Invokes? && note in AllNotes(defined, exps)
    ensures j < |exps| && exps[j].template in defined && note in ExpansionNotes(defined, exps[j])
    decreases |exps|
  {
    hide NotesOf;
    var n := |exps| - 1;
    if note in ExpansionNotes(defined, exps[n]) {
      j := n;
    } else {
      j := CallerOf(defined, exps[..n], note);
    }
  }

  lemma {:induction false} SlashSplits(a: string, x: string, b: string, y: string)
    requires '/' !in a && '/' !in b && a + "/" + x == b + "/" + y
    ensures a == b && x == y
  {
    var s, t := a + "/" + x, b + "/" + y;
    assert s[|a|] == '/' && t[|b|] == '/';
    assert forall k :: 0 <= k < |a| ==> s[k] == a[k];
    assert forall k :: 0 <= k < |b| ==> t[k] == b[k];
    assert |a| == |b|;
    assert a == s[..|a|] && b == t[..|b|];
    assert x == s[|a| + 1..] && y == t[|b| + 1..];
  }

  /** So every template that is called with the root has been expanded with the root. */
  lemma SetIsClosed(format: Parsed, exps: seq<Expansion>, reach: set<string>)
    requires format.Parsed? && SetInFragment(format, reach) && Complete(format, exps)
    requires Doubt !in FormatNotes(format, exps)
    ensures Closed(format.defined, reach, FormatNotes(format, exps))
  {
    hide InFragment, NotesOf;
    var all := FormatNotes(format, exps);
    forall n | n in reach && Invokes(n, TOP) in all
      ensures n in format.defined && NotesOf(format.defined[n], TOP, HOME) <= all
    {
      var i :| 0 <= i < |exps| && KeyOf(exps[i]) == VisitKey(n, TOP);
      var e := exps[i];
      ExpansionsAreProper(format, exps, reach, i);
      SlashSplits(e.template, if e.path.value == [] then "" else e.path.value[0], n, "");
      assert e == Expansion(n, TOP);
      ExpansionInAll(format.defined, exps, i);
      assert Doubt !in ExpansionNotes(format.defined, e);
    }
  }

  // ---- The theorem about DescribeFields ----

  lemma FormatSound(w: World, format: Parsed, reach: set<string>, exps: seq<Expansion>)
    requires Sane(w) && format.Parsed? && SetInFragment(format, reach) && Complete(format, exps)
    requires Doubt !in FormatNotes(format, exps)
    ensures Execute(w, format).seen <= Known(FormatNotes(format, exps))
    ensures var r := Execute(w, format);
            r.status.MissingRoot? ==> r.status.key in r.seen && Lookup(w.data, r.status.key).None?
  {
    hide InFragment, NotesOf, EvalNode, RelEnv, Known, Closed;
    var all := FormatNotes(format, exps);
    var w' := w.(templates := format.defined);
    SetIsClosed(format, exps, reach);
    HomeRel();
    assert Sane(w');
    NodeSound(w', format.root, Root, [Slot("$", Root)], MAX_DEPTH, TOP, HOME, all, reach);
  }

  lemma KnownOfNames(d: FieldDescription, some: Notes, union: Notes)
    requires some <= union
    requires forall x :: x in Names(d) <==> Reads(x, false) in union || Reads(x, true) in union
    ensures Known(some) <= Names(d) + AUTOMATIC
  {
    hide Names;
    forall x | x in Known(some)
      ensures x in Names(d) + AUTOMATIC
    {
      if x !in AUTOMATIC {
        var n :| n in some && n.Reads? && n.name == x;
        assert n == Reads(x, n.complex);
      }
    }
  }

  /** For every template set of the fragment among the formats, and all data: unless the
      description is advanced, each root key that execution looks up by name, in the
      format or in any template that it calls, is one of its fields or automatic. */
  lemma DescriptionIsComplete(w: World, formats: seq<Parsed>, i: nat, reach: set<string>, d: FieldDescription)
    requires Sane(w) && i < |formats| && formats[i].Parsed? && SetInFragment(formats[i], reach)
    requires Describes(d, DescribedAll(formats, NOTHING))
    ensures !d.advanced ==> Execute(w, formats[i]).seen <= Names(d) + AUTOMATIC
    ensures !d.advanced ==> var r := Execute(w, formats[i]);
                            r.status.MissingRoot? ==> r.status.key in r.seen && Lookup(w.data, r.status.key).None?
  {
    hide Complete, FormatNotes, UnionOfNotes, Known, Execute, Sane, Describes, DescribedAll, SetInFragment, Names;
    var exps := DescriptionIsSummary(formats, d);
    FormatInUnion(formats, exps, i);
    if !d.advanced {
      FormatSound(w, formats[i], reach, exps[i]);
      KnownOfNames(d, FormatNotes(formats[i], exps[i]), UnionOfNotes(formats, exps));
    }
  }

  /** A form that fills in every described field never meets the missing-key error of
      the root. */
  lemma FilledFormNeverMissesRoot(w: World, formats: seq<Parsed>, i: nat, reach: set<string>, d: FieldDescription)
    requires Sane(w) && i < |formats| && formats[i].Parsed? && SetInFragment(formats[i], reach)
    requires Describes(d, DescribedAll(formats, NOTHING))
    ensures !d.advanced && (forall k :: k in Names(d) + AUTOMATIC ==> Lookup(w.data, k).Some?)
            ==> !Execute(w, formats[i]).status.MissingRoot?
  {
    hide Execute, Sane, Describes, DescribedAll, SetInFragment, Names;
    DescriptionIsComplete(w, formats, i, reach, d);
  }
}
