/** What the field analysis finds, without the order in which it finds it: the notes that
    a tree gives rise to in a scope, and which called templates are expanded. The walk of
    FieldAnalysis, with its shared facts and its visit keys, is proved to be their summary. */
module FieldNotes {
  import opened Wrappers
  import opened TemplateSyntax
  import opened FieldAnalysis

  /** A root key that is read, a reason to call the description advanced, or a call of a
      template with a context of that path. */
  datatype Note = Reads(name: string, complex: bool) | Doubt | Invokes(template: string, path: Path)

  type Notes = set<Note>

  /** What reading a path tells. */
  function PathNote(path: Path, complex: bool): Notes {
    if path.None? || path.value == [] then {}
    else if path.value[0] == "" || Padded(path.value[0]) then {Doubt}
    else if path.value[0] in AUTOMATIC then {}
    else {Reads(path.value[0], complex || |path.value| > 1)}
  }

  function UnlessKnown(path: Path): Notes {
    if path.None? then {Doubt} else {}
  }

  /** What a command tells apart from its arguments: the root is out of sight once a
      function has it, and `index` and `get` read their operand and their keys. */
  function CommandNotes(args: seq<Node>, dot: Path, vars: Vars): Notes {
    if args == [] || !args[0].Identifier? then {}
    else if !IndexOrGet(args[0]) then
      if PassesRoot(args[1..], dot, vars) then {Doubt} else {}
    else if |args| < 3 then {}
    else
      var path := FieldPath(Command(args), dot, vars);
      PathNote(FieldPath(args[1], dot, vars), true) + UnlessKnown(path) + PathNote(path, false)
  }

  /** What a branch tells about the context that it opens. */
  function ContextNotes(node: Node, dot: Path, vars: Vars): Notes {
    match node
    case Range(pipe, _, _) => UnlessKnown(FieldPath(pipe, dot, vars)) + PathNote(FieldPath(pipe, dot, vars), true)
    case With(pipe, _, _) => UnlessKnown(FieldPath(pipe, dot, vars))
    case _ => {}
  }

  /** The variables in scope after a tree. */
  function After(node: Node, dot: Path, vars: Vars): Vars
    decreases node
  {
    match node
    case List(nodes) => AfterAll(nodes, dot, vars)
    case Action(pipe) => After(pipe, dot, vars)
    case Pipe(_, _, cmds) => Declare(node, dot, AfterAll(cmds, dot, vars))
    case Command(args) => AfterAll(args, dot, vars)
    case Chain(base, _) => After(base, dot, vars)
    case Template(_, pipe) => After(pipe, dot, vars)
    case _ => vars
  }

  function AfterAll(nodes: seq<Node>, dot: Path, vars: Vars): Vars
    decreases nodes
  {
    if nodes == [] then vars else AfterAll(nodes[1..], dot, After(nodes[0], dot, vars))
  }

  /** Everything that a tree tells by itself, whatever the templates it calls. */
  function NotesOf(node: Node, dot: Path, vars: Vars): Notes
    decreases node, 1
  {
    match node
    case List(nodes) => NotesOfAll(nodes, dot, vars)
    case Action(pipe) => NotesOf(pipe, dot, vars)
    case Pipe(_, _, cmds) => NotesOfAll(cmds, dot, vars)
    case Command(args) => CommandNotes(args, dot, vars) + NotesOfAll(args, dot, vars)
    case Field(_) => PathNote(FieldPath(node, dot, vars), false)
    case Variable(_, _) => PathNote(FieldPath(node, dot, vars), false)
    case Chain(base, _) => PathNote(FieldPath(node, dot, vars), false) + NotesOf(base, dot, vars)
    case If(_, _, _) => BranchNotes(node, dot, vars)
    case Range(_, _, _) => BranchNotes(node, dot, vars)
    case With(_, _, _) => BranchNotes(node, dot, vars)
    case Template(_, _) => CallNotes(node, dot, vars)
    case _ => {}
  }

  function BranchNotes(node: Node, dot: Path, vars: Vars): Notes
    requires node.If? || node.With? || node.Range?
    decreases node, 0
  {
    var local := After(node.pipe, dot, vars);
    NotesOf(node.pipe, dot, vars) + ContextNotes(node, dot, vars)
    + NotesOf(node.list, BodyDot(node, dot, vars), BodyVars(node, dot, vars, local)) + NotesOf(node.elseList, dot, local)
  }

  function CallNotes(node: Node, dot: Path, vars: Vars): Notes
    requires node.Template?
    decreases node, 0
  {
    var path := FieldPath(node.pipe, dot, After(node.pipe, dot, vars));
    NotesOf(node.pipe, dot, vars) + UnlessKnown(path) + {Invokes(node.template, path)}
  }

  function NotesOfAll(nodes: seq<Node>, dot: Path, vars: Vars): Notes
    decreases nodes, 0
  {
    if nodes == [] then {} else NotesOf(nodes[0], dot, vars) + NotesOfAll(nodes[1..], dot, After(nodes[0], dot, vars))
  }

  // ---- Expansions ----

  /** A called template that is walked with a context of that path. */
  datatype Expansion = Expansion(template: string, path: Path)

  function KeyOf(e: Expansion): string {
    VisitKey(e.template, e.path)
  }

  /** What walking the called template tells; one that is not there is a doubt. */
  function ExpansionNotes(defined: map<string, Node>, e: Expansion): Notes {
    if e.template in defined then NotesOf(defined[e.template], e.path, map["$" := e.path]) else {Doubt}
  }

  function AllNotes(defined: map<string, Node>, exps: seq<Expansion>): Notes {
    if exps == [] then {} else AllNotes(defined, exps[..|exps| - 1]) + ExpansionNotes(defined, exps[|exps| - 1])
  }

  // ---- The walk is their summary ----

  /** Facts to which notes have been added, in whatever order. */
  ghost predicate Sums(st: Facts, notes: Notes, r: Facts) {
    && (r.advanced <==> st.advanced || Doubt in notes)
    && (forall x :: x in r.found <==> x in st.found || Reads(x, false) in notes || Reads(x, true) in notes)
    && (forall x :: x in r.found ==> (r.found[x] <==> (x in st.found && st.found[x]) || Reads(x, true) in notes))
  }

  ghost predicate Fresh(st: Facts, exps: seq<Expansion>, r: Facts) {
    && st.visited <= r.visited
    && (forall i :: 0 <= i < |exps| ==> KeyOf(exps[i]) in r.visited && KeyOf(exps[i]) !in st.visited)
    && (forall i, j :: 0 <= i < j < |exps| ==> KeyOf(exps[i]) != KeyOf(exps[j]))
    && (forall key :: key in r.visited && key !in st.visited ==> exists i :: 0 <= i < |exps| && KeyOf(exps[i]) == key)
  }

  /** Every expansion answers a call of the tree or of an expansion before it. */
  ghost predicate Answers(defined: map<string, Node>, notes: Notes, exps: seq<Expansion>) {
    forall i :: 0 <= i < |exps| ==> Invokes(exps[i].template, exps[i].path) in notes + AllNotes(defined, exps[..i])
  }

  /** Every call of the tree or of an expansion has been remembered. */
  ghost predicate Remembered(notes: Notes, r: Facts) {
    forall n, p :: Invokes(n, p) in notes ==> VisitKey(n, p) in r.visited
  }

  /** From `st`, a tree with these notes led to `r` with these expansions. */
  ghost predicate Summary(defined: map<string, Node>, st: Facts, notes: Notes, exps: seq<Expansion>, r: Facts) {
    && Sums(st, notes + AllNotes(defined, exps), r)
    && Fresh(st, exps, r)
    && Answers(defined, notes, exps)
    && Remembered(notes + AllNotes(defined, exps), r)
  }

  lemma {:induction false} AllNotesOfBoth(defined: map<string, Node>, a: seq<Expansion>, b: seq<Expansion>)
    ensures AllNotes(defined, a + b) == AllNotes(defined, a) + AllNotes(defined, b)
    decreases |b|
  {
    if b == [] {
      assert a + b == a;
    } else {
      AllNotesOfBoth(defined, a, b[..|b| - 1]);
      assert (a + b)[..|a + b| - 1] == a + b[..|b| - 1];
    }
  }

  lemma NoExpansions(defined: map<string, Node>, st: Facts, notes: Notes, r: Facts)
    requires Sums(st, notes, r) && r.visited == st.visited
    requires forall n, p :: Invokes(n, p) !in notes
    ensures Summary(defined, st, notes, [], r)
  {
    assert notes + AllNotes(defined, []) == notes;
  }

  lemma AnswersBoth(defined: map<string, Node>, n1: Notes, e1: seq<Expansion>, n2: Notes, e2: seq<Expansion>)
    requires Answers(defined, n1, e1) && Answers(defined, n2, e2)
    ensures Answers(defined, n1 + n2, e1 + e2)
  {
    forall i | 0 <= i < |e1 + e2|
      ensures Invokes((e1 + e2)[i].template, (e1 + e2)[i].path) in n1 + n2 + AllNotes(defined, (e1 + e2)[..i])
    {
      if i < |e1| {
        assert (e1 + e2)[..i] == e1[..i];
      } else {
        assert (e1 + e2)[..i] == e1 + e2[..i - |e1|];
        AllNotesOfBoth(defined, e1, e2[..i - |e1|]);
      }
    }
  }

  lemma FreshBoth(st: Facts, e1: seq<Expansion>, mid: Facts, e2: seq<Expansion>, r: Facts)
    requires Fresh(st, e1, mid) && Fresh(mid, e2, r)
    ensures Fresh(st, e1 + e2, r)
  {
    var e := e1 + e2;
    forall key | key in r.visited && key !in st.visited
      ensures exists i :: 0 <= i < |e| && KeyOf(e[i]) == key
    {
      if key in mid.visited {
        var i :| 0 <= i < |e1| && KeyOf(e1[i]) == key;
        assert e[i] == e1[i];
      } else {
        var i :| 0 <= i < |e2| && KeyOf(e2[i]) == key;
        assert e[|e1| + i] == e2[i];
      }
    }
  }

  /** One tree after another. */
  lemma OneThenOther(defined: map<string, Node>, st: Facts, n1: Notes, e1: seq<Expansion>, mid: Facts,
                     n2: Notes, e2: seq<Expansion>, r: Facts)
    requires Summary(defined, st, n1, e1, mid) && Summary(defined, mid, n2, e2, r)
    ensures Summary(defined, st, n1 + n2, e1 + e2, r)
  {
    hide Fresh, Answers, AllNotes, KeyOf, VisitKey;
    AllNotesOfBoth(defined, e1, e2);
    FreshBoth(st, e1, mid, e2, r);
    AnswersBoth(defined, n1, e1, n2, e2);
    VisitsGrow(st, e1, mid, e2, r);
    var first, second := n1 + AllNotes(defined, e1), n2 + AllNotes(defined, e2);
    assert n1 + n2 + AllNotes(defined, e1 + e2) == first + second;
    SumsBoth(st, first, mid, second, r);
  }

  lemma VisitsGrow(st: Facts, e1: seq<Expansion>, mid: Facts, e2: seq<Expansion>, r: Facts)
    requires Fresh(mid, e2, r)
    ensures mid.visited <= r.visited
  {}

  lemma SumsBoth(st: Facts, n1: Notes, mid: Facts, n2: Notes, r: Facts)
    requires Sums(st, n1, mid) && Sums(mid, n2, r)
    ensures Sums(st, n1 + n2, r)
  {}

  lemma SumsPath(path: Path, complex: bool, st: Facts)
    ensures Sums(st, PathNote(path, complex), Add(path, complex, st))
  {}

  lemma SumsDoubt(st: Facts)
    ensures Sums(st, {Doubt}, st.(advanced := true)) && Sums(st, {}, st)
  {}

  lemma SumsCommand(args: seq<Node>, dot: Path, vars: Vars, st: Facts)
    ensures Sums(st, CommandNotes(args, dot, vars), CommandFacts(args, dot, vars, st))
  {
    hide FieldPath, PassesRoot, Sums, Add, PathNote, Padded;
    SumsDoubt(st);
    if |args| >= 3 && IndexOrGet(args[0]) {
      var first := FieldPath(args[1], dot, vars);
      var path := FieldPath(Command(args), dot, vars);
      var st2 := Add(first, true, st);
      SumsPath(first, true, st);
      SumsDoubt(st2);
      var st3 := KnownOr(path, st2);
      SumsBoth(st, PathNote(first, true), st2, UnlessKnown(path), st3);
      SumsPath(path, false, st3);
      SumsBoth(st, PathNote(first, true) + UnlessKnown(path), st3, PathNote(path, false), Add(path, false, st3));
      AddUnknown(st3, path);
    } else if |args| == 1 {
      NothingPassed(args, dot, vars);
    }
  }

  lemma AddUnknown(st: Facts, path: Path)
    ensures path.None? ==> Add(path, false, st) == st
  {}

  lemma NothingPassed(args: seq<Node>, dot: Path, vars: Vars)
    requires |args| == 1
    ensures !PassesRoot(args[1..], dot, vars)
  {}

  /** The walk of any tree in any scope, and of whatever templates it calls: its facts are
      the notes of the tree and of the expansions, one expansion for each new visit key. */
  lemma {:induction false} WalkIsSummary(node: Node, defined: map<string, Node>, dot: Path, vars: Vars, st: Facts, a: Alphabet)
    returns (exps: seq<Expansion>)
    requires NodeWithin(node, a) && WalkReady(defined, dot, vars, st, a)
    ensures var r := Walk(node, defined, dot, vars, st, a);
            r.vars == After(node, dot, vars) && Summary(defined, st, NotesOf(node, dot, vars), exps, r.facts)
    decreases |a.keys - st.visited|, node, 2
  {
    hide Summary, Sums, WalkAll, WalkPipe, WalkBranch, WalkTemplate, BranchNotes, CallNotes, NotesOfAll, AfterAll, PathNote, Add,
         CommandNotes, CommandFacts, FieldPath, Declare, KeysComplete, Progress, ScopeWithin;
    exps := [];
    match node
    case List(nodes) => exps := AllIsSummary(nodes, defined, dot, vars, st, a);
    case Action(pipe) => exps := WalkIsSummary(pipe, defined, dot, vars, st, a);
    case Pipe(_, _, _) => exps := PipeIsSummary(node, defined, dot, vars, st, a);
    case Command(_) => exps := CommandIsSummary(node, defined, dot, vars, st, a);
    case Field(_) => PathIsSummary(FieldPath(node, dot, vars), false, defined, st);
    case Variable(_, _) => PathIsSummary(FieldPath(node, dot, vars), false, defined, st);
    case Chain(_, _) => exps := ChainIsSummary(node, defined, dot, vars, st, a);
    case If(_, _, _) => exps := BranchIsSummary(node, defined, dot, vars, st, a);
    case Range(_, _, _) => exps := BranchIsSummary(node, defined, dot, vars, st, a);
    case With(_, _, _) => exps := BranchIsSummary(node, defined, dot, vars, st, a);
    case Template(_, _) => exps := TemplateIsSummary(node, defined, dot, vars, st, a);
    case _ => NothingIsSummary(defined, st);
  }

  lemma {:induction false} CommandIsSummary(node: Node, defined: map<string, Node>, dot: Path, vars: Vars, st: Facts, a: Alphabet)
    returns (exps: seq<Expansion>)
    requires node.Command? && NodeWithin(node, a) && WalkReady(defined, dot, vars, st, a)
    ensures var r := Walk(node, defined, dot, vars, st, a);
            r.vars == After(node, dot, vars) && Summary(defined, st, NotesOf(node, dot, vars), exps, r.facts)
    decreases |a.keys - st.visited|, node, 1
  {
    hide Summary, Sums, WalkAll, WalkPipe, WalkBranch, WalkTemplate, BranchNotes, CallNotes, NotesOfAll, AfterAll, PathNote, Add,
         CommandNotes, CommandFacts, FieldPath, Declare, KeysComplete, Progress, ScopeWithin;
    var args := node.args;
    var st1 := CommandFacts(args, dot, vars, st);
    SumsCommand(args, dot, vars, st);
    CommandCallsNothing(args, dot, vars);
    NoExpansions(defined, st, CommandNotes(args, dot, vars), st1);
    exps := AllIsSummary(args, defined, dot, vars, st1, a);
    OneThenOther(defined, st, CommandNotes(args, dot, vars), [], st1, NotesOfAll(args, dot, vars), exps,
                 WalkAll(args, defined, dot, vars, st1, a).facts);
    assert [] + exps == exps;
  }

  lemma {:induction false} ChainIsSummary(node: Node, defined: map<string, Node>, dot: Path, vars: Vars, st: Facts, a: Alphabet)
    returns (exps: seq<Expansion>)
    requires node.Chain? && NodeWithin(node, a) && WalkReady(defined, dot, vars, st, a)
    ensures var r := Walk(node, defined, dot, vars, st, a);
            r.vars == After(node, dot, vars) && Summary(defined, st, NotesOf(node, dot, vars), exps, r.facts)
    decreases |a.keys - st.visited|, node, 1
  {
    hide Summary, Sums, WalkAll, WalkPipe, WalkBranch, WalkTemplate, BranchNotes, CallNotes, NotesOfAll, AfterAll, PathNote, Add,
         CommandNotes, CommandFacts, FieldPath, Declare, KeysComplete, Progress, ScopeWithin;
    var base := node.base;
    var path := FieldPath(node, dot, vars);
    var st1 := Add(path, false, st);
    PathIsSummary(path, false, defined, st);
    exps := WalkIsSummary(base, defined, dot, vars, st1, a);
    OneThenOther(defined, st, PathNote(path, false), [], st1, NotesOf(base, dot, vars), exps,
                 Walk(base, defined, dot, vars, st1, a).facts);
    assert [] + exps == exps;
  }

  lemma CommandCallsNothing(args: seq<Node>, dot: Path, vars: Vars)
    ensures forall n, p :: Invokes(n, p) !in CommandNotes(args, dot, vars)
  {}

  lemma PathIsSummary(path: Path, complex: bool, defined: map<string, Node>, st: Facts)
    ensures Summary(defined, st, PathNote(path, complex), [], Add(path, complex, st))
  {
    hide Summary, Sums;
    SumsPath(path, complex, st);
    NoExpansions(defined, st, PathNote(path, complex), Add(path, complex, st));
  }

  lemma NothingIsSummary(defined: map<string, Node>, st: Facts)
    ensures Summary(defined, st, {}, [], st)
  {
    hide Summary;
    SumsDoubt(st);
    NoExpansions(defined, st, {}, st);
  }

  lemma UnknownIsSummary(path: Path, defined: map<string, Node>, st: Facts)
    ensures Summary(defined, st, UnlessKnown(path), [], KnownOr(path, st))
  {
    hide Summary;
    SumsDoubt(st);
    NoExpansions(defined, st, UnlessKnown(path), KnownOr(path, st));
  }

  lemma {:induction false} AllIsSummary(nodes: seq<Node>, defined: map<string, Node>, dot: Path, vars: Vars, st: Facts, a: Alphabet)
    returns (exps: seq<Expansion>)
    requires NodesWithin(nodes, a) && WalkReady(defined, dot, vars, st, a)
    ensures var r := WalkAll(nodes, defined, dot, vars, st, a);
            r.vars == AfterAll(nodes, dot, vars) && Summary(defined, st, NotesOfAll(nodes, dot, vars), exps, r.facts)
    decreases |a.keys - st.visited|, nodes, 0
  {
    hide Summary, Walk, NotesOf, After, NodeWithin, KeysComplete, ScopeWithin;
    if nodes == [] {
      exps := [];
      NothingIsSummary(defined, st);
    } else {
      var first := WalkIsSummary(nodes[0], defined, dot, vars, st, a);
      var w := Walk(nodes[0], defined, dot, vars, st, a);
      KeysMonotone(a, st.visited, w.facts.visited);
      var rest := AllIsSummary(nodes[1..], defined, dot, w.vars, w.facts, a);
      OneThenOther(defined, st, NotesOf(nodes[0], dot, vars), first, w.facts, NotesOfAll(nodes[1..], dot, w.vars), rest,
                   WalkAll(nodes[1..], defined, dot, w.vars, w.facts, a).facts);
      exps := first + rest;
    }
  }

  lemma {:induction false} PipeIsSummary(node: Node, defined: map<string, Node>, dot: Path, vars: Vars, st: Facts, a: Alphabet)
    returns (exps: seq<Expansion>)
    requires node.Pipe? && NodeWithin(node, a) && WalkReady(defined, dot, vars, st, a)
    ensures var r := WalkPipe(node, defined, dot, vars, st, a);
            r.vars == After(node, dot, vars) && Summary(defined, st, NotesOf(node, dot, vars), exps, r.facts)
    decreases |a.keys - st.visited|, node, 1
  {
    hide Summary, WalkAll, NotesOfAll, AfterAll, KeysComplete, ScopeWithin;
    exps := AllIsSummary(node.cmds, defined, dot, vars, st, a);
  }

  lemma {:induction false} BranchIsSummary(node: Node, defined: map<string, Node>, dot: Path, vars: Vars, st: Facts, a: Alphabet)
    returns (exps: seq<Expansion>)
    requires node.If? || node.With? || node.Range?
    requires NodeWithin(node, a) && WalkReady(defined, dot, vars, st, a)
    ensures Summary(defined, st, NotesOf(node, dot, vars), exps, WalkBranch(node, defined, dot, vars, st, a))
    decreases |a.keys - st.visited|, node, 1
  {
    hide Summary, Walk, NotesOf, After, KeysComplete, ScopeWithin, FieldPath, BodyDot, BodyVars, BranchFacts, ContextNotes;
    var w := Walk(node.pipe, defined, dot, vars, st, a);
    var first := WalkIsSummary(node.pipe, defined, dot, vars, st, a);
    KeysMonotone(a, st.visited, w.facts.visited);
    BodyScopeWithin(node, dot, vars, w.vars, a);
    var st1 := BranchFacts(node, dot, vars, w.facts);
    ContextIsSummary(node, defined, dot, vars, w.facts);
    OneThenOther(defined, st, NotesOf(node.pipe, dot, vars), first, w.facts, ContextNotes(node, dot, vars), [], st1);
    var bodyDot, bodyVars := BodyDot(node, dot, vars), BodyVars(node, dot, vars, w.vars);
    var rest := BodiesAreSummary(node, defined, bodyDot, bodyVars, dot, w.vars, st1, a);
    OneThenOther(defined, st, NotesOf(node.pipe, dot, vars) + ContextNotes(node, dot, vars), first + [], st1,
                 NotesOf(node.list, bodyDot, bodyVars) + NotesOf(node.elseList, dot, w.vars), rest,
                 WalkBodies(node, defined, bodyDot, bodyVars, dot, w.vars, st1, a));
    exps := first + [] + rest;
    NotesOfBranch(node, dot, vars);
  }

  lemma NotesOfBranch(node: Node, dot: Path, vars: Vars)
    requires node.If? || node.With? || node.Range?
    ensures var local := After(node.pipe, dot, vars);
            NotesOf(node, dot, vars)
            == NotesOf(node.pipe, dot, vars) + ContextNotes(node, dot, vars)
               + (NotesOf(node.list, BodyDot(node, dot, vars), BodyVars(node, dot, vars, local)) + NotesOf(node.elseList, dot, local))
  {
    hide FieldPath, After, BodyDot, BodyVars, ContextNotes;
  }

  lemma ContextIsSummary(node: Node, defined: map<string, Node>, dot: Path, vars: Vars, st: Facts)
    requires node.If? || node.With? || node.Range?
    ensures Summary(defined, st, ContextNotes(node, dot, vars), [], BranchFacts(node, dot, vars, st))
  {
    hide Summary, FieldPath, Add, PathNote;
    match node
    case Range(pipe, _, _) =>
      var path := FieldPath(pipe, dot, vars);
      PathIsSummary(path, true, defined, st);
      UnknownIsSummary(path, defined, Add(path, true, st));
      OneThenOther(defined, st, PathNote(path, true), [], Add(path, true, st), UnlessKnown(path), [], BranchFacts(node, dot, vars, st));
      assert PathNote(path, true) + UnlessKnown(path) == ContextNotes(node, dot, vars);
      var none: seq<Expansion> := [];
      assert none + none == none;
    case With(pipe, _, _) => UnknownIsSummary(FieldPath(pipe, dot, vars), defined, st);
    case If(_, _, _) => NothingIsSummary(defined, st);
  }

  lemma {:induction false} BodiesAreSummary(node: Node, defined: map<string, Node>, bodyDot: Path, bodyVars: Vars,
                                            dot: Path, vars: Vars, st: Facts, a: Alphabet)
    returns (exps: seq<Expansion>)
    requires node.If? || node.With? || node.Range?
    requires NodeWithin(node, a) && WalkReady(defined, dot, vars, st, a) && ScopeWithin(bodyDot, bodyVars, a)
    ensures Summary(defined, st, NotesOf(node.list, bodyDot, bodyVars) + NotesOf(node.elseList, dot, vars), exps,
                    WalkBodies(node, defined, bodyDot, bodyVars, dot, vars, st, a))
    decreases |a.keys - st.visited|, node, 0
  {
    hide Summary, Walk, NotesOf, After, KeysComplete, ScopeWithin;
    var first := WalkIsSummary(node.list, defined, bodyDot, bodyVars, st, a);
    var body := Walk(node.list, defined, bodyDot, bodyVars, st, a);
    KeysMonotone(a, st.visited, body.facts.visited);
    var second := WalkIsSummary(node.elseList, defined, dot, vars, body.facts, a);
    OneThenOther(defined, st, NotesOf(node.list, bodyDot, bodyVars), first, body.facts, NotesOf(node.elseList, dot, vars), second,
                 Walk(node.elseList, defined, dot, vars, body.facts, a).facts);
    exps := first + second;
  }

  lemma {:induction false} TemplateIsSummary(node: Node, defined: map<string, Node>, dot: Path, vars: Vars, st: Facts, a: Alphabet)
    returns (exps: seq<Expansion>)
    requires node.Template? && NodeWithin(node, a) && WalkReady(defined, dot, vars, st, a)
    ensures var r := WalkTemplate(node, defined, dot, vars, st, a);
            r.vars == After(node, dot, vars) && Summary(defined, st, NotesOf(node, dot, vars), exps, r.facts)
    decreases |a.keys - st.visited|, node, 1
  {
    hide Summary, Walk, NotesOf, WalkCall, KeysComplete, ScopeWithin, FieldPath;
    var w := Walk(node.pipe, defined, dot, vars, st, a);
    var first := WalkIsSummary(node.pipe, defined, dot, vars, st, a);
    KeysMonotone(a, st.visited, w.facts.visited);
    var path := FieldPath(node.pipe, dot, w.vars);
    var rest := CallIsSummary(node, defined, dot, w.vars, w.facts, a);
    OneThenOther(defined, st, NotesOf(node.pipe, dot, vars), first, w.facts, UnlessKnown(path) + {Invokes(node.template, path)}, rest,
                 WalkCall(node, defined, dot, w.vars, w.facts, a));
    exps := first + rest;
    NotesOfCall(node, dot, vars);
  }

  lemma NotesOfCall(node: Node, dot: Path, vars: Vars)
    requires node.Template?
    ensures var path := FieldPath(node.pipe, dot, After(node.pipe, dot, vars));
            NotesOf(node, dot, vars) == NotesOf(node.pipe, dot, vars) + (UnlessKnown(path) + {Invokes(node.template, path)})
  {
    hide FieldPath, After;
  }

  lemma CalleeReady(node: Node, defined: map<string, Node>, dot: Path, vars: Vars, st: Facts, a: Alphabet)
    requires node.Template? && NodeWithin(node, a) && WalkReady(defined, dot, vars, st, a)
    ensures var e := Expansion(node.template, FieldPath(node.pipe, dot, vars));
            && KeyOf(e) in a.keys
            && WalkReady(defined, e.path, map["$" := e.path], st.(visited := st.visited + {KeyOf(e)}), a)
  {
    hide FieldPath, VisitKey;
    FieldPathWithin(node.pipe, dot, vars, a);
  }

  /** A call: nothing when its key was visited, otherwise the walk of the called tree. */
  lemma {:induction false} CallIsSummary(node: Node, defined: map<string, Node>, dot: Path, vars: Vars, st: Facts, a: Alphabet)
    returns (exps: seq<Expansion>)
    requires node.Template? && NodeWithin(node, a) && WalkReady(defined, dot, vars, st, a)
    ensures var path := FieldPath(node.pipe, dot, vars);
            Summary(defined, st, UnlessKnown(path) + {Invokes(node.template, path)}, exps, WalkCall(node, defined, dot, vars, st, a))
    decreases |a.keys - st.visited|, node, 0
  {
    hide Summary, Walk, NotesOf, KeysComplete, ScopeWithin, FieldPath;
    var path := FieldPath(node.pipe, dot, vars);
    var st1 := KnownOr(path, st);
    var e := Expansion(node.template, path);
    UnknownIsSummary(path, defined, st);
    if KeyOf(e) in st1.visited {
      exps := [];
      VisitedCall(defined, st1, e);
      OneThenOther(defined, st, UnlessKnown(path), [], st1, {Invokes(e.template, e.path)}, [], st1);
    } else {
      CalleeReady(node, defined, dot, vars, st1, a);
      KeysShrink(a, st1.visited, KeyOf(e));
      var st2 := st1.(visited := st1.visited + {KeyOf(e)});
      var inner: seq<Expansion> := [];
      var r := WalkCall(node, defined, dot, vars, st, a);
      if node.template in defined {
        inner := WalkIsSummary(defined[node.template], defined, path, map["$" := path], st2, a);
      } else {
        MissingCall(defined, st2);
      }
      NewCall(defined, st1, e, st2, inner, r);
      exps := [e] + inner;
      OneThenOther(defined, st, UnlessKnown(path), [], st1, {Invokes(e.template, e.path)}, exps, r);
    }
    assert [] + exps == exps;
  }

  lemma VisitedCall(defined: map<string, Node>, st: Facts, e: Expansion)
    requires KeyOf(e) in st.visited
    ensures Summary(defined, st, {Invokes(e.template, e.path)}, [], st)
  {
    assert {Invokes(e.template, e.path)} + AllNotes(defined, []) == {Invokes(e.template, e.path)};
  }

  lemma MissingCall(defined: map<string, Node>, st: Facts)
    ensures Summary(defined, st, {Doubt}, [], st.(advanced := true))
  {
    hide Summary;
    SumsDoubt(st);
    NoExpansions(defined, st, {Doubt}, st.(advanced := true));
  }

  /** A call with a new key, after the walk of what it calls. */
  lemma NewCall(defined: map<string, Node>, st1: Facts, e: Expansion, st2: Facts, inner: seq<Expansion>, r: Facts)
    requires KeyOf(e) !in st1.visited && st2 == st1.(visited := st1.visited + {KeyOf(e)})
    requires Summary(defined, st2, ExpansionNotes(defined, e), inner, r)
    ensures Summary(defined, st1, {Invokes(e.template, e.path)}, [e] + inner, r)
  {
    hide Fresh, Answers, AllNotes, ExpansionNotes, Sums, Remembered, KeyOf;
    NewCallNotes(defined, e, inner);
    NewCallAnswers(defined, e, inner);
    NewCallFresh(st1, e, st2, inner, r);
    NewCallSums(st1, e, st2, ExpansionNotes(defined, e) + AllNotes(defined, inner), inner, r);
  }

  lemma NewCallNotes(defined: map<string, Node>, e: Expansion, inner: seq<Expansion>)
    ensures AllNotes(defined, [e] + inner) == ExpansionNotes(defined, e) + AllNotes(defined, inner)
  {
    hide ExpansionNotes;
    AllNotesOfBoth(defined, [e], inner);
    assert [e][..0] == [];
    assert AllNotes(defined, [e]) == AllNotes(defined, []) + ExpansionNotes(defined, e);
  }

  lemma NewCallSums(st1: Facts, e: Expansion, st2: Facts, notes: Notes, inner: seq<Expansion>, r: Facts)
    requires st2 == st1.(visited := st1.visited + {KeyOf(e)})
    requires Sums(st2, notes, r) && Remembered(notes, r) && Fresh(st2, inner, r)
    ensures Sums(st1, {Invokes(e.template, e.path)} + notes, r) && Remembered({Invokes(e.template, e.path)} + notes, r)
  {
    hide VisitKey;
  }

  lemma NewCallFresh(st1: Facts, e: Expansion, st2: Facts, inner: seq<Expansion>, r: Facts)
    requires KeyOf(e) !in st1.visited && st2 == st1.(visited := st1.visited + {KeyOf(e)}) && Fresh(st2, inner, r)
    ensures Fresh(st1, [e] + inner, r)
  {
    hide KeyOf;
    forall key | key in r.visited && key !in st1.visited
      ensures exists i :: 0 <= i < |[e] + inner| && KeyOf(([e] + inner)[i]) == key
    {
      if key == KeyOf(e) {
        assert ([e] + inner)[0] == e;
      } else {
        var i :| 0 <= i < |inner| && KeyOf(inner[i]) == key;
        assert ([e] + inner)[i + 1] == inner[i];
      }
    }
  }

  lemma NewCallAnswers(defined: map<string, Node>, e: Expansion, inner: seq<Expansion>)
    requires Answers(defined, ExpansionNotes(defined, e), inner)
    ensures Answers(defined, {Invokes(e.template, e.path)}, [e] + inner)
  {
    var exps := [e] + inner;
    forall i | 0 <= i < |exps|
      ensures Invokes(exps[i].template, exps[i].path) in {Invokes(e.template, e.path)} + AllNotes(defined, exps[..i])
    {
      if i > 0 {
        assert exps[..i] == [e] + inner[..i - 1];
        NewCallNotes(defined, e, inner[..i - 1]);
      }
    }
  }

  // ---- Whole formats ----

  const TOP: Path := Some([])

  const HOME: Vars := map["$" := TOP]

  function FormatNotes(format: Parsed, exps: seq<Expansion>): Notes {
    if format.ParseError? then {Doubt} else NotesOf(format.root, TOP, HOME) + AllNotes(format.defined, exps)
  }

  /** The expansions of one format: each answers a call, no two have the same visit key,
      and each call has one of its key. */
  ghost predicate Complete(format: Parsed, exps: seq<Expansion>)
    requires format.Parsed?
  {
    && Answers(format.defined, NotesOf(format.root, TOP, HOME), exps)
    && (forall i, j :: 0 <= i < j < |exps| ==> KeyOf(exps[i]) != KeyOf(exps[j]))
    && (forall n, p :: Invokes(n, p) in FormatNotes(format, exps) ==> exists i :: 0 <= i < |exps| && KeyOf(exps[i]) == VisitKey(n, p))
  }

  lemma FormatIsSummary(format: Parsed, st: Facts) returns (exps: seq<Expansion>)
    requires format.Parsed?
    ensures Complete(format, exps) && Sums(st, FormatNotes(format, exps), Described(format, st))
  {
    hide NotesOf, AllNotes, Walk, Idents, Calls, KeysComplete, AlphabetOf, VisitKey;
    var st0 := st.(visited := {});
    RootReady(format, st0);
    exps := WalkIsSummary(format.root, format.defined, TOP, HOME, st0, AlphabetOf(format));
  }

  function UnionOfNotes(formats: seq<Parsed>, exps: seq<seq<Expansion>>): Notes
    requires |exps| == |formats|
  {
    if formats == [] then {} else FormatNotes(formats[0], exps[0]) + UnionOfNotes(formats[1..], exps[1..])
  }

  ghost predicate AllComplete(formats: seq<Parsed>, exps: seq<seq<Expansion>>) {
    && |exps| == |formats|
    && forall i :: 0 <= i < |formats| && formats[i].Parsed? ==> Complete(formats[i], exps[i])
  }

  lemma {:induction false} FormatsAreSummary(formats: seq<Parsed>, st: Facts) returns (exps: seq<seq<Expansion>>)
    ensures AllComplete(formats, exps) && Sums(st, UnionOfNotes(formats, exps), DescribedAll(formats, st))
    decreases |formats|
  {
    hide Complete, Sums, Described, AllNotes, NotesOf;
    if formats == [] {
      exps := [];
      SumsDoubt(st);
    } else {
      var mid := Described(formats[0], st);
      var rest := FormatsAreSummary(formats[1..], mid);
      var first: seq<Expansion> := [];
      if formats[0].Parsed? {
        first := FormatIsSummary(formats[0], st);
      } else {
        UnparsedIsDoubt(formats[0], first, st);
      }
      exps := [first] + rest;
      assert exps[1..] == rest;
      SumsBoth(st, FormatNotes(formats[0], first), mid, UnionOfNotes(formats[1..], rest), DescribedAll(formats, st));
      forall i | 0 <= i < |formats| && formats[i].Parsed?
        ensures Complete(formats[i], exps[i])
      {
        if i > 0 {
          assert formats[i] == formats[1..][i - 1] && exps[i] == rest[i - 1];
        }
      }
    }
  }

  lemma UnparsedIsDoubt(format: Parsed, exps: seq<Expansion>, st: Facts)
    requires format.ParseError?
    ensures Sums(st, FormatNotes(format, exps), Described(format, st))
  {}

  /** For every list of formats: the description says exactly what the notes of their
      trees and of the expanded templates say, in no particular order. */
  lemma DescriptionIsSummary(formats: seq<Parsed>, d: FieldDescription) returns (exps: seq<seq<Expansion>>)
    requires Describes(d, DescribedAll(formats, NOTHING))
    ensures AllComplete(formats, exps)
    ensures d.advanced <==> Doubt in UnionOfNotes(formats, exps)
    ensures forall x :: x in Names(d) <==> Reads(x, false) in UnionOfNotes(formats, exps) || Reads(x, true) in UnionOfNotes(formats, exps)
    ensures forall f :: f in d.fields ==> (f.complex <==> Reads(f.name, true) in UnionOfNotes(formats, exps))
  {
    hide AllComplete, UnionOfNotes, DescribedAll;
    exps := FormatsAreSummary(formats, NOTHING);
    NamesOfDescription(d, DescribedAll(formats, NOTHING));
  }

  // ---- Fewer notes ----

  lemma {:induction false} ExpansionInAll(defined: map<string, Node>, exps: seq<Expansion>, i: nat)
    requires i < |exps|
    ensures ExpansionNotes(defined, exps[i]) <= AllNotes(defined, exps)
    decreases |exps|
  {
    if i < |exps| - 1 {
      assert exps[..|exps| - 1][i] == exps[i];
      ExpansionInAll(defined, exps[..|exps| - 1], i);
    }
  }

  lemma {:induction false} FormatInUnion(formats: seq<Parsed>, exps: seq<seq<Expansion>>, i: nat)
    requires |exps| == |formats| && i < |formats|
    ensures FormatNotes(formats[i], exps[i]) <= UnionOfNotes(formats, exps)
    decreases |formats|
  {
    hide FormatNotes;
    if i > 0 {
      FormatInUnion(formats[1..], exps[1..], i - 1);
    }
  }
}
