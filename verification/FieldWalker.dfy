/** pkg/templates/fields.go in its own form: the `walk` closure over mutable facts and
    over scopes whose variable map is shared, and DescribeFields. Each method is proved
    against the specification of the same name in FieldAnalysis. */
module FieldWalker {
  import opened Wrappers
  import opened TemplateSyntax
  import opened FieldAnalysis
  import Strings

  /** A scope: its context is fixed, its variable map is updated while walking. */
  class FieldScope {
    const dot: Path
    var vars: Vars

    constructor (dot: Path, vars: Vars)
      ensures this.dot == dot && this.vars == vars
    {
      this.dot, this.vars := dot, vars;
    }

    /** A scope with another context and a copy of the variables. */
    method Child(dot: Path) returns (c: FieldScope)
      ensures fresh(c) && c.dot == dot && c.vars == vars
    {
      c := new FieldScope(dot, vars);
    }
  }

  class FieldDescriber {
    var advanced: bool
    var found: map<string, bool>
    var visited: set<string>

    ghost function State(): Facts
      reads this
    {
      Facts(advanced, found, visited)
    }

    constructor ()
      ensures State() == Facts(false, map[], {})
    {
      advanced, found, visited := false, map[], {};
    }

    method AddPath(path: Path, complex: bool)
      modifies this
      ensures State() == Add(path, complex, old(State()))
    {
      if path.Some? && path.value != [] && (path.value[0] == "" || Padded(path.value[0])) {
        advanced := true;
        return;
      }
      if path.Some? && path.value != [] && path.value[0] !in AUTOMATIC {
        var name := path.value[0];
        found := found[name := (name in found && found[name]) || complex || |path.value| > 1];
      }
    }

    method Walk(node: Node, defined: map<string, Node>, s: FieldScope, ghost a: Alphabet)
      requires NodeWithin(node, a) && WalkReady(defined, s.dot, s.vars, State(), a)
      modifies this, s
      ensures Walked(s.vars, State()) == FieldAnalysis.Walk(node, defined, s.dot, old(s.vars), old(State()), a)
      decreases |a.keys - visited|, node, 2
    {
      match node {
        case List(nodes) =>
          WalkEach(nodes, defined, s, a);
        case Action(pipe) =>
          Walk(pipe, defined, s, a);
        case Pipe(decl, _, cmds) =>
          WalkEach(cmds, defined, s, a);
          if |decl| == 1 {
            s.vars := s.vars[decl[0] := FieldPath(node, s.dot, s.vars)];
          }
        case Command(args) =>
          WalkCommand(args, s);
          WalkEach(args, defined, s, a);
        case Field(_) =>
          AddPath(FieldPath(node, s.dot, s.vars), false);
        case Variable(_, _) =>
          AddPath(FieldPath(node, s.dot, s.vars), false);
        case Chain(base, _) =>
          AddPath(FieldPath(node, s.dot, s.vars), false);
          Walk(base, defined, s, a);
        case If(_, _, _) =>
          WalkBranch(node, defined, s, a);
        case Range(_, _, _) =>
          WalkBranch(node, defined, s, a);
        case With(_, _, _) =>
          WalkBranch(node, defined, s, a);
        case Template(_, _) =>
          WalkTemplate(node, defined, s, a);
        case _ =>
      }
    }

    method WalkEach(nodes: seq<Node>, defined: map<string, Node>, s: FieldScope, ghost a: Alphabet)
      requires NodesWithin(nodes, a) && WalkReady(defined, s.dot, s.vars, State(), a)
      modifies this, s
      ensures Walked(s.vars, State()) == WalkAll(nodes, defined, s.dot, old(s.vars), old(State()), a)
      decreases |a.keys - visited|, nodes, 0
    {
      for i := 0 to |nodes|
        invariant NodesWithin(nodes[i..], a) && WalkReady(defined, s.dot, s.vars, State(), a)
        invariant old(visited) <= visited
        invariant WalkAll(nodes[i..], defined, s.dot, s.vars, State(), a)
               == WalkAll(nodes, defined, s.dot, old(s.vars), old(State()), a)
      {
        assert nodes[i..][1..] == nodes[i + 1..];
        KeysMonotone(a, old(visited), visited);
        Walk(nodes[i], defined, s, a);
      }
    }

    /** The checks on a CommandNode that come before its arguments are walked. */
    method WalkCommand(args: seq<Node>, s: FieldScope)
      modifies this
      ensures State() == CommandFacts(args, s.dot, s.vars, old(State()))
    {
      if |args| > 1 && args[0].Identifier? && !IndexOrGet(args[0]) {
        for i := 1 to |args|
          invariant State() == old(State()).(advanced := old(advanced) || PassesRoot(args[1..i], s.dot, s.vars))
        {
          assert args[1..i + 1] == args[1..i] + [args[i]];
          if FieldPath(args[i], s.dot, s.vars) == Some([]) {
            advanced := true;
            assert args[1..i + 1][i - 1] == args[i];
          } else {
            assert forall j :: 0 <= j < i - 1 ==> args[1..i][j] == args[1..i + 1][j];
          }
        }
        assert args[1..|args|] == args[1..];
      }
      if |args| >= 3 && IndexOrGet(args[0]) {
        var p := FieldPath(Command(args), s.dot, s.vars);
        AddPath(FieldPath(args[1], s.dot, s.vars), true);
        if p.None? {
          advanced := true;
        } else {
          AddPath(p, false);
        }
      }
    }

    method WalkBranch(node: Node, defined: map<string, Node>, s: FieldScope, ghost a: Alphabet)
      requires node.If? || node.With? || node.Range?
      requires NodeWithin(node, a) && WalkReady(defined, s.dot, s.vars, State(), a)
      modifies this
      ensures State() == FieldAnalysis.WalkBranch(node, defined, s.dot, s.vars, old(State()), a)
      decreases |a.keys - visited|, node, 1
    {
      var local := s.Child(s.dot);
      Walk(node.pipe, defined, local, a);
      KeysMonotone(a, old(visited), visited);
      BodyScopeWithin(node, s.dot, s.vars, local.vars, a);
      var body := OpenBody(node, s, local);
      Walk(node.list, defined, body, a);
      KeysMonotone(a, old(visited), visited);
      var alternative := local.Child(s.dot);
      Walk(node.elseList, defined, alternative, a);
    }

    /** The scope of a branch's body, whose context must be known. */
    method OpenBody(node: Node, s: FieldScope, local: FieldScope) returns (body: FieldScope)
      requires node.If? || node.With? || node.Range?
      modifies this
      ensures fresh(body) && body.dot == BodyDot(node, s.dot, s.vars)
      ensures body.vars == BodyVars(node, s.dot, s.vars, local.vars)
      ensures State() == BranchFacts(node, s.dot, s.vars, old(State()))
    {
      var p := FieldPath(node.pipe, s.dot, s.vars);
      if node.Range? {
        AddPath(p, true);
        if p.None? {
          advanced := true;
        }
        body := local.Child(ElementPath(p));
        BindVars(node.pipe.DeclOf(), body);
      } else if node.With? {
        if p.None? {
          advanced := true;
        }
        body := local.Child(p);
      } else {
        body := local.Child(s.dot);
      }
    }

    /** The loop that binds the variables of a range to its element. */
    method BindVars(decl: seq<string>, body: FieldScope)
      modifies body
      ensures body.vars == BindRange(old(body.vars), decl, body.dot)
    {
      for i := 0 to |decl|
        invariant BindRange(body.vars, decl[i..], body.dot) == BindRange(old(body.vars), decl, body.dot)
      {
        assert decl[i..][1..] == decl[i + 1..];
        if i == |decl| - 1 {
          body.vars := body.vars[decl[i] := body.dot];
        } else {
          body.vars := body.vars[decl[i] := None];
        }
      }
    }

    method WalkTemplate(node: Node, defined: map<string, Node>, s: FieldScope, ghost a: Alphabet)
      requires node.Template?
      requires NodeWithin(node, a) && WalkReady(defined, s.dot, s.vars, State(), a)
      modifies this, s
      ensures Walked(s.vars, State()) == FieldAnalysis.WalkTemplate(node, defined, s.dot, old(s.vars), old(State()), a)
      decreases |a.keys - visited|, node, 1
    {
      Walk(node.pipe, defined, s, a);
      KeysMonotone(a, old(visited), visited);
      var p := FieldPath(node.pipe, s.dot, s.vars);
      FieldPathWithin(node.pipe, s.dot, s.vars, a);
      if p.None? {
        advanced := true;
      }
      var key := VisitKey(node.template, p);
      if key !in visited {
        KeysShrink(a, visited, key);
        visited := visited + {key};
        if node.template in defined {
          var callee := new FieldScope(p, map["$" := p]);
          Walk(defined[node.template], defined, callee, a);
        } else {
          advanced := true;
        }
      }
    }
  }

  /** Total: the analysis ends on every list of parsed formats. */
  method DescribeFields(formats: seq<Parsed>) returns (r: FieldDescription)
    ensures Describes(r, DescribedAll(formats, NOTHING))
  {
    var d := new FieldDescriber();
    for i := 0 to |formats|
      invariant fresh(d)
      invariant Findings(DescribedAll(formats[i..], d.State())) == Findings(DescribedAll(formats, NOTHING))
    {
      assert formats[i..][1..] == formats[i + 1..];
      match formats[i] {
        case ParseError =>
          d.advanced := true;
        case Parsed(root, defined) =>
          d.visited := {};
          var s := new FieldScope(Some([]), map["$" := Some([])]);
          RootReady(formats[i], d.State());
          d.Walk(root, defined, s, AlphabetOf(formats[i]));
      }
    }
    var fields := ListFields(d.found);
    r := FieldDescription(fields, d.advanced);
  }

  /** The loop over the findings, and the sort. */
  method ListFields(found: map<string, bool>) returns (fields: seq<CustomField>)
    ensures |fields| == |found|
    ensures forall f :: f in fields <==> f.name in found && f.complex == found[f.name]
    ensures Strings.AscendingBy(FieldName, fields)
  {
    var listed: seq<CustomField> := [];
    var rest := found.Keys;
    while rest != {}
      invariant rest <= found.Keys && |listed| + |rest| == |found|
      invariant forall f :: f in listed <==> f.name in found && f.name !in rest && f.complex == found[f.name]
    {
      var name :| name in rest;
      listed, rest := listed + [CustomField(name, found[name])], rest - {name};
    }
    fields := Strings.SortBy(FieldName, listed);
    assert |multiset(fields)| == |fields| && |multiset(listed)| == |listed|;
  }
}
