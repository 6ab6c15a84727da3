/** controllers/budgets.go: who receives the e-mail of a budget, in the preview of one
    member and in the campaign that groups the cotisations of every member. */
module Campaign {
  import opened Wrappers
  import opened Ledger

  datatype Member = Member(id: string, email: string)

  /** A row of ListCotisations with the members of its unit. */
  datatype Line = Line(row: CotisationResult, members: seq<Member>)

  datatype Filter = Filter(doing: bool, paid: bool)

  /** The e-mail of one member: what its template is given. */
  datatype Email = Email(member: Member, cotisations: seq<CotisationResult>)

  /** Whether the template of the campaign can be executed for a member. */
  type Renders = (Member, seq<CotisationResult>) -> bool

  /** includeBudgetEmailCotisation, in terms of the payment state that is displayed. */
  predicate Include(row: CotisationResult, f: Filter)
    ensures Include(row, f) <==> match PaymentState(row.paid, row.amount)
                                 case 3 => true
                                 case 2 => f.doing
                                 case _ => f.paid
  {
    if row.paid >= row.amount then f.paid else row.paid + row.paid < row.amount || f.doing
  }

  predicate HasMember(l: Line, id: string) {
    exists k :: 0 <= k < |l.members| && l.members[k].id == id
  }

  /** The rows of a member, in the order of the list; all of them without a filter. */
  function RowsOf(lines: seq<Line>, id: string, f: Option<Filter>): seq<CotisationResult> {
    if lines == [] then []
    else
      var l := lines[|lines| - 1];
      RowsOf(lines[..|lines| - 1], id, f)
      + if HasMember(l, id) && (f.Some? ==> Include(l.row, f.value)) then [l.row] else []
  }

  /** The member table, as the units and the preview read it. */
  ghost predicate Consistent(lines: seq<Line>, directory: map<string, Member>) {
    && (forall id :: id in directory ==> directory[id].id == id)
    && forall i :: 0 <= i < |lines| ==> LineConsistent(lines[i], directory)
  }

  /** The primary key of member_unit lists a member at most once in a unit. */
  ghost predicate LineConsistent(l: Line, directory: map<string, Member>) {
    && (forall k :: 0 <= k < |l.members| ==> l.members[k].id in directory && directory[l.members[k].id] == l.members[k])
    && (forall j, k :: 0 <= j < k < |l.members| ==> l.members[j].id != l.members[k].id)
  }

  // ---- Preview ----

  /** What the preview of a member shows, or why there is none. */
  function PreviewOf(lines: seq<Line>, member: Option<Member>, f: Option<Filter>, renders: Renders): Result<Email> {
    if member.None? then Err("member not found")
    else
      var rows := RowsOf(lines, member.value.id, f);
      if f.Some? && rows == [] then Err("not a recipient")
      else if f.Some? && member.value.email == "" then Err("no address")
      else if !renders(member.value, rows) then Err("template")
      else Ok(Email(member.value, rows))
  }

  /** filterCotisations. */
  method FilterCotisations(lines: seq<Line>, id: string) returns (result: seq<CotisationResult>)
    ensures result == RowsOf(lines, id, None)
  {
    result := [];
    for i := 0 to |lines|
      invariant result == RowsOf(lines[..i], id, None)
    {
      assert lines[..i + 1][..i] == lines[..i];
      var found := false;
      for k := 0 to |lines[i].members|
        invariant found <==> exists j :: 0 <= j < k && lines[i].members[j].id == id
      {
        if lines[i].members[k].id == id {
          found := true;
          break;
        }
      }
      assert found <==> HasMember(lines[i], id);
      if found {
        result := result + [lines[i].row];
      }
    }
    assert lines[..|lines|] == lines;
  }

  function Included(rows: seq<CotisationResult>, f: Filter): seq<CotisationResult> {
    if rows == [] then []
    else Included(rows[..|rows| - 1], f) + if Include(rows[|rows| - 1], f) then [rows[|rows| - 1]] else []
  }

  /** Filtering by member and then by state is filtering by both. */
  lemma {:induction false} FilterAfterwards(lines: seq<Line>, id: string, f: Filter)
    ensures Included(RowsOf(lines, id, None), f) == RowsOf(lines, id, Some(f))
    decreases |lines|
  {
    if lines != [] {
      var n := |lines| - 1;
      FilterAfterwards(lines[..n], id, f);
      var rows := RowsOf(lines[..n], id, None);
      assert (rows + [lines[n].row])[..|rows|] == rows && rows + [] == rows;
    }
  }

  method PreviewBudgetEmail(lines: seq<Line>, member: Option<Member>, f: Option<Filter>, renders: Renders) returns (r: Result<Email>)
    ensures r == PreviewOf(lines, member, f, renders)
  {
    if member.None? {
      return Err("member not found");
    }
    var cotisations := FilterCotisations(lines, member.value.id);
    if f.Some? {
      var selected: seq<CotisationResult> := [];
      for i := 0 to |cotisations|
        invariant selected == Included(cotisations[..i], f.value)
      {
        assert cotisations[..i + 1][..i] == cotisations[..i];
        if Include(cotisations[i], f.value) {
          selected := selected + [cotisations[i]];
        }
      }
      assert cotisations[..|cotisations|] == cotisations;
      FilterAfterwards(lines, member.value.id, f.value);
      cotisations := selected;
      if |cotisations| == 0 {
        return Err("not a recipient");
      }
      if member.value.email == "" {
        return Err("no address");
      }
    }
    if !renders(member.value, cotisations) {
      return Err("template");
    }
    return Ok(Email(member.value, cotisations));
  }

  // ---- Campaign ----

  type Groups = map<string, Email>

  /** After some rows every member with an address and a selected row has a group, which
      holds those rows in their order. */
  ghost predicate Grouped(lines: seq<Line>, directory: map<string, Member>, f: Filter, groups: Groups) {
    forall id :: id in directory ==>
      var rows := RowsOf(lines, id, Some(f));
      && (id in groups <==> rows != [] && directory[id].email != "")
      && (id in groups ==> groups[id] == Email(directory[id], rows))
  }

  /** In the middle of a unit: the first members already have the row. */
  ghost predicate GroupedUpTo(lines: seq<Line>, l: Line, k: nat, directory: map<string, Member>, f: Filter, groups: Groups)
    requires k <= |l.members|
  {
    forall id :: id in directory ==>
      var rows := RowsOf(lines, id, Some(f)) + if HasMember(Line(l.row, l.members[..k]), id) then [l.row] else [];
      && (id in groups <==> rows != [] && directory[id].email != "")
      && (id in groups ==> groups[id] == Email(directory[id], rows))
  }

  /** One included row: its members get their group, then the row. */
  method GroupLine(l: Line, groups: Groups, ghost lines: seq<Line>, ghost directory: map<string, Member>, ghost f: Filter)
    returns (r: Groups)
    requires groups.Keys <= directory.Keys && LineConsistent(l, directory) && Grouped(lines, directory, f, groups)
    ensures r.Keys <= directory.Keys && GroupedUpTo(lines, l, |l.members|, directory, f, r)
  {
    r := groups;
    assert GroupedUpTo(lines, l, 0, directory, f, r);
    for k := 0 to |l.members|
      invariant r.Keys <= directory.Keys && GroupedUpTo(lines, l, k, directory, f, r)
    {
      var member := l.members[k];
      MemberNext(l, k);
      ghost var before := r;
      if |member.email| != 0 {
        if member.id !in r {
          r := r[member.id := Email(member, [])];
        }
        r := r[member.id := r[member.id].(cotisations := r[member.id].cotisations + [l.row])];
      }
    }
  }

  lemma MemberNext(l: Line, k: nat)
    requires k < |l.members|
    ensures forall id :: HasMember(Line(l.row, l.members[..k + 1]), id) <==>
                           HasMember(Line(l.row, l.members[..k]), id) || id == l.members[k].id
    ensures (forall i, j :: 0 <= i < j < |l.members| ==> l.members[i].id != l.members[j].id) ==>
              !HasMember(Line(l.row, l.members[..k]), l.members[k].id)
  {
    var a, b := Line(l.row, l.members[..k]), Line(l.row, l.members[..k + 1]);
    forall id
      ensures HasMember(b, id) <==> HasMember(a, id) || id == l.members[k].id
    {
      if HasMember(a, id) {
        var j :| 0 <= j < k && a.members[j].id == id;
        assert b.members[j].id == id;
      }
      assert b.members[k].id == l.members[k].id;
      if HasMember(b, id) && id != l.members[k].id {
        var j :| 0 <= j <= k && b.members[j].id == id;
        assert a.members[j].id == id;
      }
    }
  }

  lemma GroupedNext(lines: seq<Line>, i: nat, directory: map<string, Member>, f: Filter, groups: Groups)
    requires i < |lines|
    requires Include(lines[i].row, f) ==> GroupedUpTo(lines[..i], lines[i], |lines[i].members|, directory, f, groups)
    requires !Include(lines[i].row, f) ==> Grouped(lines[..i], directory, f, groups)
    ensures Grouped(lines[..i + 1], directory, f, groups)
  {
    var l := lines[i];
    assert lines[..i + 1][..i] == lines[..i];
    assert l.members[..|l.members|] == l.members && Line(l.row, l.members) == l;
    forall id
      ensures RowsOf(lines[..i + 1], id, Some(f))
           == RowsOf(lines[..i], id, Some(f)) + if HasMember(l, id) && Include(l.row, f) then [l.row] else []
    {}
    forall id
      ensures RowsOf(lines[..i], id, Some(f)) + [] == RowsOf(lines[..i], id, Some(f))
    {}
  }

  /** The grouping loop. */
  method GroupRecipients(lines: seq<Line>, f: Filter, ghost directory: map<string, Member>) returns (groups: Groups)
    requires Consistent(lines, directory)
    ensures groups.Keys <= directory.Keys && Grouped(lines, directory, f, groups)
  {
    groups := map[];
    for i := 0 to |lines|
      invariant groups.Keys <= directory.Keys && Grouped(lines[..i], directory, f, groups)
    {
      ghost var before := groups;
      if Include(lines[i].row, f) {
        groups := GroupLine(lines[i], groups, lines[..i], directory, f);
      }
      GroupedNext(lines, i, directory, f, groups);
    }
    assert lines[..|lines|] == lines;
  }

  /** Every e-mail is the preview of one member, and no member has two. */
  ghost predicate OnePreviewEach(lines: seq<Line>, directory: map<string, Member>, f: Filter, renders: Renders, emails: seq<Email>) {
    && (forall i :: 0 <= i < |emails| ==>
          && emails[i].member.id in directory
          && PreviewOf(lines, Some(directory[emails[i].member.id]), Some(f), renders) == Ok(emails[i]))
    && (forall i, j :: 0 <= i < j < |emails| ==> emails[i].member.id != emails[j].member.id)
  }

  ghost predicate HasEmail(emails: seq<Email>, id: string) {
    exists i :: 0 <= i < |emails| && emails[i].member.id == id
  }

  /** SendBudgetEmail: exactly the members with an accepted preview get exactly one e-mail
      each, with the content of that preview; when the template cannot be executed for
      one recipient, nothing at all is created. */
  method SendBudgetEmail(lines: seq<Line>, f: Filter, renders: Renders, ghost directory: map<string, Member>)
    returns (r: Result<seq<Email>>)
    requires Consistent(lines, directory)
    ensures r.Ok? ==> OnePreviewEach(lines, directory, f, renders, r.value)
    ensures r.Ok? ==> forall id :: id in directory ==>
                        (HasEmail(r.value, id) <==> PreviewOf(lines, Some(directory[id]), Some(f), renders).Ok?)
    ensures r.Err? <==> exists id :: id in directory && PreviewOf(lines, Some(directory[id]), Some(f), renders) == Err("template")
  {
    hide RowsOf, Include;
    var groups := GroupRecipients(lines, f, directory);
    var rest := groups.Keys;
    while rest != {}
      invariant rest <= groups.Keys
      invariant forall id :: id in groups && id !in rest ==> renders(groups[id].member, groups[id].cotisations)
    {
      var id :| id in rest;
      if !renders(groups[id].member, groups[id].cotisations) {
        assert PreviewOf(lines, Some(directory[id]), Some(f), renders) == Err("template");
        return Err("template");
      }
      rest := rest - {id};
    }
    var emails: seq<Email> := [];
    rest := groups.Keys;
    while rest != {}
      invariant rest <= groups.Keys
      invariant OnePreviewEach(lines, directory, f, renders, emails)
      invariant forall id :: HasEmail(emails, id) <==> id in groups && id !in rest
    {
      var id :| id in rest;
      assert !HasEmail(emails, id);
      ghost var before := emails;
      emails := emails + [groups[id]];
      EmailNext(before, groups[id]);
      rest := rest - {id};
    }
    return Ok(emails);
  }

  lemma EmailNext(emails: seq<Email>, e: Email)
    ensures forall id :: HasEmail(emails + [e], id) <==> HasEmail(emails, id) || id == e.member.id
  {
    var all := emails + [e];
    assert all[|emails|] == e;
    forall id | HasEmail(emails, id)
      ensures HasEmail(all, id)
    {
      var i :| 0 <= i < |emails| && emails[i].member.id == id;
      assert all[i].member.id == id;
    }
  }
}
