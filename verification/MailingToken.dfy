/** A token that meets what `MailingSync.TellsApart` asks of the hash: everything that
    goes into it is written out so that it can be told apart from what follows. */
module MailingToken {
  import opened MailingPlan
  import MailingSync

  /** Writes a value in front of a text. */
  type Put<!T> = (T, string) -> string

  /** Both can be read back. */
  ghost predicate Tells<T(!new)>(put: Put<T>) {
    forall a: T, b: T, r: string, s: string :: put(a, r) == put(b, s) ==> a == b && r == s
  }

  function PutNumber(n: nat, r: string): string {
    if n == 0 then "." + r else "1" + PutNumber(n - 1, r)
  }

  lemma {:induction false} NumberTells(m: nat, n: nat, r: string, s: string)
    requires PutNumber(m, r) == PutNumber(n, s)
    ensures m == n && r == s
  {
    var t, u := PutNumber(m, r), PutNumber(n, s);
    assert t[0] == u[0] && t[1..] == u[1..];
    if m > 0 && n > 0 {
      NumberTells(m - 1, n - 1, r, s);
    }
  }

  function PutTask(i: int, r: string): string {
    if i < 0 then "-" + PutNumber(-i, r) else PutNumber(i, r)
  }

  lemma TaskTells()
    ensures Tells(PutTask)
  {
    forall a, b, r, s | PutTask(a, r) == PutTask(b, s)
      ensures a == b && r == s
    {
      var t, u := PutTask(a, r), PutTask(b, s);
      assert t[0] == u[0] && t[1..] == u[1..];
      NumberTells(if a < 0 then -a else a, if b < 0 then -b else b, r, s);
    }
  }

  function PutText(x: string, r: string): string {
    PutNumber(|x|, x + r)
  }

  lemma TextTells()
    ensures Tells(PutText)
  {
    forall a, b, r, s | PutText(a, r) == PutText(b, s)
      ensures a == b && r == s
    {
      NumberTells(|a|, |b|, a + r, b + s);
      assert a == (a + r)[..|a|] && r == (a + r)[|a|..];
      assert b == (b + s)[..|b|] && s == (b + s)[|b|..];
    }
  }

  function PutItems<T>(put: Put<T>, xs: seq<T>, r: string): string {
    if xs == [] then r else put(xs[0], PutItems(put, xs[1..], r))
  }

  function PutAll<T>(put: Put<T>, xs: seq<T>, r: string): string {
    PutNumber(|xs|, PutItems(put, xs, r))
  }

  lemma {:induction false} ItemsTell<T(!new)>(put: Put<T>, xs: seq<T>, ys: seq<T>, r: string, s: string)
    requires Tells(put) && |xs| == |ys| && PutItems(put, xs, r) == PutItems(put, ys, s)
    ensures xs == ys && r == s
  {
    if xs != [] {
      ItemsTell(put, xs[1..], ys[1..], r, s);
      assert xs == [xs[0]] + xs[1..] && ys == [ys[0]] + ys[1..];
    }
  }

  lemma AllTell<T(!new)>(put: Put<T>, xs: seq<T>, ys: seq<T>, r: string, s: string)
    requires Tells(put) && PutAll(put, xs, r) == PutAll(put, ys, s)
    ensures xs == ys && r == s
  {
    NumberTells(|xs|, |ys|, PutItems(put, xs, r), PutItems(put, ys, s));
    ItemsTell(put, xs, ys, r, s);
  }

  function PutFlag(b: bool, r: string): string {
    (if b then "1" else "0") + r
  }

  lemma FlagTells(a: bool, b: bool, r: string, s: string)
    requires PutFlag(a, r) == PutFlag(b, s)
    ensures a == b && r == s
  {
    var t, u := PutFlag(a, r), PutFlag(b, s);
    assert t[0] == u[0] && t[1..] == r && u[1..] == s;
  }

  function PutTexts(xs: seq<string>, r: string): string {
    PutAll(PutText, xs, r)
  }

  lemma TextsTell(xs: seq<string>, ys: seq<string>, r: string, s: string)
    requires PutTexts(xs, r) == PutTexts(ys, s)
    ensures xs == ys && r == s
  {
    TextTells();
    AllTell(PutText, xs, ys, r, s);
  }

  // ---- What is hashed ----

  function PutList(l: ListPlan, r: string): string {
    PutTexts([l.group, l.name], PutTexts(l.expected, PutTexts(l.current, PutTexts(l.add, PutTexts(l.remove, PutAll(PutTask, l.pendingTasks, r))))))
  }

  lemma ListTells()
    ensures Tells(PutList)
  {
    hide PutTexts, PutAll;
    forall a, b, r, s | PutList(a, r) == PutList(b, s)
      ensures a == b && r == s
    {
      var r1, s1 := PutAll(PutTask, a.pendingTasks, r), PutAll(PutTask, b.pendingTasks, s);
      var r2, s2 := PutTexts(a.remove, r1), PutTexts(b.remove, s1);
      var r3, s3 := PutTexts(a.add, r2), PutTexts(b.add, s2);
      var r4, s4 := PutTexts(a.current, r3), PutTexts(b.current, s3);
      var x, y := [a.group, a.name], [b.group, b.name];
      TextsTell(x, y, PutTexts(a.expected, r4), PutTexts(b.expected, s4));
      assert x[0] == y[0] && x[1] == y[1];
      TextsTell(a.expected, b.expected, r4, s4);
      TextsTell(a.current, b.current, r3, s3);
      TextsTell(a.add, b.add, r2, s2);
      TextsTell(a.remove, b.remove, r1, s1);
      TaskTells();
      AllTell(PutTask, a.pendingTasks, b.pendingTasks, r, s);
    }
  }

  function PutInvalid(i: InvalidMember, r: string): string {
    PutTexts([i.id, i.name, i.reason], r)
  }

  lemma InvalidTells()
    ensures Tells(PutInvalid)
  {
    hide PutTexts;
    forall a, b, r, s | PutInvalid(a, r) == PutInvalid(b, s)
      ensures a == b && r == s
    {
      var x, y := [a.id, a.name, a.reason], [b.id, b.name, b.reason];
      TextsTell(x, y, r, s);
      assert x[0] == y[0] && x[1] == y[1] && x[2] == y[2];
    }
  }

  function PutMember(m: Member, r: string): string {
    PutFlag(m.bureau, PutTexts([m.id, m.email, m.name], r))
  }

  lemma MemberTells()
    ensures Tells(PutMember)
  {
    hide PutTexts, PutFlag;
    forall a, b, r, s | PutMember(a, r) == PutMember(b, s)
      ensures a == b && r == s
    {
      var x, y := [a.id, a.email, a.name], [b.id, b.email, b.name];
      FlagTells(a.bureau, b.bureau, PutTexts(x, r), PutTexts(y, s));
      TextsTell(x, y, r, s);
      assert x[0] == y[0] && x[1] == y[1] && x[2] == y[2];
    }
  }

  function PutPlan(p: Plan, r: string): string {
    PutFlag(p.configured, PutFlag(p.canApply, PutTexts([p.domain, p.token], PutAll(PutList, p.lists, PutAll(PutInvalid, p.invalid, r)))))
  }

  lemma PlanTells(a: Plan, b: Plan, r: string, s: string)
    requires PutPlan(a, r) == PutPlan(b, s)
    ensures a == b && r == s
  {
    hide PutTexts, PutFlag, PutAll;
    var r1, s1 := PutAll(PutInvalid, a.invalid, r), PutAll(PutInvalid, b.invalid, s);
    var r2, s2 := PutAll(PutList, a.lists, r1), PutAll(PutList, b.lists, s1);
    var x, y := [a.domain, a.token], [b.domain, b.token];
    var r3, s3 := PutTexts(x, r2), PutTexts(y, s2);
    FlagTells(a.configured, b.configured, PutFlag(a.canApply, r3), PutFlag(b.canApply, s3));
    FlagTells(a.canApply, b.canApply, r3, s3);
    TextsTell(x, y, r2, s2);
    assert x[0] == y[0] && x[1] == y[1];
    ListTells();
    AllTell(PutList, a.lists, b.lists, r1, s1);
    InvalidTells();
    AllTell(PutInvalid, a.invalid, b.invalid, r, s);
  }

  /** The plan, the members in ID order and the configuration, one after the other. */
  function Written(p: Plan, members: seq<Member>, c: Config): string {
    PutPlan(p, PutAll(PutMember, members, PutTexts([c.domain, c.members, c.bureau], "")))
  }

  lemma WrittenTellsApart()
    ensures MailingSync.TellsApart(Written)
  {
    hide PutPlan, PutTexts, PutAll;
    forall p, m, c, p', m', c' | Written(p, m, c) == Written(p', m', c')
      ensures p == p' && m == m' && c == c'
    {
      var x, y := [c.domain, c.members, c.bureau], [c'.domain, c'.members, c'.bureau];
      PlanTells(p, p', PutAll(PutMember, m, PutTexts(x, "")), PutAll(PutMember, m', PutTexts(y, "")));
      MemberTells();
      AllTell(PutMember, m, m', PutTexts(x, ""), PutTexts(y, ""));
      TextsTell(x, y, "", "");
      assert x[0] == y[0] && x[1] == y[1] && x[2] == y[2];
    }
  }
}
