/** What a version stands for: as long as it is current, no payment of the cotisation was
    added, removed or touched, and no entry was recorded. */
module LedgerVersions {
  import opened Wrappers
  import opened Money
  import opened Ledger
  import opened LedgerSafety
  import Strings

  // ---- Tokens between slashes ----

  function Slashed(tokens: seq<string>): string {
    if tokens == [] then "" else "/" + tokens[0] + Slashed(tokens[1..])
  }

  lemma {:induction false} SlashedBoth(a: seq<string>, b: seq<string>)
    ensures Slashed(a + b) == Slashed(a) + Slashed(b)
  {
    if a == [] {
      assert a + b == b;
    } else {
      assert (a + b)[1..] == a[1..] + b;
      SlashedBoth(a[1..], b);
    }
  }

  lemma {:induction false} FirstToken(a: string, rest: string)
    requires SlashFree(a) && (rest == "" || rest[0] == '/')
    ensures UntilSlash(a + rest) == a
    decreases |a|
  {
    if a == "" {
      assert a + rest == rest;
    } else {
      assert (a + rest)[1..] == a[1..] + rest;
      FirstToken(a[1..], rest);
      assert a == [a[0]] + a[1..];
    }
  }

  predicate AllSlashFree(tokens: seq<string>) {
    forall i :: 0 <= i < |tokens| ==> SlashFree(tokens[i])
  }

  lemma SomeSlash(a: seq<string>)
    ensures Slashed(a) == "" <==> a == []
  {}

  lemma {:induction false} SlashedIsInjective(a: seq<string>, b: seq<string>)
    requires AllSlashFree(a) && AllSlashFree(b) && Slashed(a) == Slashed(b)
    ensures a == b
  {
    if a != [] && b != [] {
      var s, t := Slashed(a), Slashed(b);
      FirstToken(a[0], Slashed(a[1..]));
      FirstToken(b[0], Slashed(b[1..]));
      assert s[1..] == a[0] + Slashed(a[1..]) && t[1..] == b[0] + Slashed(b[1..]);
      assert Slashed(a[1..]) == s[1 + |a[0]|..] && Slashed(b[1..]) == t[1 + |b[0]|..];
      SlashedIsInjective(a[1..], b[1..]);
      assert a == [a[0]] + a[1..] && b == [b[0]] + b[1..];
    } else {
      SomeSlash(a);
      SomeSlash(b);
    }
  }

  // ---- The rows in a stamp ----

  function PaymentTokens(k: Codec, s: seq<Payment>): seq<string> {
    if s == [] then []
    else PaymentTokens(k, s[..|s| - 1]) + [s[|s| - 1].id, s[|s| - 1].updatedAt, k.show(s[|s| - 1].amount)]
  }

  function EntryTokens(s: seq<Entry>): seq<string> {
    seq(|s|, i requires 0 <= i < |s| => s[i].id)
  }

  lemma {:induction false} PaymentsSlashed(k: Codec, s: seq<Payment>)
    ensures PaymentStamps(k, s) == Slashed(PaymentTokens(k, s))
  {
    if s != [] {
      var n := |s| - 1;
      PaymentsSlashed(k, s[..n]);
      var last := [s[n].id, s[n].updatedAt, k.show(s[n].amount)];
      SlashedBoth(PaymentTokens(k, s[..n]), last);
      ThreeSlashed(s[n].id, s[n].updatedAt, k.show(s[n].amount));
      var front := PaymentStamps(k, s[..n]);
      assert front + ("/" + s[n].id + "/" + s[n].updatedAt + "/" + k.show(s[n].amount))
          == front + "/" + s[n].id + "/" + s[n].updatedAt + "/" + k.show(s[n].amount);
    }
  }

  lemma ThreeSlashed(a: string, b: string, c: string)
    ensures Slashed([a, b, c]) == "/" + a + "/" + b + "/" + c
  {
    assert [a, b, c][1..] == [b, c] && [b, c][1..] == [c] && [c][1..] == [];
    assert Slashed([c]) == "/" + c;
    assert Slashed([b, c]) == "/" + b + "/" + c;
    assert "/" + a + ("/" + b + "/" + c) == "/" + a + "/" + b + "/" + c;
  }

  lemma {:induction false} EntriesSlashed(s: seq<Entry>)
    ensures EntryStamps(s) == Slashed(EntryTokens(s))
  {
    hide Slashed;
    if s == [] {
      NoTokens();
    } else {
      var n := |s| - 1;
      EntriesSlashed(s[..n]);
      TokensNext(s);
      SlashedBoth(EntryTokens(s[..n]), [s[n].id]);
      OneSlashed(s[n].id);
      Joins(EntryStamps(s[..n]), "/", s[n].id);
    }
  }

  lemma NoTokens()
    ensures EntryTokens([]) == [] && Slashed([]) == ""
  {}

  lemma TokensNext(s: seq<Entry>)
    requires s != []
    ensures EntryTokens(s) == EntryTokens(s[..|s| - 1]) + [s[|s| - 1].id]
  {}

  lemma OneSlashed(a: string)
    ensures Slashed([a]) == "/" + a
  {
    assert [a][1..] == [];
  }

  lemma Joins(a: string, b: string, c: string)
    ensures a + (b + c) == a + b + c
  {}

  lemma {:induction false} PaymentTokensAt(k: Codec, s: seq<Payment>, i: nat)
    requires i < |s|
    ensures |PaymentTokens(k, s)| == 3 * |s|
    ensures PaymentTokens(k, s)[3 * i] == s[i].id && PaymentTokens(k, s)[3 * i + 1] == s[i].updatedAt
    ensures PaymentTokens(k, s)[3 * i + 2] == k.show(s[i].amount)
    decreases |s|
  {
    var n := |s| - 1;
    if i < n {
      PaymentTokensAt(k, s[..n], i);
    } else if n > 0 {
      PaymentTokensAt(k, s[..n], n - 1);
    }
  }

  lemma PaymentTokensSize(k: Codec, s: seq<Payment>)
    ensures |PaymentTokens(k, s)| == 3 * |s|
  {
    if s != [] {
      PaymentTokensAt(k, s, 0);
    }
  }

  /** Rows as the database writes them: identifiers, and times that are none. */
  predicate SpelledPayments(k: Codec, s: seq<Payment>) {
    forall i :: 0 <= i < |s| ==> k.isUuid(s[i].id) && SlashFree(s[i].updatedAt) && !k.isUuid(s[i].updatedAt)
  }

  predicate SpelledEntries(k: Codec, s: seq<Entry>) {
    forall i :: 0 <= i < |s| ==> k.isUuid(s[i].id)
  }

  lemma {:induction false} TokensAreSlashFree(k: Codec, p: seq<Payment>, e: seq<Entry>)
    requires Faithful(k) && SpelledPayments(k, p) && SpelledEntries(k, e)
    requires forall i :: 0 <= i < |p| ==> WholeCents(p[i].amount)
    ensures AllSlashFree(PaymentTokens(k, p) + EntryTokens(e))
  {
    hide SlashFree, WholeCents;
    var tokens := PaymentTokens(k, p) + EntryTokens(e);
    PaymentTokensSize(k, p);
    forall j | 0 <= j < |tokens|
      ensures SlashFree(tokens[j])
    {
      if j < 3 * |p| {
        PaymentTokensAt(k, p, j / 3);
        assert j == 3 * (j / 3) || j == 3 * (j / 3) + 1 || j == 3 * (j / 3) + 2;
      } else {
        assert tokens[j] == e[j - 3 * |p|].id;
      }
    }
  }

  /** Where an entry stands in one list of tokens, a payment cannot stand in the other. */
  lemma {:induction false} NoMorePayments(k: Codec, p: seq<Payment>, e: seq<Entry>, p': seq<Payment>, e': seq<Entry>)
    requires SpelledPayments(k, p') && SpelledEntries(k, e)
    requires PaymentTokens(k, p) + EntryTokens(e) == PaymentTokens(k, p') + EntryTokens(e')
    ensures |p'| <= |p|
  {
    if |p| < |p'| {
      PaymentTokensSize(k, p);
      PaymentTokensAt(k, p', |p|);
      SameToken(PaymentTokens(k, p), EntryTokens(e), PaymentTokens(k, p'), EntryTokens(e'), 3 * |p| + 1);
    }
  }

  lemma SameToken(a: seq<string>, b: seq<string>, c: seq<string>, d: seq<string>, i: nat)
    requires a + b == c + d && |a| <= i < |c|
    ensures i - |a| < |b| && b[i - |a|] == c[i]
  {
    assert (a + b)[i] == (c + d)[i];
  }

  lemma {:induction false} SameRows(k: Codec, p: seq<Payment>, e: seq<Entry>, p': seq<Payment>, e': seq<Entry>)
    requires Faithful(k) && SpelledPayments(k, p) && SpelledPayments(k, p') && SpelledEntries(k, e) && SpelledEntries(k, e')
    requires forall i :: 0 <= i < |p| ==> WholeCents(p[i].amount)
    requires forall i :: 0 <= i < |p'| ==> WholeCents(p'[i].amount)
    requires PaymentStamps(k, p) + EntryStamps(e) == PaymentStamps(k, p') + EntryStamps(e')
    ensures |p| == |p'| && EntryTokens(e) == EntryTokens(e')
    ensures forall i :: 0 <= i < |p| ==> p[i].id == p'[i].id && p[i].updatedAt == p'[i].updatedAt && p[i].amount == p'[i].amount
  {
    hide WholeCents, SlashFree;
    PaymentsSlashed(k, p);
    PaymentsSlashed(k, p');
    EntriesSlashed(e);
    EntriesSlashed(e');
    SlashedBoth(PaymentTokens(k, p), EntryTokens(e));
    SlashedBoth(PaymentTokens(k, p'), EntryTokens(e'));
    TokensAreSlashFree(k, p, e);
    TokensAreSlashFree(k, p', e');
    SlashedIsInjective(PaymentTokens(k, p) + EntryTokens(e), PaymentTokens(k, p') + EntryTokens(e'));
    NoMorePayments(k, p, e, p', e');
    NoMorePayments(k, p', e', p, e);
    PaymentTokensSize(k, p);
    PaymentTokensSize(k, p');
    var a, b := PaymentTokens(k, p), PaymentTokens(k, p');
    assert a == (a + EntryTokens(e))[..3 * |p|] && b == (b + EntryTokens(e'))[..3 * |p|];
    assert EntryTokens(e) == (a + EntryTokens(e))[3 * |p|..] && EntryTokens(e') == (b + EntryTokens(e'))[3 * |p|..];
    forall i | 0 <= i < |p|
      ensures p[i].id == p'[i].id && p[i].updatedAt == p'[i].updatedAt && p[i].amount == p'[i].amount
    {
      PaymentTokensAt(k, p, i);
      PaymentTokensAt(k, p', i);
      SameShown(k, p[i].amount, p'[i].amount);
    }
  }

  // ---- The payments of a cotisation ----

  lemma {:induction false} InsertKeepsPayments(p: Payment, s: seq<Payment>)
    ensures multiset(InsertPayment(p, s)) == multiset(s) + multiset{p}
  {
    if s != [] && Strings.Less(s[0].id, p.id) {
      InsertKeepsPayments(p, s[1..]);
      assert s == [s[0]] + s[1..];
    }
  }

  lemma {:induction false} SortKeepsPayments(s: seq<Payment>)
    ensures multiset(SortedById(s)) == multiset(s)
  {
    if s != [] {
      SortKeepsPayments(s[1..]);
      InsertKeepsPayments(s[0], SortedById(s[1..]));
      assert s == [s[0]] + s[1..];
    }
  }

  lemma {:induction false} PaymentsOfAre(s: seq<Payment>, cid: string)
    ensures forall p :: p in PaymentsOf(s, cid) <==> p in s && p.cotisation == cid && !p.deleted
  {
    if s != [] {
      PaymentsOfAre(s[1..], cid);
      assert forall p :: p in s <==> p == s[0] || p in s[1..];
    }
  }

  /** The payments that a stamp lists. */
  lemma {:induction false} ListedPayments(b: Books, cid: string)
    ensures var p := SortedById(PaymentsOf(b.payments, cid));
            && multiset(p) == multiset(PaymentsOf(b.payments, cid))
            && forall i :: 0 <= i < |p| ==> p[i] in b.payments && p[i].cotisation == cid && !p[i].deleted
  {
    var mine := PaymentsOf(b.payments, cid);
    SortKeepsPayments(mine);
    PaymentsOfAre(b.payments, cid);
    var p := SortedById(mine);
    forall i | 0 <= i < |p|
      ensures p[i] in b.payments && p[i].cotisation == cid && !p[i].deleted
    {
      assert p[i] in multiset(p);
      assert p[i] in mine;
    }
  }

  lemma {:induction false} EntriesOfAre(s: seq<Entry>, cid: string)
    ensures forall i :: 0 <= i < |EntriesOf(s, cid)| ==> EntriesOf(s, cid)[i] in s
  {
    if s != [] {
      EntriesOfAre(s[1..], cid);
    }
  }

  predicate Spelled(k: Codec, b: Books) {
    SpelledPayments(k, b.payments) && SpelledEntries(k, b.entries)
  }

  lemma {:induction false} ListedRows(k: Codec, b: Books, cid: string)
    requires Spelled(k, b) && InCents(b)
    ensures var p := SortedById(PaymentsOf(b.payments, cid));
            SpelledPayments(k, p) && forall i :: 0 <= i < |p| ==> WholeCents(p[i].amount)
    ensures SpelledEntries(k, EntriesOf(b.entries, cid))
  {
    hide SlashFree, WholeCents;
    ListedPayments(b, cid);
    EntriesOfAre(b.entries, cid);
  }

  lemma StampEnds(k: Codec, b: Books, cid: string, e: Entry, reverses: string)
    ensures StampRest(k, b, cid, e, reverses)
         == (e.reason + "/" + e.reference + "/" + reverses)
            + (PaymentStamps(k, SortedById(PaymentsOf(b.payments, cid))) + EntryStamps(EntriesOf(b.entries, cid)))
  {
    hide PaymentStamps, EntryStamps, SortedById, PaymentsOf, EntriesOf;
  }

  lemma SameEnds(head: string, a: string, b: string)
    requires head + a == head + b
    ensures a == b
  {
    assert a == (head + a)[|head|..] && b == (head + b)[|head|..];
  }

  lemma SameRest(k: Codec, b: Books, b': Books, budget: string, budget': string, cid: string, x: Input)
    requires Faithful(k) && InCents(b) && InCents(b')
    requires EffectOf(k, b, budget, cid, x).Ok? && EffectOf(k, b', budget', cid, x).Ok?
    requires EffectOf(k, b, budget, cid, x).value.preview.version == EffectOf(k, b', budget', cid, x).value.preview.version
    ensures StampRest(k, b, cid, EffectOf(k, b, budget, cid, x).value.entry, x.reverses)
         == StampRest(k, b', cid, EffectOf(k, b', budget', cid, x).value.entry, x.reverses)
    ensures EffectOf(k, b, budget, cid, x).value.entry.reason == EffectOf(k, b', budget', cid, x).value.entry.reason
    ensures EffectOf(k, b, budget, cid, x).value.entry.reference == EffectOf(k, b', budget', cid, x).value.entry.reference
  {
    hide GrossPaid, SumEntries, StampRest, ValidInput, PaymentState, InCents, WholeCents, Faithful;
    var e, e' := EffectOf(k, b, budget, cid, x).value.entry, EffectOf(k, b', budget', cid, x).value.entry;
    var row := RowOf(b, FindCotisation(b.cotisations, budget, cid).value);
    var row' := RowOf(b', FindCotisation(b'.cotisations, budget', cid).value);
    FieldsAreSlashFree(k, b, budget, cid, x);
    FieldsAreSlashFree(k, b', budget', cid, x);
    CotisationFound(b.cotisations, budget, cid);
    CotisationFound(b'.cotisations, budget', cid);
    SameHash(k, Stamp(k, b, row, e, x.reverses), Stamp(k, b', row', e', x.reverses));
    JoinedIsInjective(StampFields(k, row, e), StampFields(k, row', e'), StampRest(k, b, row.id, e, x.reverses),
                      StampRest(k, b', row'.id, e', x.reverses));
  }

  /** One input with one version, previewed on two states: the cotisation has the same
      payments, untouched, and the same entries. */
  lemma SameVersionSameRows(k: Codec, b: Books, b': Books, budget: string, budget': string, cid: string, x: Input)
    requires Faithful(k) && InCents(b) && InCents(b') && Spelled(k, b) && Spelled(k, b')
    requires EffectOf(k, b, budget, cid, x).Ok? && EffectOf(k, b', budget', cid, x).Ok?
    requires EffectOf(k, b, budget, cid, x).value.preview.version == EffectOf(k, b', budget', cid, x).value.preview.version
    ensures multiset(PaymentsOf(b.payments, cid)) == multiset(PaymentsOf(b'.payments, cid))
    ensures EntryTokens(EntriesOf(b.entries, cid)) == EntryTokens(EntriesOf(b'.entries, cid))
  {
    hide EffectOf, StampRest, Faithful, InCents, Spelled, SlashFree, PaymentStamps, EntryStamps, SortedById, PaymentsOf, EntriesOf,
         SpelledPayments, SpelledEntries, WholeCents;
    SameRest(k, b, b', budget, budget', cid, x);
    var e, e' := EffectOf(k, b, budget, cid, x).value.entry, EffectOf(k, b', budget', cid, x).value.entry;
    StampEnds(k, b, cid, e, x.reverses);
    StampEnds(k, b', cid, e', x.reverses);
    var p, p' := SortedById(PaymentsOf(b.payments, cid)), SortedById(PaymentsOf(b'.payments, cid));
    var mine, mine' := EntriesOf(b.entries, cid), EntriesOf(b'.entries, cid);
    SameEnds(e.reason + "/" + e.reference + "/" + x.reverses, PaymentStamps(k, p) + EntryStamps(mine),
             PaymentStamps(k, p') + EntryStamps(mine'));
    ListedRows(k, b, cid);
    ListedRows(k, b', cid);
    SameRows(k, p, mine, p', mine');
    ListedPayments(b, cid);
    ListedPayments(b', cid);
    assert forall i :: 0 <= i < |p| ==> p[i] == p'[i];
    assert p == p';
  }
}
