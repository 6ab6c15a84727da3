/** pkg/smtp/encodings.go: the resumable reader that encodes a body in base64 with
    lines of 76 characters, whatever the sizes of the buffers it is read into. */
module Base64Reader {
  import opened Wrappers
  import opened Base64

  function Min(a: int, b: int): int {
    if a < b then a else b
  }

  /** What a read reports besides its characters: nothing, io.EOF, or the error of the body. */
  datatype Ending = More | Eof | Failed

  /** The bytes of which the encoder makes text: all of them once it is closed, whole
      groups of three as long as it is not. */
  function Whole(b: seq<Byte>): seq<Byte> {
    b[..|b| - |b| % 3]
  }

  function Encoded(b: seq<Byte>, broken: bool): seq<Byte> {
    if broken then Whole(b) else b
  }

  class Reader {
    const eol: string
    /** Whether the body ends in an error instead of io.EOF. */
    const broken: bool
    /** The part of the body that was not read yet. */
    var body: seq<Byte>
    /** Up to two bytes held back by the encoder, and the text it wrote. */
    var pending: seq<Byte>
    var buf: string
    var lineSize: nat
    var remainingData: Option<string>

    ghost predicate Valid()
      reads this
    {
      |pending| < 3 && lineSize <= MAX_LINE && (remainingData.Some? ==> lineSize == 0)
    }

    /** Everything that is still to come out; of a broken body, no padding. */
    ghost function Rest(): string
      reads this
      requires Valid()
    {
      (if remainingData.Some? then remainingData.value else "") + Wrap(buf + Encode(Encoded(pending + body, broken)), lineSize, eol)
    }

    constructor (eol: string, body: seq<Byte>, broken: bool)
      ensures Valid() && this.eol == eol && this.broken == broken
      ensures Rest() == Text(Encoded(body, broken), eol)
    {
      this.eol, this.broken, this.body := eol, broken, body;
      pending, buf, lineSize, remainingData := [], "", 0, None;
      new;
      assert [] + body == body;
      assert "" + Encode(Encoded(body, broken)) == Encode(Encoded(body, broken));
    }

    /** io.CopyN into the encoder: at most `count` bytes of the body; whole groups of
        three are written out, the others held back. Says whether the body ended. */
    method CopyN(count: nat) returns (ended: bool)
      requires Valid()
      modifies this`body, this`pending, this`buf
      ensures Valid() && buf + Encode(Encoded(pending + body, broken)) == old(buf + Encode(Encoded(pending + body, broken)))
      ensures ended <==> |old(body)| < count
      ensures |body| == if ended then 0 else |old(body)| - count
    {
      hide Encode, Encoded, Whole;
      var k := Min(count, |body|);
      var taken := pending + body[..k];
      EncodeAhead(pending, body, k, broken);
      var whole := |taken| - |taken| % 3;
      var written := Encode(taken[..whole]);
      Regroup(buf, written, Encode(Encoded(taken[whole..] + body[k..], broken)));
      buf := buf + written;
      pending, body := taken[whole..], body[k..];
      ended := k < count;
    }

    /** encoder.Close: what was held back is written with its padding. */
    method Close()
      requires Valid() && body == [] && !broken
      modifies this`pending, this`buf
      ensures Valid() && pending == [] && buf == old(buf + Encode(pending + body))
    {
      assert pending + body == pending;
      buf := buf + Encode(pending);
      pending := [];
    }

    /** Fills the buffer when it holds less than what is asked for. Says whether nothing
        is left at all, or the body failed. */
    method Fetch(wanted: nat) returns (e: Ending)
      requires Valid() && (wanted > 0 ==> remainingData.None? && lineSize < MAX_LINE)
      modifies this`body, this`pending, this`buf
      ensures Valid() && Rest() == old(Rest()) && |body| <= |old(body)|
      ensures !e.More? ==> wanted > 0 && e.Failed? == broken
      ensures e.Eof? ==> Rest() == ""
      ensures e.More? && wanted > 0 ==> buf != "" || |body| < |old(body)|
    {
      e := More;
      if wanted > |buf| {
        var ended := CopyN(wanted - |buf|);
        if ended && broken {
          e := Failed;
        } else if ended {
          Close();
          assert buf + Encode(pending + body) == buf;
          e := if buf == "" then Eof else More;
        }
      }
    }

    /** After a full line comes its end. */
    method StartLine()
      requires Valid()
      modifies this`lineSize, this`remainingData
      ensures Valid() && lineSize < MAX_LINE && Rest() == old(Rest())
    {
      if lineSize == MAX_LINE {
        lineSize := 0;
        remainingData := Some(eol);
      }
    }

    /** Copies pending line-end data, as far as there is room. */
    method EmitRemaining(p: array<char>, n: nat) returns (m: nat)
      requires Valid() && n < p.Length
      modifies this`remainingData, p
      ensures Valid() && n <= m <= p.Length
      ensures p[..n] == old(p[..n]) && p[m..] == old(p[m..])
      ensures p[n..m] + Rest() == old(Rest())
      ensures m < p.Length ==> remainingData.None?
    {
      hide Encode, Wrap, Encoded, Whole;
      m := n;
      if remainingData.Some? {
        var data := remainingData.value;
        var free := p.Length - n;
        if free > |data| {
          Copy(p, n, data);
          remainingData := None;
          m := n + |data|;
        } else {
          Copy(p, n, data[..free]);
          remainingData := Some(data[free..]);
          m := p.Length;
          assert data == data[..free] + data[free..];
        }
      }
    }

    /** Takes text from the buffer, never past the end of a line. */
    method TakeBuffered(p: array<char>, n: nat) returns (m: nat)
      requires Valid() && n <= p.Length && (n < p.Length ==> remainingData.None?)
      modifies this`buf, this`lineSize, p
      ensures Valid() && n <= m <= p.Length
      ensures p[..n] == old(p[..n]) && p[m..] == old(p[m..])
      ensures p[n..m] + Rest() == old(Rest())
      ensures n < p.Length && old(buf) != "" && old(lineSize) < MAX_LINE ==> m > n
    {
      hide Encode, Wrap, Encoded, Whole;
      var toRead := Min(MAX_LINE - lineSize, p.Length - n);
      var k := Min(toRead, |buf|);
      WrapTakeFront(buf, Encode(Encoded(pending + body, broken)), lineSize, eol, k);
      Copy(p, n, buf[..k]);
      buf := buf[k..];
      lineSize := lineSize + k;
      m := n + k;
    }

    /** One round of the loop of Read. */
    method Round(p: array<char>, n: nat) returns (m: nat, e: Ending)
      requires Valid() && n < p.Length
      modifies this, p
      ensures Valid() && n <= m <= p.Length
      ensures p[..n] == old(p[..n]) && p[m..] == old(p[m..])
      ensures p[n..m] + Rest() == old(Rest())
      ensures !e.More? ==> m < p.Length && e.Failed? == broken
      ensures e.Eof? ==> Rest() == ""
      ensures e.More? ==> m > n || |body| < |old(body)|
    {
      hide Encode, Wrap, Encoded, Reader.Rest;
      StartLine();
      m := EmitRemaining(p, n);
      label Emitted:
      e := Fetch(p.Length - m);
      if e.More? {
        var k := TakeBuffered(p, m);
        assert p[n..k] == p[n..m] + p[m..k];
        assert p[..m] == old@Emitted(p[..m]) && p[n..m] == p[..m][n..];
        m := k;
      }
    }

    /** Refines a pure function of what is left: the buffer receives the next characters,
        and is filled unless the body ended or failed. EOF is reported exactly when fewer
        characters were left than its size, and never for a broken body. */
    method Read(p: array<char>) returns (n: nat, e: Ending)
      requires Valid()
      modifies this, p
      ensures Valid() && n <= p.Length && n <= |old(Rest())|
      ensures p[..n] == old(Rest())[..n] && Rest() == old(Rest())[n..]
      ensures p[n..] == old(p[n..])
      ensures e.More? <==> n == p.Length
      ensures !broken ==> n == Min(p.Length, |old(Rest())|) && e == if |old(Rest())| < p.Length then Eof else More
      ensures broken ==> !e.Eof?
    {
      hide Encode, Wrap, Encoded, Reader.Rest;
      n, e := 0, More;
      ghost var all := Rest();
      while p.Length > n && e.More?
        invariant Valid() && n <= p.Length
        invariant p[..n] + Rest() == all
        invariant p[n..] == old(p[n..])
        invariant !e.More? ==> n < p.Length && e.Failed? == broken
        invariant e.Eof? ==> Rest() == ""
        decreases e.More?, p.Length - n, |body|
      {
        var m;
        label Before:
        m, e := Round(p, n);
        assert p[..m] == old@Before(p[..n]) + p[n..m];
        n := m;
      }
    }
  }

  lemma Regroup(a: string, b: string, c: string)
    ensures a + (b + c) == a + b + c
  {}

  /** The encoder's groups of three, written ahead of what it holds back. */
  lemma EncodeAhead(pending: seq<Byte>, body: seq<Byte>, k: nat, broken: bool)
    requires k <= |body|
    ensures var taken := pending + body[..k];
            var whole := |taken| - |taken| % 3;
            var rest := taken[whole..] + body[k..];
            var all := pending + body;
            Encode(Encoded(all, broken)) == Encode(taken[..whole]) + Encode(Encoded(rest, broken))
  {
    hide Encode;
    var taken := pending + body[..k];
    var whole := |taken| - |taken| % 3;
    var rest := taken[whole..] + body[k..];
    assert pending + body == taken[..whole] + rest;
    assert Whole(pending + body) == taken[..whole] + Whole(rest);
    EncodeSplit(taken[..whole], Encoded(rest, broken));
  }

  /** Go's copy into a part of a buffer that has room. */
  method Copy(p: array<char>, n: nat, data: string)
    requires n + |data| <= p.Length
    modifies p
    ensures p[n..n + |data|] == data
    ensures p[..n] == old(p[..n]) && p[n + |data|..] == old(p[n + |data|..])
  {
    for i := 0 to |data|
      invariant p[n..n + i] == data[..i]
      invariant p[..n] == old(p[..n]) && p[n + i..] == old(p[n + i..])
    {
      p[n + i] := data[i];
    }
  }

  function Sum(sizes: seq<nat>): nat {
    if sizes == [] then 0 else Sum(sizes[..|sizes| - 1]) + sizes[|sizes| - 1]
  }

  lemma {:induction false} SumPrefix(sizes: seq<nat>, k: nat)
    requires k <= |sizes|
    ensures Sum(sizes[..k]) <= Sum(sizes)
    decreases |sizes|
  {
    if k == |sizes| {
      assert sizes[..k] == sizes;
    } else {
      assert sizes[..|sizes| - 1][..k] == sizes[..k];
      SumPrefix(sizes[..|sizes| - 1], k);
    }
  }

  /** Reads with buffers of the given sizes, stopping at EOF or an error: the chunks
      depend on the sizes, their concatenation does not. */
  method Drain(r: Reader, sizes: seq<nat>) returns (out: string, e: Ending)
    requires r.Valid()
    modifies r
    ensures r.Valid() && out + r.Rest() == old(r.Rest())
    ensures !r.broken ==> (e.Eof? <==> Sum(sizes) > |old(r.Rest())|) && !e.Failed?
    ensures e.Eof? ==> r.Rest() == ""
    ensures r.broken ==> !e.Eof? && (Sum(sizes) > |old(r.Rest())| ==> e.Failed?)
  {
    hide Encode, Wrap, Encoded, Reader.Rest;
    out, e := "", More;
    ghost var all := r.Rest();
    for i := 0 to |sizes|
      invariant r.Valid()
      invariant out + r.Rest() == all && |out| == Sum(sizes[..i])
    {
      var p := new char[sizes[i]];
      label Before:
      var n, ending := r.Read(p);
      assert sizes[..i + 1][..i] == sizes[..i];
      assert out + old@Before(r.Rest()) == out + p[..n] + r.Rest();
      out := out + p[..n];
      if !ending.More? {
        SumPrefix(sizes, i + 1);
        return out, ending;
      }
    }
    assert sizes[..|sizes|] == sizes;
  }

  lemma {:induction false} PositiveSum(sizes: seq<nat>)
    requires forall i :: 0 <= i < |sizes| ==> sizes[i] > 0
    ensures Sum(sizes) >= |sizes|
    decreases |sizes|
  {
    if sizes != [] {
      PositiveSum(sizes[..|sizes| - 1]);
    }
  }

  /** For every body and every sequence of positive buffer sizes that is long enough,
      reading ends and the chunks make up the whole text. A body that fails is noticed:
      the error comes out, after text of its whole groups only. */
  method ReadWhole(body: seq<Byte>, broken: bool, eol: string, sizes: seq<nat>) returns (out: string, e: Ending)
    requires forall i :: 0 <= i < |sizes| ==> sizes[i] > 0
    requires |sizes| > |Text(Encoded(body, broken), eol)|
    ensures !broken ==> e == Eof && out == Text(body, eol)
    ensures broken ==> e == Failed && out <= Text(Whole(body), eol)
  {
    var r := new Reader(eol, body, broken);
    PositiveSum(sizes);
    out, e := Drain(r, sizes);
    assert out + "" == out;
  }
}
