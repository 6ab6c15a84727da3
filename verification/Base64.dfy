/** Base64 (sections 4 of RFC 4648) and its lines (section 6.8 of RFC 2045): the pure
    text that the streaming reader of pkg/smtp/encodings.go must produce. */
module Base64 {
  import opened Wrappers

  type Byte = x: int | 0 <= x < 256
  type Sextet = x: int | 0 <= x < 64

  const MAX_LINE := 76
  const CRLF := "\r\n"

  function Symbol(i: Sextet): char {
    if i < 26 then ('A' as int + i) as char
    else if i < 52 then ('a' as int + (i - 26)) as char
    else if i < 62 then ('0' as int + (i - 52)) as char
    else if i == 62 then '+'
    else '/'
  }

  function Index(c: char): (r: Option<Sextet>)
    ensures r.Some? ==> Symbol(r.value) == c
  {
    if 'A' <= c <= 'Z' then Some(c as int - 'A' as int)
    else if 'a' <= c <= 'z' then Some(c as int - 'a' as int + 26)
    else if '0' <= c <= '9' then Some(c as int - '0' as int + 52)
    else if c == '+' then Some(62)
    else if c == '/' then Some(63)
    else None
  }

  lemma IndexOfSymbol(i: Sextet)
    ensures Index(Symbol(i)) == Some(i)
  {}

  function Quad(a: Byte, b: Byte, c: Byte): string {
    [Symbol(a / 4), Symbol(a % 4 * 16 + b / 16), Symbol(b % 16 * 4 + c / 64), Symbol(c % 64)]
  }

  function Encode(b: seq<Byte>): string {
    if b == [] then ""
    else if |b| == 1 then Quad(b[0], 0, 0)[..2] + "=="
    else if |b| == 2 then Quad(b[0], b[1], 0)[..3] + "="
    else Quad(b[0], b[1], b[2]) + Encode(b[3..])
  }

  /** Table 1 of RFC 4648: the corners of the alphabet, and its runs. */
  lemma StandardAlphabet(i: Sextet)
    ensures Symbol(0) == 'A' && Symbol(25) == 'Z' && Symbol(26) == 'a' && Symbol(51) == 'z'
    ensures Symbol(52) == '0' && Symbol(61) == '9' && Symbol(62) == '+' && Symbol(63) == '/'
    ensures i != 25 && i != 51 && i < 61 ==> Symbol(i + 1) as int == Symbol(i) as int + 1
  {}

  /** Four symbols carry the 24 bits of three bytes, the highest first. */
  lemma QuadBits(a: Byte, b: Byte, c: Byte) returns (w: Sextet, x: Sextet, y: Sextet, z: Sextet)
    ensures Quad(a, b, c) == [Symbol(w), Symbol(x), Symbol(y), Symbol(z)]
    ensures w * 262144 + x * 4096 + y * 64 + z == a * 65536 + b * 256 + c
  {
    w, x, y, z := a / 4, a % 4 * 16 + b / 16, b % 16 * 4 + c / 64, c % 64;
  }

  lemma QuadIsFull(a: Byte, b: Byte, c: Byte)
    ensures |Quad(a, b, c)| == 4 && forall i :: 0 <= i < 4 ==> Quad(a, b, c)[i] != '='
  {
    EqualSign();
  }

  /** How a text ends: with its last character or its last two. */
  predicate Ends(s: string, size: nat) {
    match size % 3
    case 0 => true
    case 1 => |s| >= 4 && s[|s| - 2..] == "==" && s[|s| - 3] != '='
    case _ => |s| >= 4 && s[|s| - 1] == '=' && s[|s| - 2] != '='
  }

  lemma LongerEnds(q: string, s: string, size: nat)
    requires Ends(s, size)
    ensures Ends(q + s, size)
  {
    var t := q + s;
    if size % 3 != 0 {
      assert t[|t| - 2..] == s[|s| - 2..];
    }
  }

  /** A final group of one byte ends in two `=`, one of two bytes in one. */
  lemma {:induction false} EncodeShape(b: seq<Byte>)
    ensures |Encode(b)| == (|b| + 2) / 3 * 4 && Ends(Encode(b), |b|)
    decreases |b|
  {
    hide Quad, Ends;
    if b == [] {
      NothingEnds();
    } else if |b| < 3 {
      var second: Byte := if |b| == 2 then b[1] else 0;
      QuadIsFull(b[0], second, 0);
      ShortEnds(Quad(b[0], second, 0));
    } else {
      EncodeShape(b[3..]);
      QuadIsFull(b[0], b[1], b[2]);
      LongerEnds(Quad(b[0], b[1], b[2]), Encode(b[3..]), |b| - 3);
      SameEnds(Encode(b), |b|);
    }
  }

  lemma NothingEnds()
    ensures Ends("", 0)
  {}

  lemma ShortEnds(q: string)
    requires |q| == 4 && forall i :: 0 <= i < 4 ==> q[i] != '='
    ensures |q[..2] + "=="| == 4 && Ends(q[..2] + "==", 1) && |q[..3] + "="| == 4 && Ends(q[..3] + "=", 2)
  {
    assert (q[..2] + "==")[2..] == "==";
  }

  lemma SameEnds(s: string, size: nat)
    requires size >= 3 && Ends(s, size - 3)
    ensures Ends(s, size)
  {
    assert (size - 3) % 3 == size % 3;
  }

  /** The bytes of a quad of symbols, or of a final quad with one or two `=`. */
  function DecodeQuad(s: string): Option<seq<Byte>>
    requires |s| == 4
  {
    var w, x := Index(s[0]), Index(s[1]);
    if w.None? || x.None? then None
    else if s[2..] == "==" then Some([w.value * 4 + x.value / 16])
    else
      var y := Index(s[2]);
      if y.None? then None
      else if s[3] == '=' then Some([w.value * 4 + x.value / 16, x.value % 16 * 16 + y.value / 4])
      else
        var z := Index(s[3]);
        if z.None? then None
        else Some([w.value * 4 + x.value / 16, x.value % 16 * 16 + y.value / 4, y.value % 4 * 64 + z.value])
  }

  function Decode(s: string): Option<seq<Byte>> {
    if s == "" then Some([])
    else if |s| < 4 then None
    else
      var first, rest := DecodeQuad(s[..4]), Decode(s[4..]);
      if first.None? || rest.None? then None else Some(first.value + rest.value)
  }

  /** Splitting three bytes into sextets loses nothing. */
  lemma Sextets(a: Byte, b: Byte, c: Byte)
    ensures a / 4 * 4 + (a % 4 * 16 + b / 16) / 16 == a
    ensures (a % 4 * 16 + b / 16) % 16 * 16 + (b % 16 * 4 + c / 64) / 4 == b
    ensures (b % 16 * 4 + c / 64) % 4 * 64 + c % 64 == c
  {}

  lemma DecodeFullQuad(a: Byte, b: Byte, c: Byte)
    ensures DecodeQuad(Quad(a, b, c)) == Some([a, b, c])
  {
    hide Symbol, Index;
    var w, x, y, z := a / 4, a % 4 * 16 + b / 16, b % 16 * 4 + c / 64, c % 64;
    IndexOfSymbol(w);
    IndexOfSymbol(x);
    IndexOfSymbol(y);
    IndexOfSymbol(z);
    EqualSign();
    var s := Quad(a, b, c);
    assert s == [Symbol(w), Symbol(x), Symbol(y), Symbol(z)];
    assert s[2..][0] == Symbol(y);
    Sextets(a, b, c);
  }

  /** The padding sign is not a symbol. */
  lemma EqualSign()
    ensures forall i: Sextet :: Symbol(i) != '='
  {}

  lemma DecodeOne(a: Byte)
    ensures var s := Quad(a, 0, 0)[..2] + "=="; |s| == 4 && DecodeQuad(s) == Some([a])
  {
    IndexOfSymbol(a / 4);
    IndexOfSymbol(a % 4 * 16);
    var s := Quad(a, 0, 0)[..2] + "==";
    assert s[2..] == "==";
  }

  lemma DecodeTwo(a: Byte, b: Byte)
    ensures var s := Quad(a, b, 0)[..3] + "="; |s| == 4 && DecodeQuad(s) == Some([a, b])
  {
    IndexOfSymbol(a / 4);
    IndexOfSymbol(a % 4 * 16 + b / 16);
    IndexOfSymbol(b % 16 * 4);
    var s := Quad(a, b, 0)[..3] + "=";
    assert s[2] == Symbol(b % 16 * 4) && s[2] != '=';
  }

  lemma DecodeLast(s: string, b: seq<Byte>)
    requires |s| == 4 && DecodeQuad(s) == Some(b)
    ensures Decode(s) == Some(b)
  {
    assert s[..4] == s && s[4..] == "";
    assert Decode(s[4..]) == Some([]);
    assert b + [] == b;
  }

  /** Round trip of the encoding itself. */
  lemma {:induction false} DecodeEncode(b: seq<Byte>)
    ensures Decode(Encode(b)) == Some(b)
    decreases |b|
  {
    hide Symbol, Index, DecodeQuad, Quad;
    if |b| == 1 {
      DecodeOne(b[0]);
      assert b == [b[0]];
      DecodeLast(Encode(b), b);
    } else if |b| == 2 {
      DecodeTwo(b[0], b[1]);
      assert b == [b[0], b[1]];
      DecodeLast(Encode(b), b);
    } else if |b| > 2 {
      DecodeEncode(b[3..]);
      DecodeFirst(b[0], b[1], b[2], Encode(b[3..]), b[3..]);
      assert b == [b[0], b[1], b[2]] + b[3..];
    }
  }

  lemma DecodeFirst(a: Byte, b: Byte, c: Byte, t: string, rest: seq<Byte>)
    requires Decode(t) == Some(rest)
    ensures Decode(Quad(a, b, c) + t) == Some([a, b, c] + rest)
  {
    DecodeFullQuad(a, b, c);
    var s := Quad(a, b, c) + t;
    assert s[..4] == Quad(a, b, c) && s[4..] == t;
  }

  /** Whole groups of three can be encoded ahead of the rest. */
  lemma {:induction false} EncodeSplit(a: seq<Byte>, b: seq<Byte>)
    requires |a| % 3 == 0
    ensures Encode(a + b) == Encode(a) + Encode(b)
    decreases |a|
  {
    if a == [] {
      assert a + b == b;
    } else {
      assert (a + b)[3..] == a[3..] + b;
      EncodeSplit(a[3..], b);
    }
  }

  predicate IsSymbol(c: char) {
    Index(c).Some? || c == '='
  }

  lemma {:induction false} EncodeSymbols(b: seq<Byte>)
    ensures forall i :: 0 <= i < |Encode(b)| ==> IsSymbol(Encode(b)[i])
    decreases |b|
  {
    if b != [] {
      var x, y := if |b| > 1 then b[1] else 0, if |b| > 2 then b[2] else 0;
      QuadSymbols(b[0], x, y);
      if |b| > 2 {
        EncodeSymbols(b[3..]);
      }
    }
  }

  lemma QuadSymbols(a: Byte, b: Byte, c: Byte)
    ensures forall i :: 0 <= i < 4 ==> IsSymbol(Quad(a, b, c)[i])
  {
    IndexOfSymbol(a / 4);
    IndexOfSymbol(a % 4 * 16 + b / 16);
    IndexOfSymbol(b % 16 * 4 + c / 64);
    IndexOfSymbol(c % 64);
  }

  // ---- Lines ----

  /** Text continued at a column: an EOL follows every full line, the last one included. */
  function Wrap(s: string, col: nat, eol: string): string
    requires col <= MAX_LINE
    decreases |s|, col
  {
    if col == MAX_LINE then eol + Wrap(s, 0, eol)
    else if s == "" then ""
    else [s[0]] + Wrap(s[1..], col + 1, eol)
  }

  /** Reading the lines back by position. */
  function Unwrap(t: string, col: nat, eolSize: nat): string
    requires col <= MAX_LINE
    decreases |t|, col
  {
    if col == MAX_LINE then Unwrap(if |t| < eolSize then "" else t[eolSize..], 0, eolSize)
    else if t == "" then ""
    else [t[0]] + Unwrap(t[1..], col + 1, eolSize)
  }

  lemma {:induction false} UnwrapWrap(s: string, col: nat, eol: string)
    requires col <= MAX_LINE
    ensures Unwrap(Wrap(s, col, eol), col, |eol|) == s
    decreases |s|, col
  {
    if col == MAX_LINE {
      UnwrapWrap(s, 0, eol);
      assert (eol + Wrap(s, 0, eol))[|eol|..] == Wrap(s, 0, eol);
    } else if s != "" {
      UnwrapWrap(s[1..], col + 1, eol);
      assert Wrap(s, col, eol)[1..] == Wrap(s[1..], col + 1, eol);
      assert s == [s[0]] + s[1..];
    }
  }

  /** Text taken out within the current line. */
  lemma {:induction false} WrapTake(s: string, col: nat, eol: string, k: nat)
    requires k <= |s| && col + k <= MAX_LINE
    ensures Wrap(s, col, eol) == s[..k] + Wrap(s[k..], col + k, eol)
    decreases k
  {
    if k == 0 {
      assert s[0..] == s;
    } else {
      WrapTake(s[1..], col + 1, eol, k - 1);
      assert s[1..][k - 1..] == s[k..];
      assert s[..k] == [s[0]] + s[1..][..k - 1];
    }
  }

  /** Text taken from the front of what is buffered, within the current line. */
  lemma WrapTakeFront(front: string, tail: string, col: nat, eol: string, k: nat)
    requires k <= |front| && col + k <= MAX_LINE
    ensures Wrap(front + tail, col, eol) == front[..k] + Wrap(front[k..] + tail, col + k, eol)
  {
    WrapTake(front + tail, col, eol, k);
    assert (front + tail)[..k] == front[..k] && (front + tail)[k..] == front[k..] + tail;
  }

  /** No run of characters outside line ends is longer than a line. */
  predicate Fits(t: string, col: nat, eol: string)
    decreases |t|
  {
    t == "" || (if t[0] in eol then Fits(t[1..], 0, eol) else col < MAX_LINE && Fits(t[1..], col + 1, eol))
  }

  predicate Apart(s: string, eol: string) {
    forall i :: 0 <= i < |s| ==> s[i] !in eol
  }

  lemma {:induction false} FitsAfterBreak(e: string, t: string, col: nat, eol: string)
    requires e != "" && Fits(t, 0, eol) && forall i :: 0 <= i < |e| ==> e[i] in eol
    ensures Fits(e + t, col, eol)
    decreases |e|
  {
    assert (e + t)[1..] == e[1..] + t;
    if |e| > 1 {
      FitsAfterBreak(e[1..], t, 0, eol);
    } else {
      assert e[1..] + t == t;
    }
  }

  lemma {:induction false} WrapFits(s: string, col: nat, eol: string)
    requires col <= MAX_LINE && eol != "" && Apart(s, eol)
    ensures Fits(Wrap(s, col, eol), col, eol)
    decreases |s|, col
  {
    if col == MAX_LINE {
      WrapFits(s, 0, eol);
      FitsAfterBreak(eol, Wrap(s, 0, eol), col, eol);
    } else if s != "" {
      WrapFits(s[1..], col + 1, eol);
      assert Wrap(s, col, eol)[1..] == Wrap(s[1..], col + 1, eol);
    }
  }

  /** Dropping every line-end character, as a mail reader does. */
  function Strip(t: string, eol: string): string {
    if t == "" then "" else (if t[0] in eol then "" else [t[0]]) + Strip(t[1..], eol)
  }

  lemma {:induction false} StripBreak(e: string, t: string, eol: string)
    requires forall i :: 0 <= i < |e| ==> e[i] in eol
    ensures Strip(e + t, eol) == Strip(t, eol)
    decreases |e|
  {
    if e == "" {
      assert e + t == t;
    } else {
      assert (e + t)[1..] == e[1..] + t;
      StripBreak(e[1..], t, eol);
    }
  }

  lemma {:induction false} StripWrap(s: string, col: nat, eol: string)
    requires col <= MAX_LINE && Apart(s, eol)
    ensures Strip(Wrap(s, col, eol), eol) == s
    decreases |s|, col
  {
    if col == MAX_LINE {
      StripWrap(s, 0, eol);
      StripBreak(eol, Wrap(s, 0, eol), eol);
    } else if s != "" {
      StripWrap(s[1..], col + 1, eol);
      assert Wrap(s, col, eol)[1..] == Wrap(s[1..], col + 1, eol);
      assert s == [s[0]] + s[1..];
    }
  }

  // ---- Positions ----

  /** The place of a character of the encoding: a line end follows each 76 of them. */
  function Place(col: nat, k: nat, size: nat): nat {
    k + size * ((col + k) / 76)
  }

  lemma Places(col: nat, k: nat, size: nat)
    ensures col < 76 && k > 0 ==> Place(col, k, size) == 1 + Place(col + 1, k - 1, size)
    ensures Place(76, k, size) == size + Place(0, k, size)
    ensures col < 76 ==> Place(col, 0, size) == 0
  {
    OneLineMore(size, k);
  }

  lemma {:induction false} WrapPositions(s: string, col: nat, eol: string, k: nat)
    requires col <= 76 && k < |s|
    ensures Place(col, k, |eol|) < |Wrap(s, col, eol)| && Wrap(s, col, eol)[Place(col, k, |eol|)] == s[k]
    decreases |s|, col
  {
    hide Place;
    Places(col, k, |eol|);
    if col == 76 {
      WrapPositions(s, 0, eol, k);
    } else if k > 0 {
      WrapPositions(s[1..], col + 1, eol, k - 1);
      assert Wrap(s, col, eol)[1..] == Wrap(s[1..], col + 1, eol);
    }
  }

  lemma OneLineMore(size: nat, k: nat)
    ensures (76 + k) / 76 == 1 + k / 76
    ensures size * ((76 + k) / 76) == size + size * (k / 76)
  {}

  lemma {:induction false} WrapLength(s: string, col: nat, eol: string)
    requires col <= 76
    ensures |Wrap(s, col, eol)| == |s| + |eol| * ((col + |s|) / 76)
    decreases |s|, col
  {
    if col == 76 {
      WrapLength(s, 0, eol);
      OneLineMore(|eol|, |s|);
    } else if s != "" {
      WrapLength(s[1..], col + 1, eol);
    }
  }

  /** A line end after each 76 characters of the encoding, the last ones included, and
      nothing else. */
  lemma TextByPosition(body: seq<Byte>, eol: string)
    ensures |Text(body, eol)| == |Encode(body)| + |eol| * (|Encode(body)| / 76)
    ensures forall k :: 0 <= k < |Encode(body)| ==>
              Place(0, k, |eol|) < |Text(body, eol)| && Text(body, eol)[Place(0, k, |eol|)] == Encode(body)[k]
  {
    hide Place, Encode, Wrap;
    var s := Encode(body);
    WrapLength(s, 0, eol);
    forall k | 0 <= k < |s|
      ensures Place(0, k, |eol|) < |Text(body, eol)| && Text(body, eol)[Place(0, k, |eol|)] == s[k]
    {
      WrapPositions(s, 0, eol, k);
    }
  }

  /** The whole encoded body. */
  function Text(body: seq<Byte>, eol: string): string {
    Wrap(Encode(body), 0, eol)
  }

  /** For every line end, the body comes back from the lines by position. */
  lemma TextReadsBack(body: seq<Byte>, eol: string)
    ensures Decode(Unwrap(Text(body, eol), 0, |eol|)) == Some(body)
  {
    UnwrapWrap(Encode(body), 0, eol);
    DecodeEncode(body);
  }

  /** With line ends outside the alphabet, CRLF among them, no line is longer than 76
      characters and the body comes back from the text without its line ends. */
  lemma TextIsMail(body: seq<Byte>, eol: string)
    requires eol != "" && forall i :: 0 <= i < |eol| ==> !IsSymbol(eol[i])
    ensures Fits(Text(body, eol), 0, eol)
    ensures Decode(Strip(Text(body, eol), eol)) == Some(body)
  {
    EncodeSymbols(body);
    assert Apart(Encode(body), eol);
    WrapFits(Encode(body), 0, eol);
    StripWrap(Encode(body), 0, eol);
    DecodeEncode(body);
  }
}
