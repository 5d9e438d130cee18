/**
 UTF-8 as the transport meets it: the firmware holds bytes, the backend decodes each message
 it receives with the replacement character for every malformed piece (Node's Buffer.toString).
 */
module Utf8 {

  type Byte = b: int | 0 <= b < 256

  /** A Unicode scalar value. */
  type Scalar = c: int | 0 <= c < 0xD800 || 0xE000 <= c < 0x110000

  type Bytes = seq<Byte>
  type Text = seq<Scalar>

  const REPLACEMENT: Scalar := 0xFFFD

  predicate Continuation(b: Byte) {
    0x80 <= b < 0xC0
  }

  function Encode(c: Scalar): (bytes: Bytes)
    ensures bytes != [] && !Continuation(bytes[0])
    ensures forall i :: 1 <= i < |bytes| ==> Continuation(bytes[i])
  {
    if c < 0x80 then [c]
    else if c < 0x800 then [0xC0 + c / 0x40, 0x80 + c % 0x40]
    else if c < 0x10000 then [0xE0 + c / 0x1000, 0x80 + c / 0x40 % 0x40, 0x80 + c % 0x40]
    else [0xF0 + c / 0x40000, 0x80 + c / 0x1000 % 0x40, 0x80 + c / 0x40 % 0x40, 0x80 + c % 0x40]
  }

  function EncodeAll(cs: Text): Bytes {
    if cs == [] then [] else Encode(cs[0]) + EncodeAll(cs[1..])
  }

  /** Second bytes that may follow a three- or four-byte lead without overlong or surrogate forms. */
  predicate SecondByte(lead: Byte, b: Byte) {
    if lead == 0xE0 then 0xA0 <= b < 0xC0
    else if lead == 0xED then 0x80 <= b < 0xA0
    else if lead == 0xF0 then 0x90 <= b < 0xC0
    else if lead == 0xF4 then 0x80 <= b < 0x90
    else Continuation(b)
  }

  /**
   The first decoded character and how many bytes it used; a malformed maximal
   subpart yields the replacement character.
   */
  function DecodeOne(b: Bytes): (r: (Scalar, nat))
    requires b != []
    ensures 1 <= r.1 <= |b|
  {
    var lead: int := b[0];
    if lead < 0x80 then (lead, 1)
    else if 0xC2 <= lead < 0xE0 then
      if |b| < 2 || !Continuation(b[1]) then (REPLACEMENT, 1)
      else ((lead - 0xC0) * 0x40 + Low(b[1]), 2)
    else if 0xE0 <= lead < 0xF0 then
      if |b| < 2 || !SecondByte(lead, b[1]) then (REPLACEMENT, 1)
      else if |b| < 3 || !Continuation(b[2]) then (REPLACEMENT, 2)
      else ((lead - 0xE0) * 0x1000 + Low(b[1]) * 0x40 + Low(b[2]), 3)
    else if 0xF0 <= lead < 0xF5 then
      if |b| < 2 || !SecondByte(lead, b[1]) then (REPLACEMENT, 1)
      else if |b| < 3 || !Continuation(b[2]) then (REPLACEMENT, 2)
      else if |b| < 4 || !Continuation(b[3]) then (REPLACEMENT, 3)
      else ((lead - 0xF0) * 0x40000 + Low(b[1]) * 0x1000 + Low(b[2]) * 0x40 + Low(b[3]), 4)
    else (REPLACEMENT, 1)
  }

  /** The payload bits of a continuation byte. */
  function Low(b: Byte): int {
    b - 0x80
  }

  function Decode(b: Bytes): Text
    decreases |b|
  {
    if b == [] then [] else var (c, n) := DecodeOne(b); [c] + Decode(b[n..])
  }

  lemma DecodeOneEncoded(c: Scalar, rest: Bytes)
    ensures DecodeOne(Encode(c) + rest) == (c, |Encode(c)|)
  {
    var e := Encode(c);
    var b := e + rest;
    assert b[0] == e[0];
    if |e| > 1 { assert b[1] == e[1]; }
    if |e| > 2 { assert b[2] == e[2]; }
    if |e| > 3 { assert b[3] == e[3]; }
    Digits(c);
    if |e| > 1 { assert SecondByte(e[0], e[1]); }
  }

  /** A number is made of its six-bit digits. */
  lemma Digits(c: nat)
    ensures c == c / 0x40 * 0x40 + c % 0x40
    ensures c / 0x40 == c / 0x1000 * 0x40 + c / 0x40 % 0x40
    ensures c / 0x1000 == c / 0x40000 * 0x40 + c / 0x1000 % 0x40
  {
  }

  lemma DecodeStep(c: Scalar, more: Bytes)
    ensures Decode(Encode(c) + more) == [c] + Decode(more)
  {
    DecodeOneEncoded(c, more);
    assert (Encode(c) + more)[|Encode(c)|..] == more;
  }

  /** Text survives encoding, whatever follows it. */
  lemma {:induction false} DecodeEncoded(cs: Text, rest: Bytes)
    ensures Decode(EncodeAll(cs) + rest) == cs + Decode(rest)
  {
    if cs == [] {
      assert EncodeAll(cs) + rest == rest;
    } else {
      var more := EncodeAll(cs[1..]) + rest;
      Reassociate(Encode(cs[0]), EncodeAll(cs[1..]), rest);
      DecodeStep(cs[0], more);
      DecodeEncoded(cs[1..], rest);
      ConsConcat(cs, Decode(rest));
    }
  }

  lemma ConsConcat(cs: Text, ds: Text)
    requires cs != []
    ensures [cs[0]] + (cs[1..] + ds) == cs + ds
  {
  }

  lemma Reassociate(x: Bytes, y: Bytes, z: Bytes)
    ensures (x + y) + z == x + (y + z)
  {
  }

  lemma {:induction false} EncodeAllAppend(cs: Text, ds: Text)
    ensures EncodeAll(cs + ds) == EncodeAll(cs) + EncodeAll(ds)
  {
    if cs == [] {
      assert cs + ds == ds;
    } else {
      EncodeAllAppend(cs[1..], ds);
      assert (cs + ds)[1..] == cs[1..] + ds;
      Reassociate(Encode(cs[0]), EncodeAll(cs[1..]), EncodeAll(ds));
    }
  }

  // ---------- Cutting encoded text into pieces ----------

  function Concat(pieces: seq<Bytes>): Bytes {
    if pieces == [] then [] else pieces[0] + Concat(pieces[1..])
  }

  /** What the backend reads when each piece is decoded on its own. */
  function DecodePieces(pieces: seq<Bytes>): Text {
    if pieces == [] then [] else Decode(pieces[0]) + DecodePieces(pieces[1..])
  }

  /** Whole characters within the first `n` bytes. */
  function WholeChars(cs: Text, n: nat): (k: nat)
    ensures k <= |cs|
  {
    if cs == [] || |Encode(cs[0])| > n then 0 else 1 + WholeChars(cs[1..], n - |Encode(cs[0])|)
  }

  lemma {:induction false} WholeCharsMaximal(cs: Text, n: nat)
    requires n <= |EncodeAll(cs)|
    ensures
      var k := WholeChars(cs, n);
      var used := |EncodeAll(cs[..k])|;
      used <= n && (k < |cs| ==> n - used < |Encode(cs[k])|) && (k == |cs| ==> used == n)
  {
    var k := WholeChars(cs, n);
    assert cs[..0] == [];
    if cs != [] && |Encode(cs[0])| <= n {
      WholeCharsMaximal(cs[1..], n - |Encode(cs[0])|);
      assert cs[..k][1..] == cs[1..][..k - 1];
    }
  }

  /** A cut text: whole characters, the part of the next character before the cut, the part after it, the rest. */
  datatype Cut = Cut(before: Text, head: Bytes, tail: Bytes, after: Text)

  ghost predicate CutOf(cs: Text, n: nat, c: Cut) {
    && |EncodeAll(cs)| >= n
    && EncodeAll(cs)[..n] == EncodeAll(c.before) + c.head
    && EncodeAll(cs)[n..] == c.tail + EncodeAll(c.after)
    && (forall i :: 0 <= i < |c.tail| ==> Continuation(c.tail[i]))
    && (c.head == [] <==> c.tail == [])
    && (c.head == [] ==> cs == c.before + c.after)
    && (c.head != [] ==> |cs| == |c.before| + 1 + |c.after|)
  }

  /** Any position of an encoded text cuts it in this way. */
  lemma CutAt(cs: Text, n: nat) returns (c: Cut)
    requires n <= |EncodeAll(cs)|
    ensures CutOf(cs, n, c)
  {
    var k := WholeChars(cs, n);
    WholeCharsMaximal(cs, n);
    assert cs == cs[..k] + cs[k..];
    if |EncodeAll(cs[..k])| == n {
      EncodeAllAppend(cs[..k], cs[k..]);
      c := Cut(cs[..k], [], [], cs[k..]);
    } else {
      c := CutInside(cs, k, n - |EncodeAll(cs[..k])|);
    }
  }

  lemma CutInside(cs: Text, k: nat, m: nat) returns (c: Cut)
    requires k < |cs| && 0 < m < |Encode(cs[k])|
    ensures CutOf(cs, |EncodeAll(cs[..k])| + m, c)
  {
    var whole, x := EncodeAll(cs[..k]), Encode(cs[k]);
    c := Cut(cs[..k], x[..m], x[m..], cs[k + 1..]);
    EncodeAllAppend(cs[..k], cs[k..]);
    assert cs == cs[..k] + cs[k..];
    assert cs[k..][1..] == cs[k + 1..];
    SplitInside(whole, x, EncodeAll(cs[k + 1..]), m);
  }

  lemma SplitInside(a: Bytes, x: Bytes, z: Bytes, m: nat)
    requires m <= |x|
    ensures (a + (x + z))[..|a| + m] == a + x[..m] && (a + (x + z))[|a| + m..] == x[m..] + z
  {
  }

  /** Stray continuation bytes decode to one replacement character each. */
  lemma {:induction false} DecodeStray(tail: Bytes, rest: Bytes)
    requires forall i :: 0 <= i < |tail| ==> Continuation(tail[i])
    ensures |Decode(tail + rest)| == |tail| + |Decode(rest)|
  {
    if tail == [] {
      assert tail + rest == rest;
    } else {
      assert (tail + rest)[1..] == tail[1..] + rest;
      DecodeStray(tail[1..], rest);
    }
  }

  lemma SplitAtPiece(x: Bytes, rest: Bytes, tail: Bytes, e: Bytes)
    requires x + rest == tail + e
    ensures |x| <= |tail| ==> x == tail[..|x|] && rest == tail[|x|..] + e
    ensures |x| > |tail| ==> |x| - |tail| <= |e| && x == tail + e[..|x| - |tail|] && rest == e[|x| - |tail|..]
  {
    assert x == (x + rest)[..|x|] && rest == (x + rest)[|x|..];
  }

  /**
   However a text is cut, its pieces decode to at least one character each for
   the leading fragment and every later character.
   */
  lemma {:induction false} PiecesCount(pieces: seq<Bytes>, tail: Bytes, cs: Text)
    requires Concat(pieces) == tail + EncodeAll(cs)
    requires forall i :: 0 <= i < |tail| ==> Continuation(tail[i])
    ensures |DecodePieces(pieces)| >= |cs| + if tail == [] then 0 else 1
    decreases |pieces|
  {
    assert cs != [] ==> EncodeAll(cs) != [];
    if pieces != [] {
      var x := pieces[0];
      SplitAtPiece(x, Concat(pieces[1..]), tail, EncodeAll(cs));
      if |x| <= |tail| {
        DecodeStray(x, []);
        assert x + [] == x;
        PiecesCount(pieces[1..], tail[|x|..], cs);
      } else {
        var n := |x| - |tail|;
        var c := CutAt(cs, n);
        PieceCount(x, tail, c);
        PiecesCount(pieces[1..], c.tail, c.after);
      }
    }
  }

  /** One piece: the end of a character, whole characters, the start of another. */
  lemma PieceCount(x: Bytes, tail: Bytes, c: Cut)
    requires x == tail + (EncodeAll(c.before) + c.head)
    requires forall i :: 0 <= i < |tail| ==> Continuation(tail[i])
    ensures |Decode(x)| >= |tail| + |c.before| + if c.head == [] then 0 else 1
  {
    DecodeStray(tail, EncodeAll(c.before) + c.head);
    DecodeEncoded(c.before, c.head);
  }

  /** No piece after the first starts inside a character. */
  predicate CleanCuts(pieces: seq<Bytes>) {
    forall i :: 1 <= i < |pieces| && pieces[i] != [] ==> !Continuation(pieces[i][0])
  }

  ghost predicate PiecesOf(pieces: seq<Bytes>, cs: Text) {
    Concat(pieces) == EncodeAll(cs) && forall i :: 0 <= i < |pieces| ==> pieces[i] != []
  }

  /** A first piece that ends between characters decodes to exactly those characters. */
  lemma FirstPiece(pieces: seq<Bytes>, cs: Text) returns (c: Cut)
    requires PiecesOf(pieces, cs) && pieces != []
    ensures pieces[0] == EncodeAll(c.before) + c.head && CutOf(cs, |pieces[0]|, c)
    ensures Concat(pieces[1..]) == c.tail + EncodeAll(c.after)
    ensures c.head == [] ==> Decode(pieces[0]) == c.before && PiecesOf(pieces[1..], c.after)
    ensures c.head != [] ==> |pieces| > 1 && Continuation(pieces[1][0])
  {
    assert EncodeAll(cs)[..|pieces[0]|] == pieces[0] && EncodeAll(cs)[|pieces[0]|..] == Concat(pieces[1..]);
    c := CutAt(cs, |pieces[0]|);
    if c.head == [] {
      DecodeEncoded(c.before, []);
      assert EncodeAll(c.before) + [] == EncodeAll(c.before) && c.before + [] == c.before;
      assert c.tail + EncodeAll(c.after) == EncodeAll(c.after);
    } else {
      assert Concat(pieces[1..])[0] == c.tail[0];
      assert |pieces| > 1 && pieces[1][0] == c.tail[0];
    }
  }

  lemma {:induction false} CleanPiecesDecode(pieces: seq<Bytes>, cs: Text)
    requires PiecesOf(pieces, cs) && CleanCuts(pieces)
    ensures DecodePieces(pieces) == cs
    decreases |pieces|
  {
    assert cs != [] ==> EncodeAll(cs) != [];
    if pieces != [] {
      var c := FirstPiece(pieces, cs);
      CleanPiecesDecode(pieces[1..], c.after);
    }
  }

  /** A piece that starts inside a character makes the reading strictly longer than the text. */
  lemma {:induction false} UncleanPiecesGrow(pieces: seq<Bytes>, cs: Text)
    requires PiecesOf(pieces, cs) && !CleanCuts(pieces)
    ensures |DecodePieces(pieces)| > |cs|
    decreases |pieces|
  {
    var c := FirstPiece(pieces, cs);
    if c.head != [] {
      PieceCount(pieces[0], [], c);
      PiecesCount(pieces[1..], c.tail, c.after);
    } else {
      var rest := pieces[1..];
      assert EncodeAll(c.after) == rest[0] + Concat(rest[1..]);
      assert rest[0][0] == EncodeAll(c.after)[0] && c.after != [];
      assert rest[0][0] == Encode(c.after[0])[0];
      UncleanPiecesGrow(rest, c.after);
    }
  }

  /** Decoding piece by piece gives back the text exactly when no later piece starts with a continuation byte. */
  lemma PiecesDecodeIff(pieces: seq<Bytes>, cs: Text)
    requires PiecesOf(pieces, cs)
    ensures DecodePieces(pieces) == cs <==> CleanCuts(pieces)
  {
    if CleanCuts(pieces) {
      CleanPiecesDecode(pieces, cs);
    } else {
      UncleanPiecesGrow(pieces, cs);
    }
  }
}
