// Exported vectors: the worker's base64 and the check the Python side makes on a
// decoded vector (unridden/api/native/snapshots/snapshot-worker.cpp and
// unridden/api/snapshots/schema.py). The alphabet and the padding are those of
// section 4 of RFC 4648.
module Base64 {
  import opened Common

  type Byte = x: nat | x < 256

  // The alphabet: the table both sides index by value.
  function Symbol(v: nat): char
    requires v < 64
  {
    if v < 26 then 'A' + v as char
    else if v < 52 then 'a' + (v - 26) as char
    else if v < 62 then '0' + (v - 52) as char
    else if v == 62 then '+' else '/'
  }

  // The alphabet of section 4 of RFC 4648: three runs of consecutive characters and
  // two single ones.
  lemma AlphabetRuns(v: nat)
    requires v < 64
    ensures Symbol(0) == 'A' && Symbol(25) == 'Z' && Symbol(26) == 'a' && Symbol(51) == 'z'
    ensures Symbol(52) == '0' && Symbol(61) == '9' && Symbol(62) == '+' && Symbol(63) == '/'
    ensures v !in {25, 51, 61, 62, 63} ==> Symbol(v + 1) as int == Symbol(v) as int + 1
  {
  }

  // The value of a symbol of the alphabet.
  function Value(c: char): Option<nat> {
    if 'A' <= c <= 'Z' then Some((c - 'A') as nat)
    else if 'a' <= c <= 'z' then Some((c - 'a') as nat + 26)
    else if '0' <= c <= '9' then Some((c - '0') as nat + 52)
    else if c == '+' then Some(62)
    else if c == '/' then Some(63)
    else None
  }

  lemma ValueOfSymbol(v: nat)
    requires v < 64
    ensures Value(Symbol(v)) == Some(v) && Symbol(v) != '='
  {
  }

  lemma SymbolOfValue(c: char)
    requires Value(c).Some?
    ensures Value(c).value < 64 && Symbol(Value(c).value) == c
  {
  }

  // -- Encoding -------------------------------------------------------------------

  // The four symbols of up to three bytes, missing ones zero.
  function Four(a: Byte, b: Byte, c: Byte, count: nat): (four: string)
    requires 1 <= count <= 3
    ensures |four| == 4
  {
    var triple := a * 65536 + b * 256 + c;
    [ Symbol(triple / 262144 % 64),
      Symbol(triple / 4096 % 64),
      if count > 1 then Symbol(triple / 64 % 64) else '=',
      if count > 2 then Symbol(triple % 64) else '=' ]
  }

  function Encode(data: seq<Byte>): string {
    if data == [] then []
    else if |data| == 1 then Four(data[0], 0, 0, 1)
    else if |data| == 2 then Four(data[0], data[1], 0, 2)
    else Four(data[0], data[1], data[2], 3) + Encode(data[3..])
  }

  lemma {:induction false} EncodeLength(data: seq<Byte>)
    ensures |Encode(data)| == (|data| + 2) / 3 * 4
  {
    hide Four;
    if data != [] {
      hide Encode;
      var rest := if |data| < 3 then [] else data[3..];
      EncodeStep(data);
      if |data| <= 3 {
        EncodeNothing();
        assert rest == [];
      } else {
        EncodeLength(rest);
      }
    } else {
      EncodeNothing();
    }
  }

  // What is left to encode.
  function From(data: seq<Byte>, index: nat): seq<Byte> {
    if index < |data| then data[index..] else []
  }

  // base64: the loop of the worker.
  method Base64(data: seq<Byte>) returns (out: string)
    ensures out == Encode(data)
  {
    hide Encode, From, Symbol;
    out := "";
    FromStart(data);
    var index: nat := 0;
    while index < |data|
      invariant out + Encode(From(data, index)) == Encode(data)
    {
      var a: Byte := data[index];
      var b: Byte := if index + 1 < |data| then data[index + 1] else 0;
      var c: Byte := if index + 2 < |data| then data[index + 2] else 0;
      var triple := a * 65536 + b * 256 + c;
      ghost var before := out;
      out := out + [Symbol(triple / 262144 % 64)];
      out := out + [Symbol(triple / 4096 % 64)];
      out := out + [if index + 1 < |data| then Symbol(triple / 64 % 64) else '='];
      out := out + [if index + 2 < |data| then Symbol(triple % 64) else '='];
      FromNext(data, index);
      ghost var four := Four(a, b, c, if |data| - index < 3 then |data| - index else 3);
      assert out == before + four;
      assert before + (four + Encode(From(data, index + 3))) == out + Encode(From(data, index + 3));
      index := index + 3;
    }
    FromEnd(data, index);
    assert out + [] == out;
  }

  lemma FromStart(data: seq<Byte>)
    ensures "" + Encode(From(data, 0)) == Encode(data)
  {
    assert From(data, 0) == data;
  }

  lemma FromEnd(data: seq<Byte>, index: nat)
    requires index >= |data|
    ensures Encode(From(data, index)) == []
  {
  }

  lemma FromNext(data: seq<Byte>, index: nat)
    requires index < |data|
    ensures
      var b: Byte := if index + 1 < |data| then data[index + 1] else 0;
      var c: Byte := if index + 2 < |data| then data[index + 2] else 0;
      Encode(From(data, index)) == Four(data[index], b, c,
        if |data| - index < 3 then |data| - index else 3) + Encode(From(data, index + 3))
  {
    hide Encode, Four;
    EncodeStep(data[index..]);
    if index + 3 < |data| {
      assert data[index..][3..] == data[index + 3..];
    } else if index + 3 == |data| {
      assert data[index..][3..] == [];
    }
  }

  lemma EncodeStep(rest: seq<Byte>)
    requires rest != []
    ensures
      var b: Byte := if |rest| > 1 then rest[1] else 0;
      var c: Byte := if |rest| > 2 then rest[2] else 0;
      var four := Four(rest[0], b, c, if |rest| < 3 then |rest| else 3);
      Encode(rest) == four + Encode(if |rest| < 3 then [] else rest[3..])
  {
    hide Four;
  }

  // -- Decoding ----------------------------------------------------------------

  // A group without padding.
  function Full(g: string): Option<seq<Byte>>
    requires |g| == 4
  {
    var d0, d1, d2, d3 := Value(g[0]), Value(g[1]), Value(g[2]), Value(g[3]);
    if d0.None? || d1.None? || d2.None? || d3.None? then None
    else Some(Bytes(d0.value, d1.value, d2.value, d3.value))
  }

  function Bytes(d0: nat, d1: nat, d2: nat, d3: nat): seq<Byte> {
    [(d0 * 4 + d1 / 16) % 256, (d1 % 16 * 16 + d2 / 4) % 256, (d2 % 4 * 64 + d3) % 256]
  }

  // The last group. What its padding bits are does not matter.
  function LastGroup(g: string): Option<seq<Byte>>
    requires |g| == 4
  {
    if g[3] != '=' then Full(g)
    else
      var d0, d1 := Value(g[0]), Value(g[1]);
      if d0.None? || d1.None? then None
      else if g[2] == '=' then
        Some(Bytes(d0.value, d1.value, 0, 0)[..1])
      else
        var d2 := Value(g[2]);
        if d2.Some? then Some(Bytes(d0.value, d1.value, d2.value, 0)[..2]) else None
  }

  function Decode(s: string): Option<seq<Byte>> {
    if s == [] then Some([])
    else if |s| < 4 then None
    else if |s| == 4 then LastGroup(s)
    else
      var head, rest := Full(s[..4]), Decode(s[4..]);
      if head.None? || rest.None? then None else Some(head.value + rest.value)
  }

  lemma FourDecodes(a: Byte, b: Byte, c: Byte, count: nat)
    requires 1 <= count <= 3 && (count < 2 ==> b == 0) && (count < 3 ==> c == 0)
    ensures LastGroup(Four(a, b, c, count)) == Some([a, b, c][..count])
    ensures count == 3 ==> Full(Four(a, b, c, count)) == Some([a, b, c])
  {
    hide Symbol, Value, Bytes;
    var d0, d1, d2, d3 := a / 4, a % 4 * 16 + b / 16, b % 16 * 4 + c / 64, c % 64;
    Digits(a, b, c);
    ValueOfSymbol(d0);
    ValueOfSymbol(d1);
    ValueOfSymbol(d2);
    ValueOfSymbol(d3);
    BytesBack(a, b, c);
    assert [a, b, c][..1] == [a] && [a, b, c][..2] == [a, b] && [a, b, c][..3] == [a, b, c];
  }

  // The four digits of a triple.
  lemma Digits(a: Byte, b: Byte, c: Byte)
    ensures
      var triple := a * 65536 + b * 256 + c;
      && triple / 262144 % 64 == a / 4
      && triple / 4096 % 64 == a % 4 * 16 + b / 16
      && triple / 64 % 64 == b % 16 * 4 + c / 64
      && triple % 64 == c % 64
  {
    var d0, d1, d2, d3 := a / 4, a % 4 * 16 + b / 16, b % 16 * 4 + c / 64, c % 64;
    assert a == d0 * 4 + a % 4 && b == b / 16 * 16 + b % 16 && c == c / 64 * 64 + d3;
    assert a * 65536 + b * 256 + c == ((d0 * 64 + d1) * 64 + d2) * 64 + d3;
    Base64Digits(d0, d1, d2, d3);
  }

  lemma Base64Digits(d0: nat, d1: nat, d2: nat, d3: nat)
    requires d0 < 64 && d1 < 64 && d2 < 64 && d3 < 64
    ensures
      var triple := ((d0 * 64 + d1) * 64 + d2) * 64 + d3;
      triple / 262144 % 64 == d0 && triple / 4096 % 64 == d1 && triple / 64 % 64 == d2 && triple % 64 == d3
  {
    var triple := ((d0 * 64 + d1) * 64 + d2) * 64 + d3;
    assert triple / 64 == (d0 * 64 + d1) * 64 + d2;
    assert triple / 4096 == d0 * 64 + d1;
    assert triple / 262144 == d0;
  }

  lemma BytesBack(a: Byte, b: Byte, c: Byte)
    ensures Bytes(a / 4, a % 4 * 16 + b / 16, b % 16 * 4 + c / 64, c % 64) == [a, b, c]
    ensures b == 0 ==> (a % 4 * 16 + b / 16) % 16 == 0 && Bytes(a / 4, a % 4 * 16 + b / 16, 0, 0)[..1] == [a]
    ensures c == 0 ==> (b % 16 * 4 + c / 64) % 4 == 0
    ensures c == 0 ==> Bytes(a / 4, a % 4 * 16 + b / 16, b % 16 * 4 + c / 64, 0)[..2] == [a, b]
  {
    Middle(a, b);
    Middle2(b, c);
  }

  lemma Middle(a: Byte, b: Byte)
    ensures (a % 4 * 16 + b / 16) / 16 == a % 4 && (a % 4 * 16 + b / 16) % 16 == b / 16
  {
  }

  lemma Middle2(b: Byte, c: Byte)
    ensures (b % 16 * 4 + c / 64) / 4 == b % 16 && (b % 16 * 4 + c / 64) % 4 == c / 64
  {
  }

  lemma DecodeJoined(four: string, tail: string)
    requires |four| == 4 && |tail| >= 4
    ensures Decode(four + tail) ==
      if Full(four).None? || Decode(tail).None? then None else Some(Full(four).value + Decode(tail).value)
  {
    hide Full, LastGroup;
    assert (four + tail)[..4] == four && (four + tail)[4..] == tail;
  }

  lemma DecodeOne(four: string)
    requires |four| == 4
    ensures Decode(four) == LastGroup(four)
  {
    hide Full, LastGroup;
  }

  // Decoding gives every byte string back.
  lemma {:induction false} DecodeUndoesEncode(data: seq<Byte>)
    ensures Decode(Encode(data)) == Some(data)
  {
    hide Four, LastGroup, Full;
    if data != [] {
      hide Decode, Encode;
      var b: Byte := if |data| > 1 then data[1] else 0;
      var c: Byte := if |data| > 2 then data[2] else 0;
      var count := if |data| < 3 then |data| else 3;
      var four, rest := Four(data[0], b, c, count), if |data| < 3 then [] else data[3..];
      FourDecodes(data[0], b, c, count);
      EncodeStep(data);
      assert data == [data[0], b, c][..count] + rest;
      if |data| <= 3 {
        FromEnd([], 0);
        assert rest == [] && From([], 0) == [];
        assert four + [] == four && [data[0], b, c][..count] + [] == [data[0], b, c][..count];
        DecodeOne(four);
      } else {
        DecodeUndoesEncode(rest);
        EncodeLength(rest);
        DecodeJoined(four, Encode(rest));
        assert [data[0], b, c][..3] == [data[0], b, c];
      }
    }
  }

  // -- What a decoder accepts ----------------------------------------------------------

  // Padding only where the last group is not full, over bits that are zero: what
  // section 3.5 of RFC 4648 asks of an encoder and lets a decoder insist on.
  predicate ZeroBits(s: string) {
    |s| >= 4 && s[|s| - 1] == '=' ==>
      if s[|s| - 2] == '=' then Value(s[|s| - 3]).Some? && Value(s[|s| - 3]).value % 16 == 0
      else Value(s[|s| - 2]).Some? && Value(s[|s| - 2]).value % 4 == 0
  }

  // Conversely, a string that decodes is the encoding of what it yields exactly
  // when its padding bits are zero.
  lemma {:induction false} EncodeUndoesDecode(s: string)
    requires Decode(s).Some?
    ensures Encode(Decode(s).value) == s <==> ZeroBits(s)
    decreases |s|
  {
    hide Full, LastGroup, Encode, Value;
    if s == [] {
      FromEnd([], 0);
      assert From([], 0) == [];
    } else if |s| == 4 {
      LastEncodes(s);
    } else {
      EncodeUndoesDecode(s[4..]);
      FullEncodes(s[..4]);
      TailBits(s);
      var head, rest := Full(s[..4]).value, Decode(s[4..]).value;
      EncodeStep(head + rest);
      assert (head + rest)[3..] == rest;
      assert s == s[..4] + s[4..];
      assert Encode(head + rest) == s[..4] + Encode(rest);
      assert (s[..4] + Encode(rest))[4..] == Encode(rest);
    }
  }

  lemma TailBits(s: string)
    requires |s| > 4 && Decode(s).Some?
    ensures Decode(s[4..]).Some? && |s| >= 8
    ensures ZeroBits(s) <==> ZeroBits(s[4..])
  {
    hide Full, LastGroup, Value;
    var t := s[4..];
    assert t[|t| - 1] == s[|s| - 1] && t[|t| - 2] == s[|s| - 2] && t[|t| - 3] == s[|s| - 3];
  }

  // Such a string: it decodes to one byte, whose encoding is another.
  lemma NonzeroBits()
    ensures Decode("QR==") == Some([65]) && Encode([65]) == "QQ==" && !ZeroBits("QR==")
  {
    DecodeOne("QR==");
    assert Value('Q') == Some(16) && Value('R') == Some(17);
    assert Bytes(16, 17, 0, 0)[..1] == [65];
    EncodeStep([65]);
    EncodeNothing();
    Digits(65, 0, 0);
    assert Symbol(16) == 'Q';
  }

  // So the worker's text passes a decoder that insists on zero bits, too.
  lemma EncodingHasZeroBits(data: seq<Byte>)
    ensures ZeroBits(Encode(data))
  {
    hide Encode, Decode, ZeroBits;
    DecodeUndoesEncode(data);
    EncodeUndoesDecode(Encode(data));
  }

  lemma FullEncodes(g: string)
    requires |g| == 4 && Full(g).Some?
    ensures |Full(g).value| == 3
    ensures var v := Full(g).value; Four(v[0], v[1], v[2], 3) == g
  {
    hide Symbol, Value;
    var d0, d1, d2, d3 := Value(g[0]).value, Value(g[1]).value, Value(g[2]).value, Value(g[3]).value;
    SymbolOfValue(g[0]);
    SymbolOfValue(g[1]);
    SymbolOfValue(g[2]);
    SymbolOfValue(g[3]);
    TripleBack(d0, d1, d2, d3);
  }

  lemma TripleBack(d0: nat, d1: nat, d2: nat, d3: nat)
    requires d0 < 64 && d1 < 64 && d2 < 64 && d3 < 64
    ensures
      var v := Bytes(d0, d1, d2, d3);
      var a: nat, b: nat, c: nat := v[0], v[1], v[2];
      var triple := a * 65536 + b * 256 + c;
      triple / 262144 % 64 == d0 && triple / 4096 % 64 == d1 && triple / 64 % 64 == d2 && triple % 64 == d3
  {
    var v := Bytes(d0, d1, d2, d3);
    var q1, r1, q2, r2 := d1 / 16, d1 % 16, d2 / 4, d2 % 4;
    BytesAre(d0, d1, d2, d3);
    hide Bytes;
    var a: nat, b: nat, c: nat := v[0], v[1], v[2];
    Joined(d0, q1, r1, q2, r2, d3);
    Base64Digits(d0, d1, d2, d3);
  }

  lemma BytesAre(d0: nat, d1: nat, d2: nat, d3: nat)
    requires d0 < 64 && d1 < 64 && d2 < 64 && d3 < 64
    ensures |Bytes(d0, d1, d2, d3)| == 3
    ensures
      var v := Bytes(d0, d1, d2, d3);
      v[0] == d0 * 4 + d1 / 16 && v[1] == d1 % 16 * 16 + d2 / 4 && v[2] == d2 % 4 * 64 + d3
  {
  }

  lemma Joined(d0: nat, q1: nat, r1: nat, q2: nat, r2: nat, d3: nat)
    ensures (d0 * 4 + q1) * 65536 + (r1 * 16 + q2) * 256 + (r2 * 64 + d3)
      == ((d0 * 64 + (q1 * 16 + r1)) * 64 + (q2 * 4 + r2)) * 64 + d3
  {
  }

  lemma LastEncodes(g: string)
    requires |g| == 4 && LastGroup(g).Some?
    ensures Encode(LastGroup(g).value) == g <==> ZeroBits(g)
  {
    if ZeroBits(g) {
      LastEncodesZero(g);
    } else {
      LastEncodesOther(g);
    }
  }

  // Bits that are not zero are lost.
  lemma LastEncodesOther(g: string)
    requires |g| == 4 && LastGroup(g).Some? && !ZeroBits(g)
    ensures Encode(LastGroup(g).value) != g
  {
    hide Symbol, Value, Encode, Bytes;
    SymbolOfValue(g[0]);
    SymbolOfValue(g[1]);
    var d0, d1 := Value(g[0]).value, Value(g[1]).value;
    if g[2] == '=' {
      BytesAre(d0, d1, 0, 0);
      assert Bytes(d0, d1, 0, 0)[..1] == [Bytes(d0, d1, 0, 0)[0]];
      SecondSymbol(Bytes(d0, d1, 0, 0)[0]);
      ValueOfSymbol(Bytes(d0, d1, 0, 0)[0] % 4 * 16);
    } else {
      SymbolOfValue(g[2]);
      var v := Bytes(d0, d1, Value(g[2]).value, 0);
      BytesAre(d0, d1, Value(g[2]).value, 0);
      assert v[..2] == [v[0], v[1]];
      ThirdSymbol(v[0], v[1]);
      ValueOfSymbol(v[1] % 16 * 4);
    }
  }

  lemma SecondSymbol(a: Byte)
    ensures |Encode([a])| == 4 && Encode([a])[1] == Symbol(a % 4 * 16)
  {
    hide Symbol;
    EncodeStep([a]);
    EncodeNothing();
    Digits(a, 0, 0);
  }

  lemma ThirdSymbol(a: Byte, b: Byte)
    ensures |Encode([a, b])| == 4 && Encode([a, b])[2] == Symbol(b % 16 * 4)
  {
    hide Symbol;
    EncodeStep([a, b]);
    EncodeNothing();
    Digits(a, b, 0);
  }

  lemma LastEncodesZero(g: string)
    requires |g| == 4 && LastGroup(g).Some? && ZeroBits(g)
    ensures Encode(LastGroup(g).value) == g
  {
    hide Symbol, Value, Encode, Bytes;
    var data := LastGroup(g).value;
    if g[3] != '=' {
      FullEncodes(g);
      EncodeStep(data);
      EncodeNothing();
      assert data[3..] == [] && g + [] == g;
    } else {
      var d0, d1 := Value(g[0]).value, Value(g[1]).value;
      SymbolOfValue(g[0]);
      SymbolOfValue(g[1]);
      if g[2] == '=' {
        TripleBack(d0, d1, 0, 0);
        PaddedBytes(d0, d1, 0);
        EncodeStep(data);
        EncodeNothing();
        assert g == Four(data[0], 0, 0, 1) && g + [] == g;
      } else {
        var d2 := Value(g[2]).value;
        SymbolOfValue(g[2]);
        TripleBack(d0, d1, d2, 0);
        PaddedBytes(d0, d1, d2);
        EncodeStep(data);
        EncodeNothing();
        assert g == Four(data[0], data[1], 0, 2) && g + [] == g;
      }
    }
  }

  lemma EncodeNothing()
    ensures Encode([]) == []
  {
  }

  // Zero padding bits make the missing bytes zero.
  lemma PaddedBytes(d0: nat, d1: nat, d2: nat)
    requires d0 < 64 && d1 < 64 && d2 < 64 && d2 % 4 == 0
    ensures Bytes(d0, d1, d2, 0)[2] == 0
    ensures d2 == 0 && d1 % 16 == 0 ==> Bytes(d0, d1, d2, 0)[1] == 0
    ensures |Bytes(d0, d1, d2, 0)| == 3
  {
  }

  // -- Vectors -----------------------------------------------------------------------------

  const MAX_VECTOR_ROWS: nat := 64

  // The shape vector_json declares, and the one the vectors command writes over
  // it for every matrix.
  function Shape(rows: nat, width: nat, matrix: bool): (shape: seq<nat>) {
    if rows == 1 && !matrix then [width] else [rows, width]
  }

  function Product(shape: seq<nat>): nat {
    if shape == [] then 1 else Product(shape[..|shape| - 1]) * shape[|shape| - 1]
  }

  // _bounded_shape
  predicate Bounded(shape: seq<nat>) {
    && 1 <= |shape| <= 2 && (forall i :: 0 <= i < |shape| ==> shape[i] >= 1)
    && (if |shape| == 2 then shape[0] else 1) <= MAX_VECTOR_ROWS
  }

  function ByteAt(data: seq<Byte>, k: nat): Byte {
    if k < |data| then data[k] else 0
  }

  lemma FirstSextets(data: seq<Byte>)
    requires data != []
    ensures
      var a, b, c, text := ByteAt(data, 0), ByteAt(data, 1), ByteAt(data, 2), Encode(data);
      && 4 <= |text| && text[0] == Symbol(a / 4) && text[1] == Symbol(a % 4 * 16 + b / 16)
      && text[2] == (if 1 < |data| then Symbol(b % 16 * 4 + c / 64) else '=')
      && text[3] == (if 2 < |data| then Symbol(c % 64) else '=')
  {
    hide Symbol;
    Digits(ByteAt(data, 0), ByteAt(data, 1), ByteAt(data, 2));
  }

  // Each three bytes, the last group filled up with zeros, are 24 bits from the most
  // significant on, and their four sixes of bits index the alphabet; '=' stands for
  // the sixes that no byte reaches.
  lemma {:induction false} EncodesSextets(data: seq<Byte>, g: nat)
    requires g * 3 < |data|
    ensures
      var a, b, c := ByteAt(data, g * 3), ByteAt(data, g * 3 + 1), ByteAt(data, g * 3 + 2);
      var text := Encode(data);
      && g * 4 + 4 <= |text|
      && text[g * 4] == Symbol(a / 4) && text[g * 4 + 1] == Symbol(a % 4 * 16 + b / 16)
      && text[g * 4 + 2] == (if g * 3 + 1 < |data| then Symbol(b % 16 * 4 + c / 64) else '=')
      && text[g * 4 + 3] == (if g * 3 + 2 < |data| then Symbol(c % 64) else '=')
    decreases g
  {
    hide Symbol;
    if 0 < g {
      EncodesSextets(data[3..], g - 1);
      hide Four;
      assert Encode(data)[4..] == Encode(data[3..]);
      forall k: nat
        ensures ByteAt(data[3..], k) == ByteAt(data, k + 3)
      {
      }
    } else {
      FirstSextets(data);
    }
  }

  datatype VectorError = NotBase64 | LengthDiffers | Nonfinite

  // No little-endian single among these bytes is an infinity or not a number: their
  // exponent, seven bits of the last byte and one of the third, is all ones.
  predicate Finite(data: seq<Byte>) {
    forall i :: 0 <= i < |data| / 4 ==> FiniteAt(data, i)
  }

  predicate FiniteAt(data: seq<Byte>, i: nat)
    requires i < |data| / 4
  {
    !(data[i * 4 + 3] % 128 == 127 && data[i * 4 + 2] >= 128)
  }

  // The exponent field of the i-th little-endian single: eight bits above the 23 of
  // its fraction.
  function Exponent(data: seq<Byte>, i: nat): nat
    requires i < |data| / 4
  {
    ExponentOf(data[i * 4], data[i * 4 + 1], data[i * 4 + 2], data[i * 4 + 3])
  }

  function ExponentOf(b0: nat, b1: nat, b2: nat, b3: nat): nat {
    (b0 + 256 * b1 + 65536 * b2 + 16777216 * b3) / 8388608 % 256
  }

  lemma FiniteIs(data: seq<Byte>)
    ensures Finite(data) <==> forall i :: 0 <= i < |data| / 4 ==> Exponent(data, i) != 255
  {
    hide Exponent, FiniteAt;
    forall i | 0 <= i < |data| / 4
      ensures Exponent(data, i) != 255 <==> FiniteAt(data, i)
    {
      FiniteIsAt(data, i);
    }
  }

  lemma FiniteIsAt(data: seq<Byte>, i: nat)
    requires i < |data| / 4
    ensures Exponent(data, i) != 255 <==> FiniteAt(data, i)
  {
    hide ExponentOf;
    ExponentIs(data[i * 4], data[i * 4 + 1], data[i * 4 + 2], data[i * 4 + 3]);
  }

  lemma ExponentIs(b0: nat, b1: nat, b2: nat, b3: nat)
    requires b0 < 256 && b1 < 256 && b2 < 256 && b3 < 256
    ensures ExponentOf(b0, b1, b2, b3) == b3 % 128 * 2 + b2 / 128
  {
    var low := b0 + 256 * b1 + 65536 * (b2 % 128);
    assert b2 == b2 / 128 * 128 + b2 % 128 && b3 == b3 / 128 * 128 + b3 % 128;
    var top := b3 / 128 * 256 + (b3 % 128 * 2 + b2 / 128);
    assert b0 + 256 * b1 + 65536 * b2 + 16777216 * b3 == low + 8388608 * top;
    assert (low + 8388608 * top) / 8388608 == top;
  }

  // _decode_f32, but that the floats stay bytes: the loop over the shape, the length
  // check and the check that all are finite.
  method DecodeF32(shape: seq<nat>, encoded: string) returns (r: Result<seq<Byte>, VectorError>)
    ensures r ==
      if Decode(encoded).None? then Err(NotBase64)
      else if |Decode(encoded).value| != Product(shape) * 4 then Err(LengthDiffers)
      else if !Finite(Decode(encoded).value) then Err(Nonfinite)
      else Ok(Decode(encoded).value)
    ensures r.Ok? ==> forall i :: 0 <= i < |r.value| / 4 ==> Exponent(r.value, i) != 255
    ensures r == Err(Nonfinite) ==> Decode(encoded).Some? && |Decode(encoded).value| == Product(shape) * 4
    ensures r == Err(Nonfinite) ==> exists i ::
      0 <= i < |Decode(encoded).value| / 4 && Exponent(Decode(encoded).value, i) == 255
  {
    var raw := Decode(encoded);
    if raw.None? {
      return Err(NotBase64);
    }
    var count := 1;
    for i := 0 to |shape|
      invariant count == Product(shape[..i])
    {
      assert shape[..i + 1][..i] == shape[..i];
      count := count * shape[i];
    }
    assert shape[..|shape|] == shape;
    if |raw.value| != count * 4 {
      return Err(LengthDiffers);
    }
    FiniteIs(raw.value);
    if !Finite(raw.value) {
      return Err(Nonfinite);
    }
    return Ok(raw.value);
  }

  // vector_json throws on a number that is not finite.
  function Exported(data: seq<Byte>): Option<string> {
    if Finite(data) then Some(Encode(data)) else None
  }

  // Every exported vector passes, and none that is not finite is exported: its shape
  // is within bounds, its text decodes to its bytes, four for each number of the
  // shape, all finite, and is padded to whole groups.
  lemma ExportDecodes(data: seq<Byte>, rows: nat, width: nat, matrix: bool)
    requires 1 <= rows <= MAX_VECTOR_ROWS && 1 <= width && |data| == rows * width * 4
    requires Exported(data).Some?
    ensures Bounded(Shape(rows, width, matrix)) && Finite(data)
    ensures forall i :: 0 <= i < |data| / 4 ==> Exponent(data, i) != 255
    ensures Decode(Exported(data).value) == Some(data) && |data| == Product(Shape(rows, width, matrix)) * 4
    ensures |Exported(data).value| == (|data| + 2) / 3 * 4
  {
    hide Encode, Decode;
    DecodeUndoesEncode(data);
    EncodeLength(data);
    FiniteIs(data);
    var shape := Shape(rows, width, matrix);
    if |shape| == 2 {
      assert shape[..1] == [rows] && [rows][..0] == [];
      assert Product([rows]) == 1 * rows;
    } else {
      assert shape[..0] == [];
    }
  }
}
