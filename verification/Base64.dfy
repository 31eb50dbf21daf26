/**
 * Unpadded standard base64 (section 4 of RFC 4648, padding omitted as section 3.2 allows),
 * with the decoder's leniency: line breaks are skipped and left-over bits are ignored.
 */
module Base64 {
  import opened Basics

  type Byte = x: nat | x < 256

  type Sextet = x: nat | x < 64

  function Symbol(v: Sextet): (c: char) {
    if v < 26 then ('A' as int + v) as char
    else if v < 52 then ('a' as int + v - 26) as char
    else if v < 62 then ('0' as int + v - 52) as char
    else if v == 62 then '+' else '/'
  }

  function Lookup(c: char): (v: Option<Sextet>) {
    if 'A' <= c <= 'Z' then Some(c as int - 'A' as int)
    else if 'a' <= c <= 'z' then Some(c as int - 'a' as int + 26)
    else if '0' <= c <= '9' then Some(c as int - '0' as int + 52)
    else if c == '+' then Some(62)
    else if c == '/' then Some(63)
    else None
  }

  /** The table of section 4 of RFC 4648: A to Z, a to z, 0 to 9, plus and slash, in this order. */
  lemma SymbolTable(v: Sextet)
    ensures Symbol(0) == 'A' && Symbol(25) == 'Z' && Symbol(26) == 'a' && Symbol(51) == 'z'
    ensures Symbol(52) == '0' && Symbol(61) == '9' && Symbol(62) == '+' && Symbol(63) == '/'
    ensures v < 61 && v != 25 && v != 51 ==> Symbol(v + 1) as int == Symbol(v) as int + 1
  {
  }

  lemma SymbolLookup(v: Sextet)
    ensures Lookup(Symbol(v)) == Some(v)
  {
  }

  lemma LookupSymbol(c: char)
    requires Lookup(c).Some?
    ensures Symbol(Lookup(c).value) == c
  {
  }

  /** Three bytes as four sextets; missing bytes count as zero. */
  function First(a: Byte): (v: Sextet) { a / 4 }
  function Second(a: Byte, b: Byte): (v: Sextet) { a % 4 * 16 + b / 16 }
  function Third(b: Byte, c: Byte): (v: Sextet) { b % 16 * 4 + c / 64 }
  function Fourth(c: Byte): (v: Sextet) { c % 64 }

  function Encode(bytes: seq<Byte>): (text: string) {
    if |bytes| == 0 then ""
    else if |bytes| == 1 then [Symbol(First(bytes[0])), Symbol(Second(bytes[0], 0))]
    else if |bytes| == 2 then
      [Symbol(First(bytes[0])), Symbol(Second(bytes[0], bytes[1])), Symbol(Third(bytes[1], 0))]
    else
      [Symbol(First(bytes[0])), Symbol(Second(bytes[0], bytes[1])), Symbol(Third(bytes[1], bytes[2])),
       Symbol(Fourth(bytes[2]))]
      + Encode(bytes[3..])
  }

  /** The four sextets are the 24 bits of the group, highest first. */
  lemma SameBits(a: Byte, b: Byte, c: Byte)
    ensures First(a) * 0x40000 + Second(a, b) * 0x1000 + Third(b, c) * 0x40 + Fourth(c) == a * 0x10000 + b * 0x100 + c
  {
  }

  /** The test vectors of section 10 of RFC 4648 for one, two and six bytes, without their padding. */
  lemma TestVectors()
    ensures Encode([102]) == "Zg" && Encode([102, 111]) == "Zm8"
    ensures Encode([102, 111, 111, 98, 97, 114]) == "Zm9vYmFy"
  {
    assert [102, 111, 111, 98, 97, 114][3..] == [98, 97, 114];
    assert [98, 97, 114][3..] == [];
    assert Encode([98, 97, 114]) == "YmFy";
  }

  function ByteA(u: Sextet, v: Sextet): (b: Byte) { u * 4 + v / 16 }
  function ByteB(v: Sextet, w: Sextet): (b: Byte) { v % 16 * 16 + w / 4 }
  function ByteC(w: Sextet, x: Sextet): (b: Byte) { w % 4 * 64 + x }

  predicate IsBreak(c: char) {
    c == '\r' || c == '\n'
  }

  function DropBreaks(text: string): (clean: string) {
    if |text| == 0 then ""
    else (if IsBreak(text[0]) then [] else [text[0]]) + DropBreaks(text[1..])
  }

  function Sextets(text: string): (values: Option<seq<Sextet>>)
    ensures values.Some? ==> |values.value| == |text|
  {
    if |text| == 0 then Some([])
    else
      var head, tail := Lookup(text[0]), Sextets(text[1..]);
      if head.None? || tail.None? then None else Some([head.value] + tail.value)
  }

  lemma {:induction false} SextetsAre(text: string)
    ensures Sextets(text).Some? <==> forall i :: 0 <= i < |text| ==> Lookup(text[i]).Some?
    ensures Sextets(text).Some? ==> forall i :: 0 <= i < |text| ==> Lookup(text[i]) == Some(Sextets(text).value[i])
  {
    hide Lookup;
    if |text| > 0 {
      SextetsAre(text[1..]);
    }
  }

  function Bytes(values: seq<Sextet>): (bytes: Option<seq<Byte>>) {
    if |values| == 0 then Some([])
    else if |values| == 1 then None
    else if |values| == 2 then Some([ByteA(values[0], values[1])])
    else if |values| == 3 then Some([ByteA(values[0], values[1]), ByteB(values[1], values[2])])
    else
      var rest := Bytes(values[4..]);
      if rest.None? then None
      else Some([ByteA(values[0], values[1]), ByteB(values[1], values[2]), ByteC(values[2], values[3])] + rest.value)
  }

  function Decode(text: string): (bytes: Option<seq<Byte>>) {
    var values := Sextets(DropBreaks(text));
    if values.None? then None else Bytes(values.value)
  }

  /** No line breaks, only alphabet symbols, no dangling sextet, and no stray bits at the end. */
  predicate Canonical(text: string) {
    && (forall i :: 0 <= i < |text| ==> Lookup(text[i]).Some?)
    && match |text| % 4
       case 0 => true
       case 1 => false
       case 2 => Lookup(text[|text| - 1]).value % 16 == 0
       case _ => Lookup(text[|text| - 1]).value % 4 == 0
  }

  lemma {:induction false} CleanStays(text: string)
    requires forall i :: 0 <= i < |text| ==> !IsBreak(text[i])
    ensures DropBreaks(text) == text
  {
    if |text| > 0 {
      CleanStays(text[1..]);
    }
  }

  /** A line break anywhere makes no difference. */
  lemma {:induction false} BreaksAreIgnored(a: string, c: char, b: string)
    requires c == '\r' || c == '\n'
    ensures DropBreaks(a + ([c] + b)) == DropBreaks(a + b)
    ensures Decode(a + ([c] + b)) == Decode(a + b)
  {
    var long, short := a + ([c] + b), a + b;
    if a == "" {
      assert long[0] == c && long[1..] == b && short == b;
    } else {
      BreaksAreIgnored(a[1..], c, b);
      assert long[0] == a[0] == short[0] && long[1..] == a[1..] + ([c] + b) && short[1..] == a[1..] + b;
    }
  }

  lemma {:induction false} BytesIff(values: seq<Sextet>)
    ensures Bytes(values).Some? <==> |values| % 4 != 1
  {
    if |values| > 3 {
      BytesIff(values[4..]);
    }
  }

  /** A text without line breaks decodes exactly when it has alphabet symbols only and none is left dangling; what
      the bits left over in its last symbol are makes no difference to that. */
  lemma DecodesIff(text: string)
    requires '\r' !in text && '\n' !in text
    ensures Decode(text).Some? <==> (forall i :: 0 <= i < |text| ==> Lookup(text[i]).Some?) && |text| % 4 != 1
  {
    CleanStays(text);
    SextetsAre(text);
    if Sextets(text).Some? {
      BytesIff(Sextets(text).value);
    }
    hide Lookup, Bytes, DropBreaks, Sextets;
  }

  /** Bits left over are dropped. */
  lemma StrayBitsAreDropped(u: Sextet, v: Sextet, w: Sextet)
    ensures v / 16 == w / 16 ==> Bytes([u, v]) == Bytes([u, w])
    ensures v / 4 == w / 4 ==> Bytes([u, u, v]) == Bytes([u, u, w])
  {
  }

  lemma {:induction false} EncodeSymbols(bytes: seq<Byte>)
    ensures forall i :: 0 <= i < |Encode(bytes)| ==> Lookup(Encode(bytes)[i]).Some?
  {
    if |bytes| > 2 {
      EncodeSymbols(bytes[3..]);
    }
  }

  lemma {:induction false} AppendSextets(a: string, b: string)
    requires Sextets(a).Some? && Sextets(b).Some?
    ensures Sextets(a + b) == Some(Sextets(a).value + Sextets(b).value)
  {
    hide Lookup;
    if |a| == 0 {
      assert a + b == b;
      assert Sextets(a).value + Sextets(b).value == Sextets(b).value;
    } else {
      AppendSextets(a[1..], b);
      assert (a + b)[0] == a[0] && (a + b)[1..] == a[1..] + b;
      assert Sextets(a + b).value == Sextets(a).value + Sextets(b).value;
    }
  }

  /** The sextets of symbols written out. */
  lemma {:induction false} WrittenSextets(values: seq<Sextet>)
    ensures Sextets(Written(values)) == Some(values)
  {
    if |values| > 0 {
      SymbolLookup(values[0]);
      hide Lookup, Symbol;
      var text := Written(values);
      WrittenSextets(values[1..]);
      assert text[1..] == Written(values[1..]);
      assert values == [values[0]] + values[1..];
    }
  }

  function Written(values: seq<Sextet>): (text: string)
    ensures |text| == |values| && forall i :: 0 <= i < |values| ==> text[i] == Symbol(values[i])
  {
    seq(|values|, i requires 0 <= i < |values| => Symbol(values[i]))
  }

  /** The four symbols of a full group. */
  function Group(a: Byte, b: Byte, c: Byte): (text: string) {
    [Symbol(First(a)), Symbol(Second(a, b)), Symbol(Third(b, c)), Symbol(Fourth(c))]
  }

  lemma GroupSextets(a: Byte, b: Byte, c: Byte)
    ensures Sextets(Group(a, b, c)) == Some([First(a), Second(a, b), Third(b, c), Fourth(c)])
  {
    var v := [First(a), Second(a, b), Third(b, c), Fourth(c)];
    WrittenSextets(v);
    assert Group(a, b, c) == Written(v);
  }

  lemma BytesOfGroup(values: seq<Sextet>, rest: seq<Sextet>)
    requires |values| == 4 && Bytes(rest).Some?
    ensures Bytes(values + rest)
         == Some([ByteA(values[0], values[1]), ByteB(values[1], values[2]), ByteC(values[2], values[3])]
             + Bytes(rest).value)
  {
    assert (values + rest)[4..] == rest;
  }

  lemma ThreeBytes(a: Byte, b: Byte, c: Byte)
    ensures ByteA(First(a), Second(a, b)) == a
    ensures ByteB(Second(a, b), Third(b, c)) == b
    ensures ByteC(Third(b, c), Fourth(c)) == c
  {
  }

  lemma {:induction false} BytesOfEncoded(bytes: seq<Byte>)
    ensures Sextets(Encode(bytes)).Some? && Bytes(Sextets(Encode(bytes)).value) == Some(bytes)
  {
    if |bytes| < 3 {
      BytesOfTail(bytes);
    } else {
      var a, b, c := bytes[0], bytes[1], bytes[2];
      BytesOfEncoded(bytes[3..]);
      assert Encode(bytes) == Group(a, b, c) + Encode(bytes[3..]);
      GroupSextets(a, b, c);
      AppendSextets(Group(a, b, c), Encode(bytes[3..]));
      BytesOfGroup(Sextets(Group(a, b, c)).value, Sextets(Encode(bytes[3..])).value);
      ThreeBytes(a, b, c);
      assert bytes == [a, b, c] + bytes[3..];
    }
  }

  lemma BytesOfPair(u: Sextet, v: Sextet)
    ensures Bytes([u, v]) == Some([ByteA(u, v)])
  {
  }

  lemma BytesOfTriple(u: Sextet, v: Sextet, w: Sextet)
    ensures Bytes([u, v, w]) == Some([ByteA(u, v), ByteB(v, w)])
  {
  }

  lemma EncodeOne(a: Byte)
    ensures Encode([a]) == Written([First(a), Second(a, 0)])
  {
    hide First, Second, Symbol;
  }

  lemma EncodeTwo(a: Byte, b: Byte)
    ensures Encode([a, b]) == Written([First(a), Second(a, b), Third(b, 0)])
  {
    hide First, Second, Third, Symbol;
  }

  lemma OneByte(a: Byte)
    ensures Sextets(Encode([a])).Some? && Bytes(Sextets(Encode([a])).value) == Some([a])
  {
    EncodeOne(a);
    WrittenSextets([First(a), Second(a, 0)]);
    BytesOfPair(First(a), Second(a, 0));
    ThreeBytes(a, 0, 0);
    hide *;
  }

  lemma TwoBytes(a: Byte, b: Byte)
    ensures Sextets(Encode([a, b])).Some? && Bytes(Sextets(Encode([a, b])).value) == Some([a, b])
  {
    EncodeTwo(a, b);
    WrittenSextets([First(a), Second(a, b), Third(b, 0)]);
    BytesOfTriple(First(a), Second(a, b), Third(b, 0));
    ThreeBytes(a, b, 0);
    hide *;
  }

  lemma NoBytes()
    ensures Sextets(Encode([])).Some? && Bytes(Sextets(Encode([])).value) == Some([])
  {
    assert Encode([]) == "" && Sextets("") == Some([]);
  }

  lemma BytesOfTail(bytes: seq<Byte>)
    requires |bytes| < 3
    ensures Sextets(Encode(bytes)).Some? && Bytes(Sextets(Encode(bytes)).value) == Some(bytes)
  {
    hide *;
    if |bytes| == 0 {
      NoBytes();
      assert bytes == [];
    } else if |bytes| == 1 {
      OneByte(bytes[0]);
      assert bytes == [bytes[0]];
    } else {
      TwoBytes(bytes[0], bytes[1]);
      assert bytes == [bytes[0], bytes[1]];
    }
  }

  /** Decoding what was encoded gives the bytes back. */
  lemma DecodeEncode(bytes: seq<Byte>)
    ensures Decode(Encode(bytes)) == Some(bytes)
  {
    EncodeSymbols(bytes);
    CleanStays(Encode(bytes));
    BytesOfEncoded(bytes);
  }

  lemma FourSextets(u: Sextet, v: Sextet, w: Sextet, x: Sextet)
    ensures First(ByteA(u, v)) == u
    ensures Second(ByteA(u, v), ByteB(v, w)) == v
    ensures Third(ByteB(v, w), ByteC(w, x)) == w
    ensures Fourth(ByteC(w, x)) == x
    ensures v % 16 == 0 ==> Second(ByteA(u, v), 0) == v
    ensures w % 4 == 0 ==> Third(ByteB(v, w), 0) == w
  {
  }

  lemma {:induction false} EncodeOfDecoded(text: string)
    requires Canonical(text)
    ensures Sextets(text).Some? && Bytes(Sextets(text).value).Some?
    ensures Encode(Bytes(Sextets(text).value).value) == text
  {
    if |text| < 4 {
      EncodeOfTail(text);
    } else {
      var head, rest := text[..4], text[4..];
      assert text == head + rest;
      assert |rest| > 0 ==> rest[|rest| - 1] == text[|text| - 1];
      EncodeOfDecoded(rest);
      SextetsAre(head);
      AppendSextets(head, rest);
      var v, w := Sextets(head).value, Sextets(rest).value;
      BytesOfGroup(v, w);
      var a, b, c := ByteA(v[0], v[1]), ByteB(v[1], v[2]), ByteC(v[2], v[3]);
      FourSextets(v[0], v[1], v[2], v[3]);
      GroupOf(head, v);
      var bytes := [a, b, c] + Bytes(w).value;
      assert bytes[3..] == Bytes(w).value;
      assert Encode(bytes) == Group(a, b, c) + Encode(bytes[3..]);
    }
  }

  lemma GroupOf(head: string, v: seq<Sextet>)
    requires |head| == 4 && Sextets(head) == Some(v)
    ensures head == [Symbol(v[0]), Symbol(v[1]), Symbol(v[2]), Symbol(v[3])]
  {
    SextetsAre(head);
    LookupSymbol(head[0]);
    LookupSymbol(head[1]);
    LookupSymbol(head[2]);
    LookupSymbol(head[3]);
  }

  lemma EncodeOfPair(u: Sextet, v: Sextet)
    requires v % 16 == 0
    ensures Bytes([u, v]).Some? && Encode(Bytes([u, v]).value) == Written([u, v])
  {
    BytesOfPair(u, v);
    EncodeOne(ByteA(u, v));
    FourSextets(u, v, 0, 0);
    hide *;
  }

  lemma EncodeOfTriple(u: Sextet, v: Sextet, w: Sextet)
    requires w % 4 == 0
    ensures Bytes([u, v, w]).Some? && Encode(Bytes([u, v, w]).value) == Written([u, v, w])
  {
    BytesOfTriple(u, v, w);
    EncodeTwo(ByteA(u, v), ByteB(v, w));
    FourSextets(u, v, w, 0);
    hide *;
  }

  lemma SymbolsAreWritten(text: string)
    requires Sextets(text).Some?
    ensures Written(Sextets(text).value) == text
  {
    SextetsAre(text);
    var v := Sextets(text).value;
    forall i | 0 <= i < |text| ensures Symbol(v[i]) == text[i] {
      LookupSymbol(text[i]);
    }
  }

  lemma EncodeOfNone()
    ensures Bytes([]).Some? && Encode(Bytes([]).value) == Written([])
  {
  }

  /** What a short canonical text decodes to, by its sextets. */
  lemma ShortCanonical(text: string)
    requires Canonical(text) && |text| < 4
    ensures Sextets(text).Some?
    ensures |text| != 1
    ensures |text| == 2 ==> Sextets(text).value[1] % 16 == 0
    ensures |text| == 3 ==> Sextets(text).value[2] % 4 == 0
  {
    SextetsAre(text);
    hide Lookup, Sextets;
  }

  lemma EncodeOfTail(text: string)
    requires Canonical(text) && |text| < 4
    ensures Sextets(text).Some? && Bytes(Sextets(text).value).Some?
    ensures Encode(Bytes(Sextets(text).value).value) == text
  {
    hide *;
    ShortCanonical(text);
    SymbolsAreWritten(text);
    var v := Sextets(text).value;
    if |text| == 0 {
      EncodeOfNone();
      assert v == [];
    } else if |text| == 2 {
      EncodeOfPair(v[0], v[1]);
      assert v == [v[0], v[1]];
    } else {
      EncodeOfTriple(v[0], v[1], v[2]);
      assert v == [v[0], v[1], v[2]];
    }
  }

  lemma WrittenIsCanonical(values: seq<Sextet>)
    requires |values| % 4 != 1
    requires |values| % 4 == 2 ==> values[|values| - 1] % 16 == 0
    requires |values| % 4 == 3 ==> values[|values| - 1] % 4 == 0
    ensures Canonical(Written(values))
  {
    forall i | 0 <= i < |values| ensures Lookup(Written(values)[i]) == Some(values[i]) {
      SymbolLookup(values[i]);
    }
    hide Lookup, Symbol;
  }

  lemma GroupInFront(head: string, rest: string)
    requires |head| == 4 && Canonical(rest)
    requires forall i :: 0 <= i < 4 ==> Lookup(head[i]).Some?
    ensures Canonical(head + rest)
  {
    hide Lookup;
    var text := head + rest;
    forall i | 0 <= i < |text| ensures Lookup(text[i]).Some? {
      assert text[i] == if i < 4 then head[i] else rest[i - 4];
    }
    if |rest| > 0 {
      assert text[|text| - 1] == rest[|rest| - 1];
    }
  }

  lemma LastSextets(a: Byte, b: Byte)
    ensures Second(a, 0) % 16 == 0 && Third(b, 0) % 4 == 0
  {
  }

  lemma ShortIsCanonical(bytes: seq<Byte>)
    requires |bytes| < 3
    ensures Canonical(Encode(bytes))
  {
    hide *;
    if |bytes| == 0 {
      NothingEncoded();
      WrittenIsCanonical([]);
      assert bytes == [];
    } else if |bytes| == 1 {
      var a := bytes[0];
      EncodeOne(a);
      LastSextets(a, 0);
      WrittenIsCanonical([First(a), Second(a, 0)]);
      assert bytes == [a];
    } else {
      var a, b := bytes[0], bytes[1];
      EncodeTwo(a, b);
      LastSextets(a, b);
      WrittenIsCanonical([First(a), Second(a, b), Third(b, 0)]);
      assert bytes == [a, b];
    }
  }

  lemma NothingEncoded()
    ensures Encode([]) == Written([])
  {
  }

  lemma EncodeInGroups(bytes: seq<Byte>)
    requires |bytes| >= 3
    ensures Encode(bytes) == Group(bytes[0], bytes[1], bytes[2]) + Encode(bytes[3..])
  {
    hide Symbol, First, Second, Third, Fourth;
  }

  lemma {:induction false} EncodeIsCanonical(bytes: seq<Byte>)
    ensures Canonical(Encode(bytes))
  {
    if |bytes| < 3 {
      ShortIsCanonical(bytes);
    } else {
      EncodeIsCanonical(bytes[3..]);
      EncodeInGroups(bytes);
      var head := Group(bytes[0], bytes[1], bytes[2]);
      GroupSextets(bytes[0], bytes[1], bytes[2]);
      SextetsAre(head);
      hide *;
      GroupInFront(head, Encode(bytes[3..]));
    }
  }

  /** A text is the encoding of what it decodes to exactly when it is canonical: the decoder also accepts
      texts with line breaks or stray bits, and re-encoding does not give those back. */
  lemma ReencodesIffCanonical(text: string)
    ensures (Decode(text).Some? && Encode(Decode(text).value) == text) <==> Canonical(text)
  {
    if Canonical(text) {
      CleanStays(text);
      EncodeOfDecoded(text);
    } else if Decode(text).Some? {
      EncodeIsCanonical(Decode(text).value);
    }
  }
}
