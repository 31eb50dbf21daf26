/**
 * Password strings in the PHC format: printed by Hash, parsed and checked by Verify. The key derivation
 * is a parameter; it yields nothing when the library refuses its arguments by panicking.
 */
module PasswordHash {
  import opened Base64
  import opened Basics
  import opened Decimal

  const VERSION := 19
  const MEMORY := 65536
  const TIME := 1
  const THREADS := 4
  const KEY_LENGTH := 32

  const MAX_INT64 := 9223372036854775807

  predicate FitsInt64(n: int) {
    -MAX_INT64 - 1 <= n <= MAX_INT64
  }

  /** password, salt, time (32 bits), memory (32 bits), threads (8 bits), key length. */
  type Kdf = (string, seq<Byte>, nat, nat, nat, nat) -> Option<seq<Byte>>

  /** The only law used of the derivation: a key has the length that was asked for. */
  ghost predicate Sized(kdf: Kdf) {
    forall password, salt, time, memory, threads, length ::
      var key := kdf(password, salt, time, memory, threads, length);
      key.Some? ==> |key.value| == length
  }

  datatype Params = Params(memory: int, time: int, threads: int)

  datatype Reason = NotPhc | BadVersion | BadParameters | BadSalt | BadKey

  datatype Parsed = Refused(reason: Reason) | Parsed(params: Params, salt: seq<Byte>, key: seq<Byte>)

  datatype Outcome = Rejected(reason: Reason) | Panicked | Verdict(matches: bool)

  datatype Hashed = Hashed(encoded: string) | NoRandomness | HashPanicked

  // ---- printing ----

  function Print(version: int, params: Params, salt: seq<Byte>, key: seq<Byte>): (encoded: string) {
    "$argon2id$v=" + Format(version)
    + "$" + PrintParams(params)
    + "$" + Encode(salt)
    + "$" + Encode(key)
  }

  function PrintParams(params: Params): (text: string) {
    "m=" + Format(params.memory) + (",t=" + Format(params.time) + (",p=" + Format(params.threads)))
  }

  /** The salt is an input: what the random source returned, or nothing when it failed. */
  function Hash(kdf: Kdf, salt: Option<seq<Byte>>, password: string): (h: Hashed) {
    if salt.None? then NoRandomness
    else
      match kdf(password, salt.value, TIME, MEMORY, THREADS, KEY_LENGTH)
      case None => HashPanicked
      case Some(key) => Hashed(Print(VERSION, Params(MEMORY, TIME, THREADS), salt.value, key))
  }

  // ---- splitting and scanning ----

  function Split(text: string, sep: char): (parts: seq<string>)
    ensures |parts| > 0
  {
    if |text| == 0 then [""]
    else
      var rest := Split(text[1..], sep);
      if text[0] == sep then [""] + rest else [[text[0]] + rest[0]] + rest[1..]
  }

  function ScanLiteral(literal: string, input: string): (rest: Option<string>) {
    if literal <= input then Some(input[|literal|..]) else None
  }

  predicate IsSpace(c: char) {
    || '\t' == c || '\U{000B}' <= c <= '\r' || c == ' ' || c == '\U{0085}' || c == '\U{00A0}' || c == '\U{1680}'
    || '\U{2000}' <= c <= '\U{200A}' || c == '\U{2028}' || c == '\U{2029}' || c == '\U{202F}' || c == '\U{205F}'
    || c == '\U{3000}'
  }

  function SkipSpaces(input: string): (rest: string) {
    if |input| > 0 && IsSpace(input[0]) then SkipSpaces(input[1..]) else input
  }

  function LeadingDigits(input: string): (n: nat)
    ensures n <= |input| && AllDigits(input[..n])
    ensures n < |input| ==> !IsDigit(input[n])
  {
    if |input| > 0 && IsDigit(input[0]) then
      var n := LeadingDigits(input[1..]);
      assert input[1..][..n] == input[1..n + 1];
      n + 1
    else 0
  }

  datatype Number = Number(value: int, rest: string)

  /** At least one digit, and a value of 64 bits. */
  function ScanDigits(negative: bool, input: string): (number: Option<Number>) {
    var n := LeadingDigits(input);
    if n == 0 then None
    else
      var size := Value(input[..n]);
      var value := if negative then 0 - size else size;
      if FitsInt64(value) then Some(Number(value, input[n..])) else None
  }

  /** The %d verb: spaces, an optional sign, then the digits. */
  function ScanInt(input: string): (number: Option<Number>) {
    var text := SkipSpaces(input);
    if |text| > 0 && text[0] in "+-" then ScanDigits(text[0] == '-', text[1..]) else ScanDigits(false, text)
  }

  /** A literal followed by a number. */
  function ScanField(literal: string, input: string): (number: Option<Number>) {
    match ScanLiteral(literal, input)
    case None => None
    case Some(rest) => ScanInt(rest)
  }

  /** What follows the last number is ignored. */
  function ScanParams(input: string): (params: Option<Params>) {
    match ScanField("m=", input)
    case None => None
    case Some(m) =>
      match ScanField(",t=", m.rest)
      case None => None
      case Some(t) =>
        match ScanField(",p=", t.rest)
        case None => None
        case Some(p) => Some(Params(m.value, t.value, p.value))
  }

  function Parse(encoded: string): (p: Parsed) {
    ParseParts(Split(encoded, '$'))
  }

  function ParseParts(parts: seq<string>): (p: Parsed) {
    if |parts| != 6 || parts[1] != "argon2id" then Refused(NotPhc)
    else
      var version := ScanField("v=", parts[2]);
      if version.None? || version.value.value != VERSION then Refused(BadVersion)
      else
        var params := ScanParams(parts[3]);
        if params.None? then Refused(BadParameters)
        else
          var salt := Decode(parts[4]);
          if salt.None? then Refused(BadSalt)
          else
            var key := Decode(parts[5]);
            if key.None? then Refused(BadKey) else Parsed(params.value, salt.value, key.value)
  }

  function Verify(kdf: Kdf, encoded: string, password: string): (o: Outcome) {
    match Parse(encoded)
    case Refused(reason) => Rejected(reason)
    case Parsed(params, salt, want) =>
      match kdf(password, salt, params.time % 0x1_0000_0000, params.memory % 0x1_0000_0000, params.threads % 256,
                |want| % 0x1_0000_0000)
      case None => Panicked
      case Some(got) => Verdict(got == want)
  }

  // ---- the round trip ----

  lemma {:induction false} SplitOnce(part: string, sep: char, rest: string)
    requires sep !in part
    ensures Split(part + ([sep] + rest), sep) == [part] + Split(rest, sep)
  {
    var text := part + ([sep] + rest);
    if |part| == 0 {
      assert text[1..] == rest;
    } else {
      assert text[0] == part[0] && text[1..] == part[1..] + ([sep] + rest);
      SplitOnce(part[1..], sep, rest);
      assert part == [part[0]] + part[1..];
    }
  }

  lemma {:induction false} SplitNone(part: string, sep: char)
    requires sep !in part
    ensures Split(part, sep) == [part]
  {
    if |part| > 0 {
      SplitNone(part[1..], sep);
      assert part == [part[0]] + part[1..];
    }
  }

  lemma SplitSix(a: string, b: string, c: string, d: string, e: string, f: string, sep: char)
    requires sep !in a && sep !in b && sep !in c && sep !in d && sep !in e && sep !in f
    ensures Split(a + ([sep] + (b + ([sep] + (c + ([sep] + (d + ([sep] + (e + ([sep] + f))))))))), sep)
      == [a, b, c, d, e, f]
  {
    hide *;
    SplitNone(f, sep);
    SplitOnce(e, sep, f);
    SplitOnce(d, sep, e + ([sep] + f));
    SplitOnce(c, sep, d + ([sep] + (e + ([sep] + f))));
    SplitOnce(b, sep, c + ([sep] + (d + ([sep] + (e + ([sep] + f))))));
    SplitOnce(a, sep, b + ([sep] + (c + ([sep] + (d + ([sep] + (e + ([sep] + f))))))));
  }

  lemma {:induction false} LeadingDigitsOf(digits: string, rest: string)
    requires AllDigits(digits) && (rest != "" ==> !IsDigit(rest[0]))
    ensures LeadingDigits(digits + rest) == |digits|
  {
    if |digits| == 0 {
      assert digits + rest == rest;
    } else {
      LeadingDigitsOf(digits[1..], rest);
      assert (digits + rest)[1..] == digits[1..] + rest;
    }
  }

  lemma DigitsPrinted(negative: bool, digits: string, rest: string)
    requires digits != "" && AllDigits(digits) && (rest != "" ==> !IsDigit(rest[0]))
    ensures var value := if negative then 0 - Value(digits) else Value(digits);
            (ScanDigits(negative, digits + rest) == if FitsInt64(value) then Some(Number(value, rest)) else None)
  {
    LeadingDigitsOf(digits, rest);
    hide Value, LeadingDigits, FitsInt64, IsDigit;
    assert (digits + rest)[..|digits|] == digits;
    assert (digits + rest)[|digits|..] == rest;
  }

  /** A number starts with neither a space nor a plus sign. */
  lemma ScanIntStart(negative: bool, digits: string, rest: string)
    requires digits != "" && AllDigits(digits)
    ensures ScanInt((if negative then "-" else "") + digits + rest) == ScanDigits(negative, digits + rest)
  {
    var text := (if negative then "-" else "") + digits + rest;
    assert text[0] == if negative then '-' else digits[0];
    hide ScanDigits;
    assert SkipSpaces(text) == text;
    assert (if negative then text[1..] else text) == digits + rest;
  }

  /** Scanning a printed number gives it back, and what follows it, exactly when it fits 64 bits. */
  lemma ScanPrinted(n: int, rest: string)
    requires rest != "" ==> !IsDigit(rest[0])
    ensures ScanInt(Format(n) + rest) == if FitsInt64(n) then Some(Number(n, rest)) else None
  {
    var size := if n < 0 then -n else n;
    var sign := if n < 0 then "-" else "";
    assert Format(n) == sign + Natural(size);
    NaturalRoundTrip(size);
    DigitsPrinted(n < 0, Natural(size), rest);
    ScanIntStart(n < 0, Natural(size), rest);
    hide *;
  }

  /** Spaces before a number and a plus sign make no difference to the scan. */
  lemma {:induction false} SpacesAndPlusAreSkipped(spaces: string, n: nat, rest: string)
    requires forall i :: 0 <= i < |spaces| ==> IsSpace(spaces[i])
    ensures ScanInt(spaces + "+" + (Format(n) + rest)) == ScanInt(Format(n) + rest)
  {
    var text := spaces + "+" + (Format(n) + rest);
    if spaces == "" {
      NaturalRoundTrip(n);
      assert Format(n) == Natural(n) && IsDigit(Natural(n)[0]);
      hide ScanDigits, Format, Natural;
      assert text[0] == '+' && text[1..] == Format(n) + rest && (Format(n) + rest)[0] == Format(n)[0];
      assert SkipSpaces(text) == text && SkipSpaces(Format(n) + rest) == Format(n) + rest;
    } else {
      SpacesAndPlusAreSkipped(spaces[1..], n, rest);
      assert text[0] == spaces[0] && text[1..] == spaces[1..] + "+" + (Format(n) + rest);
      assert SkipSpaces(text) == SkipSpaces(text[1..]);
    }
  }

  lemma FieldPrinted(literal: string, n: int, rest: string)
    requires rest != "" ==> !IsDigit(rest[0])
    ensures ScanField(literal, literal + (Format(n) + rest)) == if FitsInt64(n) then Some(Number(n, rest)) else None
  {
    ScanPrinted(n, rest);
    hide ScanInt, Format;
    assert (literal + (Format(n) + rest))[|literal|..] == Format(n) + rest;
  }

  predicate AllFit(params: Params) {
    FitsInt64(params.memory) && FitsInt64(params.time) && FitsInt64(params.threads)
  }

  lemma ParamsText(params: Params, tail: string)
    ensures PrintParams(params) + tail
         == "m=" + (Format(params.memory) + (",t=" + (Format(params.time) + (",p=" + (Format(params.threads) + tail)))))
  {
    hide Format;
    var m, t, p := Format(params.memory), Format(params.time), Format(params.threads);
    Reassociate(m, t, p, tail);
  }

  lemma Reassociate(m: string, t: string, p: string, tail: string)
    ensures ("m=" + m + (",t=" + t + (",p=" + p))) + tail == "m=" + (m + (",t=" + (t + (",p=" + (p + tail)))))
  {
  }

  lemma ParamsPrinted(params: Params, tail: string)
    requires tail != "" ==> !IsDigit(tail[0])
    ensures ScanParams(PrintParams(params) + tail) == if AllFit(params) then Some(params) else None
  {
    var afterTime := ",p=" + (Format(params.threads) + tail);
    var afterMemory := ",t=" + (Format(params.time) + afterTime);
    assert afterTime[0] == ',' && afterMemory[0] == ',';
    FieldPrinted(",p=", params.threads, tail);
    FieldPrinted(",t=", params.time, afterTime);
    FieldPrinted("m=", params.memory, afterMemory);
    ParamsText(params, tail);
    hide ScanField, Format, FitsInt64, PrintParams;
  }

  lemma NoDollarInNumber(n: int)
    ensures '$' !in Format(n)
  {
    FormatHasNo(n, '$');
  }

  lemma NoDollarInParams(params: Params)
    ensures '$' !in PrintParams(params)
  {
    NoDollarInNumber(params.memory);
    NoDollarInNumber(params.time);
    NoDollarInNumber(params.threads);
    hide Format;
  }

  lemma EncodedIsClean(bytes: seq<Byte>)
    ensures '$' !in Encode(bytes)
  {
    EncodeSymbols(bytes);
  }

  /** Like Print, with extra text behind the version number and behind the parameters. */
  function Padded(version: int, params: Params, salt: seq<Byte>, key: seq<Byte>, x: string, y: string)
    : (encoded: string)
  {
    var v, w, s, k := "v=" + (Format(version) + x), PrintParams(params) + y, Encode(salt), Encode(key);
    "" + ("$" + ("argon2id" + ("$" + (v + ("$" + (w + ("$" + (s + ("$" + k)))))))))
  }

  predicate Ignorable(x: string) {
    '$' !in x && (x != "" ==> !IsDigit(x[0]))
  }

  lemma PrintIsPadded(version: int, params: Params, salt: seq<Byte>, key: seq<Byte>)
    ensures Print(version, params, salt, key) == Padded(version, params, salt, key, "", "")
  {
    hide Format, PrintParams, Encode;
    assert Format(version) + "" == Format(version) && PrintParams(params) + "" == PrintParams(params);
    assert "$argon2id$v=" == "$" + ("argon2id" + ("$" + "v="));
  }

  lemma PaddedParts(version: int, params: Params, salt: seq<Byte>, key: seq<Byte>, x: string, y: string)
    requires Ignorable(x) && Ignorable(y)
    ensures Split(Padded(version, params, salt, key, x, y), '$')
         == ["", "argon2id", "v=" + (Format(version) + x), PrintParams(params) + y, Encode(salt), Encode(key)]
  {
    NoDollarInNumber(version);
    NoDollarInParams(params);
    EncodedIsClean(salt);
    EncodedIsClean(key);
    hide Split, Format, PrintParams, Encode;
    SplitSix("", "argon2id", "v=" + (Format(version) + x), PrintParams(params) + y, Encode(salt), Encode(key), '$');
  }

  lemma PartsParsed(v: string, w: string, a: string, b: string,
                    version: int, params: Params, salt: seq<Byte>, key: seq<Byte>, rest: string)
    requires ScanField("v=", v) == if FitsInt64(version) then Some(Number(version, rest)) else None
    requires ScanParams(w) == if AllFit(params) then Some(params) else None
    requires Decode(a) == Some(salt) && Decode(b) == Some(key)
    ensures ParseParts(["", "argon2id", v, w, a, b])
         == if version != VERSION then Refused(BadVersion)
            else if !AllFit(params) then Refused(BadParameters)
            else Parsed(params, salt, key)
  {
    hide ScanField, ScanParams, Decode, AllFit;
  }

  /** The parser accepts a printed string exactly when the version is the supported one and the numbers fit
      64 bits; it then returns the very parameters, salt and key. It also accepts trailing text behind the
      version and behind the parameters, and ignores it. */
  lemma ParsePadded(version: int, params: Params, salt: seq<Byte>, key: seq<Byte>, x: string, y: string)
    requires Ignorable(x) && Ignorable(y)
    ensures Parse(Padded(version, params, salt, key, x, y))
         == if version != VERSION then Refused(BadVersion)
            else if !AllFit(params) then Refused(BadParameters)
            else Parsed(params, salt, key)
  {
    PaddedParts(version, params, salt, key, x, y);
    FieldPrinted("v=", version, x);
    ParamsPrinted(params, y);
    DecodeEncode(salt);
    DecodeEncode(key);
    hide *;
    PartsParsed("v=" + (Format(version) + x), PrintParams(params) + y, Encode(salt), Encode(key), version, params,
                salt, key, x);
    ParseSplits(Padded(version, params, salt, key, x, y));
  }

  lemma ParseSplits(encoded: string)
    ensures Parse(encoded) == ParseParts(Split(encoded, '$'))
  {
    hide Split, ParseParts;
  }

  lemma ParsePrint(version: int, params: Params, salt: seq<Byte>, key: seq<Byte>)
    ensures Parse(Print(version, params, salt, key))
         == if version != VERSION then Refused(BadVersion)
            else if !AllFit(params) then Refused(BadParameters)
            else Parsed(params, salt, key)
  {
    PrintIsPadded(version, params, salt, key);
    ParsePadded(version, params, salt, key, "", "");
    hide Print, Padded, Parse;
  }

  /** The string that Hash makes: 64 MiB, one pass, four lanes, a key of 32 bytes. Without a salt there is none. */
  lemma HashText(kdf: Kdf, salt: seq<Byte>, password: string)
    ensures Hash(kdf, None, password) == NoRandomness
    ensures Hash(kdf, Some(salt), password)
         == match kdf(password, salt, 1, 64 * 1024, 4, 32)
            case None => HashPanicked
            case Some(key) => Hashed("$argon2id$v=19$m=65536,t=1,p=4$" + Encode(salt) + "$" + Encode(key))
  {
    Numerals();
    var key := kdf(password, salt, 1, 64 * 1024, 4, 32);
    if key.Some? {
      assert PrintParams(Params(65536, 1, 4)) == "m=65536,t=1,p=4";
      assert "$argon2id$v=" + Format(19) + "$" + "m=65536,t=1,p=4" + "$" == "$argon2id$v=19$m=65536,t=1,p=4$";
    }
    hide Format, PrintParams, Encode;
  }

  lemma Numerals()
    ensures Format(19) == "19" && Format(65536) == "65536" && Format(1) == "1" && Format(4) == "4"
  {
    assert Natural(1) == "1" && Natural(6) == "6";
    assert Natural(65) == Natural(6) + ['5'];
    assert Natural(655) == Natural(65) + ['5'];
    assert Natural(6553) == Natural(655) + ['3'];
    assert Natural(65536) == Natural(6553) + ['6'];
    assert Natural(19) == Natural(1) + ['9'];
  }

  lemma {:induction false} SplitCounts(text: string, sep: char)
    ensures |Split(text, sep)| == multiset(text)[sep] + 1
  {
    if text != "" {
      SplitCounts(text[1..], sep);
      assert text == [text[0]] + text[1..];
    }
  }

  /** Whatever does not have exactly five dollar signs is refused as no such string. */
  lemma FiveDollars(kdf: Kdf, encoded: string, password: string)
    requires multiset(encoded)['$'] != 5
    ensures Verify(kdf, encoded, password) == Rejected(NotPhc)
  {
    SplitCounts(encoded, '$');
    hide Split;
  }

  /** Six parts between dollar signs are refused for the first of these reasons that applies, and accepted for none:
      another algorithm, another version, parameters that do not scan, a salt or a key that is no base64. */
  lemma SixPartsRefused(kdf: Kdf, a: string, b: string, c: string, d: string, e: string, f: string, password: string)
    requires '$' !in a && '$' !in b && '$' !in c && '$' !in d && '$' !in e && '$' !in f
    ensures var o := Verify(kdf, a + "$" + b + "$" + c + "$" + d + "$" + e + "$" + f, password);
      var v := ScanField("v=", c);
      o.Rejected? <==> b != "argon2id" || v.None? || v.value.value != 19 || ScanParams(d).None?
                       || Decode(e).None? || Decode(f).None?
    ensures var o := Verify(kdf, a + "$" + b + "$" + c + "$" + d + "$" + e + "$" + f, password);
      b != "argon2id" ==> o == Rejected(NotPhc)
  {
    SplitSix(a, b, c, d, e, f, '$');
    assert a + "$" + b + "$" + c + "$" + d + "$" + e + "$" + f
        == a + (['$'] + (b + (['$'] + (c + (['$'] + (d + (['$'] + (e + (['$'] + f)))))))));
    ParseSplits(a + "$" + b + "$" + c + "$" + d + "$" + e + "$" + f);
    hide Split, ScanField, ScanParams, Decode, Parse;
  }

  /** Two printed strings of the supported version are equal only if every parameter, the salt and the key are. */
  lemma PrintInjective(a: Params, b: Params, saltA: seq<Byte>, saltB: seq<Byte>, keyA: seq<Byte>, keyB: seq<Byte>)
    requires AllFit(a) && AllFit(b)
    requires Print(VERSION, a, saltA, keyA) == Print(VERSION, b, saltB, keyB)
    ensures a == b && saltA == saltB && keyA == keyB
  {
    ParsePrint(VERSION, a, saltA, keyA);
    ParsePrint(VERSION, b, saltB, keyB);
    hide Print, Parse;
  }

  /** Verify re-derives with the parameters stored in the string, cut to the widths the library takes, whatever
      the constants are now. */
  lemma VerifyUsesStoredParameters(kdf: Kdf, params: Params, salt: seq<Byte>, key: seq<Byte>, password: string)
    requires AllFit(params) && |key| < 0x1_0000_0000
    ensures var got := kdf(password, salt, params.time % 0x1_0000_0000, params.memory % 0x1_0000_0000,
                           params.threads % 256, |key|);
            (Verify(kdf, Print(VERSION, params, salt, key), password)
             == if got.None? then Panicked else Verdict(got.value == key))
  {
    ParsePrint(VERSION, params, salt, key);
    hide Print, Parse;
  }

  lemma KeyHasLength(kdf: Kdf, password: string, salt: seq<Byte>, time: nat, memory: nat, threads: nat, length: nat)
    requires Sized(kdf) && kdf(password, salt, time, memory, threads, length).Some?
    ensures |kdf(password, salt, time, memory, threads, length).value| == length
  {
  }

  lemma ConstantsFit()
    ensures AllFit(Params(MEMORY, TIME, THREADS)) && KEY_LENGTH < 0x1_0000_0000
    ensures TIME % 0x1_0000_0000 == TIME && MEMORY % 0x1_0000_0000 == MEMORY && THREADS % 256 == THREADS
  {
  }

  /** A stored hash accepts a candidate exactly when the derivation gives both passwords the same key. */
  lemma CandidateAcceptedIffSameKey(kdf: Kdf, salt: seq<Byte>, password: string, candidate: string)
    requires Sized(kdf) && Hash(kdf, Some(salt), password).Hashed?
    ensures var h := Hash(kdf, Some(salt), password).encoded;
            var mine := kdf(password, salt, TIME, MEMORY, THREADS, KEY_LENGTH);
            var yours := kdf(candidate, salt, TIME, MEMORY, THREADS, KEY_LENGTH);
            && mine.Some?
            && Verify(kdf, h, candidate) == if yours.None? then Panicked else Verdict(yours == mine)
  {
    hide Print, Parse, Verify, Sized, AllFit;
    var mine := kdf(password, salt, TIME, MEMORY, THREADS, KEY_LENGTH);
    KeyHasLength(kdf, password, salt, TIME, MEMORY, THREADS, KEY_LENGTH);
    ConstantsFit();
    VerifyUsesStoredParameters(kdf, Params(MEMORY, TIME, THREADS), salt, mine.value, candidate);
  }

  lemma OwnPasswordAccepted(kdf: Kdf, salt: Option<seq<Byte>>, password: string)
    requires Sized(kdf) && Hash(kdf, salt, password).Hashed?
    ensures Verify(kdf, Hash(kdf, salt, password).encoded, password) == Verdict(true)
  {
    hide Print, Parse, Verify, Sized;
    CandidateAcceptedIffSameKey(kdf, salt.value, password, password);
  }
}
