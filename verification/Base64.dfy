/** Base64 as the repository uses it: unpadded with the modified UTF-7 alphabet (section 5.1.3 of RFC 3501), and
    padded with the standard alphabet (section 4 of RFC 4648). Both decoders refuse non-zero trailing bits. */
module Base64 {
  import opened Wrappers

  type sextet = x: int | 0 <= x < 64

  datatype Alphabet = Standard | MailboxNames

  // ---- bytes and sextets -------------------------------------------------------------------------

  /** Four sextets for three bytes, and one more than the bytes left over. */
  function SextetCount(n: nat): nat {
    n / 3 * 4 + (if n % 3 == 0 then 0 else n % 3 + 1)
  }

  function Sextets(bytes: seq<byte>): seq<sextet> {
    if |bytes| == 0 then []
    else if |bytes| == 1 then [bytes[0] / 4, bytes[0] % 4 * 16]
    else if |bytes| == 2 then [bytes[0] / 4, bytes[0] % 4 * 16 + bytes[1] / 16, bytes[1] % 16 * 4]
    else [bytes[0] / 4, bytes[0] % 4 * 16 + bytes[1] / 16, bytes[1] % 16 * 4 + bytes[2] / 64, bytes[2] % 64]
         + Sextets(bytes[3..])
  }

  lemma {:induction false} SextetLength(bytes: seq<byte>)
    ensures |Sextets(bytes)| == SextetCount(|bytes|)
  {
    if |bytes| >= 3 {
      SextetLength(bytes[3..]);
      CountOfThree(|bytes|);
    }
  }

  /** Sextets are the bits of the bytes, highest first: 24 for a whole group, and what is left over is filled up with
      zero bits. */
  lemma SextetsAreBits(bytes: seq<byte>)
    requires bytes != []
    ensures var s := Sextets(bytes);
      && (|bytes| == 1 ==> |s| == 2 && (s[0] as int) * 64 + s[1] == (bytes[0] as int) * 16)
      && (|bytes| == 2 ==>
            && |s| == 3
            && ((s[0] as int) * 64 + s[1]) * 64 + s[2] == ((bytes[0] as int) * 256 + bytes[1]) * 4)
      && (|bytes| >= 3 ==>
            && |s| >= 4 && s[4..] == Sextets(bytes[3..])
            && (((s[0] as int) * 64 + s[1]) * 64 + s[2]) * 64 + s[3] ==
               ((bytes[0] as int) * 256 + bytes[1]) * 256 + bytes[2])
  {
    SextetLength(bytes);
    if |bytes| >= 3 {
      assert Sextets(bytes)[4..] == Sextets(bytes[3..]);
      GroupBits(bytes[0], bytes[1], bytes[2]);
    }
  }

  lemma GroupBits(a: byte, b: byte, c: byte)
    ensures ((((a as int) / 4) * 64 + (a % 4 * 16 + b / 16)) * 64 + (b % 16 * 4 + c / 64)) * 64 + c % 64 ==
            ((a as int) * 256 + b) * 256 + c
  {
    assert a == a / 4 * 4 + a % 4;
    assert b == b / 16 * 16 + b % 16;
    assert c == c / 64 * 64 + c % 64;
  }

  lemma CountOfThree(n: nat)
    requires n >= 3
    ensures SextetCount(n) == SextetCount(n - 3) + 4
  {
    assert (n - 3) / 3 == n / 3 - 1 && (n - 3) % 3 == n % 3;
  }

  lemma EncodedLength(a: Alphabet, bytes: seq<byte>)
    ensures |Encode(a, bytes)| == SextetCount(|bytes|)
  {
    SextetLength(bytes);
  }

  function First(s: sextet, t: sextet): byte { (s as int) * 4 + t / 16 }
  function Second(s: sextet, t: sextet): byte { (s as int) % 16 * 16 + t / 4 }
  function Third(s: sextet, t: sextet): byte { (s as int) % 4 * 64 + t }

  function Bytes(s: seq<sextet>): Option<seq<byte>> {
    if |s| == 0 then Some([])
    else if |s| == 1 then None
    else if |s| == 2 then if s[1] % 16 == 0 then Some([First(s[0], s[1])]) else None
    else if |s| == 3 then if s[2] % 4 == 0 then Some([First(s[0], s[1]), Second(s[1], s[2])]) else None
    else match Bytes(s[4..])
      case Some(rest) => Some([First(s[0], s[1]), Second(s[1], s[2]), Third(s[2], s[3])] + rest)
      case None => None
  }

  lemma TwoSextets(b: byte)
    ensures b % 4 * 16 % 16 == 0 && First(b / 4, b % 4 * 16) == b
  {
  }

  lemma ThreeSextets(b: byte, c: byte)
    ensures c % 16 * 4 % 4 == 0
    ensures First(b / 4, b % 4 * 16 + c / 16) == b && Second(b % 4 * 16 + c / 16, c % 16 * 4) == c
  {
  }

  lemma {:induction false} BytesOfSextets(bytes: seq<byte>)
    ensures Bytes(Sextets(bytes)) == Some(bytes)
  {
    var s := Sextets(bytes);
    if |bytes| == 1 {
      TwoSextets(bytes[0]);
      assert Bytes(s) == Some([First(s[0], s[1])]);
      assert bytes == [bytes[0]];
    } else if |bytes| == 2 {
      ThreeSextets(bytes[0], bytes[1]);
      assert Bytes(s) == Some([First(s[0], s[1]), Second(s[1], s[2])]);
      assert bytes == [bytes[0], bytes[1]];
    } else if |bytes| >= 3 {
      BytesOfSextets(bytes[3..]);
      ThreeSextets(bytes[0], bytes[1]);
      assert s[4..] == Sextets(bytes[3..]);
      assert Second(s[1], s[2]) == bytes[1] && Third(s[2], s[3]) == bytes[2];
      assert bytes == [bytes[0], bytes[1], bytes[2]] + bytes[3..];
    }
  }

  lemma FirstSplits(s: sextet, t: sextet)
    ensures First(s, t) / 4 == s && First(s, t) % 4 == t / 16
  {
  }

  lemma SecondSplits(s: sextet, t: sextet)
    ensures Second(s, t) / 16 == s % 16 && Second(s, t) % 16 == t / 4
  {
  }

  lemma ThirdSplits(s: sextet, t: sextet)
    ensures Third(s, t) / 64 == s % 4 && Third(s, t) % 64 == t
  {
  }

  lemma {:induction false} SextetsOfBytes(s: seq<sextet>)
    requires Bytes(s).Some?
    ensures Sextets(Bytes(s).value) == s
  {
    var bytes := Bytes(s).value;
    if |s| >= 2 {
      FirstSplits(s[0], s[1]);
    }
    if |s| >= 3 {
      SecondSplits(s[1], s[2]);
    }
    if |s| == 2 {
      assert s == [s[0], s[1]];
    } else if |s| == 3 {
      assert s == [s[0], s[1], s[2]];
    } else if |s| >= 4 {
      ThirdSplits(s[2], s[3]);
      SextetsOfBytes(s[4..]);
      assert bytes[3..] == Bytes(s[4..]).value;
      assert s == [s[0], s[1], s[2], s[3]] + s[4..];
    }
  }

  // ---- text --------------------------------------------------------------------------------------

  function Symbol(a: Alphabet, x: sextet): char {
    if x < 26 then (x + 65) as char
    else if x < 52 then (x + 71) as char
    else if x < 62 then (x - 4) as char
    else if x == 62 then '+'
    else if a.Standard? then '/' else ','
  }

  function Value(a: Alphabet, c: char): Option<sextet> {
    if 'A' <= c <= 'Z' then Some(c as int - 65)
    else if 'a' <= c <= 'z' then Some(c as int - 71)
    else if '0' <= c <= '9' then Some(c as int + 4)
    else if c == '+' then Some(62)
    else if c == (if a.Standard? then '/' else ',') then Some(63)
    else None
  }

  function Symbols(a: Alphabet, s: seq<sextet>): (text: string)
    ensures |text| == |s|
  {
    if s == [] then "" else [Symbol(a, s[0])] + Symbols(a, s[1..])
  }

  function Values(a: Alphabet, text: string): Option<seq<sextet>> {
    if text == "" then Some([])
    else match (Value(a, text[0]), Values(a, text[1..]))
      case (Some(x), Some(rest)) => Some([x] + rest)
      case _ => None
  }

  lemma ValueOfSymbol(a: Alphabet, x: sextet)
    ensures Value(a, Symbol(a, x)) == Some(x)
  {
  }

  lemma SymbolOfValue(a: Alphabet, c: char)
    requires Value(a, c).Some?
    ensures Symbol(a, Value(a, c).value) == c
  {
  }

  lemma {:induction false} ValuesOfSymbols(a: Alphabet, s: seq<sextet>)
    ensures Values(a, Symbols(a, s)) == Some(s)
  {
    if s != [] {
      ValueOfSymbol(a, s[0]);
      ValuesOfSymbols(a, s[1..]);
      assert Symbols(a, s)[1..] == Symbols(a, s[1..]);
      assert s == [s[0]] + s[1..];
    }
  }

  lemma {:induction false} SymbolsOfValues(a: Alphabet, text: string)
    requires Values(a, text).Some?
    ensures Symbols(a, Values(a, text).value) == text
  {
    if text != "" {
      SymbolOfValue(a, text[0]);
      SymbolsOfValues(a, text[1..]);
      assert text == [text[0]] + text[1..];
    }
  }

  function Encode(a: Alphabet, bytes: seq<byte>): string {
    Symbols(a, Sextets(bytes))
  }

  function Decode(a: Alphabet, text: string): Option<seq<byte>> {
    match Values(a, text)
    case Some(s) => Bytes(s)
    case None => None
  }

  /** The strict unpadded decoder accepts exactly what the encoder writes. */
  lemma DecodesExactly(a: Alphabet, text: string, bytes: seq<byte>)
    ensures Decode(a, text) == Some(bytes) <==> text == Encode(a, bytes)
  {
    if text == Encode(a, bytes) {
      ValuesOfSymbols(a, Sextets(bytes));
      BytesOfSextets(bytes);
    }
    if Decode(a, text) == Some(bytes) {
      SymbolsOfValues(a, text);
      SextetsOfBytes(Values(a, text).value);
    }
  }

  lemma {:induction false} SymbolsAreSymbols(a: Alphabet, s: seq<sextet>, i: nat)
    requires i < |s|
    ensures Value(a, Symbols(a, s)[i]).Some?
  {
    if i == 0 {
      ValueOfSymbol(a, s[0]);
    } else {
      SymbolsAreSymbols(a, s[1..], i - 1);
    }
  }

  lemma EncodeWritesSymbols(a: Alphabet, bytes: seq<byte>)
    ensures forall c | c in Encode(a, bytes) :: Value(a, c).Some?
  {
    forall i | 0 <= i < |Encode(a, bytes)|
      ensures Value(a, Encode(a, bytes)[i]).Some?
    {
      SymbolsAreSymbols(a, Sextets(bytes), i);
    }
  }

  /** Table 1 of RFC 4648, and the one of section 5.1.3 of RFC 3501, which has a comma for the slash. */
  lemma SymbolsByTable(x: sextet)
    ensures forall a :: x < 26 ==> Symbol(a, x) == ('A' as int + x) as char
    ensures forall a :: 26 <= x < 52 ==> Symbol(a, x) == ('a' as int + (x - 26)) as char
    ensures forall a :: 52 <= x < 62 ==> Symbol(a, x) == ('0' as int + (x - 52)) as char
    ensures forall a :: x == 62 ==> Symbol(a, x) == '+'
    ensures x == 63 ==> Symbol(Standard, x) == '/' && Symbol(MailboxNames, x) == ','
  {
  }

  lemma {:induction false} SymbolsAt(a: Alphabet, s: seq<sextet>, k: nat)
    requires k < |s|
    ensures Symbols(a, s)[k] == Symbol(a, s[k])
    decreases |s|
  {
    if k > 0 {
      SymbolsAt(a, s[1..], k - 1);
    }
  }

  // ---- padding -----------------------------------------------------------------------------------

  function Padding(bytes: nat): string {
    if bytes % 3 == 0 then "" else if bytes % 3 == 1 then "==" else "="
  }

  function EncodePadded(bytes: seq<byte>): string {
    Encode(Standard, bytes) + Padding(|bytes|)
  }

  /** At most two trailing padding characters, as many as complete the last group of four. */
  function Unpadded(text: string): string {
    var n := |text|;
    if n >= 2 && text[n - 1] == '=' && text[n - 2] == '=' then text[..n - 2]
    else if n >= 1 && text[n - 1] == '=' then text[..n - 1]
    else text
  }

  function DecodePadded(text: string): Option<seq<byte>> {
    if |text| % 4 != 0 then None else Decode(Standard, Unpadded(text))
  }

  lemma UnpaddedAppend(body: string, n: nat)
    requires body == "" || body[|body| - 1] != '='
    ensures Unpadded(body + Padding(n)) == body
  {
    var text := body + Padding(n);
    assert text[..|body|] == body;
  }

  lemma UnpaddedEncoding(bytes: seq<byte>)
    ensures Unpadded(EncodePadded(bytes)) == Encode(Standard, bytes)
  {
    var body := Encode(Standard, bytes);
    EncodeWritesSymbols(Standard, bytes);
    if body != "" {
      assert body[|body| - 1] in body;
    }
    UnpaddedAppend(body, |bytes|);
  }

  lemma UnpaddedRest(text: string)
    ensures |Unpadded(text)| <= |text|
    ensures var rest := text[|Unpadded(text)|..];
      text == Unpadded(text) + rest && (rest == "" || rest == "=" || rest == "==")
  {
    var rest := text[|Unpadded(text)|..];
    if |rest| == 1 {
      assert rest == [rest[0]];
    } else if |rest| == 2 {
      assert rest == [rest[0], rest[1]];
    }
  }

  lemma PaddingByLength(text: string, n: nat)
    requires |text| % 4 == 0 && |Unpadded(text)| == SextetCount(n)
    ensures text == Unpadded(text) + Padding(n)
  {
    UnpaddedRest(text);
    assert |text| == |Unpadded(text)| + |text[|Unpadded(text)|..]|;
  }

  lemma WholeGroups(n: nat)
    ensures SextetCount(n) + |Padding(n)| == n / 3 * 4 + (if n % 3 == 0 then 0 else 4)
    ensures (SextetCount(n) + |Padding(n)|) % 4 == 0
  {
  }

  lemma PaddedLength(bytes: seq<byte>)
    ensures |EncodePadded(bytes)| == |bytes| / 3 * 4 + (if |bytes| % 3 == 0 then 0 else 4)
    ensures |EncodePadded(bytes)| % 4 == 0
  {
    EncodedLength(Standard, bytes);
    WholeGroups(|bytes|);
  }

  lemma PaddedEncodingDecodes(bytes: seq<byte>)
    ensures DecodePadded(EncodePadded(bytes)) == Some(bytes)
  {
    var text := EncodePadded(bytes);
    assert |text| % 4 == 0 by { PaddedLength(bytes); }
    assert Unpadded(text) == Encode(Standard, bytes) by { UnpaddedEncoding(bytes); }
    assert Decode(Standard, Unpadded(text)) == Some(bytes) by {
      DecodesExactly(Standard, Unpadded(text), bytes);
    }
  }

  lemma PaddedTextIsEncoding(text: string, bytes: seq<byte>)
    requires DecodePadded(text) == Some(bytes)
    ensures text == EncodePadded(bytes)
  {
    DecodesExactly(Standard, Unpadded(text), bytes);
    EncodedLength(Standard, bytes);
    PaddingByLength(text, |bytes|);
  }

  /** The padded decoder accepts exactly what the encoder writes: full groups, canonical padding. */
  lemma PaddedDecodesExactly(text: string, bytes: seq<byte>)
    ensures DecodePadded(text) == Some(bytes) <==> text == EncodePadded(bytes)
  {
    PaddedEncodingDecodes(bytes);
    if DecodePadded(text) == Some(bytes) {
      PaddedTextIsEncoding(text, bytes);
    }
  }

  // ---- engines -----------------------------------------------------------------------------------

  /** A codec as a value, so that its users are reasoned about by its laws alone. */
  datatype Engine = Engine(encode: seq<byte> -> string, decode: string -> Option<seq<byte>>)

  const STANDARD := Engine(bytes => EncodePadded(bytes), text => DecodePadded(text))

  /** Decoding is a partial inverse of encoding, and nothing else decodes. */
  ghost predicate Strict(e: Engine) {
    && (forall bytes :: e.decode(e.encode(bytes)) == Some(bytes))
    && (forall text :: e.decode(text).Some? ==> e.encode(e.decode(text).value) == text)
  }

  lemma StandardIsStrict()
    ensures Strict(STANDARD)
  {
    forall bytes
      ensures STANDARD.decode(STANDARD.encode(bytes)) == Some(bytes)
    {
      PaddedEncodingDecodes(bytes);
    }
    forall text | STANDARD.decode(text).Some?
      ensures STANDARD.encode(STANDARD.decode(text).value) == text
    {
      PaddedTextIsEncoding(text, STANDARD.decode(text).value);
    }
  }
}
