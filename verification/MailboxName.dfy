/** Modified UTF-7 mailbox names of src/imap.rs (section 5.1.3 of RFC 3501): `mailbox`, `mailbox_pattern` and the
    strict `decode_wire_mailbox_name`. A Dafny char is a Unicode scalar value, as a Rust char is. */
module MailboxName {
  import opened Wrappers
  import Base64

  const MAX_NAME: nat := 1024
  const MAX_WIRE: nat := 4096

  predicate IsAscii(c: char) { c as int < 0x80 }

  predicate IsControl(c: char) { (c as int) < 0x20 || 0x7f <= c as int < 0xa0 }

  predicate IsPrintable(c: char) { 32 <= c as int <= 126 }

  predicate NoControl(s: string) { forall c | c in s :: !IsControl(c) }

  function Utf8Size(c: char): nat {
    if (c as int) < 0x80 then 1 else if (c as int) < 0x800 then 2 else if (c as int) < 0x10000 then 3 else 4
  }

  function Utf8Len(s: string): nat {
    if s == "" then 0 else Utf8Size(s[0]) + Utf8Len(s[1..])
  }

  datatype Error = InvalidInput | Unsupported | Protocol

  function Mailbox(name: string): Result<(), Error> {
    if name == "" || Utf8Len(name) > MAX_NAME then Err(InvalidInput)
    else if !NoControl(name) then Err(Unsupported)
    else Ok(())
  }

  // ---- UTF-16 ------------------------------------------------------------------------------------

  type unit = x: int | 0 <= x < 0x10000

  function Utf16(c: char): seq<unit> {
    var v := c as int;
    if v < 0x10000 then [v] else [0xD800 + (v - 0x10000) / 0x400, 0xDC00 + (v - 0x10000) % 0x400]
  }

  function Units(s: string): seq<unit> {
    if s == "" then [] else Utf16(s[0]) + Units(s[1..])
  }

  function Supplementary(high: int, low: int): char
    requires 0xD800 <= high < 0xDC00 <= low < 0xE000
  {
    (0x10000 + (high - 0xD800) * 0x400 + (low - 0xDC00)) as char
  }

  /** One step of `char::decode_utf16`: the first character and how many units it took. */
  function FirstChar(units: seq<unit>): Option<(char, nat)>
    requires units != []
  {
    var u := units[0];
    if u < 0xD800 || 0xE000 <= u then Some((u as char, 1))
    else if u < 0xDC00 && |units| > 1 && 0xDC00 <= units[1] < 0xE000 then
      Some((Supplementary(u, units[1]), 2))
    else None
  }

  function BigEndian(units: seq<unit>): seq<byte> {
    if units == [] then [] else [units[0] / 256, units[0] % 256] + BigEndian(units[1..])
  }

  function Joined(high: byte, low: byte): unit { (high as int) * 256 + low }

  function Pairs(bytes: seq<byte>): seq<unit>
    requires |bytes| % 2 == 0
  {
    if bytes == [] then [] else [Joined(bytes[0], bytes[1])] + Pairs(bytes[2..])
  }

  // ---- encoder -----------------------------------------------------------------------------------

  /** The length of the leading run without ASCII characters. */
  function RunLength(s: string): (n: nat)
    ensures n <= |s|
    ensures forall i | 0 <= i < n :: !IsAscii(s[i])
    ensures n < |s| ==> IsAscii(s[n])
  {
    if s == "" || IsAscii(s[0]) then 0 else 1 + RunLength(s[1..])
  }

  function Shifted(run: string): string {
    "&" + Base64.Encode(Base64.MailboxNames, BigEndian(Units(run))) + "-"
  }

  function Plain(c: char): string {
    if c == '&' then "&-" else [c]
  }

  /** What one turn of the encoder writes, and what it leaves: a shifted run, if any, and one ASCII character. */
  function Turn(name: string): (turn: (string, string))
    requires name != ""
    ensures |turn.1| < |name|
  {
    var end := RunLength(name);
    var shifted := if end > 0 then Shifted(name[..end]) else "";
    if end < |name| then (shifted + Plain(name[end]), name[end + 1..]) else (shifted, "")
  }

  function Encode(name: string): string
    decreases |name|
  {
    if name == "" then "" else Turn(name).0 + Encode(Turn(name).1)
  }

  method EncodeTurn(encoded: string, name: string) returns (longer: string, remaining: string)
    requires name != ""
    ensures (longer, remaining) == (encoded + Turn(name).0, Turn(name).1)
  {
    longer, remaining := encoded, name;
    var end := RunLength(name);
    if end > 0 {
      var payload := Base64.Encode(Base64.MailboxNames, BigEndian(Units(name[..end])));
      longer := longer + "&" + payload + "-";
      assert longer == encoded + Shifted(name[..end]);
      remaining := name[end..];
    }
    ghost var shifted := if end > 0 then Shifted(name[..end]) else "";
    assert longer == encoded + shifted;
    if remaining != "" {
      var ascii := remaining[0];
      longer := longer + [ascii];
      if ascii == '&' {
        longer := longer + "-";
      }
      assert longer == encoded + (shifted + Plain(ascii));
      remaining := remaining[1..];
      assert remaining == name[end + 1..];
    }
  }

  method MailboxPattern(name: string) returns (encoded: string)
    ensures encoded == Encode(name)
  {
    encoded := "";
    var remaining := name;
    while remaining != ""
      invariant encoded + Encode(remaining) == Encode(name)
      decreases |remaining|
    {
      ghost var turn := Turn(remaining);
      assert encoded + (turn.0 + Encode(turn.1)) == encoded + turn.0 + Encode(turn.1);
      encoded, remaining := EncodeTurn(encoded, remaining);
    }
  }

  // ---- the wire form -----------------------------------------------------------------------------

  lemma AsciiFirst(c: char, rest: string)
    requires IsAscii(c)
    ensures Encode([c] + rest) == Plain(c) + Encode(rest)
  {
    var name := [c] + rest;
    assert RunLength(name) == 0 && name[1..] == rest;
    assert "" + Plain(c) == Plain(c);
  }

  lemma {:induction false} RunLengthOf(run: string, rest: string)
    requires forall i :: 0 <= i < |run| ==> !IsAscii(run[i])
    requires rest == "" || IsAscii(rest[0])
    ensures RunLength(run + rest) == |run|
    decreases |run|
  {
    if run == "" {
      assert run + rest == rest;
    } else {
      assert (run + rest)[1..] == run[1..] + rest;
      RunLengthOf(run[1..], rest);
    }
  }

  lemma RunFirst(run: string, rest: string)
    requires run != "" && forall i :: 0 <= i < |run| ==> !IsAscii(run[i])
    requires rest == "" || IsAscii(rest[0])
    ensures Encode(run + rest) == Shifted(run) + Encode(rest)
  {
    var name := run + rest;
    RunLengthOf(run, rest);
    assert name[..|run|] == run;
    if rest == "" {
      assert Turn(name) == (Shifted(run), "");
    } else {
      assert name[|run|] == rest[0] && name[|run| + 1..] == rest[1..];
      assert [rest[0]] + rest[1..] == rest;
      AsciiFirst(rest[0], rest[1..]);
      Regroup(Shifted(run), Plain(rest[0]), Encode(rest[1..]));
    }
  }

  /** An ASCII character writes itself, or "&-" for the shift character, and separates what stands before it from what
      follows. */
  lemma {:induction false} AsciiWritesItself(a: string, c: char, b: string)
    requires IsAscii(c)
    ensures Encode(a + [c] + b) == Encode(a) + (if c == '&' then "&-" else [c]) + Encode(b)
    decreases |a|
  {
    if a == "" {
      assert a + [c] + b == [c] + b;
      AsciiFirst(c, b);
      assert "" + Plain(c) == Plain(c);
    } else {
      var end := RunLength(a);
      var run, rest := a[..end], a[end..];
      assert a == run + rest;
      if end > 0 {
        assert a + [c] + b == run + (rest + [c] + b);
        RunFirst(run, rest + [c] + b);
        RunFirst(run, rest);
        AsciiWritesItself(rest, c, b);
        Regroup4(Shifted(run), Encode(rest), Plain(c), Encode(b));
      } else {
        assert a == [a[0]] + a[1..] && a + [c] + b == [a[0]] + (a[1..] + [c] + b);
        AsciiFirst(a[0], a[1..] + [c] + b);
        AsciiFirst(a[0], a[1..]);
        AsciiWritesItself(a[1..], c, b);
        Regroup4(Plain(a[0]), Encode(a[1..]), Plain(c), Encode(b));
      }
    }
  }

  lemma Regroup(a: string, b: string, c: string)
    ensures (a + b) + c == a + (b + c)
  {
  }

  lemma Regroup4(a: string, b: string, c: string, d: string)
    ensures a + (b + c + d) == (a + b) + c + d
  {
  }

  lemma AfterAscii(a: string, rest: string)
    requires a == "" || IsAscii(a[|a| - 1])
    ensures Encode(a + rest) == Encode(a) + Encode(rest)
  {
    if a == "" {
      assert a + rest == rest && Encode(a) + Encode(rest) == Encode(rest);
    } else {
      var front, c := a[..|a| - 1], a[|a| - 1];
      var plain := if c == '&' then "&-" else [c];
      assert a == front + [c] && a == front + [c] + "" && a + rest == front + [c] + rest;
      AsciiWritesItself(front, c, rest);
      AsciiWritesItself(front, c, "");
      assert Encode(front) + plain + Encode("") == Encode(front) + plain;
    }
  }

  /** A run of other characters is written with one shift over its whole length, wherever it stands: no more shifts than
      there are runs. */
  lemma RunsAreShiftedWhole(a: string, run: string, b: string)
    requires a == "" || IsAscii(a[|a| - 1])
    requires run != "" && forall i :: 0 <= i < |run| ==> !IsAscii(run[i])
    requires b == "" || IsAscii(b[0])
    ensures var payload := Base64.Encode(Base64.MailboxNames, BigEndian(Units(run)));
      Encode(a + run + b) == Encode(a) + ("&" + payload + "-") + Encode(b)
  {
    Regroup(a, run, b);
    AfterAscii(a, run + b);
    RunFirst(run, b);
    Regroup(Encode(a), Shifted(run), Encode(b));
  }

  /** UTF-16: one unit below U+10000, and above it a high and a low surrogate that hold the rest in ten bits each. */
  lemma UnitsOfOne(c: char)
    ensures var units, v := Units([c]), c as int;
      && (v < 0x10000 ==> units == [v])
      && (v >= 0x10000 ==>
            && |units| == 2 && 0xD800 <= units[0] < 0xDC00 <= units[1] < 0xE000
            && (units[0] as int - 0xD800) * 0x400 + (units[1] as int - 0xDC00) + 0x10000 == v)
  {
    assert [c][1..] == "";
    assert Units([c]) == Utf16(c) + [];
  }

  lemma {:induction false} UnitsOfBoth(a: string, b: string)
    ensures Units(a + b) == Units(a) + Units(b)
    decreases |a|
  {
    if a == "" {
      assert a + b == b;
    } else {
      assert (a + b)[1..] == a[1..] + b;
      UnitsOfBoth(a[1..], b);
      assert Utf16(a[0]) + (Units(a[1..]) + Units(b)) == Utf16(a[0]) + Units(a[1..]) + Units(b);
    }
  }

  /** The high byte of each unit comes first. */
  lemma {:induction false} BigEndianBytes(units: seq<unit>, k: nat)
    requires k < |units|
    ensures |BigEndian(units)| == 2 * |units|
    ensures BigEndian(units)[2 * k] == units[k] / 256 && BigEndian(units)[2 * k + 1] == units[k] % 256
    decreases |units|
  {
    if k > 0 {
      BigEndianBytes(units[1..], k - 1);
    } else if |units| > 1 {
      BigEndianBytes(units[1..], 0);
    }
  }

  /** Two of the examples of section 5.1.3 of RFC 3501. */
  lemma StandardExamples()
    ensures Encode([0x65E5 as char, 0x672C as char]) == "&ZeVnLA-"
    ensures Encode([0x53F0 as char, 0x5317 as char]) == "&U,BTFw-"
  {
    Example(0x65E5, 0x672C, "ZeVnLA");
    Example(0x53F0, 0x5317, "U,BTFw");
  }

  /** Four bytes are six symbols. */
  predicate Spells(a: byte, b: byte, c: byte, d: byte, text: string) {
    && |text| == 6
    && text[0] == Base64.Symbol(Base64.MailboxNames, a / 4)
    && text[1] == Base64.Symbol(Base64.MailboxNames, a % 4 * 16 + b / 16)
    && text[2] == Base64.Symbol(Base64.MailboxNames, b % 16 * 4 + c / 64)
    && text[3] == Base64.Symbol(Base64.MailboxNames, c % 64)
    && text[4] == Base64.Symbol(Base64.MailboxNames, d / 4)
    && text[5] == Base64.Symbol(Base64.MailboxNames, d % 4 * 16)
  }

  lemma Example(x: unit, y: unit, text: string)
    requires 0x80 <= x < 0xD800 && 0x80 <= y < 0xD800 && Spells(x / 256, x % 256, y / 256, y % 256, text)
    ensures Encode([x as char, y as char]) == "&" + text + "-"
  {
    var run := [x as char, y as char];
    assert run == [x as char] + [y as char];
    UnitsOfBoth([x as char], [y as char]);
    UnitsOfOne(x as char);
    UnitsOfOne(y as char);
    TwoUnits(x, y, text);
    RunFirst(run, "");
    assert run + "" == run && Shifted(run) + "" == Shifted(run);
  }

  lemma TwoUnits(x: unit, y: unit, text: string)
    requires Spells(x / 256, x % 256, y / 256, y % 256, text)
    ensures Base64.Encode(Base64.MailboxNames, BigEndian([x, y])) == text
  {
    TwoPairs(x, y);
    SpellsFour(x / 256, x % 256, y / 256, y % 256, text);
  }

  lemma TwoPairs(x: unit, y: unit)
    ensures BigEndian([x, y]) == [x / 256, x % 256, y / 256, y % 256]
  {
    assert [x, y][1..] == [y] && [y][1..] == [];
    assert BigEndian([y]) == [y / 256, y % 256] + BigEndian([]);
  }

  lemma SpellsFour(a: byte, b: byte, c: byte, d: byte, text: string)
    requires Spells(a, b, c, d, text)
    ensures Base64.Encode(Base64.MailboxNames, [a, b, c, d]) == text
  {
    FourBytes(a, b, c, d);
    var s := Base64.Sextets([a, b, c, d]);
    forall k | 0 <= k < 6
      ensures Base64.Symbols(Base64.MailboxNames, s)[k] == text[k]
    {
      Base64.SymbolsAt(Base64.MailboxNames, s, k);
    }
  }

  lemma FourBytes(a: byte, b: byte, c: byte, d: byte)
    ensures Base64.Sextets([a, b, c, d]) ==
            [a / 4, a % 4 * 16 + b / 16, b % 16 * 4 + c / 64, c % 64, d / 4, d % 4 * 16]
  {
    assert [a, b, c, d][3..] == [d];
    assert Base64.Sextets([d]) == [d / 4, d % 4 * 16];
    assert Base64.Sextets([a, b, c, d]) ==
           [a / 4, a % 4 * 16 + b / 16, b % 16 * 4 + c / 64, c % 64] + Base64.Sextets([d]);
  }

  // ---- decoder -----------------------------------------------------------------------------------

  function IndexOf(s: string, c: char): (i: nat)
    ensures i <= |s|
    ensures c !in s[..i]
    ensures i < |s| ==> s[i] == c
  {
    if s == "" || s[0] == c then 0 else 1 + IndexOf(s[1..], c)
  }

  // `1024usize.saturating_sub(decoded.len())`
  function Room(decoded: string): nat {
    if Utf8Len(decoded) <= MAX_NAME then MAX_NAME - Utf8Len(decoded) else 0
  }

  /** Appends the characters of a shifted run, each within the room that is left. */
  function PushUnits(units: seq<unit>, decoded: string): Option<string>
    decreases |units|
  {
    if units == [] then Some(decoded)
    else match FirstChar(units)
      case None => None
      case Some((c, taken)) =>
        if Utf8Size(c) > Room(decoded) then None else PushUnits(units[taken..], decoded + [c])
  }

  function PushPayload(payload: string, decoded: string): Option<string> {
    if payload == "" then Some(decoded + "&")
    else match Base64.Decode(Base64.MailboxNames, payload)
      case None => None
      case Some(bytes) => if |bytes| % 2 != 0 then None else PushUnits(Pairs(bytes), decoded)
  }

  function DecodeFrom(remaining: string, decoded: string): Option<string>
    decreases |remaining|
  {
    var shift := IndexOf(remaining, '&');
    var plain := remaining[..shift];
    if Utf8Len(plain) > Room(decoded) then None
    else if shift == |remaining| then Some(decoded + plain)
    else DecodeShift(remaining[shift + 1..], decoded + plain)
  }

  /** The rest of a turn, after its '&'. */
  function DecodeShift(shifted: string, decoded: string): Option<string>
    decreases |shifted|
  {
    var end := IndexOf(shifted, '-');
    if end == |shifted| then None
    else match PushPayload(shifted[..end], decoded)
      case None => None
      case Some(pushed) => if Utf8Len(pushed) > MAX_NAME then None else DecodeFrom(shifted[end + 1..], pushed)
  }

  function Decode(wire: string): Result<string, Error> {
    if Utf8Len(wire) > MAX_WIRE || exists c :: c in wire && !IsPrintable(c) then Err(Protocol)
    else match DecodeFrom(wire, "")
      case None => Err(Protocol)
      case Some(decoded) => if !NoControl(decoded) || Encode(decoded) != wire then Err(Protocol) else Ok(decoded)
  }

  method DecodePayload(payload: string, prior: string) returns (decoded: Option<string>)
    ensures decoded == PushPayload(payload, prior)
  {
    if payload == "" {
      return Some(prior + "&");
    }
    var bytes := Base64.Decode(Base64.MailboxNames, payload);
    if bytes.None? || |bytes.value| % 2 != 0 {
      return None;
    }
    var units := Pairs(bytes.value);
    var pushed := prior;
    while units != []
      invariant PushUnits(units, pushed) == PushPayload(payload, prior)
      decreases |units|
    {
      var character := FirstChar(units);
      if character.None? || Utf8Size(character.value.0) > Room(pushed) {
        return None;
      }
      units := units[character.value.1..];
      pushed := pushed + [character.value.0];
    }
    return Some(pushed);
  }

  method DecodeWireMailboxName(wire: string) returns (result: Result<string, Error>)
    ensures result == Decode(wire)
  {
    if Utf8Len(wire) > MAX_WIRE || exists c :: c in wire && !IsPrintable(c) {
      return Err(Protocol);
    }
    var decoded := "";
    var remaining := wire;
    var shift := IndexOf(remaining, '&');
    while shift < |remaining|
      invariant shift == IndexOf(remaining, '&')
      invariant DecodeFrom(remaining, decoded) == DecodeFrom(wire, "")
      decreases |remaining|
    {
      var plain := remaining[..shift];
      if Utf8Len(plain) > Room(decoded) {
        return Err(Protocol);
      }
      decoded := decoded + plain;
      var shifted := remaining[shift + 1..];
      var end := IndexOf(shifted, '-');
      if end == |shifted| {
        return Err(Protocol);
      }
      var pushed := DecodePayload(shifted[..end], decoded);
      if pushed.None? || Utf8Len(pushed.value) > MAX_NAME {
        return Err(Protocol);
      }
      decoded := pushed.value;
      remaining := shifted[end + 1..];
      shift := IndexOf(remaining, '&');
    }
    assert remaining[..shift] == remaining;
    if Utf8Len(remaining) > Room(decoded) {
      return Err(Protocol);
    }
    decoded := decoded + remaining;
    var canonical := MailboxPattern(decoded);
    if !NoControl(decoded) || canonical != wire {
      return Err(Protocol);
    }
    return Ok(decoded);
  }

  // ---- lengths -----------------------------------------------------------------------------------

  lemma {:induction false} Utf8LenAppend(a: string, b: string)
    ensures Utf8Len(a + b) == Utf8Len(a) + Utf8Len(b)
  {
    if a == "" {
      assert a + b == b;
    } else {
      Utf8LenAppend(a[1..], b);
      assert (a + b)[1..] == a[1..] + b;
    }
  }

  lemma {:induction false} UnitsWithinUtf8(run: string)
    requires forall c | c in run :: !IsAscii(c)
    ensures |run| <= |Units(run)| && 2 * |Units(run)| <= Utf8Len(run)
  {
    if run != "" {
      assert run[0] in run;
      UnitsWithinUtf8(run[1..]);
    }
  }

  lemma {:induction false} BigEndianLength(units: seq<unit>)
    ensures |BigEndian(units)| == 2 * |units|
  {
    if units != [] {
      BigEndianLength(units[1..]);
    }
  }

  /** A shifted run is at most two and a half times as long as its UTF-8 form. */
  lemma ShiftedLength(run: string)
    requires run != "" && forall c | c in run :: !IsAscii(c)
    ensures 2 * |Shifted(run)| <= 5 * Utf8Len(run)
  {
    UnitsWithinUtf8(run);
    ShiftedSize(run);
    RunBytes(|Units(run)|, Utf8Len(run));
  }

  lemma ShiftedSize(run: string)
    ensures |Shifted(run)| == Base64.SextetCount(2 * |Units(run)|) + 2
  {
    BigEndianLength(Units(run));
    Base64.EncodedLength(Base64.MailboxNames, BigEndian(Units(run)));
  }

  lemma RunBytes(units: nat, utf8: nat)
    requires 1 <= units && 2 * units <= utf8
    ensures 2 * (Base64.SextetCount(2 * units) + 2) <= 5 * utf8
  {
    assert Base64.SextetCount(2 * units) <= (8 * units + 2) / 3;
  }

  lemma {:induction false} EncodedWithin(name: string)
    ensures 2 * |Encode(name)| <= 5 * Utf8Len(name)
    decreases |name|
  {
    if name != "" {
      var end := RunLength(name);
      var run := name[..end];
      assert name == run + name[end..];
      Utf8LenAppend(run, name[end..]);
      if end > 0 {
        ShiftedLength(run);
      }
      if end < |name| {
        assert name[end..][1..] == name[end + 1..];
        EncodedWithin(name[end + 1..]);
      }
    }
  }

  // ---- round trip --------------------------------------------------------------------------------

  lemma FirstOfUtf16(c: char, rest: seq<unit>)
    ensures FirstChar(Utf16(c) + rest) == Some((c, |Utf16(c)|))
  {
    var v := c as int;
    if v >= 0x10000 {
      var w := v - 0x10000;
      assert w == w / 0x400 * 0x400 + w % 0x400;
      assert 0 <= w / 0x400 < 0x400;
    }
  }

  lemma {:induction false} PairsOfBigEndian(units: seq<unit>)
    ensures |BigEndian(units)| % 2 == 0 && Pairs(BigEndian(units)) == units
  {
    BigEndianLength(units);
    if units != [] {
      PairsOfBigEndian(units[1..]);
      var u := units[0];
      assert Joined(u / 256, u % 256) == u;
      assert BigEndian(units)[2..] == BigEndian(units[1..]);
      assert units == [u] + units[1..];
    }
  }

  /** Surrogate pairs included, the units of a run decode to the run, if it fits. */
  lemma {:induction false} PushesRun(run: string, decoded: string)
    requires Utf8Len(decoded + run) <= MAX_NAME
    ensures PushUnits(Units(run), decoded) == Some(decoded + run)
    decreases |run|
  {
    if run == "" {
      assert decoded + run == decoded;
    } else {
      FirstOfUtf16(run[0], Units(run[1..]));
      Utf8LenAppend(decoded, run);
      Utf8LenAppend(decoded, [run[0]]);
      assert decoded + [run[0]] + run[1..] == decoded + run;
      PushesRun(run[1..], decoded + [run[0]]);
      assert Units(run)[|Utf16(run[0])|..] == Units(run[1..]);
    }
  }

  function Payload(run: string): string {
    Base64.Encode(Base64.MailboxNames, BigEndian(Units(run)))
  }

  lemma PushesPayload(run: string, decoded: string)
    requires run != "" && Utf8Len(decoded + run) <= MAX_NAME
    requires forall c | c in run :: !IsAscii(c)
    ensures PushPayload(Payload(run), decoded) == Some(decoded + run)
  {
    UnitsWithinUtf8(run);
    BigEndianLength(Units(run));
    Base64.EncodedLength(Base64.MailboxNames, BigEndian(Units(run)));
    Base64.DecodesExactly(Base64.MailboxNames, Payload(run), BigEndian(Units(run)));
    PairsOfBigEndian(Units(run));
    PushesRun(run, decoded);
  }

  lemma PayloadSymbols(run: string)
    ensures forall c | c in Payload(run) :: IsPrintable(c) && c != '-' && c != '&'
  {
    Base64.EncodeWritesSymbols(Base64.MailboxNames, BigEndian(Units(run)));
  }

  lemma {:induction false} IndexOfFirst(before: string, c: char, rest: string)
    requires c !in before
    ensures IndexOf(before + [c] + rest, c) == |before|
  {
    var s := before + [c] + rest;
    if before != "" {
      assert s[0] == before[0] && before[0] in before;
      assert s[1..] == before[1..] + [c] + rest;
      IndexOfFirst(before[1..], c, rest);
    }
  }

  lemma DecodesNoShift(plain: string, decoded: string)
    requires '&' !in plain
    ensures DecodeFrom(plain, decoded) == if Utf8Len(plain) > Room(decoded) then None else Some(decoded + plain)
  {
    assert IndexOf(plain, '&') == |plain| && plain[..|plain|] == plain;
  }

  lemma DecodesToShift(plain: string, shifted: string, decoded: string)
    requires '&' !in plain
    ensures DecodeFrom(plain + ['&'] + shifted, decoded) ==
            if Utf8Len(plain) > Room(decoded) then None else DecodeShift(shifted, decoded + plain)
  {
    var s := plain + ['&'] + shifted;
    IndexOfFirst(plain, '&', shifted);
    assert s[..|plain|] == plain && s[|plain| + 1..] == shifted;
  }

  lemma RoomForOne(c: char, plain: string, decoded: string)
    requires Utf8Len(decoded) + Utf8Size(c) <= MAX_NAME
    ensures Utf8Len([c] + plain) > Room(decoded) <==> Utf8Len(plain) > Room(decoded + [c])
  {
    OneLonger(c, plain);
    OneMore(decoded, c);
  }

  lemma OneLonger(c: char, s: string)
    ensures Utf8Len([c] + s) == Utf8Size(c) + Utf8Len(s)
  {
    assert ([c] + s)[1..] == s;
  }

  lemma OneMore(s: string, c: char)
    ensures Utf8Len(s + [c]) == Utf8Len(s) + Utf8Size(c)
  {
    Utf8LenAppend(s, [c]);
    OneLonger(c, "");
    assert [c] + "" == [c];
  }

  lemma PlainEnds(c: char, plain: string, decoded: string)
    requires c != '&' && '&' !in plain && Utf8Len(decoded) + Utf8Size(c) <= MAX_NAME
    ensures DecodeFrom([c] + plain, decoded) == DecodeFrom(plain, decoded + [c])
  {
    RoomForOne(c, plain, decoded);
    Regroup(decoded, [c], plain);
    DecodesNoShift([c] + plain, decoded);
    DecodesNoShift(plain, decoded + [c]);
  }

  lemma PlainShifts(c: char, plain: string, shifted: string, rest: string, decoded: string)
    requires c != '&' && '&' !in plain && Utf8Len(decoded) + Utf8Size(c) <= MAX_NAME
    requires rest == plain + ['&'] + shifted && [c] + rest == [c] + plain + ['&'] + shifted
    ensures DecodeFrom([c] + rest, decoded) == DecodeFrom(rest, decoded + [c])
  {
    RoomForOne(c, plain, decoded);
    Regroup(decoded, [c], plain);
    DecodesToShift([c] + plain, shifted, decoded);
    DecodesToShift(plain, shifted, decoded + [c]);
  }

  /** What stands before the first shift, and what follows its '&'. */
  lemma CutAtShift(c: char, rest: string) returns (plain: string, shifted: string)
    requires '&' in rest
    ensures '&' !in plain && rest == plain + ['&'] + shifted && [c] + rest == [c] + plain + ['&'] + shifted
  {
    var shift := IndexOf(rest, '&');
    plain, shifted := rest[..shift], rest[shift + 1..];
  }

  /** The decoder may take a plain character on its own. */
  lemma DecodesPlain(c: char, rest: string, decoded: string)
    requires c != '&' && Utf8Len(decoded) + Utf8Size(c) <= MAX_NAME
    ensures DecodeFrom([c] + rest, decoded) == DecodeFrom(rest, decoded + [c])
  {
    if '&' in rest {
      var plain, shifted := CutAtShift(c, rest);
      PlainShifts(c, plain, shifted, rest, decoded);
    } else {
      PlainEnds(c, rest, decoded);
    }
  }

  lemma OpensShift(shifted: string, decoded: string)
    requires Utf8Len(decoded) <= MAX_NAME
    ensures DecodeFrom("&" + shifted, decoded) == DecodeShift(shifted, decoded)
  {
    var s := "&" + shifted;
    assert IndexOf(s, '&') == 0;
    assert s[..0] == "" && decoded + "" == decoded && s[1..] == shifted;
  }

  lemma ClosesShift(payload: string, rest: string, decoded: string)
    requires '-' !in payload
    requires PushPayload(payload, decoded).Some? && Utf8Len(PushPayload(payload, decoded).value) <= MAX_NAME
    ensures DecodeShift(payload + ['-'] + rest, decoded) == DecodeFrom(rest, PushPayload(payload, decoded).value)
  {
    var shifted := payload + ['-'] + rest;
    IndexOfFirst(payload, '-', rest);
    assert shifted[..|payload|] == payload && shifted[|payload| + 1..] == rest;
  }

  /** A shift, its payload and the closing '-' are one turn of the decoder. */
  lemma DecodesShift(payload: string, rest: string, decoded: string)
    requires '-' !in payload && Utf8Len(decoded) <= MAX_NAME
    requires PushPayload(payload, decoded).Some? && Utf8Len(PushPayload(payload, decoded).value) <= MAX_NAME
    ensures DecodeFrom("&" + payload + "-" + rest, decoded) == DecodeFrom(rest, PushPayload(payload, decoded).value)
  {
    OpensShift(payload + ['-'] + rest, decoded);
    ClosesShift(payload, rest, decoded);
    assert "&" + payload + "-" + rest == "&" + (payload + ['-'] + rest);
  }

  lemma DecodesRun(run: string, rest: string, decoded: string)
    requires run != "" && Utf8Len(decoded + run) <= MAX_NAME
    requires forall c | c in run :: !IsAscii(c)
    ensures DecodeFrom(Shifted(run) + rest, decoded) == DecodeFrom(rest, decoded + run)
  {
    PushesPayload(run, decoded);
    PayloadSymbols(run);
    Utf8LenAppend(decoded, run);
    DecodesShift(Payload(run), rest, decoded);
  }

  lemma DecodesAscii(c: char, rest: string, decoded: string)
    requires Utf8Len(decoded) + Utf8Size(c) <= MAX_NAME
    ensures DecodeFrom(Plain(c) + rest, decoded) == DecodeFrom(rest, decoded + [c])
  {
    if c == '&' {
      Utf8LenAppend(decoded, "&");
      DecodesShift("", rest, decoded);
      assert "&" + "" + "-" + rest == Plain(c) + rest;
    } else {
      DecodesPlain(c, rest, decoded);
    }
  }

  /** What the encoder writes after the leading run. */
  function Tail(name: string): string {
    var end := RunLength(name);
    if end < |name| then Plain(name[end]) + Encode(name[end + 1..]) else ""
  }

  lemma EncodeSplits(name: string)
    requires name != ""
    ensures var end := RunLength(name);
      Encode(name) == (if end > 0 then Shifted(name[..end]) else "") + Tail(name)
  {
    var end := RunLength(name);
    var shifted := if end > 0 then Shifted(name[..end]) else "";
    if end < |name| {
      Regroup(shifted, Plain(name[end]), Encode(name[end + 1..]));
    } else {
      assert Turn(name) == (shifted, "");
      assert shifted + "" == shifted;
    }
  }

  lemma FitsInParts(decoded: string, a: string, b: string)
    requires Utf8Len(decoded + (a + b)) <= MAX_NAME
    ensures decoded + (a + b) == decoded + a + b
    ensures Utf8Len(decoded + a) <= MAX_NAME && Utf8Len(decoded) + Utf8Len(a) <= MAX_NAME
  {
    assert decoded + (a + b) == decoded + a + b;
    Utf8LenAppend(decoded + a, b);
    Utf8LenAppend(decoded, a);
  }

  lemma DecodesLeadingRun(run: string, text: string, tail: string, decoded: string)
    requires forall c | c in run :: !IsAscii(c)
    requires text == (if run != "" then Shifted(run) else "") + tail && Utf8Len(decoded + run) <= MAX_NAME
    ensures DecodeFrom(text, decoded) == DecodeFrom(tail, decoded + run)
  {
    if run != "" {
      DecodesRun(run, tail, decoded);
    } else {
      assert text == tail && decoded + run == decoded;
    }
  }

  /** The decoder undoes the encoder, within the length limit. */
  lemma {:induction false} DecodesEncoding(name: string, decoded: string)
    requires Utf8Len(decoded + name) <= MAX_NAME
    ensures DecodeFrom(Encode(name), decoded) == Some(decoded + name)
    decreases |name|
  {
    if name == "" {
      assert decoded + name == decoded;
    } else {
      var end := RunLength(name);
      assert name == name[..end] + name[end..];
      FitsInParts(decoded, name[..end], name[end..]);
      EncodeSplits(name);
      DecodesLeadingRun(name[..end], Encode(name), Tail(name), decoded);
      DecodesTail(name, decoded + name[..end]);
    }
  }

  lemma {:induction false} DecodesTail(name: string, decoded: string)
    requires name != "" && Utf8Len(decoded + name[RunLength(name)..]) <= MAX_NAME
    ensures DecodeFrom(Tail(name), decoded) == Some(decoded + name[RunLength(name)..])
    decreases |name|, 0
  {
    var end := RunLength(name);
    if end < |name| {
      assert name[end..] == [name[end]] + name[end + 1..];
      FitsInParts(decoded, [name[end]], name[end + 1..]);
      assert Utf8Len([name[end]]) == Utf8Size(name[end]);
      DecodesAscii(name[end], Encode(name[end + 1..]), decoded);
      DecodesEncoding(name[end + 1..], decoded + [name[end]]);
    } else {
      assert decoded + name[end..] == decoded;
    }
  }

  lemma {:induction false} EncodesPrintably(name: string)
    requires NoControl(name)
    ensures forall c | c in Encode(name) :: IsPrintable(c)
    decreases |name|
  {
    if name != "" {
      var end := RunLength(name);
      PayloadSymbols(name[..end]);
      if end < |name| {
        assert name[end] in name;
        EncodesPrintably(name[end + 1..]);
      }
    }
  }

  lemma {:induction false} PrintableLength(s: string)
    requires forall c | c in s :: IsPrintable(c)
    ensures Utf8Len(s) == |s|
  {
    if s != "" {
      assert s[0] in s;
      PrintableLength(s[1..]);
    }
  }

  lemma {:induction false} DecodedFits(remaining: string, decoded: string)
    requires Utf8Len(decoded) <= MAX_NAME
    ensures DecodeFrom(remaining, decoded).Some? ==> Utf8Len(DecodeFrom(remaining, decoded).value) <= MAX_NAME
    decreases |remaining|, 1
  {
    var shift := IndexOf(remaining, '&');
    Utf8LenAppend(decoded, remaining[..shift]);
    if shift < |remaining| {
      ShiftFits(remaining[shift + 1..], decoded + remaining[..shift]);
    }
  }

  lemma {:induction false} ShiftFits(shifted: string, decoded: string)
    ensures DecodeShift(shifted, decoded).Some? ==> Utf8Len(DecodeShift(shifted, decoded).value) <= MAX_NAME
    decreases |shifted|, 0
  {
    var end := IndexOf(shifted, '-');
    if end < |shifted| {
      var pushed := PushPayload(shifted[..end], decoded);
      if pushed.Some? && Utf8Len(pushed.value) <= MAX_NAME {
        DecodedFits(shifted[end + 1..], pushed.value);
      }
    }
  }

  /** The accepted language, exactly: a wire name decodes to `name` if and only if it is the encoding of `name`
      and `name` is short enough and has no control character. No length check turns such an encoding down. */
  lemma ExactLanguage(wire: string, name: string)
    ensures Decode(wire) == Ok(name) <==> wire == Encode(name) && Utf8Len(name) <= MAX_NAME && NoControl(name)
  {
    if wire == Encode(name) && Utf8Len(name) <= MAX_NAME && NoControl(name) {
      EncodesPrintably(name);
      PrintableLength(wire);
      EncodedWithin(name);
      assert "" + name == name;
      DecodesEncoding(name, "");
    }
    if Decode(wire) == Ok(name) {
      DecodedFits(wire, "");
    }
  }

  /** Every name an operator may configure round-trips, and no two of them share a wire form. */
  lemma ConfiguredNamesRoundTrip(a: string, b: string)
    requires Mailbox(a).Ok? && Mailbox(b).Ok?
    ensures Decode(Encode(a)) == Ok(a)
    ensures Encode(a) == Encode(b) ==> a == b
  {
    ExactLanguage(Encode(a), a);
    ExactLanguage(Encode(b), b);
  }

  /** An operator may configure exactly the non-empty names that a server's wire form can be decoded to. */
  lemma ConfigurableExactly(name: string)
    ensures Mailbox(name).Ok? <==> name != "" && exists wire :: Decode(wire) == Ok(name)
  {
    ExactLanguage(Encode(name), name);
    forall wire | Decode(wire) == Ok(name)
      ensures Utf8Len(name) <= MAX_NAME && NoControl(name)
    {
      ExactLanguage(wire, name);
    }
  }

  /** Two wire forms of one name are the same. */
  lemma OneWireForm(v: string, w: string)
    requires Decode(v).Ok? && Decode(w).Ok? && Decode(v).value == Decode(w).value
    ensures v == w
  {
    ExactLanguage(v, Decode(v).value);
    ExactLanguage(w, Decode(w).value);
  }

  // ---- bytes and controls ------------------------------------------------------------------------

  function Bits(b: seq<byte>, k: nat, mark: int): int
    requires k < |b|
  {
    b[k] as int - mark
  }

  /** The character `n` in UTF-8, in its shortest form (section 3 of RFC 3629). */
  predicate IsUtf8(b: seq<byte>, n: int) {
    && (forall k :: 1 <= k < |b| ==> 0 <= Bits(b, k, 0x80) < 64)
    && match |b|
       case 1 => n == b[0] < 0x80
       case 2 => 0 <= Bits(b, 0, 0xC0) < 32 && n == Bits(b, 0, 0xC0) * 64 + Bits(b, 1, 0x80) && n >= 0x80
       case 3 =>
         && 0 <= Bits(b, 0, 0xE0) < 16 && n >= 0x800
         && n == (Bits(b, 0, 0xE0) * 64 + Bits(b, 1, 0x80)) * 64 + Bits(b, 2, 0x80)
       case 4 =>
         && 0 <= Bits(b, 0, 0xF0) < 8 && n >= 0x10000
         && n == ((Bits(b, 0, 0xF0) * 64 + Bits(b, 1, 0x80)) * 64 + Bits(b, 2, 0x80)) * 64 + Bits(b, 3, 0x80)
       case _ => false
  }

  lemma SixBits(n: int)
    requires 0 <= n
    ensures n == n / 64 * 64 + n % 64 && 0 <= n % 64 < 64 && 0 <= n / 64
    ensures forall top: nat :: n < top * 64 ==> n / 64 < top
  {
  }

  /** The counted size is that of the UTF-8 form, and of no other. */
  lemma Utf8SizeExactly(c: char) returns (bytes: seq<byte>)
    ensures IsUtf8(bytes, c as int) && |bytes| == Utf8Size(c)
    ensures forall b: seq<byte> :: IsUtf8(b, c as int) ==> |b| == |bytes|
  {
    bytes := InUtf8(c as int);
    forall b: seq<byte> | IsUtf8(b, c as int)
      ensures |b| == |bytes|
    {
      OneSize(b, c as int);
      OneSize(bytes, c as int);
    }
  }

  lemma OneSize(b: seq<byte>, n: int)
    requires IsUtf8(b, n)
    ensures |b| == if n < 0x80 then 1 else if n < 0x800 then 2 else if n < 0x10000 then 3 else 4
  {
  }

  lemma InUtf8(n: int) returns (bytes: seq<byte>)
    requires 0 <= n < 0x110000
    ensures IsUtf8(bytes, n)
  {
    SixBits(n);
    SixBits(n / 64);
    SixBits(n / 64 / 64);
    bytes := OfBits(n, n / 64, n / 64 / 64, n / 64 / 64 / 64, n % 64, n / 64 % 64, n / 64 / 64 % 64);
  }

  lemma OfBits(n: int, x: int, y: int, z: int, low: int, middle: int, high: int) returns (bytes: seq<byte>)
    requires 0 <= n < 0x110000 && n == x * 64 + low && x == y * 64 + middle && y == z * 64 + high
    requires 0 <= low < 64 && 0 <= middle < 64 && 0 <= high < 64
    ensures IsUtf8(bytes, n)
  {
    bytes := if n < 0x80 then [n]
             else if n < 0x800 then [0xC0 + x, 0x80 + low]
             else if n < 0x10000 then [0xE0 + y, 0x80 + middle, 0x80 + low]
             else [0xF0 + z, 0x80 + high, 0x80 + middle, 0x80 + low];
  }

  /** A name may be configured if it is neither empty nor past 1024 bytes, the first thing checked, and has none of the
      65 control characters. A wire name that does not decode is always the server's fault. */
  lemma MailboxByGuard(name: string)
    ensures var controls := exists c :: c in name && (c < ' ' || '\U{7f}' <= c <= '\U{9f}');
      && (Mailbox(name) == Err(InvalidInput) <==> name == "" || Utf8Len(name) > 1024)
      && (Mailbox(name) == Err(Unsupported) <==> name != "" && Utf8Len(name) <= 1024 && controls)
      && (Mailbox(name).Ok? <==> name != "" && Utf8Len(name) <= 1024 && !controls)
      && (Decode(name).Err? ==> Decode(name) == Err(Protocol))
  {
  }
}
