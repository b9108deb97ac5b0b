/** The filter that keeps message bodies from driving a terminal (`src/frontends/presentation.rs`). */
module Presentation {
  const BELL := 7 as char
  const ESCAPE := 0x1b as char
  const STRING_TERMINATOR := 0x9c as char

  predicate Control(c: char) { c as int < 0x20 || 0x7f <= c as int <= 0x9f }

  /** Controls, and the invisible or reordering characters a terminal may act on. */
  predicate Unsafe(c: char) {
    var n := c as int;
    || Control(c)
    || n == 0xad || n == 0x61c || n == 0x200b || n == 0x200e || n == 0x200f || n == 0x2028 || n == 0x2029
    || 0x202a <= n <= 0x202e || 0x2060 <= n <= 0x2064 || 0x2066 <= n <= 0x2069 || n == 0xfeff
  }

  predicate Plain(c: char) { c == '\n' || !Unsafe(c) }

  predicate AllPlain(text: string) { forall i :: 0 <= i < |text| ==> Plain(text[i]) }

  // ---- visible escapes ----------------------------------------------------------------------------

  function HexDigit(n: int): char
    requires 0 <= n < 16
  {
    if n < 10 then (n + 48) as char else (n + 87) as char
  }

  /** Four lower-case hexadecimal digits; no unsafe character needs more. */
  function Hex(n: int): string
    requires 0 <= n < 0x10000
  {
    [HexDigit(n / 4096), HexDigit(n / 256 % 16), HexDigit(n / 16 % 16), HexDigit(n % 16)]
  }

  function Visible(c: char): string
    requires Unsafe(c)
  {
    ['\\', 'u', '{'] + Hex(c as int) + ['}']
  }

  lemma HexDigitIsDistinct(n: int, m: int)
    requires 0 <= n < 16 && 0 <= m < 16 && HexDigit(n) == HexDigit(m)
    ensures n == m
  {
  }

  lemma HexIsDistinct(n: int, m: int)
    requires 0 <= n < 0x10000 && 0 <= m < 0x10000 && Hex(n) == Hex(m)
    ensures n == m
  {
    var a, b := Hex(n), Hex(m);
    assert a[0] == b[0] && a[1] == b[1] && a[2] == b[2] && a[3] == b[3];
    HexDigitIsDistinct(n / 4096, m / 4096);
    HexDigitIsDistinct(n / 256 % 16, m / 256 % 16);
    HexDigitIsDistinct(n / 16 % 16, m / 16 % 16);
    HexDigitIsDistinct(n % 16, m % 16);
    Digits(n);
    Digits(m);
  }

  lemma Digits(n: int)
    requires 0 <= n < 0x10000
    ensures n == n / 4096 * 4096 + n / 256 % 16 * 256 + n / 16 % 16 * 16 + n % 16
  {
    assert n / 16 / 16 == n / 256 && n / 256 / 16 == n / 4096;
  }

  lemma VisibleIsPlain(c: char)
    requires Unsafe(c)
    ensures AllPlain(Visible(c))
  {
    var n := c as int;
    HexDigitIsPlain(n / 4096);
    HexDigitIsPlain(n / 256 % 16);
    HexDigitIsPlain(n / 16 % 16);
    HexDigitIsPlain(n % 16);
  }

  lemma HexDigitIsPlain(n: int)
    requires 0 <= n < 16
    ensures Plain(HexDigit(n))
  {
  }

  /** A reader can tell from the escape which character stood there. */
  lemma VisibleIsDistinct(c: char, d: char)
    requires Unsafe(c) && Unsafe(d) && Visible(c) == Visible(d)
    ensures c == d
  {
    assert Visible(c)[3..7] == Hex(c as int) && Visible(d)[3..7] == Hex(d as int);
    HexIsDistinct(c as int, d as int);
  }

  // ---- escape sequences ---------------------------------------------------------------------------

  predicate FinalByte(c: char) { '@' <= c <= '~' }

  /** What follows a control sequence whose introducer has been read. */
  function AfterCsi(text: string): (rest: string)
    ensures |rest| <= |text|
  {
    if text == "" then "" else if FinalByte(text[0]) then text[1..] else AfterCsi(text[1..])
  }

  /** What follows a control string whose introducer has been read; only an OSC string also ends at a bell. */
  function AfterString(text: string, osc: bool): (rest: string)
    ensures |rest| <= |text|
  {
    if text == "" then ""
    else if text[0] == STRING_TERMINATOR || (osc && text[0] == BELL) then text[1..]
    else if text[0] == ESCAPE && |text| > 1 && text[1] == '\\' then text[2..]
    else AfterString(text[1..], osc)
  }

  predicate StringIntroducer(c: char) { c == ']' || c == 'P' || c == 'X' || c == '^' || c == '_' }

  /** The one-character introducers of the control strings other than OSC. */
  predicate PlainStringControl(c: char) {
    c as int == 0x90 || c as int == 0x98 || c as int == 0x9e || c as int == 0x9f
  }

  /** How the first character of a text is shown, and what is left after it and whatever it introduces. */
  function Shown(text: string): (string, string)
    requires text != ""
    ensures |Shown(text).1| < |text|
  {
    var c, rest := text[0], text[1..];
    if c == '\r' then ("\n", if rest != "" && rest[0] == '\n' then rest[1..] else rest)
    else if c == '\n' then ("\n", rest)
    else if c == '\t' then ("    ", rest)
    else if c == ESCAPE && rest != "" && rest[0] == '[' then ("", AfterCsi(rest[1..]))
    else if c == ESCAPE && rest != "" && StringIntroducer(rest[0]) then ("", AfterString(rest[1..], rest[0] == ']'))
    else if c as int == 0x9b then ("", AfterCsi(rest))
    else if c as int == 0x9d then ("", AfterString(rest, true))
    else if PlainStringControl(c) then ("", AfterString(rest, false))
    else if Unsafe(c) then (Visible(c), rest)
    else ([c], rest)
  }

  /** The output after a text has gone through the filter. */
  function Push(output: string, text: string): string
    decreases |text|
  {
    if text == "" then output else Push(output + Shown(text).0, Shown(text).1)
  }

  function Filter(text: string): string {
    Push("", text)
  }

  // ---- the loops ----------------------------------------------------------------------------------

  method SkipCsi(text: string, start: nat) returns (i: nat)
    requires start <= |text|
    ensures start <= i <= |text| && text[i..] == AfterCsi(text[start..])
  {
    i := start;
    while i < |text|
      invariant start <= i <= |text|
      invariant AfterCsi(text[i..]) == AfterCsi(text[start..])
    {
      var c := text[i];
      assert text[i..][1..] == text[i + 1..];
      i := i + 1;
      if FinalByte(c) {
        return;
      }
    }
  }

  method SkipString(text: string, start: nat, osc: bool) returns (i: nat)
    requires start <= |text|
    ensures start <= i <= |text| && text[i..] == AfterString(text[start..], osc)
  {
    i := start;
    while i < |text|
      invariant start <= i <= |text|
      invariant AfterString(text[i..], osc) == AfterString(text[start..], osc)
    {
      var c := text[i];
      assert text[i..][1..] == text[i + 1..];
      i := i + 1;
      if c == STRING_TERMINATOR || (osc && c == BELL) {
        return;
      }
      if c == ESCAPE && i < |text| && text[i] == '\\' {
        assert text[i - 1..][2..] == text[i + 1..];
        i := i + 1;
        return;
      }
    }
  }

  /** One turn of the filter's loop at a character of the text. */
  method Show(text: string, start: nat) returns (shown: string, i: nat)
    requires start < |text|
    ensures start < i <= |text| && (shown, text[i..]) == Shown(text[start..])
  {
    var c := text[start];
    i := start + 1;
    assert text[start..][1..] == text[i..];
    if c == '\r' {
      if i < |text| && text[i] == '\n' {
        assert text[i..][1..] == text[i + 1..];
        i := i + 1;
      }
      return "\n", i;
    }
    if c == '\n' {
      return "\n", i;
    }
    if c == '\t' {
      return "    ", i;
    }
    if c == ESCAPE {
      if i < |text| && text[i] == '[' {
        assert text[i..][1..] == text[i + 1..];
        i := SkipCsi(text, i + 1);
        return "", i;
      }
      if i < |text| && StringIntroducer(text[i]) {
        assert text[i..][1..] == text[i + 1..];
        i := SkipString(text, i + 1, text[i] == ']');
        return "", i;
      }
      return Visible(ESCAPE), i;
    }
    if c as int == 0x9b {
      i := SkipCsi(text, i);
      return "", i;
    }
    if c as int == 0x9d {
      i := SkipString(text, i, true);
      return "", i;
    }
    if PlainStringControl(c) {
      i := SkipString(text, i, false);
      return "", i;
    }
    if Unsafe(c) {
      return Visible(c), i;
    }
    return [c], i;
  }

  /** Appends a body: the plain prefix is copied as it stands, and only the rest goes through the filter. */
  method AppendBody(output: string, text: string) returns (appended: string)
    ensures appended == Push(output, text)
  {
    var start := 0;
    while start < |text| && Plain(text[start])
      invariant 0 <= start <= |text| && AllPlain(text[..start])
    {
      start := start + 1;
    }
    appended := output + text[..start];
    PlainPrefix(output, text[..start], text[start..]);
    assert text == text[..start] + text[start..];
    var i := start;
    while i < |text|
      invariant start <= i <= |text|
      invariant Push(appended, text[i..]) == Push(output, text)
    {
      var shown, next := Show(text, i);
      appended := appended + shown;
      i := next;
    }
  }

  // ---- what the filter guarantees -----------------------------------------------------------------

  lemma PlainFirst(output: string, text: string)
    requires text != "" && Plain(text[0])
    ensures Push(output, text) == Push(output + [text[0]], text[1..])
  {
    assert Shown(text) == ([text[0]], text[1..]);
  }

  /** Copying the plain prefix first is the same as running the filter from the start. */
  lemma {:induction false} PlainPrefix(output: string, prefix: string, rest: string)
    requires AllPlain(prefix)
    ensures Push(output, prefix + rest) == Push(output + prefix, rest)
    decreases |prefix|
  {
    if prefix == "" {
      assert prefix + rest == rest && output + prefix == output;
    } else {
      var tail, text := prefix[1..], prefix + rest;
      assert Plain(prefix[0]);
      PlainFirst(output, text);
      assert text[1..] == tail + rest;
      PlainPrefix(output + [prefix[0]], tail, rest);
      assert output + [prefix[0]] + tail == output + prefix;
    }
  }

  lemma ShownIsPlain(text: string)
    requires text != ""
    ensures AllPlain(Shown(text).0)
  {
    if Unsafe(text[0]) {
      VisibleIsPlain(text[0]);
    }
  }

  /** Whatever the text, nested and unterminated sequences included, the filter only adds to the output, and only plain
      characters. */
  lemma {:induction false} PushIsSafe(output: string, text: string)
    ensures |output| <= |Push(output, text)| && Push(output, text)[..|output|] == output
    ensures AllPlain(Push(output, text)[|output|..])
    decreases |text|
  {
    if text != "" {
      var shown, rest := Shown(text).0, Shown(text).1;
      var all := Push(output + shown, rest);
      ShownIsPlain(text);
      PushIsSafe(output + shown, rest);
      assert all[..|output|] == all[..|output + shown|][..|output|];
      forall i | |output| <= i < |all|
        ensures Plain(all[i])
      {
        if i < |output + shown| {
          assert all[i] == shown[i - |output|];
        } else {
          assert all[i] == all[|output + shown|..][i - |output + shown|];
        }
      }
    }
  }

  /** What is added does not depend on the output it is added to. */
  lemma {:induction false} PushAppends(output: string, text: string)
    ensures Push(output, text) == output + Filter(text)
    decreases |text|
  {
    if text == "" {
      assert output + "" == output;
    } else {
      var shown, rest := Shown(text).0, Shown(text).1;
      PushAppends(output + shown, rest);
      PushAppends("" + shown, rest);
      assert "" + shown == shown;
      assert output + shown + Filter(rest) == output + (shown + Filter(rest));
    }
  }

  lemma FilterIsSafe(text: string)
    ensures AllPlain(Filter(text))
  {
    PushIsSafe("", text);
    assert Filter(text)[0..] == Filter(text);
  }

  /** The filter leaves a text alone exactly when it is plain already, so filtering twice is filtering once. */
  lemma FilterFixesPlain(text: string)
    ensures Filter(text) == text <==> AllPlain(text)
    ensures Filter(Filter(text)) == Filter(text)
  {
    FilterIsSafe(text);
    PlainAlone(Filter(text));
    if AllPlain(text) {
      PlainAlone(text);
    }
  }

  lemma PlainAlone(text: string)
    requires AllPlain(text)
    ensures Filter(text) == text
  {
    PlainPrefix("", text, "");
    assert text + "" == text && "" + text == text;
  }

  // ---- what the filter shows ----------------------------------------------------------------------

  lemma ShownFirst(text: string)
    requires text != ""
    ensures Filter(text) == Shown(text).0 + Filter(Shown(text).1)
  {
    assert "" + Shown(text).0 == Shown(text).0;
    PushAppends(Shown(text).0, Shown(text).1);
  }

  /** Every way to end a line becomes one newline: a carriage return takes the newline after it along. */
  lemma LineEnds(rest: string)
    ensures Filter("\n" + rest) == "\n" + Filter(rest)
    ensures Filter("\r\n" + rest) == "\n" + Filter(rest)
    ensures rest == "" || rest[0] != '\n' ==> Filter("\r" + rest) == "\n" + Filter(rest)
  {
    ShownFirst("\n" + rest);
    assert ("\n" + rest)[1..] == rest;
    ShownFirst("\r\n" + rest);
    assert ("\r\n" + rest)[1..] == "\n" + rest && ("\n" + rest)[1..] == rest;
    ShownFirst("\r" + rest);
    assert ("\r" + rest)[1..] == rest;
  }

  lemma TabsAreFourSpaces(rest: string)
    ensures Filter("\t" + rest) == "    " + Filter(rest)
  {
    ShownFirst("\t" + rest);
    assert ("\t" + rest)[1..] == rest;
  }

  /** A character that starts something the filter skips. */
  predicate Introduces(c: char, rest: string) {
    || c in "\U{90}\U{98}\U{9b}\U{9d}\U{9e}\U{9f}"
    || (c == '\U{1b}' && rest != "" && rest[0] in "[]PX^_")
  }

  function Digit(c: char): int {
    if '0' <= c <= '9' then c as int - '0' as int
    else if 'a' <= c <= 'f' then c as int - 'a' as int + 10
    else -1
  }

  /** The number that four hexadecimal digits stand for. */
  predicate Names(digits: string, n: int) {
    && |digits| == 4 && (forall i :: 0 <= i < 4 ==> 0 <= Digit(digits[i]))
    && n == ((Digit(digits[0]) * 16 + Digit(digits[1])) * 16 + Digit(digits[2])) * 16 + Digit(digits[3])
  }

  lemma HexNames(n: int)
    requires 0 <= n < 0x10000
    ensures Names(Hex(n), n)
  {
    HexDigitReads(n / 4096);
    HexDigitReads(n / 256 % 16);
    HexDigitReads(n / 16 % 16);
    HexDigitReads(n % 16);
    Digits(n);
  }

  lemma HexDigitReads(n: int)
    requires 0 <= n < 16
    ensures Digit(HexDigit(n)) == n
  {
  }

  /** An unsafe character that starts nothing is not dropped: its code point is shown, and the filter goes on after
      it. */
  lemma UnsafeIsShown(c: char, rest: string) returns (digits: string)
    requires !Plain(c) && c != '\r' && c != '\t' && !Introduces(c, rest)
    ensures Names(digits, c as int)
    ensures Filter([c] + rest) == "\\u{" + digits + "}" + Filter(rest)
  {
    digits := Hex(c as int);
    HexNames(c as int);
    ShownFirst([c] + rest);
    assert ([c] + rest)[1..] == rest;
    assert Visible(c) == "\\u{" + digits + "}";
  }

  lemma PlainIsShown(c: char, rest: string)
    requires Plain(c)
    ensures Filter([c] + rest) == [c] + Filter(rest)
  {
    PlainPrefix("", [c], rest);
    PushAppends([c], rest);
    assert "" + [c] == [c];
  }

  /** Besides the controls, the soft hyphen, the marks and separators of U+061C to U+2069 that hide or reorder text, and
      the byte-order mark are unsafe; nothing else is. */
  lemma UnsafeExactly(c: char)
    ensures Unsafe(c) <==>
            || c < ' ' || '\U{7f}' <= c <= '\U{9f}'
            || c in "\U{ad}\U{61c}\U{200b}\U{200e}\U{200f}\U{2028}\U{2029}"
            || c in "\U{202a}\U{202b}\U{202c}\U{202d}\U{202e}"
            || c in "\U{2060}\U{2061}\U{2062}\U{2063}\U{2064}\U{2066}\U{2067}\U{2068}\U{2069}\U{feff}"
  {
  }

  // ---- what the filter removes --------------------------------------------------------------------

  /** Whatever the introducer starts is gone: the filter goes on after it with the output it had. */
  ghost predicate Vanishes(introducer: string, body: string, rest: string) {
    forall output: string :: Push(output, introducer + body) == Push(output, rest)
  }

  lemma Vanished(introducer: string, body: string, rest: string)
    requires introducer != "" && Shown(introducer + body) == ("", rest)
    ensures Vanishes(introducer, body, rest)
  {
    forall output: string
      ensures Push(output, introducer + body) == Push(output, rest)
    {
      assert output + "" == output;
    }
  }

  predicate IntroducesCsi(introducer: string) {
    introducer == "\U{1b}[" || introducer == "\U{9b}"
  }

  /** The two-character and the one-character introducers of a control string. */
  predicate IntroducesString(introducer: string) {
    || (|introducer| == 2 && introducer[0] == '\U{1b}' && introducer[1] in "]PX^_")
    || (|introducer| == 1 && introducer[0] in "\U{90}\U{98}\U{9d}\U{9e}\U{9f}")
  }

  predicate Osc(introducer: string) {
    introducer == "\U{1b}]" || introducer == "\U{9d}"
  }

  lemma Introduced(introducer: string, body: string)
    requires 1 <= |introducer| <= 2
    ensures (introducer + body)[0] == introducer[0]
    ensures |introducer| == 1 ==> (introducer + body)[1..] == body
    ensures |introducer| == 2 ==> (introducer + body)[1..][0] == introducer[1] && (introducer + body)[1..][1..] == body
  {
  }

  lemma CsiIsShown(introducer: string, body: string)
    requires IntroducesCsi(introducer)
    ensures Shown(introducer + body) == ("", AfterCsi(body))
  {
    Introduced(introducer, body);
  }

  lemma StringIsShown(introducer: string, body: string)
    requires IntroducesString(introducer)
    ensures Shown(introducer + body) == ("", AfterString(body, Osc(introducer)))
  {
    Introduced(introducer, body);
  }

  /** No character that ends a control sequence. */
  predicate Parameters(text: string) {
    forall i :: 0 <= i < |text| ==> !('@' <= text[i] <= '~')
  }

  lemma {:induction false} CsiEnds(parameters: string, final: char, rest: string)
    requires Parameters(parameters) && '@' <= final <= '~'
    ensures AfterCsi(parameters + [final] + rest) == rest
    decreases |parameters|
  {
    var text := parameters + [final] + rest;
    if parameters != "" {
      assert text[1..] == parameters[1..] + [final] + rest;
      CsiEnds(parameters[1..], final, rest);
    }
  }

  /** A complete control sequence disappears, whichever way it is introduced. */
  lemma CsiVanishes(introducer: string, parameters: string, final: char, rest: string)
    requires IntroducesCsi(introducer) && Parameters(parameters) && '@' <= final <= '~'
    ensures Vanishes(introducer, parameters + [final] + rest, rest)
  {
    CsiEnds(parameters, final, rest);
    CsiIsShown(introducer, parameters + [final] + rest);
    Vanished(introducer, parameters + [final] + rest, rest);
  }

  lemma {:induction false} UnfinishedCsi(text: string)
    requires Parameters(text)
    ensures AfterCsi(text) == ""
  {
    if text != "" {
      UnfinishedCsi(text[1..]);
    }
  }

  /** A control sequence without a final byte takes the rest of the text with it. */
  lemma UnfinishedCsiVanishes(introducer: string, text: string)
    requires IntroducesCsi(introducer) && Parameters(text)
    ensures Vanishes(introducer, text, "")
  {
    UnfinishedCsi(text);
    CsiIsShown(introducer, text);
    Vanished(introducer, text, "");
  }

  predicate Backslashed(text: string, i: nat)
    requires i + 1 < |text|
  {
    text[i] == '\U{1b}' && text[i + 1] == '\\'
  }

  /** Nothing in the payload ends the string: neither a terminator, nor a bell in an OSC string, nor an escape before a
      backslash. */
  predicate Payload(payload: string, osc: bool) {
    && (forall i :: 0 <= i < |payload| ==> payload[i] != '\U{9c}' && !(osc && payload[i] == '\U{07}'))
    && (forall i :: 0 <= i < |payload| - 1 ==> !Backslashed(payload, i))
  }

  predicate Terminator(end: string, osc: bool) {
    end == "\U{9c}" || end == "\U{1b}\\" || (osc && end == "\U{07}")
  }

  lemma {:induction false} StringEnds(payload: string, end: string, rest: string, osc: bool)
    requires Payload(payload, osc) && Terminator(end, osc)
    ensures AfterString(payload + end + rest, osc) == rest
    decreases |payload|
  {
    var text := payload + end + rest;
    if payload == "" {
      assert text == end + rest;
      assert text[|end|..] == rest;
    } else {
      assert text[0] == payload[0];
      assert |payload| > 1 ==> text[1] == payload[1] && !Backslashed(payload, 0);
      assert |payload| == 1 ==> text[1] == end[0];
      PayloadTail(payload, osc);
      assert text[1..] == payload[1..] + end + rest;
      StringEnds(payload[1..], end, rest, osc);
    }
  }

  /** A complete control string disappears with its payload, sequences nested in it included, whichever way it is
      introduced. */
  lemma StringVanishes(introducer: string, payload: string, end: string, rest: string)
    requires IntroducesString(introducer)
    requires Payload(payload, Osc(introducer)) && Terminator(end, Osc(introducer))
    ensures Vanishes(introducer, payload + end + rest, rest)
  {
    StringEnds(payload, end, rest, Osc(introducer));
    StringIsShown(introducer, payload + end + rest);
    Vanished(introducer, payload + end + rest, rest);
  }

  lemma PayloadTail(text: string, osc: bool)
    requires Payload(text, osc) && text != ""
    ensures Payload(text[1..], osc)
  {
    forall i | 0 <= i < |text[1..]| - 1
      ensures !Backslashed(text[1..], i)
    {
      assert !Backslashed(text, i + 1);
    }
  }

  lemma {:induction false} UnfinishedString(text: string, osc: bool)
    requires Payload(text, osc)
    ensures AfterString(text, osc) == ""
    decreases |text|
  {
    if text != "" {
      assert |text| > 1 ==> !Backslashed(text, 0);
      PayloadTail(text, osc);
      UnfinishedString(text[1..], osc);
    }
  }

  /** A control string that nothing ends takes the rest of the text with it, whichever way it is introduced. */
  lemma UnfinishedStringVanishes(introducer: string, text: string)
    requires IntroducesString(introducer) && Payload(text, Osc(introducer))
    ensures Vanishes(introducer, text, "")
  {
    UnfinishedString(text, Osc(introducer));
    StringIsShown(introducer, text);
    Vanished(introducer, text, "");
  }

  /** There is nothing else after an introducer: every text is all payload, or payload, a terminator and a rest. */
  lemma {:induction false} StringSplits(text: string, osc: bool) returns (payload: string, end: string, rest: string)
    ensures text == payload + end + rest && Payload(payload, osc)
    ensures Terminator(end, osc) || (end == "" && rest == "")
    decreases |text|
  {
    if text == "" {
      payload, end, rest := "", "", "";
    } else if text[0] == '\U{9c}' || (osc && text[0] == '\U{07}') {
      payload, end, rest := "", [text[0]], text[1..];
    } else if |text| > 1 && Backslashed(text, 0) {
      payload, end, rest := "", text[..2], text[2..];
    } else {
      var tail: string;
      tail, end, rest := StringSplits(text[1..], osc);
      payload := [text[0]] + tail;
      assert text[1..] == tail + end + rest;
      forall i | 0 <= i < |payload| - 1
        ensures !Backslashed(payload, i)
      {
        if i == 0 {
          assert payload[1] == text[1];
        } else {
          assert !Backslashed(tail, i - 1);
        }
      }
    }
  }
}
