/** The scan that bounds nesting and structural nodes before a JSON decoder allocates (`src/encoding.rs`), and the
    trees of section 2 of RFC 8259 it is measured against. */
module JsonScan {
  import opened Wrappers

  const QUOTE: byte := 0x22
  const BACKSLASH: byte := 0x5c
  const COMMA: byte := 0x2c
  const COLON: byte := 0x3a
  const OPEN_ARRAY: byte := 0x5b
  const CLOSE_ARRAY: byte := 0x5d
  const OPEN_OBJECT: byte := 0x7b
  const CLOSE_OBJECT: byte := 0x7d

  datatype Limits = Limits(depth: nat, nodes: nat)

  // ---- the scanner --------------------------------------------------------------------------------

  datatype State = State(depth: nat, nodes: nat, quoted: bool, escaped: bool)

  function Quoted(s: State, b: byte): State {
    if s.escaped then s.(escaped := false)
    else if b == BACKSLASH then s.(escaped := true)
    else if b == QUOTE then s.(quoted := false)
    else s
  }

  predicate Opens(b: byte) { b == OPEN_ARRAY || b == OPEN_OBJECT }

  predicate Closes(b: byte) { b == CLOSE_ARRAY || b == CLOSE_OBJECT }

  predicate Counts(b: byte) { Opens(b) || b == COMMA || b == COLON }

  /** One byte outside a string; None when a bound is passed. */
  function Unquoted(s: State, b: byte, limits: Limits): Option<State> {
    if Opens(b) && s.depth + 1 > limits.depth then None
    else if Counts(b) && s.nodes + 1 > limits.nodes then None
    else Some(State(
      if Opens(b) then s.depth + 1 else if Closes(b) && s.depth > 0 then s.depth - 1 else s.depth,
      if Counts(b) then s.nodes + 1 else s.nodes,
      b == QUOTE,
      s.escaped))
  }

  function Scan(bytes: seq<byte>, s: State, limits: Limits): Option<State>
    decreases |bytes|
  {
    if bytes == [] then Some(s)
    else if s.quoted then Scan(bytes[1..], Quoted(s, bytes[0]), limits)
    else match Unquoted(s, bytes[0], limits)
      case None => None
      case Some(t) => Scan(bytes[1..], t, limits)
  }

  const INITIAL := State(0, 1, false, false)

  predicate Accepts(bytes: seq<byte>, limits: Limits) {
    Scan(bytes, INITIAL, limits).Some?
  }

  method ValidateJsonBounds(bytes: seq<byte>, maximumDepth: nat, maximumNodes: nat) returns (ok: bool)
    ensures ok == Accepts(bytes, Limits(maximumDepth, maximumNodes))
  {
    var depth, nodes, quoted, escaped := 0, 1, false, false;
    var i := 0;
    while i < |bytes|
      invariant 0 <= i <= |bytes| && depth >= 0 && nodes >= 0
      invariant Scan(bytes[i..], State(depth, nodes, quoted, escaped), Limits(maximumDepth, maximumNodes)) ==
                Scan(bytes, INITIAL, Limits(maximumDepth, maximumNodes))
    {
      var b := bytes[i];
      assert bytes[i..][0] == b && bytes[i..][1..] == bytes[i + 1..];
      if quoted {
        if escaped {
          escaped := false;
        } else if b == BACKSLASH {
          escaped := true;
        } else if b == QUOTE {
          quoted := false;
        }
      } else {
        if b == QUOTE {
          quoted := true;
        } else if Opens(b) {
          depth := depth + 1;
          if depth > maximumDepth {
            return false;
          }
        } else if Closes(b) {
          depth := if depth > 0 then depth - 1 else 0;
        }
        if Counts(b) {
          nodes := nodes + 1;
          if nodes > maximumNodes {
            return false;
          }
        }
      }
      i := i + 1;
    }
    return true;
  }

  // ---- JSON texts ---------------------------------------------------------------------------------

  /** One piece of a string: a byte as it stands, a two-byte escape or a six-byte one. */
  datatype Piece =
    | Raw(value: byte)
    | Escape(value: byte)
    | Unicode(a: byte, b: byte, c: byte, d: byte)

  /** A value as it is written, white space included. A scalar is a number or one of the three literal names. */
  datatype Value =
    | Scalar(text: seq<byte>)
    | Text(pieces: seq<Piece>)
    | Array(items: Items)
    | Object(members: Members)

  datatype Items =
    | NoItems(gap: seq<byte>)
    | LastItem(left: seq<byte>, value: Value, right: seq<byte>)
    | Item(left: seq<byte>, value: Value, right: seq<byte>, rest: Items)

  datatype Members =
    | NoMembers(gap: seq<byte>)
    | LastMember(name: Name, value: Value, right: seq<byte>)
    | Member(name: Name, value: Value, right: seq<byte>, rest: Members)

  /** A key with the white space around it and around its colon. */
  datatype Name = Name(left: seq<byte>, key: seq<Piece>, middle: seq<byte>, right: seq<byte>)

  predicate HexDigit(b: byte) { 0x30 <= b <= 0x39 || 0x41 <= b <= 0x46 || 0x61 <= b <= 0x66 }

  /** Section 7 of RFC 8259. */
  predicate LegalPiece(p: Piece) {
    match p
    case Raw(b) => b >= 0x20 && b != QUOTE && b != BACKSLASH
    case Escape(b) => b in [QUOTE, BACKSLASH, 0x2f, 0x62, 0x66, 0x6e, 0x72, 0x74]
    case Unicode(a, b, c, d) => HexDigit(a) && HexDigit(b) && HexDigit(c) && HexDigit(d)
  }

  predicate LegalPieces(pieces: seq<Piece>) {
    forall p :: p in pieces ==> LegalPiece(p)
  }

  predicate Space(bytes: seq<byte>) {
    forall b :: b in bytes ==> b == 0x20 || b == 0x09 || b == 0x0a || b == 0x0d
  }

  /** Letters, digits, signs and the decimal point: every number and literal name is made of these. */
  predicate ScalarByte(b: byte) {
    0x30 <= b <= 0x39 || 0x41 <= b <= 0x5a || 0x61 <= b <= 0x7a || b == 0x2b || b == 0x2d || b == 0x2e
  }

  predicate Legal(v: Value) {
    match v
    case Scalar(text) => forall b :: b in text ==> ScalarByte(b)
    case Text(pieces) => LegalPieces(pieces)
    case Array(items) => LegalItems(items)
    case Object(members) => LegalMembers(members)
  }

  predicate LegalItems(items: Items) {
    match items
    case NoItems(gap) => Space(gap)
    case LastItem(left, value, right) => Space(left) && Legal(value) && Space(right)
    case Item(left, value, right, rest) =>
      Space(left) && Legal(value) && Space(right) && !rest.NoItems? && LegalItems(rest)
  }

  predicate LegalName(name: Name) {
    Space(name.left) && LegalPieces(name.key) && Space(name.middle) && Space(name.right)
  }

  predicate LegalMembers(members: Members) {
    match members
    case NoMembers(gap) => Space(gap)
    case LastMember(name, value, right) => LegalName(name) && Legal(value) && Space(right)
    case Member(name, value, right, rest) =>
      LegalName(name) && Legal(value) && Space(right) && !rest.NoMembers? && LegalMembers(rest)
  }

  function PrintPieces(pieces: seq<Piece>): seq<byte> {
    if pieces == [] then []
    else (match pieces[0]
          case Raw(b) => [b]
          case Escape(b) => [BACKSLASH, b]
          case Unicode(a, b, c, d) => [BACKSLASH, 0x75, a, b, c, d]) + PrintPieces(pieces[1..])
  }

  function PrintString(pieces: seq<Piece>): seq<byte> {
    [QUOTE] + PrintPieces(pieces) + [QUOTE]
  }

  function PrintName(name: Name): seq<byte> {
    name.left + (PrintString(name.key) + (name.middle + ([COLON] + name.right)))
  }

  function Print(v: Value): seq<byte> {
    match v
    case Scalar(text) => text
    case Text(pieces) => PrintString(pieces)
    case Array(items) => [OPEN_ARRAY] + (PrintItems(items) + [CLOSE_ARRAY])
    case Object(members) => [OPEN_OBJECT] + (PrintMembers(members) + [CLOSE_OBJECT])
  }

  function PrintItems(items: Items): seq<byte> {
    match items
    case NoItems(gap) => gap
    case LastItem(left, value, right) => left + (Print(value) + right)
    case Item(left, value, right, rest) => (left + (Print(value) + right)) + ([COMMA] + PrintItems(rest))
  }

  function PrintMembers(members: Members): seq<byte> {
    match members
    case NoMembers(gap) => gap
    case LastMember(name, value, right) => PrintName(name) + (Print(value) + right)
    case Member(name, value, right, rest) =>
      (PrintName(name) + (Print(value) + right)) + ([COMMA] + PrintMembers(rest))
  }

  // ---- measures of the tree -----------------------------------------------------------------------

  function Depth(v: Value): nat {
    match v
    case Scalar(_) => 0
    case Text(_) => 0
    case Array(items) => 1 + ItemsDepth(items)
    case Object(members) => 1 + MembersDepth(members)
  }

  function ItemsDepth(items: Items): nat {
    match items
    case NoItems(_) => 0
    case LastItem(_, value, _) => Depth(value)
    case Item(_, value, _, rest) => Max(Depth(value), ItemsDepth(rest))
  }

  function MembersDepth(members: Members): nat {
    match members
    case NoMembers(_) => 0
    case LastMember(_, value, _) => Depth(value)
    case Member(_, value, _, rest) => Max(Depth(value), MembersDepth(rest))
  }

  /** The containers, commas and colons of a value. */
  function Structure(v: Value): nat {
    match v
    case Scalar(_) => 0
    case Text(_) => 0
    case Array(items) => 1 + ItemsStructure(items)
    case Object(members) => 1 + MembersStructure(members)
  }

  function ItemsStructure(items: Items): nat {
    match items
    case NoItems(_) => 0
    case LastItem(_, value, _) => Structure(value)
    case Item(_, value, _, rest) => Structure(value) + 1 + ItemsStructure(rest)
  }

  function MembersStructure(members: Members): nat {
    match members
    case NoMembers(_) => 0
    case LastMember(_, value, _) => 1 + Structure(value)
    case Member(_, value, _, rest) => 1 + Structure(value) + 1 + MembersStructure(rest)
  }

  /** What a decoder builds: values, object keys, and how many of the containers are empty. */
  datatype Census = Census(values: nat, keys: nat, empty: nat) {
    function Plus(other: Census): Census {
      Census(values + other.values, keys + other.keys, empty + other.empty)
    }
  }

  function Count(v: Value): Census {
    match v
    case Scalar(_) => Census(1, 0, 0)
    case Text(_) => Census(1, 0, 0)
    case Array(items) => Census(1, 0, 0).Plus(CountItems(items))
    case Object(members) => Census(1, 0, 0).Plus(CountMembers(members))
  }

  function CountItems(items: Items): Census {
    match items
    case NoItems(_) => Census(0, 0, 1)
    case LastItem(_, value, _) => Count(value)
    case Item(_, value, _, rest) => Count(value).Plus(CountItems(rest))
  }

  function CountMembers(members: Members): Census {
    match members
    case NoMembers(_) => Census(0, 0, 1)
    case LastMember(_, value, _) => Census(0, 1, 0).Plus(Count(value))
    case Member(_, value, _, rest) => Census(0, 1, 0).Plus(Count(value)).Plus(CountMembers(rest))
  }

  // ---- the scan of a tree -------------------------------------------------------------------------

  /** The outcome of scanning something `deep` levels deep with `count` structural bytes from a state outside a
      string: the state with the nodes added, or a refusal. */
  function After(s: State, deep: nat, count: nat, limits: Limits): Option<State> {
    if (deep == 0 || s.depth + deep <= limits.depth) && (count == 0 || s.nodes + count <= limits.nodes) then
      Some(s.(nodes := s.nodes + count))
    else
      None
  }

  function Then(first: Option<State>, bytes: seq<byte>, limits: Limits): Option<State> {
    match first
    case None => None
    case Some(s) => Scan(bytes, s, limits)
  }

  predicate Outside(s: State) { !s.quoted && !s.escaped }

  lemma {:induction false} ScanBoth(a: seq<byte>, b: seq<byte>, s: State, limits: Limits)
    ensures Scan(a + b, s, limits) == Then(Scan(a, s, limits), b, limits)
    decreases |a|
  {
    if a == [] {
      assert a + b == b;
    } else {
      assert (a + b)[1..] == a[1..] + b;
      if s.quoted {
        ScanBoth(a[1..], b, Quoted(s, a[0]), limits);
      } else {
        var next := Unquoted(s, a[0], limits);
        if next.Some? {
          ScanBoth(a[1..], b, next.value, limits);
        }
      }
    }
  }

  predicate Inert(b: byte) { b != QUOTE && !Opens(b) && !Closes(b) && !Counts(b) }

  lemma {:induction false} ScanInert(bytes: seq<byte>, s: State, limits: Limits)
    requires Outside(s) && forall b :: b in bytes ==> Inert(b)
    ensures Scan(bytes, s, limits) == Some(s)
    decreases |bytes|
  {
    if bytes != [] {
      assert bytes[0] in bytes;
      ScanInert(bytes[1..], s, limits);
    }
  }

  lemma ScanSpace(bytes: seq<byte>, s: State, limits: Limits)
    requires Outside(s) && Space(bytes)
    ensures Scan(bytes, s, limits) == Some(s)
  {
    ScanInert(bytes, s, limits);
  }

  lemma ScanOne(b: byte, s: State, limits: Limits)
    requires Outside(s)
    ensures Scan([b], s, limits) == Unquoted(s, b, limits)
  {
    assert [b][1..] == [];
  }

  lemma {:induction false} ScanPieces(pieces: seq<Piece>, s: State, limits: Limits)
    requires s.quoted && !s.escaped && LegalPieces(pieces)
    ensures Scan(PrintPieces(pieces), s, limits) == Some(s)
    decreases |pieces|
  {
    if pieces != [] {
      var rest := PrintPieces(pieces[1..]);
      ScanPieces(pieces[1..], s, limits);
      assert LegalPiece(pieces[0]);
      match pieces[0]
      case Raw(b) =>
        ScanRaw(b, rest, s, limits);
      case Escape(b) =>
        ScanEscape(b, rest, s, limits);
      case Unicode(a, b, c, d) =>
        ScanUnicode([a, b, c, d], rest, s, limits);
        assert [BACKSLASH, 0x75, a, b, c, d] + rest == [BACKSLASH, 0x75] + ([a, b, c, d] + rest);
    }
  }

  lemma ScanRaw(b: byte, rest: seq<byte>, s: State, limits: Limits)
    requires s.quoted && !s.escaped && b != QUOTE && b != BACKSLASH
    ensures Scan([b] + rest, s, limits) == Scan(rest, s, limits)
  {
    assert ([b] + rest)[1..] == rest;
  }

  lemma ScanUnicode(digits: seq<byte>, rest: seq<byte>, s: State, limits: Limits)
    requires s.quoted && !s.escaped && forall b :: b in digits ==> HexDigit(b)
    ensures Scan([BACKSLASH, 0x75] + (digits + rest), s, limits) == Scan(rest, s, limits)
  {
    ScanEscape(0x75, digits + rest, s, limits);
    ScanHex(digits, rest, s, limits);
  }

  lemma ScanEscape(b: byte, rest: seq<byte>, s: State, limits: Limits)
    requires s.quoted && !s.escaped
    ensures Scan([BACKSLASH, b] + rest, s, limits) == Scan(rest, s, limits)
  {
    var all := [BACKSLASH, b] + rest;
    assert all[1..] == [b] + rest;
    assert all[1..][1..] == rest;
  }

  lemma {:induction false} ScanHex(digits: seq<byte>, rest: seq<byte>, s: State, limits: Limits)
    requires s.quoted && !s.escaped && forall b :: b in digits ==> HexDigit(b)
    ensures Scan(digits + rest, s, limits) == Scan(rest, s, limits)
    decreases |digits|
  {
    if digits == [] {
      assert digits + rest == rest;
    } else {
      assert digits[0] in digits;
      assert (digits + rest)[1..] == digits[1..] + rest;
      ScanHex(digits[1..], rest, s, limits);
    }
  }

  lemma ScanString(pieces: seq<Piece>, s: State, limits: Limits)
    requires Outside(s) && LegalPieces(pieces)
    ensures Scan(PrintString(pieces), s, limits) == Some(s)
  {
    var inside := s.(quoted := true);
    ScanPieces(pieces, inside, limits);
    ScanBoth([QUOTE] + PrintPieces(pieces), [QUOTE], s, limits);
    ScanBoth([QUOTE], PrintPieces(pieces), s, limits);
    ScanOne(QUOTE, s, limits);
    assert Scan([QUOTE], s, limits) == Some(inside);
    assert Scan([QUOTE] + PrintPieces(pieces), s, limits) == Some(inside);
    assert [QUOTE][1..] == [];
    assert Scan([QUOTE], inside, limits) == Scan([QUOTE][1..], s, limits);
  }

  /** Two stretches in a row: their structure adds up and the deeper one decides. */
  lemma ScanRow(a: seq<byte>, deepA: nat, countA: nat, b: seq<byte>, deepB: nat, countB: nat, s: State,
                limits: Limits)
    requires Scan(a, s, limits) == After(s, deepA, countA, limits)
    requires Scan(b, s.(nodes := s.nodes + countA), limits) ==
             After(s.(nodes := s.nodes + countA), deepB, countB, limits)
    ensures Scan(a + b, s, limits) == After(s, Max(deepA, deepB), countA + countB, limits)
  {
    ScanBoth(a, b, s, limits);
  }

  lemma ScanMark(b: byte, s: State, limits: Limits)
    requires Outside(s) && (b == COMMA || b == COLON)
    ensures Scan([b], s, limits) == After(s, 0, 1, limits)
  {
    ScanOne(b, s, limits);
  }

  /** Two stretches with a comma between them. */
  lemma ScanSeparated(head: seq<byte>, deepHead: nat, countHead: nat, rest: seq<byte>, deepRest: nat,
                      countRest: nat, s: State, limits: Limits)
    requires Outside(s) && Scan(head, s, limits) == After(s, deepHead, countHead, limits)
    requires Scan(rest, s.(nodes := s.nodes + countHead + 1), limits) ==
             After(s.(nodes := s.nodes + countHead + 1), deepRest, countRest, limits)
    ensures Scan(head + ([COMMA] + rest), s, limits) ==
            After(s, Max(deepHead, deepRest), countHead + 1 + countRest, limits)
  {
    var after := s.(nodes := s.nodes + countHead);
    ScanMark(COMMA, after, limits);
    ScanRow([COMMA], 0, 1, rest, deepRest, countRest, after, limits);
    ScanRow(head, deepHead, countHead, [COMMA] + rest, deepRest, 1 + countRest, s, limits);
  }

  /** A container: one level deeper and one structural byte more than what it holds. */
  lemma ScanContainer(open: byte, inner: seq<byte>, close: byte, deep: nat, count: nat, s: State, limits: Limits)
    requires Outside(s) && Opens(open) && Closes(close)
    requires Scan(inner, State(s.depth + 1, s.nodes + 1, false, false), limits) ==
             After(State(s.depth + 1, s.nodes + 1, false, false), deep, count, limits)
    ensures Scan([open] + (inner + [close]), s, limits) == After(s, 1 + deep, 1 + count, limits)
  {
    var within := State(s.depth + 1, s.nodes + 1, false, false);
    ScanBoth([open], inner + [close], s, limits);
    ScanOne(open, s, limits);
    ScanBoth(inner, [close], within, limits);
    ScanOne(close, within.(nodes := within.nodes + count), limits);
  }

  lemma ScanName(name: Name, s: State, limits: Limits)
    requires Outside(s) && LegalName(name)
    ensures Scan(PrintName(name), s, limits) == After(s, 0, 1, limits)
  {
    var colon := [COLON] + name.right;
    ScanMark(COLON, s, limits);
    ScanSpace(name.right, s.(nodes := s.nodes + 1), limits);
    ScanRow([COLON], 0, 1, name.right, 0, 0, s, limits);
    ScanSpace(name.middle, s, limits);
    ScanRow(name.middle, 0, 0, colon, 0, 1, s, limits);
    ScanString(name.key, s, limits);
    ScanRow(PrintString(name.key), 0, 0, name.middle + colon, 0, 1, s, limits);
    ScanSpace(name.left, s, limits);
    ScanRow(name.left, 0, 0, PrintString(name.key) + (name.middle + colon), 0, 1, s, limits);
  }

  /** The scan of a printed value depends on its depth and structure alone, and it leaves the state where it was. */
  lemma {:induction false} ScanValue(v: Value, s: State, limits: Limits)
    requires Outside(s) && Legal(v)
    ensures Scan(Print(v), s, limits) == After(s, Depth(v), Structure(v), limits)
    decreases v, 0
  {
    match v
    case Scalar(text) =>
      ScanInert(text, s, limits);
    case Text(pieces) =>
      ScanString(pieces, s, limits);
    case Array(items) =>
      ScanItems(items, State(s.depth + 1, s.nodes + 1, false, false), limits);
      ScanContainer(OPEN_ARRAY, PrintItems(items), CLOSE_ARRAY, ItemsDepth(items), ItemsStructure(items), s, limits);
    case Object(members) =>
      ScanMembers(members, State(s.depth + 1, s.nodes + 1, false, false), limits);
      ScanContainer(OPEN_OBJECT, PrintMembers(members), CLOSE_OBJECT, MembersDepth(members),
                    MembersStructure(members), s, limits);
  }

  /** A value followed by white space. */
  lemma {:induction false} ScanPadded(v: Value, right: seq<byte>, s: State, limits: Limits)
    requires Outside(s) && Legal(v) && Space(right)
    ensures Scan(Print(v) + right, s, limits) == After(s, Depth(v), Structure(v), limits)
    decreases v, 1
  {
    ScanValue(v, s, limits);
    ScanSpace(right, s.(nodes := s.nodes + Structure(v)), limits);
    ScanRow(Print(v), Depth(v), Structure(v), right, 0, 0, s, limits);
  }

  lemma {:induction false} ScanItems(items: Items, s: State, limits: Limits)
    requires Outside(s) && LegalItems(items)
    ensures Scan(PrintItems(items), s, limits) == After(s, ItemsDepth(items), ItemsStructure(items), limits)
    decreases items
  {
    match items
    case NoItems(gap) =>
      ScanSpace(gap, s, limits);
    case LastItem(left, value, right) =>
      ScanItem(left, value, right, s, limits);
    case Item(left, value, right, rest) =>
      var head := left + (Print(value) + right);
      var next := s.(nodes := s.nodes + Structure(value) + 1);
      assert Scan(head, s, limits) == After(s, Depth(value), Structure(value), limits) by {
        ScanItem(left, value, right, s, limits);
      }
      assert Scan(PrintItems(rest), next, limits) == After(next, ItemsDepth(rest), ItemsStructure(rest), limits) by {
        ScanItems(rest, next, limits);
      }
      ScanSeparated(head, Depth(value), Structure(value), PrintItems(rest), ItemsDepth(rest), ItemsStructure(rest), s,
                    limits);
  }

  lemma {:induction false} ScanItem(left: seq<byte>, v: Value, right: seq<byte>, s: State, limits: Limits)
    requires Outside(s) && Space(left) && Legal(v) && Space(right)
    ensures Scan(left + (Print(v) + right), s, limits) == After(s, Depth(v), Structure(v), limits)
    decreases v, 2
  {
    ScanPadded(v, right, s, limits);
    ScanSpace(left, s, limits);
    ScanRow(left, 0, 0, Print(v) + right, Depth(v), Structure(v), s, limits);
  }

  lemma {:induction false} ScanMember(name: Name, v: Value, right: seq<byte>, s: State, limits: Limits)
    requires Outside(s) && LegalName(name) && Legal(v) && Space(right)
    ensures Scan(PrintName(name) + (Print(v) + right), s, limits) == After(s, Depth(v), 1 + Structure(v), limits)
    decreases v, 2
  {
    ScanName(name, s, limits);
    ScanPadded(v, right, s.(nodes := s.nodes + 1), limits);
    ScanRow(PrintName(name), 0, 1, Print(v) + right, Depth(v), Structure(v), s, limits);
  }

  lemma {:induction false} ScanMembers(members: Members, s: State, limits: Limits)
    requires Outside(s) && LegalMembers(members)
    ensures Scan(PrintMembers(members), s, limits) ==
            After(s, MembersDepth(members), MembersStructure(members), limits)
    decreases members
  {
    match members
    case NoMembers(gap) =>
      ScanSpace(gap, s, limits);
    case LastMember(name, value, right) =>
      ScanMember(name, value, right, s, limits);
    case Member(name, value, right, rest) =>
      var head := PrintName(name) + (Print(value) + right);
      var next := s.(nodes := s.nodes + (1 + Structure(value)) + 1);
      assert Scan(head, s, limits) == After(s, Depth(value), 1 + Structure(value), limits) by {
        ScanMember(name, value, right, s, limits);
      }
      assert Scan(PrintMembers(rest), next, limits) ==
             After(next, MembersDepth(rest), MembersStructure(rest), limits) by {
        ScanMembers(rest, next, limits);
      }
      ScanSeparated(head, Depth(value), 1 + Structure(value), PrintMembers(rest), MembersDepth(rest),
                    MembersStructure(rest), s, limits);
  }

  /** For every JSON text, however it is spaced and escaped, the scan accepts if and only if the nesting is within its
      bound and so is one more than the structure; a text without structure is never counted. */
  lemma ScanAgreesWithTree(left: seq<byte>, v: Value, right: seq<byte>, limits: Limits)
    requires Space(left) && Legal(v) && Space(right)
    ensures Accepts(left + (Print(v) + right), limits) <==>
            Depth(v) <= limits.depth && (Structure(v) == 0 || 1 + Structure(v) <= limits.nodes)
  {
    ScanItem(left, v, right, INITIAL, limits);
  }

  // ---- what the count bounds ----------------------------------------------------------------------

  /** One more than the structure is exactly the values, the keys and the empty containers together, so the node limit
      bounds everything a decoder allocates. */
  lemma {:induction false} StructureCounts(v: Value)
    requires Legal(v)
    ensures 1 + Structure(v) == Count(v).values + Count(v).keys + Count(v).empty
    decreases v
  {
    match v
    case Scalar(_) =>
    case Text(_) =>
    case Array(items) => ItemsStructureCounts(items);
    case Object(members) => MembersStructureCounts(members);
  }

  lemma {:induction false} ItemsStructureCounts(items: Items)
    requires LegalItems(items)
    ensures (if items.NoItems? then 0 else 1) + ItemsStructure(items) + (if items.NoItems? then 1 else 0) ==
            CountItems(items).values + CountItems(items).keys + CountItems(items).empty
    decreases items
  {
    match items
    case NoItems(_) =>
    case LastItem(_, value, _) => StructureCounts(value);
    case Item(_, value, _, rest) =>
      StructureCounts(value);
      ItemsStructureCounts(rest);
  }

  lemma {:induction false} MembersStructureCounts(members: Members)
    requires LegalMembers(members)
    ensures 1 + MembersStructure(members) ==
            CountMembers(members).values + CountMembers(members).keys + CountMembers(members).empty
    decreases members
  {
    match members
    case NoMembers(_) =>
    case LastMember(_, value, _) => StructureCounts(value);
    case Member(_, value, _, rest) =>
      StructureCounts(value);
      MembersStructureCounts(rest);
  }

  /** An accepted text never holds more values and keys than the node limit, unless the limit is zero. */
  lemma AcceptedFitsBudget(left: seq<byte>, v: Value, right: seq<byte>, limits: Limits)
    requires Space(left) && Legal(v) && Space(right) && limits.nodes >= 1
    requires Accepts(left + (Print(v) + right), limits)
    ensures Count(v).values + Count(v).keys <= limits.nodes
  {
    ScanAgreesWithTree(left, v, right, limits);
    StructureCounts(v);
  }
}
