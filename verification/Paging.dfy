/** Descending-UID traversal of one mailbox (`src/search.rs`): windows of a page, pages of a traversal, and a mailbox
    that other clients change while it is read. */
module Paging {
  import opened Wrappers

  type Uid = x: int | 0 <= x < 0x1_0000_0000

  datatype Error =
    | SetupRequired
    | InvalidRequest
    | ProviderUnavailable
    | StaleCursor
    | ResponseTooLarge
    | Provider(code: nat)

  /** A located message; `size` is the length of its serialized metadata. */
  datatype Row = Row(uid: Uid, size: nat)

  datatype Position = Position(uidValidity: Uid, upperUid: Uid, nextUid: Uid, fuzzy: bool)

  datatype Batch = Batch(position: Position, messages: seq<Row>)

  datatype Request = Request(position: Option<Position>, limit: nat, responseBytes: nat)

  /** The limits that paging reads, and whether the others are in order and consistent with each other. */
  datatype Limits = Limits(searchPage: nat, searchUidWindow: nat, searchWindows: nat, othersValid: bool) {
    predicate Valid() {
      1 <= searchPage <= 200 && 1 <= searchUidWindow <= 10000 && 1 <= searchWindows <= 100 && othersValid
    }
  }

  /** A selected mailbox. Every answer may depend on the moment of the call, so messages can appear, vanish and change
      between any two calls, and nothing is assumed of what the server answers. */
  datatype Mailbox = Mailbox(
    uidValidity: Uid,
    fuzzy: bool,
    upperUid: nat -> Result<Uid, Error>,
    matches: (nat, Uid, Uid) -> Result<seq<Uid>, Error>,
    fetch: (nat, seq<Uid>) -> Result<seq<Row>, Error>)

  // ---- the two in-place sorts ---------------------------------------------------------------------

  function InsertUid(uid: Uid, uids: seq<Uid>): seq<Uid> {
    if uids == [] || uid >= uids[0] then [uid] + uids else [uids[0]] + InsertUid(uid, uids[1..])
  }

  function SortUids(uids: seq<Uid>): seq<Uid> {
    if uids == [] then [] else InsertUid(uids[0], SortUids(uids[1..]))
  }

  function InsertRow(row: Row, rows: seq<Row>): seq<Row> {
    if rows == [] || row.uid >= rows[0].uid then [row] + rows else [rows[0]] + InsertRow(row, rows[1..])
  }

  function SortRows(rows: seq<Row>): seq<Row> {
    if rows == [] then [] else InsertRow(rows[0], SortRows(rows[1..]))
  }

  function Uids(rows: seq<Row>): (uids: seq<Uid>)
    ensures |uids| == |rows|
    ensures forall i :: 0 <= i < |rows| ==> uids[i] == rows[i].uid
  {
    if rows == [] then [] else [rows[0].uid] + Uids(rows[1..])
  }

  predicate NonIncreasing(uids: seq<Uid>) {
    forall i, j :: 0 <= i < j < |uids| ==> uids[i] >= uids[j]
  }

  predicate Descending(uids: seq<Uid>) {
    forall i, j :: 0 <= i < j < |uids| ==> uids[i] > uids[j]
  }

  /** Some UID is followed by itself. */
  predicate Repeats(uids: seq<Uid>) {
    |uids| >= 2 && (uids[0] == uids[1] || Repeats(uids[1..]))
  }

  predicate Within(first: Uid, last: Uid, uids: seq<Uid>) {
    uids == [] || (first <= uids[0] <= last && Within(first, last, uids[1..]))
  }

  predicate AskedFor(uids: seq<Uid>, rows: seq<Row>) {
    rows == [] || (rows[0].uid in uids && AskedFor(uids, rows[1..]))
  }

  lemma {:induction false} WithinEach(first: Uid, last: Uid, uids: seq<Uid>)
    ensures Within(first, last, uids) <==> forall i :: 0 <= i < |uids| ==> first <= uids[i] <= last
  {
    if uids != [] {
      WithinEach(first, last, uids[1..]);
      assert forall i :: 0 < i < |uids| ==> uids[i] == uids[1..][i - 1];
      assert forall i :: 0 <= i < |uids| - 1 ==> uids[1..][i] == uids[i + 1];
    }
  }

  lemma {:induction false} AskedForEach(uids: seq<Uid>, rows: seq<Row>)
    ensures AskedFor(uids, rows) <==> forall i :: 0 <= i < |rows| ==> rows[i].uid in uids
  {
    if rows != [] {
      AskedForEach(uids, rows[1..]);
      assert forall i :: 0 < i < |rows| ==> rows[i] == rows[1..][i - 1];
      assert forall i :: 0 <= i < |rows| - 1 ==> rows[1..][i] == rows[i + 1];
    }
  }

  lemma {:induction false} InsertUidSorts(uid: Uid, uids: seq<Uid>)
    requires NonIncreasing(uids)
    ensures NonIncreasing(InsertUid(uid, uids))
    ensures |InsertUid(uid, uids)| == |uids| + 1
    ensures forall v :: v in InsertUid(uid, uids) <==> v == uid || v in uids
  {
    if uids == [] {
    } else if uid >= uids[0] {
      Prepend(uid, uids);
    } else {
      InsertUidSorts(uid, uids[1..]);
      assert uids == [uids[0]] + uids[1..];
      Prepend(uids[0], InsertUid(uid, uids[1..]));
    }
  }

  lemma Prepend(uid: Uid, uids: seq<Uid>)
    requires NonIncreasing(uids) && forall v :: v in uids ==> uid >= v
    ensures NonIncreasing([uid] + uids)
  {
    var all := [uid] + uids;
    forall i, j | 0 <= i < j < |all|
      ensures all[i] >= all[j]
    {
      assert all[j] == uids[j - 1] && uids[j - 1] in uids;
    }
  }

  lemma {:induction false} SortUidsSorts(uids: seq<Uid>)
    ensures NonIncreasing(SortUids(uids))
    ensures |SortUids(uids)| == |uids|
    ensures forall v :: v in SortUids(uids) <==> v in uids
  {
    if uids != [] {
      SortUidsSorts(uids[1..]);
      InsertUidSorts(uids[0], SortUids(uids[1..]));
      assert uids == [uids[0]] + uids[1..];
    }
  }

  lemma {:induction false} SortRowsSorts(rows: seq<Row>)
    ensures Uids(SortRows(rows)) == SortUids(Uids(rows))
    ensures forall row :: row in SortRows(rows) <==> row in rows
  {
    if rows != [] {
      SortRowsSorts(rows[1..]);
      assert Uids(rows)[1..] == Uids(rows[1..]);
      InsertRowUids(rows[0], SortRows(rows[1..]));
      assert rows == [rows[0]] + rows[1..];
    }
  }

  lemma {:induction false} InsertRowUids(row: Row, rows: seq<Row>)
    ensures Uids(InsertRow(row, rows)) == InsertUid(row.uid, Uids(rows))
    ensures forall r :: r in InsertRow(row, rows) <==> r == row || r in rows
  {
    if rows == [] {
      assert InsertRow(row, rows) == [row];
    } else if row.uid >= rows[0].uid {
      assert InsertRow(row, rows)[1..] == rows;
    } else {
      InsertRowUids(row, rows[1..]);
      assert Uids(rows)[1..] == Uids(rows[1..]);
      assert InsertRow(row, rows)[1..] == InsertRow(row, rows[1..]);
      assert rows == [rows[0]] + rows[1..];
    }
  }

  // ---- one window ---------------------------------------------------------------------------------

  /** The lowest UID of the window that ends at `last`: the window is full unless it reaches down to one. */
  function First(last: Uid, window: nat): (first: Uid)
    requires last > 0 && window > 0
    ensures 1 <= first <= last && last - first < window
    ensures first == 1 || last - first == window - 1
  {
    if last < window then 1 else last - (window - 1)
  }

  /** The matches of a window in descending order, unless the server named too many, a foreign or a repeated UID. */
  function Judge(first: Uid, last: Uid, window: nat, found: seq<Uid>): Result<seq<Uid>, Error> {
    if |found| > window || !Within(first, last, found) then Err(ProviderUnavailable)
    else if Repeats(SortUids(found)) then Err(ProviderUnavailable)
    else Ok(SortUids(found))
  }

  lemma JudgeSorts(first: Uid, last: Uid, window: nat, found: seq<Uid>)
    requires Judge(first, last, window, found).Ok?
    ensures Descending(Judge(first, last, window, found).value)
    ensures forall uid :: uid in Judge(first, last, window, found).value ==> first <= uid <= last
    ensures forall uid :: uid in Judge(first, last, window, found).value <==> uid in found
  {
    WithinEach(first, last, found);
    SortUidsSorts(found);
    NoRepeatsDescend(SortUids(found));
  }

  predicate Distinct(uids: seq<Uid>) {
    forall i, j :: 0 <= i < j < |uids| ==> uids[i] != uids[j]
  }

  function Count(uids: seq<Uid>, uid: Uid): nat {
    if uids == [] then 0 else (if uids[0] == uid then 1 else 0) + Count(uids[1..], uid)
  }

  lemma {:induction false} InsertUidCounts(uid: Uid, uids: seq<Uid>, v: Uid)
    ensures Count(InsertUid(uid, uids), v) == Count(uids, v) + (if uid == v then 1 else 0)
    decreases |uids|
  {
    if uids == [] || uid >= uids[0] {
      assert InsertUid(uid, uids)[1..] == uids;
    } else {
      InsertUidCounts(uid, uids[1..], v);
      assert InsertUid(uid, uids)[1..] == InsertUid(uid, uids[1..]);
    }
  }

  /** The sort neither loses nor adds an occurrence. */
  lemma {:induction false} SortUidsCounts(uids: seq<Uid>, v: Uid)
    ensures Count(SortUids(uids), v) == Count(uids, v)
    decreases |uids|
  {
    if uids != [] {
      SortUidsCounts(uids[1..], v);
      InsertUidCounts(uids[0], SortUids(uids[1..]), v);
    }
  }

  lemma {:induction false} CountsOnce(uids: seq<Uid>, i: nat)
    requires i < |uids|
    ensures Count(uids, uids[i]) >= 1
    decreases |uids|
  {
    if i > 0 {
      CountsOnce(uids[1..], i - 1);
    }
  }

  lemma {:induction false} CountsTwice(uids: seq<Uid>, i: nat, j: nat)
    requires i < j < |uids| && uids[i] == uids[j]
    ensures Count(uids, uids[i]) >= 2
    decreases |uids|
  {
    if i == 0 {
      CountsOnce(uids[1..], j - 1);
    } else {
      CountsTwice(uids[1..], i - 1, j - 1);
    }
  }

  lemma {:induction false} DistinctCounts(uids: seq<Uid>, v: Uid)
    requires Distinct(uids)
    ensures Count(uids, v) <= 1
    ensures v !in uids ==> Count(uids, v) == 0
    decreases |uids|
  {
    if uids != [] {
      assert uids[0] !in uids[1..];
      DistinctCounts(uids[1..], v);
    }
  }

  lemma DistinctBySort(uids: seq<Uid>)
    ensures Distinct(SortUids(uids)) <==> Distinct(uids)
  {
    var sorted := SortUids(uids);
    if Distinct(uids) {
      forall i, j | 0 <= i < j < |sorted|
        ensures sorted[i] != sorted[j]
      {
        SameCountIsDistinct(uids, sorted, i, j);
      }
    }
    if Distinct(sorted) {
      forall i, j | 0 <= i < j < |uids|
        ensures uids[i] != uids[j]
      {
        SameCountIsDistinct(sorted, uids, i, j);
      }
    }
  }

  /** Two lists with the same occurrences, one of them without repeats. */
  lemma SameCountIsDistinct(once: seq<Uid>, uids: seq<Uid>, i: nat, j: nat)
    requires Distinct(once) && i < j < |uids|
    requires once == SortUids(uids) || uids == SortUids(once)
    ensures uids[i] != uids[j]
  {
    SortUidsCounts(uids, uids[i]);
    SortUidsCounts(once, uids[i]);
    DistinctCounts(once, uids[i]);
    if uids[i] == uids[j] {
      CountsTwice(uids, i, j);
    }
  }

  lemma {:induction false} RepeatsExactly(uids: seq<Uid>)
    requires NonIncreasing(uids)
    ensures Repeats(uids) <==> !Distinct(uids)
    decreases |uids|
  {
    if |uids| >= 2 {
      RepeatsExactly(uids[1..]);
      RepeatsOfTail(uids);
    }
  }

  lemma RepeatsOfTail(uids: seq<Uid>)
    requires NonIncreasing(uids) && |uids| >= 2
    ensures Distinct(uids) <==> uids[0] != uids[1] && Distinct(uids[1..])
  {
    if uids[0] != uids[1] && Distinct(uids[1..]) {
      forall i, j | 0 <= i < j < |uids|
        ensures uids[i] != uids[j]
      {
        assert uids[0] > uids[1] >= uids[j];
        assert i > 0 ==> uids[1..][i - 1] != uids[1..][j - 1];
      }
    }
    if Distinct(uids) {
      forall i, j | 0 <= i < j < |uids[1..]|
        ensures uids[1..][i] != uids[1..][j]
      {
        assert uids[i + 1] != uids[j + 1];
      }
    }
  }

  /** The answer of a sound search: no more UIDs than the window holds, all of them inside it, none twice. */
  predicate SoundMatches(first: Uid, last: Uid, window: nat, found: seq<Uid>) {
    && |found| <= window
    && (forall i :: 0 <= i < |found| ==> first <= found[i] <= last)
    && Distinct(found)
  }

  /** A search is turned down exactly when it names too many UIDs, one outside the window or one twice. */
  lemma JudgesExactly(first: Uid, last: Uid, window: nat, found: seq<Uid>)
    ensures Judge(first, last, window, found).Ok? <==> SoundMatches(first, last, window, found)
  {
    WithinEach(first, last, found);
    SortUidsSorts(found);
    RepeatsExactly(SortUids(found));
    DistinctBySort(found);
  }

  lemma {:induction false} NoRepeatsDescend(uids: seq<Uid>)
    requires NonIncreasing(uids) && !Repeats(uids)
    ensures Descending(uids)
  {
    if |uids| >= 2 {
      NoRepeatsDescend(uids[1..]);
      forall i, j | 0 <= i < j < |uids|
        ensures uids[i] > uids[j]
      {
        assert uids[0] > uids[1] && uids[1] >= uids[j];
        assert i > 0 ==> uids[1..][i - 1] > uids[1..][j - 1];
      }
    }
  }

  function Taken(uids: seq<Uid>, remaining: nat): seq<Uid> {
    if |uids| > remaining then uids[..remaining] else uids
  }

  /** Where the next window ends: below the last match kept, or below the window when every match was kept. */
  function Resume(first: Uid, uids: seq<Uid>, remaining: nat): int
    requires remaining > 0
  {
    if |uids| > remaining then uids[remaining - 1] - 1 else first - 1
  }

  /** The rows fetched for `uids` in descending order, unless they are too many, repeated or not asked for. */
  function Accept(uids: seq<Uid>, found: seq<Row>): Result<seq<Row>, Error> {
    var rows := SortRows(found);
    if |rows| > |uids| || Repeats(Uids(rows)) || !AskedFor(uids, rows) then
      Err(ProviderUnavailable)
    else
      Ok(rows)
  }

  /** The answer of a sound fetch: no more rows than were asked for, all of them asked for, none twice. */
  predicate SoundRows(uids: seq<Uid>, found: seq<Row>) {
    && |found| <= |uids|
    && (forall i :: 0 <= i < |found| ==> found[i].uid in uids)
    && (forall i, j :: 0 <= i < j < |found| ==> found[i].uid != found[j].uid)
  }

  lemma SortRowsLength(rows: seq<Row>)
    ensures |SortRows(rows)| == |rows|
  {
    SortRowsSorts(rows);
    SortUidsSorts(Uids(rows));
    assert |Uids(SortRows(rows))| == |SortRows(rows)|;
  }

  lemma AskedForBySort(uids: seq<Uid>, found: seq<Row>)
    ensures AskedFor(uids, SortRows(found)) <==> forall i :: 0 <= i < |found| ==> found[i].uid in uids
  {
    var rows := SortRows(found);
    AskedForEach(uids, rows);
    SortRowsSorts(found);
    if AskedFor(uids, rows) {
      forall i | 0 <= i < |found|
        ensures found[i].uid in uids
      {
        assert found[i] in rows;
        var k :| 0 <= k < |rows| && rows[k] == found[i];
      }
    }
    if forall i :: 0 <= i < |found| ==> found[i].uid in uids {
      forall k | 0 <= k < |rows|
        ensures rows[k].uid in uids
      {
        assert rows[k] in found;
        var i :| 0 <= i < |found| && found[i] == rows[k];
      }
    }
  }

  /** A fetch is turned down exactly when it yields too many rows, one that was not asked for or one twice. */
  lemma AcceptsExactly(uids: seq<Uid>, found: seq<Row>)
    ensures Accept(uids, found).Ok? <==> SoundRows(uids, found)
  {
    SortRowsLength(found);
    AskedForBySort(uids, found);
    SortRowsSorts(found);
    SortUidsSorts(Uids(found));
    RepeatsExactly(SortUids(Uids(found)));
    DistinctBySort(Uids(found));
    assert Distinct(Uids(found)) <==>
           forall i, j :: 0 <= i < j < |found| ==> found[i].uid != found[j].uid;
  }

  lemma AcceptSorts(uids: seq<Uid>, found: seq<Row>)
    requires Accept(uids, found).Ok?
    ensures Descending(Uids(Accept(uids, found).value))
    ensures forall row :: row in Accept(uids, found).value <==> row in found
    ensures forall row :: row in Accept(uids, found).value ==> row.uid in uids
  {
    SortRowsSorts(found);
    AskedForEach(uids, SortRows(found));
    SortUidsSorts(Uids(found));
    NoRepeatsDescend(SortUids(Uids(found)));
  }

  /** What the rows cost of the response: their metadata and 1024 bytes each. */
  function Cost(rows: seq<Row>): nat {
    if rows == [] then 0 else Cost(rows[..|rows| - 1]) + rows[|rows| - 1].size + 1024
  }

  lemma {:induction false} CostOfBoth(a: seq<Row>, b: seq<Row>)
    ensures Cost(a + b) == Cost(a) + Cost(b)
  {
    if b == [] {
      assert a + b == a;
    } else {
      CostOfBoth(a, b[..|b| - 1]);
      assert (a + b)[..|a + b| - 1] == a + b[..|b| - 1];
    }
  }

  datatype Progress = Progress(nextUid: Uid, messages: seq<Row>, budget: nat)

  function Keep(p: Progress, next: Uid, rows: seq<Row>): Result<Progress, Error> {
    if Cost(rows) > p.budget then Err(ResponseTooLarge)
    else Ok(Progress(next, p.messages + rows, p.budget - Cost(rows)))
  }

  function Fetched(mailbox: Mailbox, now: nat, p: Progress, next: Uid, uids: seq<Uid>): Result<Progress, Error> {
    if uids == [] then Ok(p.(nextUid := next))
    else match mailbox.fetch(now, uids)
      case Err(e) => Err(e)
      case Ok(found) =>
        match Accept(uids, found)
        case Err(e) => Err(e)
        case Ok(rows) => Keep(p, next, rows)
  }

  function Window(mailbox: Mailbox, now: nat, window: nat, limit: nat, p: Progress): Result<Progress, Error>
    requires window > 0 && p.nextUid > 0 && |p.messages| < limit
  {
    var first := First(p.nextUid, window);
    match mailbox.matches(now, first, p.nextUid)
    case Err(e) => Err(e)
    case Ok(found) =>
      match Judge(first, p.nextUid, window, found)
      case Err(e) => Err(e)
      case Ok(uids) =>
        var remaining := limit - |p.messages|;
        ResumeIsUid(first, p.nextUid, window, found, remaining);
        Fetched(mailbox, now + 1, p, Resume(first, uids, remaining), Taken(uids, remaining))
  }

  type Turn = (nat, Progress) -> Result<Progress, Error>

  /** One turn of the planner's loop; a turn changes nothing once the mailbox is exhausted or the page is full. */
  function TurnOf(mailbox: Mailbox, window: nat, limit: nat): Turn
    requires window > 0
  {
    (now: nat, p: Progress) =>
      if p.nextUid == 0 || |p.messages| >= limit then Ok(p) else Window(mailbox, now, window, limit, p)
  }

  /** At most `n` turns; the clock moves two ticks a turn, one for each round trip. */
  function Windows(turn: Turn, now: nat, n: nat, p: Progress): Result<Progress, Error>
    decreases n
  {
    if n == 0 then Ok(p)
    else match turn(now, p)
      case Err(e) => Err(e)
      case Ok(q) => Windows(turn, now + 2, n - 1, q)
  }

  /** What each turn keeps, the turns together keep. */
  lemma {:induction false} WindowsKeep(turn: Turn, now: nat, n: nat, p: Progress, inv: Progress -> bool)
    requires inv(p) && Windows(turn, now, n, p).Ok?
    requires forall t: nat, q: Progress :: inv(q) && turn(t, q).Ok? ==> inv(turn(t, q).value)
    ensures inv(Windows(turn, now, n, p).value)
    decreases n
  {
    if n > 0 {
      WindowsKeep(turn, now + 2, n - 1, turn(now, p).value, inv);
    }
  }

  /** What the first turn reaches and each turn keeps, the turns together reach. */
  lemma WindowsReach(turn: Turn, now: nat, n: nat, p: Progress, inv: Progress -> bool)
    requires n > 0 && Windows(turn, now, n, p).Ok?
    requires turn(now, p).Ok? ==> inv(turn(now, p).value)
    requires forall t: nat, q: Progress :: inv(q) && turn(t, q).Ok? ==> inv(turn(t, q).value)
    ensures inv(Windows(turn, now, n, p).value)
  {
    WindowsKeep(turn, now + 2, n - 1, turn(now, p).value, inv);
  }

  lemma {:induction false} WindowsStay(turn: Turn, now: nat, n: nat, p: Progress)
    requires forall t: nat :: turn(t, p) == Ok(p)
    ensures Windows(turn, now, n, p) == Ok(p)
    decreases n
  {
    if n > 0 {
      WindowsStay(turn, now + 2, n - 1, p);
    }
  }

  ghost predicate Plays(turn: Turn, mailbox: Mailbox, window: nat, limit: nat)
    requires window > 0
  {
    forall t: nat, p: Progress {:trigger TurnOf(mailbox, window, limit)(t, p)} ::
      turn(t, p) == TurnOf(mailbox, window, limit)(t, p)
  }

  lemma PlaysWindow(turn: Turn, mailbox: Mailbox, window: nat, limit: nat, now: nat, p: Progress)
    requires window > 0 && p.nextUid > 0 && |p.messages| < limit && Plays(turn, mailbox, window, limit)
    ensures turn(now, p) == Window(mailbox, now, window, limit, p)
  {
    assert turn(now, p) == TurnOf(mailbox, window, limit)(now, p);
  }

  lemma ClosedStays(turn: Turn, mailbox: Mailbox, window: nat, limit: nat, now: nat, n: nat, p: Progress)
    requires window > 0 && (p.nextUid == 0 || |p.messages| >= limit)
    requires Plays(turn, mailbox, window, limit)
    ensures Windows(turn, now, n, p) == Ok(p)
  {
    forall t: nat
      ensures turn(t, p) == Ok(p)
    {
      assert TurnOf(mailbox, window, limit)(t, p) == Ok(p);
    }
    WindowsStay(turn, now, n, p);
  }

  // ---- one page -----------------------------------------------------------------------------------

  function Start(mailbox: Mailbox, now: nat, request: Request): Result<Position, Error> {
    match request.position
    case Some(position) =>
      if position.uidValidity != mailbox.uidValidity || position.fuzzy != mailbox.fuzzy then Err(StaleCursor)
      else Ok(position)
    case None =>
      match mailbox.upperUid(now)
      case Err(e) => Err(e)
      case Ok(upper) => Ok(Position(mailbox.uidValidity, upper, upper, mailbox.fuzzy))
  }

  function Collect(turn: Turn, now: nat, windows: nat, start: Position, bytes: nat): Result<Batch, Error> {
    match Windows(turn, now, windows, Progress(start.nextUid, [], bytes))
    case Err(e) => Err(e)
    case Ok(p) => Ok(Batch(start.(nextUid := p.nextUid), p.messages))
  }

  function Page(mailbox: Mailbox, now: nat, limits: Limits, request: Request): Result<Batch, Error> {
    if !limits.Valid() then Err(SetupRequired)
    else if request.limit == 0 || request.limit > limits.searchPage then Err(InvalidRequest)
    else if mailbox.uidValidity == 0 then Err(ProviderUnavailable)
    else match Start(mailbox, now, request)
      case Err(e) => Err(e)
      case Ok(position) =>
        Collect(TurnOf(mailbox, limits.searchUidWindow, request.limit), now + 1, limits.searchWindows, position,
                request.responseBytes)
  }

  /** The loop that charges rows one by one and stops at the first that does not fit. */
  method Charge(rows: seq<Row>, budget: nat) returns (left: Option<nat>)
    ensures left == if Cost(rows) > budget then None else Some(budget - Cost(rows))
  {
    var remaining := budget;
    var i := 0;
    while i < |rows|
      invariant 0 <= i <= |rows|
      invariant Cost(rows[..i]) <= budget && remaining == budget - Cost(rows[..i])
    {
      assert rows[..i + 1][..i] == rows[..i];
      if rows[i].size > remaining || 1024 > remaining - rows[i].size {
        CostOfBoth(rows[..i + 1], rows[i + 1..]);
        assert rows == rows[..i + 1] + rows[i + 1..];
        return None;
      }
      remaining := remaining - rows[i].size - 1024;
      i := i + 1;
    }
    assert rows[..|rows|] == rows;
    return Some(remaining);
  }

  /** One turn of the planner's loop. */
  method SearchWindow(mailbox: Mailbox, clock: nat, window: nat, limit: nat, position: Position, messages: seq<Row>,
                      budget: nat, ghost turn: Turn)
    returns (result: Result<Progress, Error>)
    requires window > 0 && position.nextUid > 0 && |messages| < limit
    requires Plays(turn, mailbox, window, limit)
    ensures result == turn(clock, Progress(position.nextUid, messages, budget))
    ensures result.Ok? ==> |result.value.messages| <= limit
  {
    ghost var p := Progress(position.nextUid, messages, budget);
    WindowStaysBelow(mailbox, clock, window, limit, p);
    PlaysWindow(turn, mailbox, window, limit, clock, p);
    var last := position.nextUid;
    var first := First(last, window);
    var matched := mailbox.matches(clock, first, last);
    if matched.Err? {
      return Err(matched.error);
    }
    var judged := Judge(first, last, window, matched.value);
    if judged.Err? {
      return Err(judged.error);
    }
    var remaining := limit - |messages|;
    ResumeIsUid(first, last, window, matched.value, remaining);
    var next := Resume(first, judged.value, remaining);
    var uids := Taken(judged.value, remaining);
    if uids == [] {
      return Ok(Progress(next, messages, budget));
    }
    var fetched := mailbox.fetch(clock + 1, uids);
    if fetched.Err? {
      return Err(fetched.error);
    }
    var rows := Accept(uids, fetched.value);
    if rows.Err? {
      return Err(rows.error);
    }
    var left := Charge(rows.value, budget);
    if left.None? {
      return Err(ResponseTooLarge);
    }
    return Ok(Progress(next, messages + rows.value, left.value));
  }

  /** The page planner: windows downwards from the cursor until the page is full, the mailbox is exhausted or the
      windows are spent. */
  method SearchPage(mailbox: Mailbox, now: nat, limits: Limits, request: Request)
    returns (result: Result<Batch, Error>)
    ensures result == Page(mailbox, now, limits, request)
  {
    if !limits.Valid() {
      return Err(SetupRequired);
    }
    if request.limit == 0 || request.limit > limits.searchPage {
      return Err(InvalidRequest);
    }
    if mailbox.uidValidity == 0 {
      return Err(ProviderUnavailable);
    }
    var position: Position;
    match request.position {
      case Some(resumed) =>
        if resumed.uidValidity != mailbox.uidValidity || resumed.fuzzy != mailbox.fuzzy {
          return Err(StaleCursor);
        }
        position := resumed;
      case None =>
        var upper := mailbox.upperUid(now);
        if upper.Err? {
          return Err(upper.error);
        }
        position := Position(mailbox.uidValidity, upper.value, upper.value, mailbox.fuzzy);
    }
    result := ReadWindows(mailbox, now + 1, limits.searchUidWindow, request.limit, limits.searchWindows, position,
                          request.responseBytes, TurnOf(mailbox, limits.searchUidWindow, request.limit));
  }

  /** The planner's loop. */
  method ReadWindows(mailbox: Mailbox, now: nat, window: nat, limit: nat, windows: nat, start: Position, bytes: nat,
                     ghost turn: Turn)
    returns (result: Result<Batch, Error>)
    requires window > 0 && Plays(turn, mailbox, window, limit)
    ensures result == Collect(turn, now, windows, start, bytes)
  {
    var position := start;
    var messages: seq<Row> := [];
    var budget := bytes;
    var clock := now;
    var left := windows;
    ghost var whole := Windows(turn, now, windows, Progress(start.nextUid, [], bytes));
    while left > 0
      invariant |messages| <= limit
      invariant position == start.(nextUid := position.nextUid)
      invariant Windows(turn, clock, left, Progress(position.nextUid, messages, budget)) == whole
    {
      if position.nextUid == 0 || |messages| == limit {
        ClosedStays(turn, mailbox, window, limit, clock, left, Progress(position.nextUid, messages, budget));
        break;
      }
      var progress := SearchWindow(mailbox, clock, window, limit, position, messages, budget, turn);
      if progress.Err? {
        return Err(progress.error);
      }
      position := position.(nextUid := progress.value.nextUid);
      messages := progress.value.messages;
      budget := progress.value.budget;
      clock := clock + 2;
      left := left - 1;
    }
    return Ok(Batch(position, messages));
  }

  // ---- what one page returns ----------------------------------------------------------------------

  /** UIDs in strictly descending order, above the resumption point and not above `top`. */
  ghost predicate Between(next: Uid, messages: seq<Row>, top: Uid) {
    && next <= top
    && Descending(Uids(messages))
    && forall row :: row in messages ==> next < row.uid <= top
  }

  lemma ResumeBounds(first: Uid, last: Uid, uids: seq<Uid>, remaining: nat)
    requires remaining > 0 && 1 <= first <= last && Descending(uids)
    requires forall uid :: uid in uids ==> first <= uid <= last
    ensures 0 <= first - 1 <= Resume(first, uids, remaining) < last
    ensures forall uid :: uid in Taken(uids, remaining) ==> uid in uids && Resume(first, uids, remaining) < uid <= last
    ensures |Taken(uids, remaining)| <= remaining
    ensures forall uid :: uid in uids && uid > Resume(first, uids, remaining) ==> uid in Taken(uids, remaining)
  {
    if |uids| > remaining {
      var kept := uids[..remaining];
      assert uids[remaining - 1] in uids;
      forall uid | uid in kept
        ensures uids[remaining - 1] <= uid <= last
      {
        var i :| 0 <= i < remaining && kept[i] == uid;
        assert i < remaining - 1 ==> uids[i] > uids[remaining - 1];
        assert uids[i] == uid && uids[i] in uids;
      }
      assert Taken(uids, remaining) == kept;
      forall uid | uid in uids && uid > uids[remaining - 1] - 1
        ensures uid in kept
      {
        var i :| 0 <= i < |uids| && uids[i] == uid;
        assert i < remaining;
        assert kept[i] == uid;
      }
    }
  }

  lemma JudgeThenTake(first: Uid, last: Uid, window: nat, found: seq<Uid>, remaining: nat)
    requires Judge(first, last, window, found).Ok? && remaining > 0 && 1 <= first <= last
    ensures var uids := Judge(first, last, window, found).value;
            var next, taken := Resume(first, uids, remaining), Taken(uids, remaining);
            && 0 <= first - 1 <= next < last
            && |taken| <= remaining
            && (forall uid :: uid in taken ==> uid in found && next < uid <= last)
            && (forall uid :: uid in found && uid > next ==> uid in taken)
  {
    JudgeSorts(first, last, window, found);
    ResumeBounds(first, last, Judge(first, last, window, found).value, remaining);
  }

  lemma ResumeIsUid(first: Uid, last: Uid, window: nat, found: seq<Uid>, remaining: nat)
    requires Judge(first, last, window, found).Ok? && remaining > 0 && 1 <= first <= last
    ensures 0 <= Resume(first, Judge(first, last, window, found).value, remaining) < last
  {
    JudgeThenTake(first, last, window, found, remaining);
  }

  /** What a window adds, apart from how it was computed. */
  ghost predicate Adds(p: Progress, q: Progress, rows: seq<Row>, limit: nat) {
    && q.messages == p.messages + rows
    && q.budget + Cost(rows) == p.budget
    && |q.messages| <= limit
    && q.nextUid < p.nextUid
    && Between(q.nextUid, rows, p.nextUid)
  }

  ghost predicate Fetches(mailbox: Mailbox, now: nat, uids: seq<Uid>, rows: seq<Row>) {
    mailbox.fetch(now, uids).Ok? && forall row :: row in mailbox.fetch(now, uids).value ==> row in rows
  }

  lemma FetchedAdds(mailbox: Mailbox, now: nat, p: Progress, next: Uid, uids: seq<Uid>, limit: nat)
    returns (rows: seq<Row>)
    requires Fetched(mailbox, now, p, next, uids).Ok?
    requires next < p.nextUid && |p.messages| + |uids| <= limit
    requires forall uid :: uid in uids ==> next < uid <= p.nextUid
    ensures Adds(p, Fetched(mailbox, now, p, next, uids).value, rows, limit)
    ensures Fetched(mailbox, now, p, next, uids).value.nextUid == next
    ensures forall row :: row in rows ==> row.uid in uids
    ensures uids == [] || Fetches(mailbox, now, uids, rows)
  {
    if uids == [] {
      rows := [];
    } else {
      var found := mailbox.fetch(now, uids).value;
      rows := Accept(uids, found).value;
      AcceptSorts(uids, found);
    }
  }

  /** How a window that succeeds splits into its search and its fetch. */
  lemma WindowOpens(mailbox: Mailbox, now: nat, window: nat, limit: nat, p: Progress)
    returns (found: seq<Uid>, next: Uid, taken: seq<Uid>)
    requires window > 0 && p.nextUid > 0 && |p.messages| < limit
    requires Window(mailbox, now, window, limit, p).Ok?
    ensures mailbox.matches(now, First(p.nextUid, window), p.nextUid) == Ok(found)
    ensures Window(mailbox, now, window, limit, p) == Fetched(mailbox, now + 1, p, next, taken)
    ensures First(p.nextUid, window) - 1 <= next < p.nextUid && |p.messages| + |taken| <= limit
    ensures forall uid :: uid in taken ==> uid in found && next < uid <= p.nextUid
    ensures forall uid :: uid in found && uid > next ==> uid in taken
  {
    var first := First(p.nextUid, window);
    found := mailbox.matches(now, first, p.nextUid).value;
    var uids := Judge(first, p.nextUid, window, found).value;
    var remaining := limit - |p.messages|;
    JudgeThenTake(first, p.nextUid, window, found, remaining);
    next, taken := Resume(first, uids, remaining), Taken(uids, remaining);
  }

  lemma WindowAdds(mailbox: Mailbox, now: nat, window: nat, limit: nat, p: Progress) returns (rows: seq<Row>)
    requires window > 0 && p.nextUid > 0 && |p.messages| < limit
    requires Window(mailbox, now, window, limit, p).Ok?
    ensures Adds(p, Window(mailbox, now, window, limit, p).value, rows, limit)
    ensures mailbox.matches(now, First(p.nextUid, window), p.nextUid).Ok?
    ensures forall row :: row in rows ==> row.uid in mailbox.matches(now, First(p.nextUid, window), p.nextUid).value
  {
    var found, next, taken := WindowOpens(mailbox, now, window, limit, p);
    rows := FetchedAdds(mailbox, now + 1, p, next, taken, limit);
  }

  lemma WindowStaysBelow(mailbox: Mailbox, now: nat, window: nat, limit: nat, p: Progress)
    requires window > 0 && p.nextUid > 0 && |p.messages| < limit
    ensures Window(mailbox, now, window, limit, p).Ok? ==>
              |Window(mailbox, now, window, limit, p).value.messages| <= limit
  {
    if Window(mailbox, now, window, limit, p).Ok? {
      var _ := WindowAdds(mailbox, now, window, limit, p);
    }
  }

  /** Two stretches of a traversal, one below the other. */
  lemma Below(a: seq<Row>, middle: Uid, b: seq<Row>, next: Uid, top: Uid)
    requires Between(middle, a, top) && Between(next, b, middle)
    ensures Between(next, a + b, top)
  {
    var uids := Uids(a + b);
    forall i, j | 0 <= i < j < |uids|
      ensures uids[i] > uids[j]
    {
      assert i < |a| ==> a[i] in a && uids[i] == Uids(a)[i];
      assert i >= |a| ==> uids[i] == Uids(b)[i - |a|];
      assert j < |a| ==> uids[j] == Uids(a)[j];
      assert j >= |a| ==> b[j - |a|] in b && uids[j] == Uids(b)[j - |a|];
    }
  }

  /** What every state between two windows keeps: `top` is where the page began, `reach` where the cursor has got to
      and `bytes` what the page may cost. */
  ghost predicate Paged(p: Progress, top: Uid, reach: Uid, bytes: nat, limit: nat) {
    && p.nextUid <= reach
    && Between(p.nextUid, p.messages, top)
    && p.budget + Cost(p.messages) == bytes
    && |p.messages| <= limit
  }

  lemma WindowKeepsPaged(mailbox: Mailbox, now: nat, window: nat, limit: nat, p: Progress, top: Uid, reach: Uid,
                         bytes: nat)
    requires window > 0 && p.nextUid > 0 && |p.messages| < limit
    requires Window(mailbox, now, window, limit, p).Ok?
    requires Paged(p, top, reach, bytes, limit)
    ensures Paged(Window(mailbox, now, window, limit, p).value, top, p.nextUid - 1, bytes, limit)
  {
    var rows := WindowAdds(mailbox, now, window, limit, p);
    Below(p.messages, p.nextUid, rows, Window(mailbox, now, window, limit, p).value.nextUid, top);
    CostOfBoth(p.messages, rows);
  }

  lemma TurnsKeepPaged(mailbox: Mailbox, window: nat, limit: nat, top: Uid, reach: Uid, bytes: nat)
    requires window > 0
    ensures forall t: nat, q: Progress ::
              Paged(q, top, reach, bytes, limit) && TurnOf(mailbox, window, limit)(t, q).Ok? ==>
                Paged(TurnOf(mailbox, window, limit)(t, q).value, top, reach, bytes, limit)
  {
    forall t: nat, q: Progress
      | Paged(q, top, reach, bytes, limit) && TurnOf(mailbox, window, limit)(t, q).Ok?
      ensures Paged(TurnOf(mailbox, window, limit)(t, q).value, top, reach, bytes, limit)
    {
      if q.nextUid > 0 && |q.messages| < limit {
        WindowKeepsPaged(mailbox, t, window, limit, q, top, reach, bytes);
      }
    }
  }

  lemma WindowsDescend(mailbox: Mailbox, now: nat, window: nat, limit: nat, n: nat, from: Uid, bytes: nat)
    requires window > 0 && n > 0 && limit > 0
    requires Windows(TurnOf(mailbox, window, limit), now, n, Progress(from, [], bytes)).Ok?
    ensures Paged(Windows(TurnOf(mailbox, window, limit), now, n, Progress(from, [], bytes)).value, from,
                  if from > 0 then from - 1 else 0, bytes, limit)
  {
    var p := Progress(from, [], bytes);
    var reach := if from > 0 then from - 1 else 0;
    TurnsKeepPaged(mailbox, window, limit, from, reach, bytes);
    FirstTurnDescends(mailbox, now, window, limit, from, bytes);
    WindowsReach(TurnOf(mailbox, window, limit), now, n, p, (q: Progress) => Paged(q, from, reach, bytes, limit));
  }

  lemma FirstTurnDescends(mailbox: Mailbox, now: nat, window: nat, limit: nat, from: Uid, bytes: nat)
    requires window > 0 && limit > 0
    ensures var first := TurnOf(mailbox, window, limit)(now, Progress(from, [], bytes));
            first.Ok? ==> Paged(first.value, from, if from > 0 then from - 1 else 0, bytes, limit)
  {
    var p := Progress(from, [], bytes);
    if from > 0 && Window(mailbox, now, window, limit, p).Ok? {
      WindowKeepsPaged(mailbox, now, window, limit, p, from, from, bytes);
    }
  }

  /** A successful page: its UIDs strictly descend from the cursor and stay above the new cursor, the page and its
      bytes are bounded, only `nextUid` moved, and it moved down unless the traversal was already at its end. */
  lemma PageDescends(mailbox: Mailbox, now: nat, limits: Limits, request: Request)
    requires Page(mailbox, now, limits, request).Ok?
    ensures Start(mailbox, now, request).Ok?
    ensures var from := Start(mailbox, now, request).value;
            var batch := Page(mailbox, now, limits, request).value;
            && batch.position == from.(nextUid := batch.position.nextUid)
            && Between(batch.position.nextUid, batch.messages, from.nextUid)
            && (from.nextUid > 0 ==> batch.position.nextUid < from.nextUid)
            && |batch.messages| <= request.limit
            && Cost(batch.messages) <= request.responseBytes
  {
    var from := Start(mailbox, now, request).value;
    WindowsDescend(mailbox, now + 1, limits.searchUidWindow, request.limit, limits.searchWindows, from.nextUid,
                   request.responseBytes);
  }

  // ---- a message that stays -----------------------------------------------------------------------

  /** The message exists and matches throughout: every search over its UID names it, every fetch of it yields it, and
      the highest UID is never below it. */
  ghost predicate Steady(mailbox: Mailbox, uid: Uid) {
    && uid > 0
    && (forall t :: mailbox.upperUid(t).Ok? ==> uid <= mailbox.upperUid(t).value)
    && (forall t, f: Uid, l: Uid ::
          f <= uid <= l && mailbox.matches(t, f, l).Ok? ==> uid in mailbox.matches(t, f, l).value)
    && (forall t, uids :: uid in uids && mailbox.fetch(t, uids).Ok? ==> Holds(mailbox.fetch(t, uids).value, uid))
  }

  ghost predicate Holds(rows: seq<Row>, uid: Uid) {
    exists row :: row in rows && row.uid == uid
  }

  /** The cursor has not passed the message, or the page holds it. */
  ghost predicate Reached(p: Progress, uid: Uid) {
    uid <= p.nextUid || Holds(p.messages, uid)
  }

  lemma WindowCovers(mailbox: Mailbox, now: nat, window: nat, limit: nat, p: Progress, uid: Uid)
    requires window > 0 && p.nextUid > 0 && |p.messages| < limit && Steady(mailbox, uid)
    requires Window(mailbox, now, window, limit, p).Ok?
    requires Reached(p, uid)
    ensures Reached(Window(mailbox, now, window, limit, p).value, uid)
  {
    var found, next, taken := WindowOpens(mailbox, now, window, limit, p);
    var rows := FetchedAdds(mailbox, now + 1, p, next, taken, limit);
    CoversAfterFetch(mailbox, now + 1, p, next, found, taken, rows, uid);
  }

  lemma CoversAfterFetch(mailbox: Mailbox, now: nat, p: Progress, next: Uid, uids: seq<Uid>, taken: seq<Uid>,
                         rows: seq<Row>, uid: Uid)
    requires Steady(mailbox, uid) && Reached(p, uid)
    requires uid in uids || uid <= next || uid > p.nextUid
    requires forall v :: v in uids && v > next ==> v in taken
    requires taken == [] || Fetches(mailbox, now, taken, rows)
    ensures uid <= next || Holds(p.messages + rows, uid)
  {
    if Holds(p.messages, uid) {
      var row :| row in p.messages && row.uid == uid;
      assert row in p.messages + rows;
    } else if uid > next {
      assert uid in taken;
      var row :| row in mailbox.fetch(now, taken).value && row.uid == uid;
      assert row in p.messages + rows;
    }
  }

  lemma TurnsCover(mailbox: Mailbox, window: nat, limit: nat, uid: Uid)
    requires window > 0 && Steady(mailbox, uid)
    ensures forall t: nat, q: Progress ::
              Reached(q, uid) && TurnOf(mailbox, window, limit)(t, q).Ok? ==>
                Reached(TurnOf(mailbox, window, limit)(t, q).value, uid)
  {
    forall t: nat, q: Progress | Reached(q, uid) && TurnOf(mailbox, window, limit)(t, q).Ok?
      ensures Reached(TurnOf(mailbox, window, limit)(t, q).value, uid)
    {
      if q.nextUid > 0 && |q.messages| < limit {
        WindowCovers(mailbox, t, window, limit, q, uid);
      }
    }
  }

  lemma PageCovers(mailbox: Mailbox, now: nat, limits: Limits, request: Request, uid: Uid)
    requires Page(mailbox, now, limits, request).Ok? && Steady(mailbox, uid)
    requires uid <= Start(mailbox, now, request).value.nextUid
    ensures var batch := Page(mailbox, now, limits, request).value;
            uid <= batch.position.nextUid || Holds(batch.messages, uid)
  {
    var from := Start(mailbox, now, request).value;
    TurnsCover(mailbox, limits.searchUidWindow, request.limit, uid);
    WindowsKeep(TurnOf(mailbox, limits.searchUidWindow, request.limit), now + 1, limits.searchWindows,
                Progress(from.nextUid, [], request.responseBytes), (q: Progress) => Reached(q, uid));
  }

  // ---- a message that was never there -------------------------------------------------------------

  ghost predicate Named(mailbox: Mailbox, uid: Uid) {
    exists t, f, l :: mailbox.matches(t, f, l).Ok? && uid in mailbox.matches(t, f, l).value
  }

  ghost predicate AllNamed(mailbox: Mailbox, rows: seq<Row>) {
    forall row :: row in rows ==> Named(mailbox, row.uid)
  }

  lemma TurnsName(mailbox: Mailbox, window: nat, limit: nat)
    requires window > 0
    ensures forall t: nat, q: Progress ::
              AllNamed(mailbox, q.messages) && TurnOf(mailbox, window, limit)(t, q).Ok? ==>
                AllNamed(mailbox, TurnOf(mailbox, window, limit)(t, q).value.messages)
  {
    forall t: nat, q: Progress | AllNamed(mailbox, q.messages) && TurnOf(mailbox, window, limit)(t, q).Ok?
      ensures AllNamed(mailbox, TurnOf(mailbox, window, limit)(t, q).value.messages)
    {
      if q.nextUid > 0 && |q.messages| < limit {
        var _ := WindowAdds(mailbox, t, window, limit, q);
      }
    }
  }

  lemma PageIsNamed(mailbox: Mailbox, now: nat, limits: Limits, request: Request)
    requires Page(mailbox, now, limits, request).Ok?
    ensures AllNamed(mailbox, Page(mailbox, now, limits, request).value.messages)
  {
    var from := Start(mailbox, now, request).value;
    TurnsName(mailbox, limits.searchUidWindow, request.limit);
    WindowsKeep(TurnOf(mailbox, limits.searchUidWindow, request.limit), now + 1, limits.searchWindows,
                Progress(from.nextUid, [], request.responseBytes), (q: Progress) => AllNamed(mailbox, q.messages));
  }

  // ---- traversals ---------------------------------------------------------------------------------

  /** One call of a traversal: the mailbox as it then answers, and whatever limits then apply. */
  datatype Call = Call(mailbox: Mailbox, now: nat, limits: Limits, limit: nat, responseBytes: nat)

  datatype Traversal = Traversal(cursor: Option<Position>, returned: seq<Row>)

  /** A page that fails returns nothing and leaves the caller with the cursor it had. */
  function Advance(t: Traversal, call: Call): Traversal {
    match Page(call.mailbox, call.now, call.limits, Request(t.cursor, call.limit, call.responseBytes))
    case Err(_) => t
    case Ok(batch) => Traversal(Some(batch.position), t.returned + batch.messages)
  }

  function Traverse(calls: seq<Call>): Traversal {
    if calls == [] then Traversal(None, []) else Advance(Traverse(calls[..|calls| - 1]), calls[|calls| - 1])
  }

  ghost predicate Ordered(t: Traversal) {
    match t.cursor
    case None => t.returned == []
    case Some(p) => Between(p.nextUid, t.returned, p.upperUid)
  }

  lemma AdvanceKeepsOrdered(t: Traversal, call: Call)
    requires Ordered(t)
    ensures Ordered(Advance(t, call))
  {
    var request := Request(t.cursor, call.limit, call.responseBytes);
    var page := Page(call.mailbox, call.now, call.limits, request);
    if page.Ok? {
      PageDescends(call.mailbox, call.now, call.limits, request);
      var from := Start(call.mailbox, call.now, request).value;
      assert Between(from.nextUid, t.returned, from.upperUid);
      Below(t.returned, from.nextUid, page.value.messages, page.value.position.nextUid, from.upperUid);
    }
  }

  /** Over any number of calls, failed ones among them, with any limits and any mailbox behind each call, the UIDs
      returned strictly descend from the first upper UID and stay above the cursor. */
  lemma {:induction false} TraversalDescends(calls: seq<Call>)
    ensures Ordered(Traverse(calls))
  {
    if calls != [] {
      TraversalDescends(calls[..|calls| - 1]);
      AdvanceKeepsOrdered(Traverse(calls[..|calls| - 1]), calls[|calls| - 1]);
    }
  }

  ghost predicate SteadyThroughout(calls: seq<Call>, uid: Uid) {
    forall call :: call in calls ==> Steady(call.mailbox, uid)
  }

  ghost predicate Covered(t: Traversal, uid: Uid) {
    match t.cursor
    case None => true
    case Some(p) => uid <= p.nextUid || Holds(t.returned, uid)
  }

  lemma {:induction false} TraversalCovers(calls: seq<Call>, uid: Uid)
    requires SteadyThroughout(calls, uid)
    ensures Covered(Traverse(calls), uid)
  {
    if calls != [] {
      var t, call := Traverse(calls[..|calls| - 1]), calls[|calls| - 1];
      TraversalCovers(calls[..|calls| - 1], uid);
      AdvanceCovers(t, call, uid);
    }
  }

  lemma AdvanceCovers(t: Traversal, call: Call, uid: Uid)
    requires Covered(t, uid) && Steady(call.mailbox, uid)
    ensures Covered(Advance(t, call), uid)
  {
    var request := Request(t.cursor, call.limit, call.responseBytes);
    var page := Page(call.mailbox, call.now, call.limits, request);
    if page.Ok? {
      var both := t.returned + page.value.messages;
      if Holds(t.returned, uid) {
        var row :| row in t.returned && row.uid == uid;
        assert row in both;
      } else {
        PageCovers(call.mailbox, call.now, call.limits, request, uid);
        if Holds(page.value.messages, uid) {
          var row :| row in page.value.messages && row.uid == uid;
          assert row in both;
        }
      }
    }
  }

  ghost predicate ExactlyOnce(rows: seq<Row>, uid: Uid) {
    exists k :: 0 <= k < |rows| && rows[k].uid == uid && forall j :: 0 <= j < |rows| && rows[j].uid == uid ==> j == k
  }

  /** A message that exists and matches throughout is returned exactly once as soon as the cursor has passed it, so in
      particular once `nextUid` is zero. */
  lemma SteadyOnce(calls: seq<Call>, uid: Uid)
    requires SteadyThroughout(calls, uid)
    requires Traverse(calls).cursor.Some? && Traverse(calls).cursor.value.nextUid < uid
    ensures ExactlyOnce(Traverse(calls).returned, uid)
  {
    TraversalCovers(calls, uid);
    TraversalDescends(calls);
    var rows := Traverse(calls).returned;
    var row :| row in rows && row.uid == uid;
    var k :| 0 <= k < |rows| && rows[k] == row;
    assert Uids(rows)[k] == uid;
    forall j | 0 <= j < |rows| && rows[j].uid == uid
      ensures j == k
    {
      assert Uids(rows)[j] == uid;
    }
  }

  /** Every row a traversal returns was named by a search of one of its calls. */
  lemma {:induction false} TraversalIsNamed(calls: seq<Call>)
    ensures forall row :: row in Traverse(calls).returned ==>
                            exists call :: call in calls && Named(call.mailbox, row.uid)
  {
    if calls != [] {
      var t, call := Traverse(calls[..|calls| - 1]), calls[|calls| - 1];
      TraversalIsNamed(calls[..|calls| - 1]);
      var request := Request(t.cursor, call.limit, call.responseBytes);
      if Page(call.mailbox, call.now, call.limits, request).Ok? {
        PageIsNamed(call.mailbox, call.now, call.limits, request);
      }
    }
  }

  // ---- a mailbox that does not change -------------------------------------------------------------

  /** The calls that succeed answer as a mailbox whose matching messages are `live`. */
  ghost predicate Shows(mailbox: Mailbox, live: set<Uid>) {
    && (forall uid :: uid in live ==> Steady(mailbox, uid))
    && (forall uid :: Named(mailbox, uid) ==> uid in live)
  }

  ghost predicate Finished(calls: seq<Call>) {
    Traverse(calls).cursor.Some? && Traverse(calls).cursor.value.nextUid == 0
  }

  lemma InUids(rows: seq<Row>, uid: Uid)
    ensures uid in Uids(rows) <==> Holds(rows, uid)
  {
    if uid in Uids(rows) {
      var k :| 0 <= k < |rows| && Uids(rows)[k] == uid;
      assert rows[k] in rows;
    }
    if Holds(rows, uid) {
      var row :| row in rows && row.uid == uid;
      var k :| 0 <= k < |rows| && rows[k] == row;
      assert Uids(rows)[k] == uid;
    }
  }

  lemma FinishedReturnsAll(calls: seq<Call>, live: set<Uid>)
    requires Finished(calls) && forall call :: call in calls ==> Shows(call.mailbox, live)
    ensures Descending(Uids(Traverse(calls).returned))
    ensures forall uid :: uid in Uids(Traverse(calls).returned) <==> uid in live
  {
    TraversalDescends(calls);
    var rows := Traverse(calls).returned;
    forall uid
      ensures uid in Uids(rows) <==> uid in live
    {
      InUids(rows, uid);
      if uid in live {
        TraversalCovers(calls, uid);
      }
      if Holds(rows, uid) {
        TraversalIsNamed(calls);
        var row :| row in rows && row.uid == uid;
        var call :| call in calls && Named(call.mailbox, row.uid);
      }
    }
  }

  lemma {:induction false} DescendingIsUnique(a: seq<Uid>, b: seq<Uid>)
    requires Descending(a) && Descending(b) && forall uid :: uid in a <==> uid in b
    ensures a == b
  {
    FirstIsShared(a, b);
    FirstIsShared(b, a);
    if a != [] {
      assert a[0] == b[0];
      assert a == [a[0]] + a[1..] && b == [b[0]] + b[1..];
      forall uid
        ensures uid in a[1..] <==> uid in b[1..]
      {
        assert uid in a[1..] ==> uid in a && uid != a[0];
        assert uid in b[1..] ==> uid in b && uid != b[0];
      }
      DescendingIsUnique(a[1..], b[1..]);
    }
  }

  /** On a mailbox that does not change, page limits, window sizes, window counts and failed calls do not matter: any
      two finished traversals return the same UIDs in the same order. */
  lemma PageSizeDoesNotMatter(a: seq<Call>, b: seq<Call>, live: set<Uid>)
    requires Finished(a) && Finished(b) && forall call :: call in a + b ==> Shows(call.mailbox, live)
    ensures Uids(Traverse(a).returned) == Uids(Traverse(b).returned)
  {
    FinishedReturnsAll(a, live);
    FinishedReturnsAll(b, live);
    DescendingIsUnique(Uids(Traverse(a).returned), Uids(Traverse(b).returned));
  }

  // ---- progress -----------------------------------------------------------------------------------

  /** A server that answers every call soundly, with rows that each cost at most `each` bytes of the response. */
  ghost predicate Cooperative(mailbox: Mailbox, window: nat, each: nat) {
    && mailbox.uidValidity != 0
    && (forall t: nat :: mailbox.upperUid(t).Ok?)
    && (forall t: nat, f: Uid, l: Uid :: 1 <= f <= l && l - f < window ==>
          mailbox.matches(t, f, l).Ok? && SoundMatches(f, l, window, mailbox.matches(t, f, l).value))
    && (forall t: nat, uids: seq<Uid> :: Yields(mailbox.fetch(t, uids), uids, each))
  }

  ghost predicate Yields(found: Result<seq<Row>, Error>, uids: seq<Uid>, each: nat) {
    found.Ok? && SoundRows(uids, found.value) && forall row :: row in found.value ==> row.size + 1024 <= each
  }

  lemma {:induction false} CostIsBounded(rows: seq<Row>, each: nat)
    requires forall i :: 0 <= i < |rows| ==> rows[i].size + 1024 <= each
    ensures Cost(rows) <= |rows| * each
    decreases |rows|
  {
    if rows != [] {
      CostIsBounded(rows[..|rows| - 1], each);
    }
  }

  /** The budget still covers every row the page can take. */
  ghost predicate Affords(p: Progress, limit: nat, each: nat) {
    |p.messages| <= limit && (limit - |p.messages|) * each <= p.budget
  }

  lemma FetchSucceeds(mailbox: Mailbox, now: nat, p: Progress, next: Uid, uids: seq<Uid>, limit: nat, each: nat)
    requires Affords(p, limit, each) && |p.messages| + |uids| <= limit
    requires uids != [] ==> Yields(mailbox.fetch(now, uids), uids, each)
    ensures Fetched(mailbox, now, p, next, uids).Ok?
    ensures Affords(Fetched(mailbox, now, p, next, uids).value, limit, each)
  {
    if uids != [] {
      AcceptsExactly(uids, mailbox.fetch(now, uids).value);
      var rows := Accept(uids, mailbox.fetch(now, uids).value).value;
      AcceptSorts(uids, mailbox.fetch(now, uids).value);
      CostIsBounded(rows, each);
      Shares(limit - |p.messages|, |rows|, each);
    }
  }

  lemma Shares(n: nat, m: nat, each: nat)
    requires m <= n
    ensures m * each <= n * each && (n - m) * each == n * each - m * each
  {
  }

  lemma WindowSucceeds(mailbox: Mailbox, now: nat, window: nat, limit: nat, each: nat, p: Progress)
    requires window > 0 && p.nextUid > 0 && |p.messages| < limit
    requires Cooperative(mailbox, window, each) && Affords(p, limit, each)
    ensures Window(mailbox, now, window, limit, p).Ok?
    ensures Affords(Window(mailbox, now, window, limit, p).value, limit, each)
  {
    var first := First(p.nextUid, window);
    var found := mailbox.matches(now, first, p.nextUid).value;
    var remaining := limit - |p.messages|;
    JudgesExactly(first, p.nextUid, window, found);
    JudgeThenTake(first, p.nextUid, window, found, remaining);
    var uids := Judge(first, p.nextUid, window, found).value;
    FetchSucceeds(mailbox, now + 1, p, Resume(first, uids, remaining), Taken(uids, remaining), limit, each);
  }

  lemma {:induction false} WindowsSucceed(turn: Turn, now: nat, n: nat, p: Progress, inv: Progress -> bool)
    requires inv(p) && forall t: nat, q: Progress :: inv(q) ==> turn(t, q).Ok? && inv(turn(t, q).value)
    ensures Windows(turn, now, n, p).Ok?
    decreases n
  {
    if n > 0 {
      WindowsSucceed(turn, now + 2, n - 1, turn(now, p).value, inv);
    }
  }

  predicate Resumes(mailbox: Mailbox, cursor: Option<Position>) {
    cursor.Some? ==> cursor.value.uidValidity == mailbox.uidValidity && cursor.value.fuzzy == mailbox.fuzzy
  }

  /** A sound request to a cooperative server never fails: no check of the planner turns down what is in order. */
  lemma PageSucceeds(mailbox: Mailbox, now: nat, limits: Limits, request: Request, each: nat)
    requires limits.Valid() && 1 <= request.limit <= limits.searchPage && Resumes(mailbox, request.position)
    requires Cooperative(mailbox, limits.searchUidWindow, each) && request.limit * each <= request.responseBytes
    ensures Page(mailbox, now, limits, request).Ok?
  {
    var window, limit := limits.searchUidWindow, request.limit;
    var turn := TurnOf(mailbox, window, limit);
    var p := Progress(Start(mailbox, now, request).value.nextUid, [], request.responseBytes);
    forall t: nat, q: Progress | Affords(q, limit, each)
      ensures turn(t, q).Ok? && Affords(turn(t, q).value, limit, each)
    {
      if q.nextUid > 0 && |q.messages| < limit {
        WindowSucceeds(mailbox, t, window, limit, each, q);
      }
    }
    WindowsSucceed(turn, now + 1, limits.searchWindows, p, (q: Progress) => Affords(q, limit, each));
  }

  /** A call with sound limits to a cooperative server that has kept its validity. */
  ghost predicate Sound(call: Call, uidValidity: Uid, fuzzy: bool, each: nat) {
    && call.mailbox.uidValidity == uidValidity && call.mailbox.fuzzy == fuzzy
    && call.limits.Valid() && 1 <= call.limit <= call.limits.searchPage
    && Cooperative(call.mailbox, call.limits.searchUidWindow, each)
    && call.limit * each <= call.responseBytes
  }

  ghost predicate Advanced(t: Traversal, calls: nat, first: Call) {
    && t.cursor.Some?
    && t.cursor.value.uidValidity == first.mailbox.uidValidity && t.cursor.value.fuzzy == first.mailbox.fuzzy
    && first.mailbox.upperUid(first.now) == Ok(t.cursor.value.upperUid)
    && (t.cursor.value.nextUid == 0 || t.cursor.value.nextUid + calls <= t.cursor.value.upperUid)
  }

  lemma SoundAdvances(t: Traversal, calls: nat, first: Call, call: Call, each: nat)
    requires Sound(call, first.mailbox.uidValidity, first.mailbox.fuzzy, each)
    requires if calls == 0 then t.cursor.None? && call == first else Advanced(t, calls, first)
    ensures Advanced(Advance(t, call), calls + 1, first)
  {
    var request := Request(t.cursor, call.limit, call.responseBytes);
    PageSucceeds(call.mailbox, call.now, call.limits, request, each);
    PageDescends(call.mailbox, call.now, call.limits, request);
  }

  lemma {:induction false} SoundCallsAdvance(calls: seq<Call>, each: nat)
    requires calls != []
    requires forall call :: call in calls ==> Sound(call, calls[0].mailbox.uidValidity, calls[0].mailbox.fuzzy, each)
    ensures Advanced(Traverse(calls), |calls|, calls[0])
    decreases |calls|
  {
    var before, last := calls[..|calls| - 1], calls[|calls| - 1];
    if before != [] {
      assert before[0] == calls[0] && forall call :: call in before ==> call in calls;
      SoundCallsAdvance(before, each);
    }
    SoundAdvances(Traverse(before), |before|, calls[0], last, each);
  }

  /** While the server cooperates and keeps its validity, a traversal finishes: as many calls as the first upper UID
      suffice, however small their limits and whatever changes in between. */
  lemma TraversalFinishes(calls: seq<Call>, each: nat)
    requires calls != []
    requires forall call :: call in calls ==> Sound(call, calls[0].mailbox.uidValidity, calls[0].mailbox.fuzzy, each)
    requires calls[0].mailbox.upperUid(calls[0].now).Ok? ==>
               calls[0].mailbox.upperUid(calls[0].now).value <= |calls|
    ensures Finished(calls)
  {
    SoundCallsAdvance(calls, each);
  }

  // ---- refusals -----------------------------------------------------------------------------------

  /** Which requests are refused before the first search, and as what: exactly these, in this order. */
  lemma RefusalsExactly(mailbox: Mailbox, now: nat, limits: Limits, request: Request)
    ensures var page := Page(mailbox, now, limits, request);
      var ok := 1 <= limits.searchPage <= 200 && 1 <= limits.searchUidWindow <= 10000
                && 1 <= limits.searchWindows <= 100 && limits.othersValid;
      var sized := ok && 1 <= request.limit <= limits.searchPage;
      var valid := sized && mailbox.uidValidity != 0;
      && (!ok ==> page == Err(SetupRequired))
      && (ok && !sized ==> page == Err(InvalidRequest))
      && (sized && !valid ==> page == Err(ProviderUnavailable))
      && (valid && !Resumes(mailbox, request.position) ==> page == Err(StaleCursor))
      && (valid && request.position.None? && mailbox.upperUid(now).Err? ==> page == Err(mailbox.upperUid(now).error))
  {
  }

  /** A page never reaches further down than its windows: at most their number times their size. */
  lemma PageReach(mailbox: Mailbox, now: nat, limits: Limits, request: Request)
    requires Page(mailbox, now, limits, request).Ok?
    ensures Start(mailbox, now, request).value.nextUid <=
            Page(mailbox, now, limits, request).value.position.nextUid + limits.searchWindows * limits.searchUidWindow
  {
    var from := Start(mailbox, now, request).value;
    WindowsReachAtMost(mailbox, now + 1, limits.searchUidWindow, request.limit, limits.searchWindows,
                       Progress(from.nextUid, [], request.responseBytes));
  }

  lemma WindowReach(mailbox: Mailbox, now: nat, window: nat, limit: nat, p: Progress)
    requires window > 0 && p.nextUid > 0 && |p.messages| < limit
    requires Window(mailbox, now, window, limit, p).Ok?
    ensures p.nextUid <= Window(mailbox, now, window, limit, p).value.nextUid + window
  {
    var found, next, taken := WindowOpens(mailbox, now, window, limit, p);
    var rows := FetchedAdds(mailbox, now + 1, p, next, taken, limit);
  }

  lemma {:induction false} WindowsReachAtMost(mailbox: Mailbox, now: nat, window: nat, limit: nat, n: nat, p: Progress)
    requires window > 0 && Windows(TurnOf(mailbox, window, limit), now, n, p).Ok?
    ensures p.nextUid <= Windows(TurnOf(mailbox, window, limit), now, n, p).value.nextUid + n * window
    decreases n
  {
    if n > 0 {
      var q := TurnOf(mailbox, window, limit)(now, p).value;
      if p.nextUid > 0 && |p.messages| < limit {
        WindowReach(mailbox, now, window, limit, p);
      }
      WindowsReachAtMost(mailbox, now + 2, window, limit, n - 1, q);
      assert n * window == (n - 1) * window + window;
    }
  }

  /** Where nothing matches, a page goes down by all its windows, so it uses every one of them. */
  lemma EmptyPage(mailbox: Mailbox, now: nat, limits: Limits, request: Request)
    requires Page(mailbox, now, limits, request).Ok?
    requires forall t: nat, f: Uid, l: Uid :: mailbox.matches(t, f, l) == Ok([])
    ensures var from := Start(mailbox, now, request).value.nextUid;
      var down := limits.searchWindows * limits.searchUidWindow;
      && Page(mailbox, now, limits, request).value.messages == []
      && Page(mailbox, now, limits, request).value.position.nextUid == if from > down then from - down else 0
  {
    var from := Start(mailbox, now, request).value;
    EmptyWindows(mailbox, now + 1, limits.searchUidWindow, request.limit, limits.searchWindows,
                 Progress(from.nextUid, [], request.responseBytes));
  }

  lemma EmptyWindow(mailbox: Mailbox, now: nat, window: nat, limit: nat, p: Progress)
    requires window > 0 && p.nextUid > 0 && p.messages == [] && limit > 0
    requires mailbox.matches(now, First(p.nextUid, window), p.nextUid) == Ok([])
    ensures Window(mailbox, now, window, limit, p) == Ok(p.(nextUid := First(p.nextUid, window) - 1))
  {
    assert SortUids([]) == [];
  }

  lemma {:induction false} EmptyWindows(mailbox: Mailbox, now: nat, window: nat, limit: nat, n: nat, p: Progress)
    requires window > 0 && limit > 0 && p.messages == []
    requires forall t: nat, f: Uid, l: Uid :: mailbox.matches(t, f, l) == Ok([])
    requires Windows(TurnOf(mailbox, window, limit), now, n, p).Ok?
    ensures var q := Windows(TurnOf(mailbox, window, limit), now, n, p).value;
      q.messages == [] && q.nextUid == if p.nextUid > n * window then p.nextUid - n * window else 0
    decreases n
  {
    if n > 0 {
      var q := TurnOf(mailbox, window, limit)(now, p).value;
      if p.nextUid > 0 {
        EmptyWindow(mailbox, now, window, limit, p);
      }
      EmptyWindows(mailbox, now + 2, window, limit, n - 1, q);
      assert n * window == (n - 1) * window + window;
    }
  }
}
