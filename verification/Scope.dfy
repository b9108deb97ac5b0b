/** Mailbox scopes and their intersection (`src/config.rs`), with the case-insensitive INBOX of `src/domain.rs`. */
module Scope {
  import opened Wrappers

  datatype MailboxScope = All | Only(names: seq<string>)

  // ---- identities ---------------------------------------------------------------------------------

  function Upper(c: char): char {
    if 'a' <= c <= 'z' then (c as int - 32) as char else c
  }

  predicate EqualsIgnoringCase(a: string, b: string) {
    |a| == |b| && forall i :: 0 <= i < |a| ==> Upper(a[i]) == Upper(b[i])
  }

  /** INBOX is one mailbox in every spelling; every other name stands for itself. */
  function Identity(name: string): (identity: string)
    ensures EqualsIgnoringCase(name, "INBOX") ==> identity == "INBOX"
    ensures !EqualsIgnoringCase(name, "INBOX") ==> identity == name
  {
    if EqualsIgnoringCase(name, "INBOX") then "INBOX" else name
  }

  lemma IdentityIsStable(name: string)
    ensures Identity(Identity(name)) == Identity(name)
  {
    assert EqualsIgnoringCase("INBOX", "INBOX");
  }

  /** Two names mean one mailbox exactly when they are the same name or both spell INBOX, in whatever case. */
  lemma SameMailbox(a: string, b: string)
    ensures Identity(a) == Identity(b) <==>
            a == b || (EqualsIgnoringCase(a, "INBOX") && EqualsIgnoringCase(b, "INBOX"))
  {
    IdentityIsStable(a);
    IdentityIsStable(b);
    assert EqualsIgnoringCase("INBOX", "INBOX");
  }

  /** Five letters, each the one INBOX has there or its small form. */
  predicate SpellsInbox(name: string) {
    && |name| == 5
    && name[0] in "Ii" && name[1] in "Nn" && name[2] in "Bb" && name[3] in "Oo" && name[4] in "Xx"
  }

  /** INBOX stands for each of its spellings in mixed case, and every other name for itself. */
  lemma InboxSpellings(name: string)
    ensures EqualsIgnoringCase(name, "INBOX") <==> SpellsInbox(name)
    ensures SpellsInbox(name) ==> Identity(name) == "INBOX"
    ensures !SpellsInbox(name) ==> Identity(name) == name
  {
    if EqualsIgnoringCase(name, "INBOX") {
      forall i | 0 <= i < 5
        ensures Upper(name[i]) == "INBOX"[i]
      {
        assert Upper("INBOX"[i]) == "INBOX"[i];
      }
      assert Upper(name[0]) == 'I' && Upper(name[1]) == 'N' && Upper(name[2]) == 'B' && Upper(name[3]) == 'O'
          && Upper(name[4]) == 'X';
    }
    if SpellsInbox(name) {
      assert Upper(name[0]) == 'I' && Upper(name[1]) == 'N' && Upper(name[2]) == 'B' && Upper(name[3]) == 'O'
          && Upper(name[4]) == 'X';
    }
  }

  /** Some name of the list has this identity. */
  predicate Lists(names: seq<string>, identity: string) {
    exists i :: 0 <= i < |names| && Identity(names[i]) == identity
  }

  predicate Allows(scope: MailboxScope, mailbox: string) {
    match scope
    case All => true
    case Only(names) => Lists(names, Identity(mailbox))
  }

  // ---- the matcher for a whole inventory ----------------------------------------------------------

  datatype MailboxMatcher = AnyMailbox | Linear(names: seq<string>) | Indexed(identities: set<string>)

  function Identities(names: seq<string>): set<string> {
    set i | 0 <= i < |names| :: Identity(names[i])
  }

  function NewMatcher(names: Option<seq<string>>): MailboxMatcher {
    match names
    case None => AnyMailbox
    case Some(list) => if |list| <= 32 then Linear(list) else Indexed(Identities(list))
  }

  predicate Matches(matcher: MailboxMatcher, mailbox: string) {
    match matcher
    case AnyMailbox => true
    case Linear(names) => Lists(names, Identity(mailbox))
    case Indexed(identities) => Identity(mailbox) in identities
  }

  function ScopeOf(names: Option<seq<string>>): MailboxScope {
    match names
    case None => All
    case Some(list) => Only(list)
  }

  /** At every list size the matcher and the scope allow the same mailboxes. */
  lemma MatcherAgrees(names: Option<seq<string>>, mailbox: string)
    ensures Matches(NewMatcher(names), mailbox) <==> Allows(ScopeOf(names), mailbox)
  {
    if names.Some? {
      IdentitiesAreListed(names.value, Identity(mailbox));
    }
  }

  lemma IdentitiesAreListed(names: seq<string>, identity: string)
    ensures identity in Identities(names) <==> Lists(names, identity)
  {
  }

  // ---- the order of names -------------------------------------------------------------------------

  /** Lexicographic order, by code point. */
  predicate Less(a: string, b: string) {
    b != "" && (a == "" || a[0] < b[0] || (a[0] == b[0] && Less(a[1..], b[1..])))
  }

  lemma {:induction false} LessIsTotal(a: string, b: string)
    ensures Less(a, b) || a == b || Less(b, a)
    decreases |a|
  {
    if a != "" && b != "" && a[0] == b[0] {
      LessIsTotal(a[1..], b[1..]);
      assert a == [a[0]] + a[1..] && b == [b[0]] + b[1..];
    }
  }

  lemma {:induction false} LessIsStrict(a: string, b: string)
    requires Less(a, b)
    ensures a != b && !Less(b, a)
    decreases |a|
  {
    if a != "" && a[0] == b[0] {
      LessIsStrict(a[1..], b[1..]);
    }
  }

  lemma {:induction false} LessIsTransitive(a: string, b: string, c: string)
    requires Less(a, b) && Less(b, c)
    ensures Less(a, c)
    decreases |a|
  {
    if a != "" && a[0] == b[0] && b[0] == c[0] {
      LessIsTransitive(a[1..], b[1..], c[1..]);
    }
  }

  predicate Ascending(names: seq<string>) {
    forall i, j :: 0 <= i < j < |names| ==> Less(names[i], names[j])
  }

  /** A strictly ascending list is determined by its members. */
  lemma {:induction false} AscendingIsUnique(a: seq<string>, b: seq<string>)
    requires Ascending(a) && Ascending(b) && forall name :: name in a <==> name in b
    ensures a == b
    decreases |a|
  {
    FirstIsShared(a, b);
    FirstIsShared(b, a);
    if a != [] {
      SmallestFirst(a, b);
      assert a == [a[0]] + a[1..] && b == [b[0]] + b[1..];
      forall name
        ensures name in a[1..] <==> name in b[1..]
      {
        NotAgain(a);
        NotAgain(b);
        assert name in a <==> name == a[0] || name in a[1..];
        assert name in b <==> name == b[0] || name in b[1..];
      }
      AscendingIsUnique(a[1..], b[1..]);
    }
  }

  lemma NotAgain(a: seq<string>)
    requires Ascending(a) && a != []
    ensures a[0] !in a[1..]
  {
    forall i | 1 <= i < |a|
      ensures a[i] != a[0]
    {
      LessIsStrict(a[0], a[i]);
    }
  }

  lemma SmallestFirst(a: seq<string>, b: seq<string>)
    requires Ascending(a) && Ascending(b) && a != [] && b != [] && a[0] in b && b[0] in a
    ensures a[0] == b[0]
  {
    var i :| 0 <= i < |b| && b[i] == a[0];
    var j :| 0 <= j < |a| && a[j] == b[0];
    if i > 0 && j > 0 {
      assert Less(b[0], a[0]) && Less(a[0], b[0]);
      LessIsStrict(a[0], b[0]);
    }
  }

  // ---- sorting and removing repeats ---------------------------------------------------------------

  /** In order, repeats allowed. */
  predicate Sorted(names: seq<string>) {
    forall i, j :: 0 <= i < j < |names| ==> names[i] == names[j] || Less(names[i], names[j])
  }

  function Insert(name: string, names: seq<string>): seq<string> {
    if names == [] || !Less(names[0], name) then [name] + names else [names[0]] + Insert(name, names[1..])
  }

  function Sort(names: seq<string>): seq<string> {
    if names == [] then [] else Insert(names[0], Sort(names[1..]))
  }

  function Count(names: seq<string>, name: string): nat {
    if names == [] then 0 else (if names[0] == name then 1 else 0) + Count(names[1..], name)
  }

  predicate NoMoreThan(name: string, names: seq<string>) {
    forall i :: 0 <= i < |names| ==> name == names[i] || Less(name, names[i])
  }

  lemma SortedFront(name: string, names: seq<string>)
    requires Sorted(names) && NoMoreThan(name, names)
    ensures Sorted([name] + names)
  {
    var all := [name] + names;
    forall i, j | 0 <= i < j < |all|
      ensures all[i] == all[j] || Less(all[i], all[j])
    {
      assert all[j] == names[j - 1];
      assert i > 0 ==> all[i] == names[i - 1];
    }
  }

  lemma {:induction false} InsertSorts(name: string, names: seq<string>)
    requires Sorted(names)
    ensures Sorted(Insert(name, names))
    ensures forall other :: other in Insert(name, names) <==> other == name || other in names
    decreases |names|
  {
    if names == [] {
    } else if !Less(names[0], name) {
      forall i | 0 <= i < |names|
        ensures name == names[i] || Less(name, names[i])
      {
        LessIsTotal(name, names[0]);
        if Less(name, names[0]) && i > 0 && names[0] != names[i] {
          LessIsTransitive(name, names[0], names[i]);
        }
      }
      SortedFront(name, names);
    } else {
      var rest := Insert(name, names[1..]);
      InsertSorts(name, names[1..]);
      forall i | 0 <= i < |rest|
        ensures names[0] == rest[i] || Less(names[0], rest[i])
      {
        assert rest[i] in rest;
        if rest[i] in names[1..] {
          var k :| 0 <= k < |names[1..]| && names[1..][k] == rest[i];
          assert names[k + 1] == rest[i];
        }
      }
      SortedFront(names[0], rest);
      assert names == [names[0]] + names[1..];
    }
  }

  lemma {:induction false} SortSorts(names: seq<string>)
    ensures Sorted(Sort(names))
    ensures forall name :: name in Sort(names) <==> name in names
    decreases |names|
  {
    if names != [] {
      SortSorts(names[1..]);
      InsertSorts(names[0], Sort(names[1..]));
      assert names == [names[0]] + names[1..];
    }
  }

  predicate Distinct(names: seq<string>) {
    forall i, j :: 0 <= i < j < |names| ==> names[i] != names[j]
  }

  /** Drops every name that repeats the one before it. */
  method Dedup(names: seq<string>) returns (kept: seq<string>)
    requires Sorted(names)
    ensures Ascending(kept)
    ensures forall name :: name in kept <==> name in names
  {
    kept := [];
    var i := 0;
    while i < |names|
      invariant 0 <= i <= |names|
      invariant Ascending(kept)
      invariant forall k :: 0 <= k < |kept| ==> kept[k] in names[..i]
      invariant forall k :: 0 <= k < i ==> names[k] in kept
      invariant (kept == []) == (i == 0)
      invariant i > 0 ==> kept[|kept| - 1] == names[i - 1]
    {
      if kept == [] || kept[|kept| - 1] != names[i] {
        Appends(kept, names, i);
        kept := kept + [names[i]];
      }
      assert names[..i + 1] == names[..i] + [names[i]];
      i := i + 1;
    }
    assert names[..|names|] == names;
  }

  lemma Appends(kept: seq<string>, names: seq<string>, i: nat)
    requires i < |names| && Sorted(names) && Ascending(kept)
    requires i > 0 ==> kept != [] && kept[|kept| - 1] == names[i - 1] && names[i - 1] != names[i]
    requires i == 0 ==> kept == []
    ensures Ascending(kept + [names[i]])
  {
    forall k | 0 <= k < |kept|
      ensures Less(kept[k], names[i])
    {
      if k < |kept| - 1 {
        LessIsTransitive(kept[k], names[i - 1], names[i]);
      }
    }
  }

  // ---- intersection -------------------------------------------------------------------------------

  /** The identities that both lists have. */
  predicate Shared(left: seq<string>, right: seq<string>, identity: string) {
    Lists(left, identity) && Lists(right, identity)
  }

  /** The path for two long lists: the shorter is indexed, the longer scanned, and each identity is taken once. */
  method IntersectIndexed(left: seq<string>, right: seq<string>) returns (names: seq<string>)
    ensures Ascending(names)
    ensures forall name :: name in names <==> Shared(left, right, name)
  {
    var indexed, scanned := left, right;
    if |left| > |right| {
      indexed, scanned := right, left;
    }
    var remaining := Identities(indexed);
    var taken: seq<string> := [];
    var i := 0;
    while i < |scanned|
      invariant 0 <= i <= |scanned|
      invariant Distinct(taken)
      invariant forall k :: 0 <= k < |taken| ==> taken[k] !in remaining && Lists(indexed, taken[k])
      invariant forall name :: name in taken ==> Lists(scanned, name)
      invariant forall k :: 0 <= k < i && Identity(scanned[k]) in Identities(indexed) ==> Identity(scanned[k]) in taken
      invariant forall name :: name in Identities(indexed) <==> name in remaining || name in taken
    {
      var identity := Identity(scanned[i]);
      if identity in remaining {
        remaining := remaining - {identity};
        taken := taken + [identity];
      }
      i := i + 1;
    }
    names := Sort(taken);
    SortSorts(taken);
    DistinctSorts(taken);
    forall name
      ensures name in names <==> Shared(left, right, name)
    {
      IdentitiesAreListed(indexed, name);
    }
  }

  lemma {:induction false} InsertCounts(name: string, names: seq<string>, other: string)
    ensures Count(Insert(name, names), other) == Count(names, other) + (if name == other then 1 else 0)
    decreases |names|
  {
    if names == [] {
    } else if !Less(names[0], name) {
      assert Insert(name, names)[1..] == names;
    } else {
      InsertCounts(name, names[1..], other);
      assert Insert(name, names)[1..] == Insert(name, names[1..]);
    }
  }

  lemma {:induction false} SortCounts(names: seq<string>, name: string)
    ensures Count(Sort(names), name) == Count(names, name)
    decreases |names|
  {
    if names != [] {
      SortCounts(names[1..], name);
      InsertCounts(names[0], Sort(names[1..]), name);
    }
  }

  lemma {:induction false} DistinctCounts(names: seq<string>, name: string)
    requires Distinct(names)
    ensures Count(names, name) <= 1 && (Count(names, name) == 1 <==> name in names)
    decreases |names|
  {
    if names != [] {
      DistinctCounts(names[1..], name);
      assert names == [names[0]] + names[1..];
    }
  }

  lemma {:induction false} CountsAtLeast(names: seq<string>, i: nat, j: nat)
    requires i < j < |names| && names[i] == names[j]
    ensures Count(names, names[i]) >= 2
    decreases |names|
  {
    if i == 0 {
      CountsOnce(names[1..], j - 1);
    } else {
      CountsAtLeast(names[1..], i - 1, j - 1);
    }
  }

  lemma {:induction false} CountsOnce(names: seq<string>, i: nat)
    requires i < |names|
    ensures Count(names, names[i]) >= 1
    decreases |names|
  {
    if i > 0 {
      CountsOnce(names[1..], i - 1);
    }
  }

  /** Sorting distinct names leaves no two equal, so the result is strictly ascending. */
  lemma DistinctSorts(names: seq<string>)
    requires Distinct(names)
    ensures Ascending(Sort(names))
  {
    var sorted := Sort(names);
    SortSorts(names);
    forall i, j | 0 <= i < j < |sorted|
      ensures Less(sorted[i], sorted[j])
    {
      if sorted[i] == sorted[j] {
        CountsAtLeast(sorted, i, j);
        SortCounts(names, sorted[i]);
        DistinctCounts(names, sorted[i]);
      }
    }
  }

  /** The path that scans one list and asks the other scope. */
  method IntersectScanned(list: seq<string>, scope: MailboxScope) returns (names: seq<string>)
    ensures Ascending(names)
    ensures forall name :: name in names <==> Lists(list, name) && Allows(scope, name)
  {
    var kept: seq<string> := [];
    var i := 0;
    while i < |list|
      invariant 0 <= i <= |list|
      invariant forall name :: name in kept ==> Lists(list, name) && Allows(scope, name)
      invariant forall k :: 0 <= k < i && Allows(scope, Identity(list[k])) ==> Identity(list[k]) in kept
    {
      IdentityIsStable(list[i]);
      if Allows(scope, list[i]) {
        kept := kept + [Identity(list[i])];
      }
      i := i + 1;
    }
    SortSorts(kept);
    names := Dedup(Sort(kept));
  }

  /** What an intersection is: everything when both sides are, and otherwise the shared identities in strictly
      ascending order. */
  ghost predicate Meets(result: MailboxScope, a: MailboxScope, b: MailboxScope) {
    if a.All? && b.All? then result.All?
    else result.Only? && Ascending(result.names) && forall name :: name in result.names <==> BothHave(a, b, name)
  }

  /** The name is an identity that each side allows; a side that lists names has it listed. */
  ghost predicate BothHave(a: MailboxScope, b: MailboxScope, name: string) {
    Identity(name) == name && Allows(a, name) && Allows(b, name)
  }

  lemma ListedIsIdentity(names: seq<string>, name: string)
    requires Lists(names, name)
    ensures Identity(name) == name
  {
    var i :| 0 <= i < |names| && Identity(names[i]) == name;
    IdentityIsStable(names[i]);
  }

  /** `MailboxScope::intersection`, with its indexed path above 32 names and its scanning path. */
  method Intersection(self: MailboxScope, other: MailboxScope) returns (result: MailboxScope)
    ensures Meets(result, self, other)
  {
    if self.All? && other.All? {
      return All;
    }
    var names: seq<string>;
    if self.Only? && other.Only? && |self.names| > 32 && |other.names| > 32 {
      names := IntersectIndexed(self.names, other.names);
    } else if self.Only? {
      names := IntersectScanned(self.names, other);
    } else {
      names := IntersectScanned(other.names, self);
    }
    result := Only(names);
    forall name
      ensures name in names <==> BothHave(self, other, name)
    {
      if self.Only? && Lists(self.names, name) {
        ListedIsIdentity(self.names, name);
      }
      if other.Only? && Lists(other.names, name) {
        ListedIsIdentity(other.names, name);
      }
    }
  }

  /** There is one intersection: whichever path computes it, the list is the same. */
  lemma MeetIsUnique(r: MailboxScope, s: MailboxScope, a: MailboxScope, b: MailboxScope)
    requires Meets(r, a, b) && Meets(s, a, b)
    ensures r == s
  {
    if r.Only? {
      AscendingIsUnique(r.names, s.names);
    }
  }

  /** The indexed path above 32 names and the scanning path give the same list. */
  lemma PathsAgree(indexed: seq<string>, scanned: seq<string>, left: seq<string>, right: seq<string>)
    requires Ascending(indexed) && forall name :: name in indexed <==> Shared(left, right, name)
    requires Ascending(scanned) && forall name :: name in scanned <==> Lists(left, name) && Allows(Only(right), name)
    ensures indexed == scanned
  {
    forall name
      ensures name in indexed <==> name in scanned
    {
      if Lists(left, name) {
        ListedIsIdentity(left, name);
      }
    }
    AscendingIsUnique(indexed, scanned);
  }

  lemma MeetCommutes(r: MailboxScope, s: MailboxScope, a: MailboxScope, b: MailboxScope)
    requires Meets(r, a, b) && Meets(s, b, a)
    ensures r == s
  {
    if r.Only? {
      assert forall name :: BothHave(a, b, name) <==> BothHave(b, a, name);
      AscendingIsUnique(r.names, s.names);
    }
  }

  /** An intersection allows a mailbox if and only if both sides do. */
  lemma MeetAllows(r: MailboxScope, a: MailboxScope, b: MailboxScope, mailbox: string)
    requires Meets(r, a, b)
    ensures Allows(r, mailbox) <==> Allows(a, mailbox) && Allows(b, mailbox)
  {
    var identity := Identity(mailbox);
    IdentityIsStable(mailbox);
    if r.Only? {
      assert identity in r.names <==> BothHave(a, b, identity);
      if Lists(r.names, identity) {
        var i :| 0 <= i < |r.names| && Identity(r.names[i]) == identity;
        assert r.names[i] in r.names;
        assert BothHave(a, b, r.names[i]);
      }
      if identity in r.names {
        var i :| 0 <= i < |r.names| && r.names[i] == identity;
        assert Identity(r.names[i]) == identity;
      }
    }
  }

  /** Narrowing a scope step by step gives the same scope in any grouping. */
  lemma MeetAssociates(ab: MailboxScope, left: MailboxScope, bc: MailboxScope, right: MailboxScope,
                       a: MailboxScope, b: MailboxScope, c: MailboxScope)
    requires Meets(ab, a, b) && Meets(left, ab, c) && Meets(bc, b, c) && Meets(right, a, bc)
    ensures left == right
  {
    if left.Only? {
      forall name
        ensures name in left.names <==> name in right.names
      {
        MeetAllows(ab, a, b, name);
        MeetAllows(bc, b, c, name);
        assert BothHave(ab, c, name) <==> BothHave(a, bc, name);
      }
      AscendingIsUnique(left.names, right.names);
    }
  }
}
