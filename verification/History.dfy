/** The walk that drops reverted commits from a release history (`original_history` of `scripts/prepare-release.py`). */
module History {
  /** A listed commit, oldest first in a history; `reverts` is what its message declares to be reverted. */
  datatype Commit = Commit(id: string, message: string, reverts: seq<string>)

  function Members(ids: seq<string>): set<string> {
    set id | id in ids
  }

  /** The set after walking back to position `i`: a commit counts only if nothing after it has reverted it. */
  function Reverted(history: seq<Commit>, i: nat): set<string>
    requires i <= |history|
    decreases |history| - i
  {
    if i == |history| then {}
    else
      var later := Reverted(history, i + 1);
      if history[i].id in later then later else later + Members(history[i].reverts)
  }

  function Kept(history: seq<Commit>, reverted: set<string>): seq<Commit> {
    if history == [] then []
    else Kept(history[..|history| - 1], reverted) +
         (if history[|history| - 1].id in reverted then [] else [history[|history| - 1]])
  }

  function OriginalHistory(history: seq<Commit>): seq<Commit> {
    Kept(history, Reverted(history, 0))
  }

  method Originals(history: seq<Commit>) returns (kept: seq<Commit>)
    ensures kept == OriginalHistory(history)
  {
    var reverted: set<string> := {};
    var i := |history|;
    while i > 0
      invariant 0 <= i <= |history|
      invariant reverted == Reverted(history, i)
    {
      i := i - 1;
      if history[i].id !in reverted {
        reverted := reverted + Members(history[i].reverts);
      }
    }
    kept := [];
    while i < |history|
      invariant 0 <= i <= |history|
      invariant kept == Kept(history[..i], reverted)
    {
      assert history[..i + 1][..i] == history[..i];
      if history[i].id !in reverted {
        kept := kept + [history[i]];
      }
      i := i + 1;
    }
    assert history[..|history|] == history;
  }

  // ---- what survives ------------------------------------------------------------------------------

  predicate Survives(history: seq<Commit>, i: nat)
    requires i < |history|
  {
    history[i].id !in Reverted(history, 0)
  }

  /** The walk has not seen the commit reverted when it comes to it. */
  predicate Effective(history: seq<Commit>, i: nat)
    requires i < |history|
  {
    history[i].id !in Reverted(history, i + 1)
  }

  predicate Names(history: seq<Commit>, j: nat, id: string)
    requires j < |history|
  {
    id in history[j].reverts
  }

  /** The set holds exactly what the effective commits from `i` on declare reverted. */
  lemma {:induction false} RevertedMembers(history: seq<Commit>, i: nat, id: string)
    requires i <= |history|
    ensures id in Reverted(history, i) <==>
            exists j :: i <= j < |history| && Effective(history, j) && Names(history, j, id)
    decreases |history| - i
  {
    if i < |history| {
      RevertedMembers(history, i + 1, id);
      assert Effective(history, i) && Names(history, i, id) ==> id in Reverted(history, i);
    }
  }

  /** Where the kept commits stood. */
  function Positions(history: seq<Commit>, reverted: set<string>): seq<nat> {
    if history == [] then []
    else Positions(history[..|history| - 1], reverted) +
         (if history[|history| - 1].id in reverted then [] else [|history| - 1])
  }

  predicate Rising(at: seq<nat>, bound: nat) {
    && (forall k :: 0 <= k < |at| ==> at[k] < bound)
    && (forall k, l :: 0 <= k < l < |at| ==> at[k] < at[l])
  }

  lemma {:induction false} PositionsRise(history: seq<Commit>, reverted: set<string>)
    ensures Rising(Positions(history, reverted), |history|)
    decreases |history|
  {
    if history != [] {
      var last := |history| - 1;
      var before := Positions(history[..last], reverted);
      PositionsRise(history[..last], reverted);
      if history[last].id in reverted {
        assert Positions(history, reverted) == before;
      } else {
        assert Positions(history, reverted) == before + [last];
      }
    }
  }

  lemma {:induction false} PositionsAreKept(history: seq<Commit>, reverted: set<string>, i: nat)
    requires i < |history|
    ensures i in Positions(history, reverted) <==> history[i].id !in reverted
    decreases |history|
  {
    var last := |history| - 1;
    var before := history[..last];
    PositionsRise(before, reverted);
    if i < last {
      PositionsAreKept(before, reverted, i);
      assert before[i] == history[i];
    }
  }

  lemma {:induction false} KeptAt(history: seq<Commit>, reverted: set<string>, k: nat)
    requires k < |Positions(history, reverted)|
    ensures |Kept(history, reverted)| == |Positions(history, reverted)|
    ensures Positions(history, reverted)[k] < |history|
    ensures Kept(history, reverted)[k] == history[Positions(history, reverted)[k]]
    decreases |history|
  {
    var before := history[..|history| - 1];
    KeptLength(before, reverted);
    if k < |Positions(before, reverted)| {
      KeptAt(before, reverted, k);
    }
  }

  lemma {:induction false} KeptLength(history: seq<Commit>, reverted: set<string>)
    ensures |Kept(history, reverted)| == |Positions(history, reverted)|
    decreases |history|
  {
    if history != [] {
      KeptLength(history[..|history| - 1], reverted);
    }
  }

  /** The result is the surviving commits, all of them, in their order. */
  lemma OriginalsInOrder(history: seq<Commit>)
    returns (at: seq<nat>)
    ensures |OriginalHistory(history)| == |at|
    ensures forall k, l :: 0 <= k < l < |at| ==> at[k] < at[l]
    ensures forall k :: 0 <= k < |at| ==> at[k] < |history| && OriginalHistory(history)[k] == history[at[k]]
    ensures forall i :: 0 <= i < |history| ==> (i in at <==> Survives(history, i))
  {
    var reverted := Reverted(history, 0);
    at := Positions(history, reverted);
    KeptLength(history, reverted);
    PositionsRise(history, reverted);
    forall k | 0 <= k < |at|
      ensures at[k] < |history| && OriginalHistory(history)[k] == history[at[k]]
    {
      KeptAt(history, reverted, k);
    }
    forall i | 0 <= i < |history|
      ensures i in at <==> Survives(history, i)
    {
      PositionsAreKept(history, reverted, i);
    }
  }

  // ---- the law ------------------------------------------------------------------------------------

  /** Some surviving later commit declares the commit reverted. */
  predicate Undone(history: seq<Commit>, i: nat)
    requires i < |history|
  {
    exists j :: i < j < |history| && Survives(history, j) && Names(history, j, history[i].id)
  }

  predicate Lawful(history: seq<Commit>) {
    forall i :: 0 <= i < |history| ==> (Survives(history, i) <==> !Undone(history, i))
  }

  /** Whatever an effective commit declares reverted at its own place or after it is reverted from further on anyway. */
  predicate NothingForward(history: seq<Commit>) {
    forall i, j :: 0 <= j <= i < |history| && Effective(history, j) && Names(history, j, history[i].id) ==>
      !Effective(history, i)
  }

  lemma SurvivorsAreEffective(history: seq<Commit>, i: nat)
    requires i < |history| && Survives(history, i)
    ensures Effective(history, i)
  {
    RevertedMembers(history, 0, history[i].id);
    RevertedMembers(history, i + 1, history[i].id);
  }

  lemma EffectiveSurvive(history: seq<Commit>, i: nat)
    requires i < |history| && NothingForward(history) && Effective(history, i)
    ensures Survives(history, i)
  {
    RevertedMembers(history, 0, history[i].id);
    RevertedMembers(history, i + 1, history[i].id);
  }

  lemma ForwardIsLawful(history: seq<Commit>)
    requires NothingForward(history)
    ensures Lawful(history)
  {
    forall i | 0 <= i < |history|
      ensures Survives(history, i) <==> !Undone(history, i)
    {
      RevertedMembers(history, i + 1, history[i].id);
      forall j | 0 <= j < |history|
        ensures Effective(history, j) <==> Survives(history, j)
      {
        if Effective(history, j) {
          EffectiveSurvive(history, j);
        }
        if Survives(history, j) {
          SurvivorsAreEffective(history, j);
        }
      }
    }
  }

  lemma {:induction false} LawfulSurvive(history: seq<Commit>, i: nat)
    requires Lawful(history) && i < |history|
    ensures Survives(history, i) <==> Effective(history, i)
    decreases |history| - i
  {
    RevertedMembers(history, i + 1, history[i].id);
    forall j | i < j < |history|
      ensures Survives(history, j) <==> Effective(history, j)
    {
      LawfulSurvive(history, j);
    }
  }

  lemma LawfulIsForward(history: seq<Commit>)
    requires Lawful(history)
    ensures NothingForward(history)
  {
    forall i, j | 0 <= j <= i < |history| && Effective(history, j) && Names(history, j, history[i].id)
      ensures !Effective(history, i)
    {
      RevertedMembers(history, 0, history[i].id);
      LawfulSurvive(history, i);
    }
  }

  /** A commit survives if and only if no surviving later commit reverts it, for every commit of a history, exactly when
      no effective commit declares itself or a later effective commit reverted. */
  lemma LawfulExactly(history: seq<Commit>)
    ensures Lawful(history) <==> NothingForward(history)
  {
    if NothingForward(history) {
      ForwardIsLawful(history);
    }
    if Lawful(history) {
      LawfulIsForward(history);
    }
  }

  /** No message declares its own commit or one listed after it reverted, as no message can contain a later hash. */
  predicate BackwardOnly(history: seq<Commit>) {
    forall i, j :: 0 <= j <= i < |history| ==> !Names(history, j, history[i].id)
  }

  lemma BackwardIsLawful(history: seq<Commit>)
    requires BackwardOnly(history)
    ensures Lawful(history)
  {
    LawfulExactly(history);
  }

  /** The law fails once an effective commit declares a later one reverted: the later is dropped, though nothing after
      it reverts it. */
  lemma ForwardBreaksTheLaw()
    ensures var history := [Commit("a", "", ["b"]), Commit("b", "", [])];
            !Survives(history, 1) && !Undone(history, 1) && !Lawful(history)
  {
    var history := [Commit("a", "", ["b"]), Commit("b", "", [])];
    assert Reverted(history, 2) == {};
    assert Reverted(history, 1) == Members([]) == {};
    assert "b" in Members(["b"]);
    assert !Survives(history, 1) && !Undone(history, 1);
  }

  // ---- uniqueness ---------------------------------------------------------------------------------

  /** The set of positions solves the law. */
  ghost predicate Solves(history: seq<Commit>, s: set<nat>) {
    forall i :: 0 <= i < |history| ==>
      (i in s <==> !exists j :: i < j < |history| && j in s && Names(history, j, history[i].id))
  }

  /** The survivors are the only set of commits that solves the law. */
  lemma {:induction false} OnlySolution(history: seq<Commit>, s: set<nat>, i: nat)
    requires BackwardOnly(history) && Solves(history, s) && i < |history|
    ensures i in s <==> Survives(history, i)
    decreases |history| - i
  {
    BackwardIsLawful(history);
    forall j | i < j < |history|
      ensures j in s <==> Survives(history, j)
    {
      OnlySolution(history, s, j);
    }
    assert Survives(history, i) <==> !Undone(history, i);
  }

  // ---- reverts of reverts -------------------------------------------------------------------------

  /** Each commit after the first reverts exactly the one before it. */
  predicate Chain(history: seq<Commit>) {
    && (forall i :: 0 < i < |history| ==> history[i].reverts == [history[i - 1].id])
    && (forall i, j :: 0 <= i < j < |history| ==> history[i].id != history[j].id)
    && (history != [] ==> history[0].reverts == [])
  }

  lemma ChainIsBackward(history: seq<Commit>)
    requires Chain(history)
    ensures BackwardOnly(history)
  {
    forall i, j | 0 <= j <= i < |history|
      ensures !Names(history, j, history[i].id)
    {
      if j > 0 {
        assert history[j].reverts == [history[j - 1].id] && history[j - 1].id != history[i].id;
      }
    }
  }

  /** In a chain of reverts of any depth, a commit survives if and only if an even number of reverts follow it: a
      revert of a revert restores the original. */
  lemma {:induction false} ChainSurvives(history: seq<Commit>, i: nat)
    requires Chain(history) && i < |history|
    ensures Survives(history, i) <==> (|history| - 1 - i) % 2 == 0
    decreases |history| - i
  {
    ChainIsBackward(history);
    BackwardIsLawful(history);
    assert Survives(history, i) <==> !Undone(history, i);
    if i + 1 < |history| {
      ChainSurvives(history, i + 1);
      assert Names(history, i + 1, history[i].id);
      forall j | i < j < |history| && Names(history, j, history[i].id)
        ensures j == i + 1
      {
        assert history[j].reverts == [history[j - 1].id];
      }
    }
  }
}
