/** Editing the acceptance criteria of a task in place
    (internal/core/update_ac.go).  An edit removes, checks, unchecks and adds
    criteria, in that order, then renumbers them from 1.  Every effective
    change appends one history entry stamped with the clock value `now`.

    Removal and flag setting are specified by folds over the requested
    indices (`RemoveAll`, `SetAll`), one pass per index as the source loops,
    and each fold is related by a lemma to a direct description of its
    result (`Survivors`, `Marked`).  Adding is specified directly (`Added`). */
module UpdateAC {
  import opened Tasks
  import opened CoreParams
  import opened Text
  import opened Wrappers

  type AC = AcceptanceCriterion

  // ------------------------------------------------------------ removal

  /** The criteria whose index is not listed in `gone`, in their order. */
  function Survivors(acs: seq<AC>, gone: seq<int>): (r: seq<AC>)
    ensures |r| <= |acs|
    decreases |acs|
  {
    if |acs| == 0 then []
    else
      var last := acs[|acs| - 1];
      Survivors(acs[..|acs| - 1], gone) + (if last.index in gone then [] else [last])
  }

  /** A criterion survives exactly when it was there and its index is not
      listed. */
  lemma {:induction false} SurvivorsMembers(acs: seq<AC>, gone: seq<int>)
    ensures forall c :: c in Survivors(acs, gone) <==> c in acs && c.index !in gone
    decreases |acs|
  {
    if |acs| > 0 {
      SurvivorsMembers(acs[..|acs| - 1], gone);
      assert acs == acs[..|acs| - 1] + [acs[|acs| - 1]];
    }
  }

  /** The history entries of one removal pass: one per criterion with index
      `k`, in list order. */
  function RemovalLog(acs: seq<AC>, k: int, now: int): (log: seq<HistoryEntry>)
    decreases |acs|
  {
    if |acs| == 0 then []
    else
      var last := acs[|acs| - 1];
      RemovalLog(acs[..|acs| - 1], k, now)
        + (if last.index == k then [HistoryEntry(now, ACRemoved(last.index, last.text))] else [])
  }

  /** A removal pass logs exactly the criteria it drops. */
  lemma {:induction false} RemovalLogCount(acs: seq<AC>, k: int, now: int)
    ensures |RemovalLog(acs, k, now)| + |Survivors(acs, [k])| == |acs|
    ensures forall e :: e in RemovalLog(acs, k, now) ==>
      e.timestamp == now && e.change.ACRemoved? && e.change.index == k
    decreases |acs|
  {
    if |acs| > 0 {
      RemovalLogCount(acs[..|acs| - 1], k, now);
    }
  }

  /** The removal passes, one per listed index, in list order. */
  function RemoveAll(acs: seq<AC>, ks: seq<int>): (r: seq<AC>)
    decreases |ks|
  {
    if |ks| == 0 then acs else Survivors(RemoveAll(acs, ks[..|ks| - 1]), [ks[|ks| - 1]])
  }

  /** The history of the removal passes. */
  function RemoveLog(acs: seq<AC>, ks: seq<int>, now: int): (log: seq<HistoryEntry>)
    decreases |ks|
  {
    if |ks| == 0 then []
    else
      var init := ks[..|ks| - 1];
      RemoveLog(acs, init, now) + RemovalLog(RemoveAll(acs, init), ks[|ks| - 1], now)
  }

  /** Filtering twice is filtering once by both lists. */
  lemma {:induction false} SurvivorsTwice(acs: seq<AC>, a: seq<int>, b: seq<int>)
    ensures Survivors(Survivors(acs, a), b) == Survivors(acs, a + b)
    decreases |acs|
  {
    if |acs| > 0 {
      var init, last := acs[..|acs| - 1], acs[|acs| - 1];
      SurvivorsTwice(init, a, b);
      var s := Survivors(init, a);
      assert Survivors(acs, a + b) == Survivors(init, a + b) + (if last.index in a + b then [] else [last]);
      if last.index in a {
        assert Survivors(acs, a) == s;
      } else {
        assert Survivors(acs, a) == s + [last];
        assert (s + [last])[..|s|] == s;
        assert Survivors(s + [last], b) == Survivors(s, b) + (if last.index in b then [] else [last]);
      }
    }
  }

  /** Only which indices are listed matters, not their order or repetition. */
  lemma {:induction false} SurvivorsSameMembers(acs: seq<AC>, a: seq<int>, b: seq<int>)
    requires forall x :: x in a <==> x in b
    ensures Survivors(acs, a) == Survivors(acs, b)
    decreases |acs|
  {
    if |acs| > 0 {
      SurvivorsSameMembers(acs[..|acs| - 1], a, b);
    }
  }

  /** The removal passes drop exactly the criteria whose index is listed,
      and keep the others in their order. */
  lemma {:induction false} RemoveAllIsSurvivors(acs: seq<AC>, ks: seq<int>)
    ensures RemoveAll(acs, ks) == Survivors(acs, ks)
    decreases |ks|
  {
    if |ks| == 0 {
      SurvivorsSameMembers(acs, [], ks);
      SurvivorsNone(acs);
    } else {
      var init := ks[..|ks| - 1];
      RemoveAllIsSurvivors(acs, init);
      SurvivorsTwice(acs, init, [ks[|ks| - 1]]);
      assert init + [ks[|ks| - 1]] == ks;
    }
  }

  lemma {:induction false} SurvivorsNone(acs: seq<AC>)
    ensures Survivors(acs, []) == acs
    decreases |acs|
  {
    if |acs| > 0 {
      var init, last := acs[..|acs| - 1], acs[|acs| - 1];
      SurvivorsNone(init);
      assert last.index !in [];
      assert Survivors(acs, []) == Survivors(init, []) + [last];
      assert init + [last] == acs;
    }
  }

  /** Every criterion the removal passes drop is logged once. */
  lemma {:induction false} RemoveLogCount(acs: seq<AC>, ks: seq<int>, now: int)
    ensures |RemoveLog(acs, ks, now)| + |RemoveAll(acs, ks)| == |acs|
    decreases |ks|
  {
    if |ks| > 0 {
      var init := ks[..|ks| - 1];
      RemoveLogCount(acs, init, now);
      RemovalLogCount(RemoveAll(acs, init), ks[|ks| - 1], now);
    }
  }

  // ------------------------------------------- sorting the removal list

  predicate Descending(ks: seq<int>)
  {
    forall i, j :: 0 <= i < j < |ks| ==> ks[i] >= ks[j]
  }

  function InsertDescending(x: int, ks: seq<int>): (r: seq<int>)
    requires Descending(ks)
    ensures Descending(r)
    ensures multiset(r) == multiset(ks) + multiset{x}
    ensures |r| == |ks| + 1
    ensures r[0] == x || (|ks| > 0 && r[0] == ks[0])
    decreases |ks|
  {
    if |ks| == 0 || x >= ks[0] then [x] + ks
    else
      var rest := InsertDescending(x, ks[1..]);
      assert ks == [ks[0]] + ks[1..];
      assert rest[0] <= ks[0];
      assert forall j :: 0 <= j < |rest| ==> rest[j] <= ks[0];
      assert multiset([ks[0]] + rest) == multiset{ks[0]} + multiset(rest);
      [ks[0]] + rest
  }

  /** `sort.Sort(sort.Reverse(sort.IntSlice(ks)))`: the indices, largest
      first.  Equal integers are indistinguishable, so the result is the
      only descending arrangement. */
  function SortDescending(ks: seq<int>): (r: seq<int>)
    ensures Descending(r)
    ensures multiset(r) == multiset(ks)
    decreases |ks|
  {
    if |ks| == 0 then []
    else
      assert ks == [ks[0]] + ks[1..];
      InsertDescending(ks[0], SortDescending(ks[1..]))
  }

  /** Sorting the removal list does not change what is removed. */
  lemma {:induction false} RemoveSortedIsSurvivors(acs: seq<AC>, ks: seq<int>)
    ensures RemoveAll(acs, SortDescending(ks)) == Survivors(acs, ks)
  {
    var sorted := SortDescending(ks);
    RemoveAllIsSurvivors(acs, sorted);
    assert forall x :: x in sorted <==> x in ks by {
      forall x ensures x in sorted <==> x in ks {
        assert x in sorted <==> x in multiset(sorted);
        assert x in ks <==> x in multiset(ks);
      }
    }
    SurvivorsSameMembers(acs, sorted, ks);
  }

  // --------------------------------------------------- check and uncheck

  /** The criteria with every flag of a listed index set to `v`. */
  function Marked(acs: seq<AC>, ks: seq<int>, v: bool): (r: seq<AC>)
  {
    seq(|acs|, i requires 0 <= i < |acs| => if acs[i].index in ks then acs[i].(checked := v) else acs[i])
  }

  /** One check (v = true) or uncheck (v = false) pass per listed index, in
      list order. */
  function SetAll(acs: seq<AC>, ks: seq<int>, v: bool): (r: seq<AC>)
    decreases |ks|
  {
    if |ks| == 0 then acs else Marked(SetAll(acs, ks[..|ks| - 1], v), [ks[|ks| - 1]], v)
  }

  /** The history entry of a flag change. */
  function FlagChange(c: AC, v: bool): Change
  {
    if v then ACChecked(c.index, c.text) else ACUnchecked(c.index, c.text)
  }

  /** The history of one pass: one entry per criterion with index `k` whose
      flag was not already `v`. */
  function FlipLog(acs: seq<AC>, k: int, v: bool, now: int): (log: seq<HistoryEntry>)
    decreases |acs|
  {
    if |acs| == 0 then []
    else
      var last := acs[|acs| - 1];
      FlipLog(acs[..|acs| - 1], k, v, now)
        + (if last.index == k && last.checked != v then [HistoryEntry(now, FlagChange(last, v))] else [])
  }

  function SetAllLog(acs: seq<AC>, ks: seq<int>, v: bool, now: int): (log: seq<HistoryEntry>)
    decreases |ks|
  {
    if |ks| == 0 then []
    else
      var init := ks[..|ks| - 1];
      SetAllLog(acs, init, v, now) + FlipLog(SetAll(acs, init, v), ks[|ks| - 1], v, now)
  }

  /** The check (or uncheck) passes set the flag of exactly the criteria
      whose index is listed, and change nothing else. */
  lemma {:induction false} SetAllIsMarked(acs: seq<AC>, ks: seq<int>, v: bool)
    ensures SetAll(acs, ks, v) == Marked(acs, ks, v)
    decreases |ks|
  {
    if |ks| > 0 {
      SetAllIsMarked(acs, ks[..|ks| - 1], v);
      assert ks == ks[..|ks| - 1] + [ks[|ks| - 1]];
    }
  }

  /** The number of criteria whose index is listed and whose flag differs
      from `v`: the changes a pass makes. */
  function Flips(acs: seq<AC>, ks: seq<int>, v: bool): (n: nat)
    decreases |acs|
  {
    if |acs| == 0 then 0
    else
      var last := acs[|acs| - 1];
      Flips(acs[..|acs| - 1], ks, v) + (if last.index in ks && last.checked != v then 1 else 0)
  }

  lemma {:induction false} FlipLogCount(acs: seq<AC>, k: int, v: bool, now: int)
    ensures |FlipLog(acs, k, v, now)| == Flips(acs, [k], v)
    decreases |acs|
  {
    if |acs| > 0 {
      FlipLogCount(acs[..|acs| - 1], k, v, now);
    }
  }

  lemma {:induction false} FlipsStep(acs: seq<AC>, a: seq<int>, k: int, v: bool)
    ensures Flips(acs, a, v) + Flips(Marked(acs, a, v), [k], v) == Flips(acs, a + [k], v)
    decreases |acs|
  {
    if |acs| > 0 {
      var init := acs[..|acs| - 1];
      FlipsStep(init, a, k, v);
      assert Marked(acs, a, v)[..|acs| - 1] == Marked(init, a, v);
    }
  }

  /** One history entry per flag actually changed: a criterion whose flag is
      already `v`, or that is listed twice, is logged at most once. */
  lemma {:induction false} SetAllLogCount(acs: seq<AC>, ks: seq<int>, v: bool, now: int)
    ensures |SetAllLog(acs, ks, v, now)| == Flips(acs, ks, v)
    decreases |ks|
  {
    if |ks| == 0 {
      FlipsNone(acs, v);
    } else {
      var init := ks[..|ks| - 1];
      SetAllLogCount(acs, init, v, now);
      FlipLogCount(SetAll(acs, init, v), ks[|ks| - 1], v, now);
      SetAllIsMarked(acs, init, v);
      FlipsStep(acs, init, ks[|ks| - 1], v);
      assert init + [ks[|ks| - 1]] == ks;
    }
  }

  lemma {:induction false} FlipsNone(acs: seq<AC>, v: bool)
    ensures Flips(acs, [], v) == 0
    decreases |acs|
  {
    if |acs| > 0 {
      FlipsNone(acs[..|acs| - 1], v);
    }
  }

  // -------------------------------------------------------------- adding

  /** The highest index, or 0 when there is none above 0. */
  function MaxIndex(acs: seq<AC>): (m: int)
    ensures m >= 0
    decreases |acs|
  {
    if |acs| == 0 then 0
    else
      var m := MaxIndex(acs[..|acs| - 1]);
      if acs[|acs| - 1].index > m then acs[|acs| - 1].index else m
  }

  /** No criterion has an index above `MaxIndex`. */
  lemma {:induction false} MaxIndexBound(acs: seq<AC>)
    ensures forall i :: 0 <= i < |acs| ==> acs[i].index <= MaxIndex(acs)
    decreases |acs|
  {
    if |acs| > 0 {
      MaxIndexBound(acs[..|acs| - 1]);
    }
  }

  /** The criteria `addACs` appends for `texts`: unchecked, in order, each
      numbered one above the highest index before it. */
  function Added(acs: seq<AC>, texts: seq<string>): (r: seq<AC>)
  {
    seq(|texts|, j requires 0 <= j < |texts| => AcceptanceCriterion(texts[j], false, MaxIndex(acs) + 1 + j))
  }

  /** The history of adding: one entry per new text. */
  function AddLog(acs: seq<AC>, texts: seq<string>, now: int): (log: seq<HistoryEntry>)
  {
    seq(|texts|, j requires 0 <= j < |texts| => HistoryEntry(now, ACAdded(MaxIndex(acs) + 1 + j, texts[j])))
  }

  lemma {:induction false} MaxIndexAppendAbove(prev: seq<AC>, c: AC)
    requires c.index > MaxIndex(prev)
    ensures MaxIndex(prev + [c]) == c.index
  {
    assert (prev + [c])[..|prev|] == prev;
    assert (prev + [c])[|prev|] == c;
  }

  /** After adding, the highest index is the last new one: this is what
      makes each pass of `addACs` number its criterion one above the
      previous pass. */
  lemma {:induction false} MaxIndexAfterAdd(acs: seq<AC>, texts: seq<string>)
    requires |texts| > 0
    ensures MaxIndex(acs + Added(acs, texts)) == MaxIndex(acs) + |texts|
    decreases |texts|
  {
    var init := texts[..|texts| - 1];
    var c := AcceptanceCriterion(texts[|texts| - 1], false, MaxIndex(acs) + |texts|);
    assert Added(acs, texts) == Added(acs, init) + [c];
    assert acs + Added(acs, texts) == (acs + Added(acs, init)) + [c];
    if |init| > 0 {
      MaxIndexAfterAdd(acs, init);
    } else {
      assert acs + Added(acs, init) == acs;
    }
    MaxIndexAppendAbove(acs + Added(acs, init), c);
  }

  /** Every new criterion is numbered above every existing one, and the new
      ones are numbered in increasing order. */
  lemma {:induction false} AddedAbove(acs: seq<AC>, texts: seq<string>)
    ensures forall i, j :: 0 <= i < |acs| && 0 <= j < |texts| ==> acs[i].index < Added(acs, texts)[j].index
    ensures StrictlySortedByIndex(Added(acs, texts))
  {
    MaxIndexBound(acs);
  }

  // ---------------------------------------------------------- renumbering

  /** The criteria numbered 1, 2, ... in their order. */
  function Renumber(acs: seq<AC>): (r: seq<AC>)
    ensures |r| == |acs|
    ensures forall i :: 0 <= i < |r| ==> r[i] == acs[i].(index := i + 1)
  {
    seq(|acs|, i requires 0 <= i < |acs| => acs[i].(index := i + 1))
  }

  /** `reindexACs`: `r` is some arrangement of `acs` sorted by index (the
      sort is not stable, so criteria with equal indices may come in either
      order), renumbered from 1. */
  ghost predicate IsReindexOf(r: seq<AC>, acs: seq<AC>)
  {
    exists s :: SortedByIndex(s) && multiset(s) == multiset(acs) && r == Renumber(s)
  }

  /** After renumbering the indices are exactly 1..n in order. */
  lemma {:induction false} ReindexedIndices(r: seq<AC>, acs: seq<AC>)
    requires IsReindexOf(r, acs)
    ensures |r| == |acs|
    ensures forall i :: 0 <= i < |r| ==> r[i].index == i + 1
    ensures StrictlySortedByIndex(r)
  {
    var s :| SortedByIndex(s) && multiset(s) == multiset(acs) && r == Renumber(s);
    assert |s| == |multiset(s)| == |multiset(acs)| == |acs|;
  }

  /** When no two criteria share an index the order is determined: the
      criteria are renumbered in the order of their prior indices. */
  lemma {:induction false} ReindexDistinct(r: seq<AC>, acs: seq<AC>)
    requires IsReindexOf(r, acs)
    requires forall i, j :: 0 <= i < j < |acs| ==> acs[i].index != acs[j].index
    ensures r == Renumber(SortByIndex(acs))
  {
    var s :| SortedByIndex(s) && multiset(s) == multiset(acs) && r == Renumber(s);
    var t := SortByIndex(acs);
    SortedDistinctIsStrict(t, acs);
    SortedArrangementUnique(t, s);
  }

  /** A sorted arrangement of criteria without repeated indices is strictly
      sorted. */
  lemma {:induction false} SortedDistinctIsStrict(t: seq<AC>, acs: seq<AC>)
    requires SortedByIndex(t) && multiset(t) == multiset(acs)
    requires forall i, j :: 0 <= i < j < |acs| ==> acs[i].index != acs[j].index
    ensures StrictlySortedByIndex(t)
  {
    forall i, j | 0 <= i < j < |t| ensures t[i].index < t[j].index {
      assert t[j] in multiset(acs);
      OccursOnce(acs, t[j]);
      NotBefore(t, j);
      assert t[i] in t[..j];
      assert t[i] != t[j];
      SameIndexSameElement(acs, t[i], t[j]);
    }
  }

  /** Two elements of a list without repeated indices that share an index
      are the same element. */
  lemma {:induction false} SameIndexSameElement(acs: seq<AC>, x: AC, y: AC)
    requires x in multiset(acs) && y in multiset(acs) && x != y
    requires forall i, j :: 0 <= i < j < |acs| ==> acs[i].index != acs[j].index
    ensures x.index != y.index
  {
    var a :| 0 <= a < |acs| && acs[a] == x;
    var b :| 0 <= b < |acs| && acs[b] == y;
    if a < b { assert acs[a].index != acs[b].index; } else { assert acs[b].index != acs[a].index; }
  }

  /** In a list without repeated indices every element occurs once. */
  lemma {:induction false} OccursOnce(acs: seq<AC>, x: AC)
    requires x in acs
    requires forall i, j :: 0 <= i < j < |acs| ==> acs[i].index != acs[j].index
    ensures multiset(acs)[x] == 1
  {
    var a :| 0 <= a < |acs| && acs[a] == x;
    assert acs == acs[..a] + [x] + acs[a + 1..];
    forall p | 0 <= p < |acs| && p != a ensures acs[p] != x {
      if p < a { assert acs[p].index != acs[a].index; } else { assert acs[a].index != acs[p].index; }
    }
    assert x !in acs[..a];
    assert x !in acs[a + 1..];
  }

  /** An element occurring once in `t` does not occur before its position. */
  lemma {:induction false} NotBefore(t: seq<AC>, j: nat)
    requires j < |t| && multiset(t)[t[j]] == 1
    ensures t[j] !in t[..j]
  {
    assert t == t[..j] + [t[j]] + t[j + 1..];
    assert multiset(t)[t[j]] == multiset(t[..j])[t[j]] + 1 + multiset(t[j + 1..])[t[j]];
  }

  // ------------------------------------------------------------ the edit

  /** Checking then unchecking, on what survived the removals. */
  function Flagged(removed: seq<AC>, p: EditTaskParams): (r: seq<AC>)
  {
    SetAll(SetAll(removed, p.checkAC, true), p.uncheckAC, false)
  }

  /** The history entries of checking, unchecking and adding. */
  function FlagAddLog(removed: seq<AC>, p: EditTaskParams, now: int): (log: seq<HistoryEntry>)
  {
    SetAllLog(removed, p.checkAC, true, now)
      + SetAllLog(SetAll(removed, p.checkAC, true), p.uncheckAC, false, now)
      + AddLog(Flagged(removed, p), p.addAC, now)
  }

  /** The criteria after removal, checking, unchecking and adding, before
      renumbering. */
  function Edited(acs: seq<AC>, p: EditTaskParams): (r: seq<AC>)
  {
    var unchecked := Flagged(RemoveAll(acs, SortDescending(p.removeAC)), p);
    unchecked + Added(unchecked, p.addAC)
  }

  /** The history entries of an edit, in the order they are written. */
  function EditLog(acs: seq<AC>, p: EditTaskParams, now: int): (log: seq<HistoryEntry>)
  {
    RemoveLog(acs, SortDescending(p.removeAC), now)
      + FlagAddLog(RemoveAll(acs, SortDescending(p.removeAC)), p, now)
  }

  /** What an edit does to the criteria that were there, stated directly:
      those with a removed index are gone, the others keep their order and
      text, and a flag is set by the last of check/uncheck that lists it
      (uncheck runs second); the new texts follow. */
  lemma {:induction false} EditedIs(acs: seq<AC>, p: EditTaskParams)
    ensures Edited(acs, p) ==
      var kept := Marked(Marked(Survivors(acs, p.removeAC), p.checkAC, true), p.uncheckAC, false);
      kept + Added(kept, p.addAC)
  {
    RemoveSortedIsSurvivors(acs, p.removeAC);
    var removed := Survivors(acs, p.removeAC);
    SetAllIsMarked(removed, p.checkAC, true);
    SetAllIsMarked(Marked(removed, p.checkAC, true), p.uncheckAC, false);
  }

  /** An uncheck of a removed index finds nothing to change. */
  lemma {:induction false} UncheckRemovedDoesNothing(acs: seq<AC>, ks: seq<int>, k: int, now: int)
    requires k in ks
    ensures Marked(Survivors(acs, ks), [k], false) == Survivors(acs, ks)
    ensures FlipLog(Survivors(acs, ks), k, false, now) == []
  {
    var s := Survivors(acs, ks);
    SurvivorsMembers(acs, ks);
    assert forall i :: 0 <= i < |s| ==> s[i].index != k by {
      forall i | 0 <= i < |s| ensures s[i].index != k { assert s[i] in s; }
    }
    NoMatchNoLog(s, k, false, now);
  }

  lemma {:induction false} NoMatchNoLog(s: seq<AC>, k: int, v: bool, now: int)
    requires forall i :: 0 <= i < |s| ==> s[i].index != k
    ensures FlipLog(s, k, v, now) == []
    decreases |s|
  {
    if |s| > 0 {
      NoMatchNoLog(s[..|s| - 1], k, v, now);
    }
  }

  /** The history of an edit: one entry per removed criterion, per flag
      changed by a check or an uncheck, and per added text. */
  lemma {:induction false} EditLogCount(acs: seq<AC>, p: EditTaskParams, now: int)
    ensures |EditLog(acs, p, now)| ==
      (|acs| - |Survivors(acs, p.removeAC)|)
      + Flips(Survivors(acs, p.removeAC), p.checkAC, true)
      + Flips(Marked(Survivors(acs, p.removeAC), p.checkAC, true), p.uncheckAC, false)
      + |p.addAC|
  {
    var ks := SortDescending(p.removeAC);
    RemoveLogCount(acs, ks, now);
    RemoveSortedIsSurvivors(acs, p.removeAC);
    var removed := Survivors(acs, p.removeAC);
    SetAllLogCount(removed, p.checkAC, true, now);
    SetAllIsMarked(removed, p.checkAC, true);
    var checked := Marked(removed, p.checkAC, true);
    SetAllLogCount(checked, p.uncheckAC, false, now);
  }

  // --------------------------------------------------------- the methods

  /** `b` differs from `a` at most in its criteria and its history. */
  predicate OnlyCriteriaAndHistory(a: Task, b: Task)
  {
    b == a.(acceptanceCriteria := b.acceptanceCriteria, history := b.history)
  }

  /** One removal pass: the inner loop of `removeACs`. */
  method RemoveIndex(t: TaskRef, k: int, now: int)
    modifies t
    ensures t.task.acceptanceCriteria == Survivors(old(t.task.acceptanceCriteria), [k])
    ensures t.task.history == old(t.task.history) + RemovalLog(old(t.task.acceptanceCriteria), k, now)
    ensures OnlyCriteriaAndHistory(old(t.task), t.task)
  {
    var acs := t.task.acceptanceCriteria;
    var kept: seq<AC> := [];
    var i := 0;
    while i < |acs|
      invariant 0 <= i <= |acs|
      invariant kept == Survivors(acs[..i], [k])
      invariant t.task == old(t.task).(history := old(t.task.history) + RemovalLog(acs[..i], k, now))
    {
      assert acs[..i + 1][..i] == acs[..i];
      if acs[i].index != k {
        kept := kept + [acs[i]];
      } else {
        t.task := t.task.(history := t.task.history + [HistoryEntry(now, ACRemoved(acs[i].index, acs[i].text))]);
      }
      i := i + 1;
    }
    assert acs[..i] == acs;
    t.task := t.task.(acceptanceCriteria := kept);
  }

  /** `OnlyCriteriaAndHistory` composes. */
  lemma {:induction false} OnlyCriteriaAndHistoryTrans(a: Task, b: Task, c: Task)
    requires OnlyCriteriaAndHistory(a, b) && OnlyCriteriaAndHistory(b, c)
    ensures OnlyCriteriaAndHistory(a, c)
  {
  }

  /** One removal pass per index of `ks`, in the order given. */
  method RemoveEach(t: TaskRef, ks: seq<int>, now: int)
    modifies t
    ensures t.task.acceptanceCriteria == RemoveAll(old(t.task.acceptanceCriteria), ks)
    ensures t.task.history == old(t.task.history) + RemoveLog(old(t.task.acceptanceCriteria), ks, now)
    ensures OnlyCriteriaAndHistory(old(t.task), t.task)
  {
    ghost var acs, h, t0 := t.task.acceptanceCriteria, t.task.history, t.task;
    var j := 0;
    while j < |ks|
      invariant 0 <= j <= |ks|
      invariant t.task.acceptanceCriteria == RemoveAll(acs, ks[..j])
      invariant t.task.history == h + RemoveLog(acs, ks[..j], now)
      invariant OnlyCriteriaAndHistory(t0, t.task)
    {
      ghost var before := t.task;
      RemoveIndex(t, ks[j], now);
      OnlyCriteriaAndHistoryTrans(t0, before, t.task);
      assert ks[..j + 1][..j] == ks[..j];
      j := j + 1;
    }
    assert ks[..j] == ks;
  }

  /** `removeACs`: the indices sorted largest first, then one removal pass
      per index. */
  method RemoveACs(t: TaskRef, indicesToRemove: seq<int>, now: int)
    modifies t
    ensures t.task.acceptanceCriteria == RemoveAll(old(t.task.acceptanceCriteria), SortDescending(indicesToRemove))
    ensures t.task.history == old(t.task.history) + RemoveLog(old(t.task.acceptanceCriteria), SortDescending(indicesToRemove), now)
    ensures OnlyCriteriaAndHistory(old(t.task), t.task)
  {
    var ks := SortDescending(indicesToRemove);
    RemoveEach(t, ks, now);
  }

  /** One check or uncheck pass: the inner loop of `checkACs` and
      `uncheckACs`. */
  method SetFlag(t: TaskRef, k: int, v: bool, now: int)
    modifies t
    ensures t.task.acceptanceCriteria == Marked(old(t.task.acceptanceCriteria), [k], v)
    ensures t.task.history == old(t.task.history) + FlipLog(old(t.task.acceptanceCriteria), k, v, now)
    ensures OnlyCriteriaAndHistory(old(t.task), t.task)
  {
    ghost var acs, h, t0 := t.task.acceptanceCriteria, t.task.history, t.task;
    ghost var want := Marked(acs, [k], v);
    var i := 0;
    while i < |t.task.acceptanceCriteria|
      invariant |t.task.acceptanceCriteria| == |acs|
      invariant 0 <= i <= |acs|
      invariant forall m :: 0 <= m < i ==> t.task.acceptanceCriteria[m] == want[m]
      invariant forall m :: i <= m < |acs| ==> t.task.acceptanceCriteria[m] == acs[m]
      invariant t.task.history == h + FlipLog(acs[..i], k, v, now)
      invariant OnlyCriteriaAndHistory(t0, t.task)
    {
      var c := t.task.acceptanceCriteria[i];
      assert acs[..i + 1][..i] == acs[..i];
      ghost var log := FlipLog(acs[..i], k, v, now);
      if c.index == k && c.checked != v {
        t.task := t.task.(acceptanceCriteria := t.task.acceptanceCriteria[i := c.(checked := v)]);
        t.task := t.task.(history := t.task.history + [HistoryEntry(now, FlagChange(c, v))]);
        AppendAssoc(h, log, [HistoryEntry(now, FlagChange(c, v))]);
      }
      i := i + 1;
    }
    assert acs[..i] == acs;
    assert t.task.acceptanceCriteria == want;
  }

  /** `checkACs` (v = true) and `uncheckACs` (v = false). */
  method SetFlags(t: TaskRef, ks: seq<int>, v: bool, now: int)
    modifies t
    ensures t.task.acceptanceCriteria == SetAll(old(t.task.acceptanceCriteria), ks, v)
    ensures t.task.history == old(t.task.history) + SetAllLog(old(t.task.acceptanceCriteria), ks, v, now)
    ensures OnlyCriteriaAndHistory(old(t.task), t.task)
  {
    ghost var acs, h, t0 := t.task.acceptanceCriteria, t.task.history, t.task;
    var j := 0;
    while j < |ks|
      invariant 0 <= j <= |ks|
      invariant t.task.acceptanceCriteria == SetAll(acs, ks[..j], v)
      invariant t.task.history == h + SetAllLog(acs, ks[..j], v, now)
      invariant OnlyCriteriaAndHistory(t0, t.task)
    {
      ghost var before := t.task;
      SetFlag(t, ks[j], v, now);
      OnlyCriteriaAndHistoryTrans(t0, before, t.task);
      assert ks[..j + 1][..j] == ks[..j];
      assert SetAll(acs, ks[..j + 1], v) == Marked(SetAll(acs, ks[..j], v), [ks[j]], v);
      assert SetAllLog(acs, ks[..j + 1], v, now) == SetAllLog(acs, ks[..j], v, now) + FlipLog(SetAll(acs, ks[..j], v), ks[j], v, now);
      j := j + 1;
    }
    assert ks[..j] == ks;
  }

  /** The inner loop of `addACs`: the highest index so far. */
  method HighestIndex(acs: seq<AC>) returns (highest: int)
    ensures highest == MaxIndex(acs)
  {
    highest := 0;
    var i := 0;
    while i < |acs|
      invariant 0 <= i <= |acs|
      invariant highest == MaxIndex(acs[..i])
    {
      assert acs[..i + 1][..i] == acs[..i];
      if acs[i].index > highest {
        highest := acs[i].index;
      }
      i := i + 1;
    }
    assert acs[..i] == acs;
  }

  /** `addACs`. */
  method AddACs(t: TaskRef, texts: seq<string>, now: int)
    modifies t
    ensures t.task.acceptanceCriteria == old(t.task.acceptanceCriteria) + Added(old(t.task.acceptanceCriteria), texts)
    ensures t.task.history == old(t.task.history) + AddLog(old(t.task.acceptanceCriteria), texts, now)
    ensures OnlyCriteriaAndHistory(old(t.task), t.task)
  {
    ghost var acs, h := t.task.acceptanceCriteria, t.task.history;
    var j := 0;
    while j < |texts|
      invariant 0 <= j <= |texts|
      invariant t.task == old(t.task).(
        acceptanceCriteria := acs + Added(acs, texts[..j]),
        history := h + AddLog(acs, texts[..j], now))
    {
      var highest := HighestIndex(t.task.acceptanceCriteria);
      if j > 0 {
        MaxIndexAfterAdd(acs, texts[..j]);
      } else {
        assert t.task.acceptanceCriteria == acs;
      }
      var c := AcceptanceCriterion(texts[j], false, highest + 1);
      assert Added(acs, texts[..j + 1]) == Added(acs, texts[..j]) + [c];
      assert AddLog(acs, texts[..j + 1], now) == AddLog(acs, texts[..j], now) + [HistoryEntry(now, ACAdded(c.index, c.text))];
      t.task := t.task.(acceptanceCriteria := t.task.acceptanceCriteria + [c]);
      t.task := t.task.(history := t.task.history + [HistoryEntry(now, ACAdded(c.index, c.text))]);
      j := j + 1;
    }
    assert texts[..j] == texts;
  }

  /** `reindexACs`: sort by index, then number from 1. */
  method ReindexACs(t: TaskRef)
    modifies t
    ensures t.task == old(t.task).(acceptanceCriteria := t.task.acceptanceCriteria)
    ensures IsReindexOf(t.task.acceptanceCriteria, old(t.task.acceptanceCriteria))
  {
    ghost var acs := t.task.acceptanceCriteria;
    var sorted := SortByIndex(t.task.acceptanceCriteria);
    t.task := t.task.(acceptanceCriteria := sorted);
    var i := 0;
    while i < |t.task.acceptanceCriteria|
      invariant |t.task.acceptanceCriteria| == |sorted|
      invariant 0 <= i <= |sorted|
      invariant t.task.acceptanceCriteria[..i] == Renumber(sorted)[..i]
      invariant t.task.acceptanceCriteria[i..] == sorted[i..]
      invariant t.task == old(t.task).(acceptanceCriteria := t.task.acceptanceCriteria)
    {
      var c := t.task.acceptanceCriteria[i];
      t.task := t.task.(acceptanceCriteria := t.task.acceptanceCriteria[i := c.(index := i + 1)]);
      i := i + 1;
    }
    assert t.task.acceptanceCriteria == t.task.acceptanceCriteria[..i];
    assert SortedByIndex(sorted) && multiset(sorted) == multiset(acs) && t.task.acceptanceCriteria == Renumber(sorted);
  }

  /** Steps 2 and 3 of `HandleACChanges`: check, uncheck, add. */
  method FlagAndAdd(t: TaskRef, p: EditTaskParams, now: int)
    modifies t
    ensures t.task.acceptanceCriteria ==
      Flagged(old(t.task.acceptanceCriteria), p) + Added(Flagged(old(t.task.acceptanceCriteria), p), p.addAC)
    ensures t.task.history == old(t.task.history) + FlagAddLog(old(t.task.acceptanceCriteria), p, now)
    ensures OnlyCriteriaAndHistory(old(t.task), t.task)
  {
    ghost var t0 := t.task;
    SetFlags(t, p.checkAC, true, now);
    ghost var t1 := t.task;
    SetFlags(t, p.uncheckAC, false, now);
    ghost var t2 := t.task;
    OnlyCriteriaAndHistoryTrans(t0, t1, t2);
    AddACs(t, p.addAC, now);
    OnlyCriteriaAndHistoryTrans(t0, t2, t.task);
  }

  /** Steps 1 to 3 of `HandleACChanges`: remove, check, uncheck, add. */
  method EditACs(t: TaskRef, p: EditTaskParams, now: int)
    modifies t
    ensures t.task.acceptanceCriteria == Edited(old(t.task.acceptanceCriteria), p)
    ensures t.task.history == old(t.task.history) + EditLog(old(t.task.acceptanceCriteria), p, now)
    ensures OnlyCriteriaAndHistory(old(t.task), t.task)
  {
    ghost var t0 := t.task;
    RemoveACs(t, p.removeAC, now);
    ghost var t1 := t.task;
    ghost var removed := t1.acceptanceCriteria;
    assert removed == RemoveAll(t0.acceptanceCriteria, SortDescending(p.removeAC));
    FlagAndAdd(t, p, now);
    OnlyCriteriaAndHistoryTrans(t0, t1, t.task);
    assert t.task.acceptanceCriteria == Flagged(removed, p) + Added(Flagged(removed, p), p.addAC);
    ghost var removeLog := RemoveLog(t0.acceptanceCriteria, SortDescending(p.removeAC), now);
    assert t.task.history == (t0.history + removeLog) + FlagAddLog(removed, p, now);
    AppendAssoc(t0.history, removeLog, FlagAddLog(removed, p, now));
  }

  /** `HandleACChanges`: remove, check, uncheck, add, then renumber. */
  method HandleACChanges(t: TaskRef, p: EditTaskParams, now: int)
    modifies t
    ensures t.task.history == old(t.task.history) + EditLog(old(t.task.acceptanceCriteria), p, now)
    ensures IsReindexOf(t.task.acceptanceCriteria, Edited(old(t.task.acceptanceCriteria), p))
    ensures OnlyCriteriaAndHistory(old(t.task), t.task)
  {
    EditACs(t, p, now);
    ReindexACs(t);
  }

  // ---------------------------------------------------------- an example

  /** The criteria of the combined-edit unit test. */
  const ExampleCriteria: seq<AC> := [
    AcceptanceCriterion("Initial AC 1", false, 1),
    AcceptanceCriterion("Initial AC 2", true, 2),
    AcceptanceCriterion("Initial AC 3", false, 3)]

  /** The combined edit of the unit test: remove #2, check #1, uncheck #2
      (already removed), add one text. */
  const ExampleEdit: EditTaskParams :=
    EditTaskParams("T1", None, None, None, None, None, [], [], [], [], [], None, None,
      ["New AC 4"], [1], [2], [2])

  /** The criteria after steps 1 to 3 of the combined edit. */
  const ExampleEdited: seq<AC> := [
    AcceptanceCriterion("Initial AC 1", true, 1),
    AcceptanceCriterion("Initial AC 3", false, 3),
    AcceptanceCriterion("New AC 4", false, 4)]

  /** The criteria the unit test expects after the whole combined edit. */
  const ExampleResult: seq<AC> := [
    AcceptanceCriterion("Initial AC 1", true, 1),
    AcceptanceCriterion("Initial AC 3", false, 2),
    AcceptanceCriterion("New AC 4", false, 3)]

  /** Steps 1 to 3 of the combined edit, before renumbering. */
  lemma {:induction false} CombinedEditSteps()
    ensures Edited(ExampleCriteria, ExampleEdit) == ExampleEdited
  {
    var acs, p := ExampleCriteria, ExampleEdit;
    EditedIs(acs, p);
    var survivors := [acs[0], acs[2]];
    assert Survivors(acs, [2]) == survivors by {
      assert acs[..2][..1] == [acs[0]];
      assert acs[..1][..0] == [];
    }
    var marked := [acs[0].(checked := true), acs[2]];
    assert Marked(Marked(survivors, [1], true), [2], false) == marked;
    assert MaxIndex(marked) == 3 by {
      assert marked[..1] == [marked[0]];
      assert marked[..1][..0] == [];
    }
    assert marked + Added(marked, ["New AC 4"]) == marked + [AcceptanceCriterion("New AC 4", false, 4)];
  }

  /** Renumbering criteria that are already in strictly increasing index
      order keeps their order. */
  lemma {:induction false} ReindexStrictlySorted(r: seq<AC>, acs: seq<AC>)
    requires IsReindexOf(r, acs)
    requires StrictlySortedByIndex(acs)
    ensures r == Renumber(acs)
  {
    var s :| SortedByIndex(s) && multiset(s) == multiset(acs) && r == Renumber(s);
    SortedArrangementUnique(acs, s);
  }

  lemma {:induction false} ExampleEditedStrictlySorted()
    ensures StrictlySortedByIndex(ExampleEdited)
  {
    var e := ExampleEdited;
    assert e[0].index == 1 && e[1].index == 3 && e[2].index == 4;
  }

  lemma {:induction false} ExampleRenumbered()
    ensures Renumber(ExampleEdited) == ExampleResult
  {
    var e, n := ExampleEdited, Renumber(ExampleEdited);
    assert n[0] == e[0].(index := 1) == ExampleResult[0];
    assert n[1] == e[1].(index := 2) == ExampleResult[1];
    assert n[2] == e[2].(index := 3) == ExampleResult[2];
  }

  /** The renumbering step of the combined edit. */
  lemma {:induction false} CombinedEditRenumber(r: seq<AC>)
    requires IsReindexOf(r, ExampleEdited)
    ensures r == ExampleResult
  {
    ExampleEditedStrictlySorted();
    ReindexStrictlySorted(r, ExampleEdited);
    ExampleRenumbered();
  }

  /** The whole combined edit, renumbering included: the outcome the unit
      test expects. */
  lemma {:induction false} CombinedEditExample(r: seq<AC>)
    requires IsReindexOf(r, Edited(ExampleCriteria, ExampleEdit))
    ensures r == ExampleResult
  {
    CombinedEditSteps();
    CombinedEditRenumber(r);
  }
}
