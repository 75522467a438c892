/** The loop shape of the list validators and of `SanitizeSlice`: walk a
    list in order and append an output for each element that yields one,
    skipping the others.  `pick(i, x)` is what element `x` at index `i`
    yields. */
module Selection {
  import opened Wrappers

  /** The outputs of the elements from index `i` on, in order. */
  function SelectFrom<A, B>(xs: seq<A>, i: nat, pick: (nat, A) -> Option<B>): seq<B>
    requires i <= |xs|
    decreases |xs| - i
  {
    if i == |xs| then []
    else
      match pick(i, xs[i])
      case Some(b) => [b] + SelectFrom(xs, i + 1, pick)
      case None => SelectFrom(xs, i + 1, pick)
  }

  /** The indices, from `i` on, of the elements that yield an output. */
  function SelectedFrom<A, B>(xs: seq<A>, i: nat, pick: (nat, A) -> Option<B>): seq<nat>
    requires i <= |xs|
    decreases |xs| - i
  {
    if i == |xs| then []
    else if pick(i, xs[i]).Some? then [i] + SelectedFrom(xs, i + 1, pick)
    else SelectedFrom(xs, i + 1, pick)
  }

  /** The selection holds one output per yielding element, in index order,
      each the output of its element, and no element that yields is
      skipped. */
  lemma {:induction false} SelectShape<A, B>(xs: seq<A>, i: nat, pick: (nat, A) -> Option<B>)
    requires i <= |xs|
    ensures var r, idx := SelectFrom(xs, i, pick), SelectedFrom(xs, i, pick);
      && |r| == |idx|
      && (forall k :: 0 <= k < |idx| ==>
            i <= idx[k] < |xs| && pick(idx[k], xs[idx[k]]).Some? && r[k] == pick(idx[k], xs[idx[k]]).value)
      && (forall k, l :: 0 <= k < l < |idx| ==> idx[k] < idx[l])
      && (forall j :: i <= j < |xs| && pick(j, xs[j]).Some? ==> j in idx)
    decreases |xs| - i
  {
    if i < |xs| {
      SelectShape(xs, i + 1, pick);
      var rest, restIdx := SelectFrom(xs, i + 1, pick), SelectedFrom(xs, i + 1, pick);
      if pick(i, xs[i]).Some? {
        var r, idx := SelectFrom(xs, i, pick), SelectedFrom(xs, i, pick);
        assert r == [pick(i, xs[i]).value] + rest;
        assert idx == [i] + restIdx;
        forall k | 0 < k < |idx| ensures idx[k] == restIdx[k - 1] && r[k] == rest[k - 1] { }
      }
    }
  }

  /** Selecting from `i` is what element `i` yields followed by the
      selection from `i + 1`. */
  lemma {:induction false} SelectStep<A, B>(xs: seq<A>, i: nat, pick: (nat, A) -> Option<B>)
    requires i < |xs|
    ensures SelectFrom(xs, i, pick) ==
      (if pick(i, xs[i]).Some? then [pick(i, xs[i]).value] else []) + SelectFrom(xs, i + 1, pick)
  {
  }

  /** One turn of such a loop: the output so far, followed by the
      selection still to come, stays the whole selection whether element
      `i` yields an output or not. */
  lemma {:induction false} SelectAdvance<A, B>(out: seq<B>, xs: seq<A>, i: nat, pick: (nat, A) -> Option<B>, total: seq<B>)
    requires i < |xs| && out + SelectFrom(xs, i, pick) == total
    ensures pick(i, xs[i]).None? ==> out + SelectFrom(xs, i + 1, pick) == total
    ensures pick(i, xs[i]).Some? ==> (out + [pick(i, xs[i]).value]) + SelectFrom(xs, i + 1, pick) == total
  {
    SelectStep(xs, i, pick);
    if pick(i, xs[i]).Some? {
      assert (out + [pick(i, xs[i]).value]) + SelectFrom(xs, i + 1, pick)
        == out + ([pick(i, xs[i]).value] + SelectFrom(xs, i + 1, pick));
    }
  }

  /** The loop over a list: `out` grows by each element's output, skipping
      elements that yield none. */
  method SelectEach<A, B>(xs: seq<A>, pick: (nat, A) -> Option<B>) returns (out: seq<B>)
    ensures out == SelectFrom(xs, 0, pick)
  {
    out := [];
    var i := 0;
    while i < |xs|
      invariant 0 <= i <= |xs|
      invariant out + SelectFrom(xs, i, pick) == SelectFrom(xs, 0, pick)
    {
      SelectStep(xs, i, pick);
      var yielded := pick(i, xs[i]);
      if yielded.Some? {
        out := out + [yielded.value];
      }
      i := i + 1;
    }
  }
}
