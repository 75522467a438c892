/** The loop shape shared by the resolver's renumbering and its executor:
    apply a step to each element in order, collect what each step returns,
    and stop at the first step that fails, keeping what was collected. */
module Steps {
  import opened Wrappers

  datatype Run<B, E> = Run(out: seq<B>, err: Option<E>)

  /** The loop from position `i` on, with `out` collected so far. */
  function RunFrom<A, B, E>(xs: seq<A>, i: nat, step: A -> Result<B, E>, out: seq<B>): Run<B, E>
    requires i <= |xs|
    decreases |xs| - i
  {
    if i == |xs| then Run(out, None)
    else
      match step(xs[i])
      case Err(e) => Run(out, Some(e))
      case Ok(b) => RunFrom(xs, i + 1, step, out + [b])
  }

  /** A finished run as a result: the collected outputs, or the first error. */
  function AsResult<B, E>(run: Run<B, E>): Result<seq<B>, E>
  {
    match run.err
    case None => Ok(run.out)
    case Some(e) => Err(e)
  }

  /** The position of the first failing step from `i` on, or the length
      when every step succeeds. */
  function FirstErrFrom<A, B, E>(xs: seq<A>, i: nat, step: A -> Result<B, E>): nat
    requires i <= |xs|
    decreases |xs| - i
  {
    if i == |xs| then |xs|
    else if step(xs[i]).Err? then i
    else FirstErrFrom(xs, i + 1, step)
  }

  lemma {:induction false} FirstErrBounds<A, B, E>(xs: seq<A>, i: nat, step: A -> Result<B, E>)
    requires i <= |xs|
    ensures i <= FirstErrFrom(xs, i, step) <= |xs|
    ensures forall j :: i <= j < FirstErrFrom(xs, i, step) ==> step(xs[j]).Ok?
    ensures FirstErrFrom(xs, i, step) < |xs| ==> step(xs[FirstErrFrom(xs, i, step)]).Err?
    decreases |xs| - i
  {
    if i < |xs| && step(xs[i]).Ok? {
      FirstErrBounds(xs, i + 1, step);
    }
  }

  /** When no step from `i` on fails, the first failure is past the end. */
  lemma {:induction false} AllOkRunsThrough<A, B, E>(xs: seq<A>, i: nat, step: A -> Result<B, E>)
    requires i <= |xs|
    requires forall j :: i <= j < |xs| ==> step(xs[j]).Ok?
    ensures FirstErrFrom(xs, i, step) == |xs|
    decreases |xs| - i
  {
    if i < |xs| {
      AllOkRunsThrough(xs, i + 1, step);
    }
  }

  /** The run keeps what it was given, appends the output of every step up
      to the first failure, in order, and reports an error exactly when a
      step fails, namely that step's error. */
  lemma {:induction false} RunFromShape<A, B, E>(xs: seq<A>, i: nat, step: A -> Result<B, E>, out: seq<B>)
    requires i <= |xs|
    ensures var r, k := RunFrom(xs, i, step, out), FirstErrFrom(xs, i, step);
      && i <= k <= |xs|
      && |r.out| == |out| + (k - i) && r.out[..|out|] == out
      && (forall j :: i <= j < k ==> step(xs[j]).Ok? && r.out[|out| + (j - i)] == step(xs[j]).value)
      && (r.err.Some? <==> k < |xs|)
      && (k < |xs| ==> step(xs[k]).Err? && r.err.value == step(xs[k]).error)
    decreases |xs| - i
  {
    FirstErrBounds(xs, i, step);
    if i < |xs| && step(xs[i]).Ok? {
      var b := step(xs[i]).value;
      RunFromShape(xs, i + 1, step, out + [b]);
      var r := RunFrom(xs, i + 1, step, out + [b]);
      assert r.out[..|out|] == r.out[..|out| + 1][..|out|];
      assert r.out[|out|] == r.out[..|out| + 1][|out|];
    }
  }

  /** A step that succeeds on every element lets the run collect one output
      per element, each the step's output for that element. */
  lemma {:induction false} RunAllOk<A, B, E>(xs: seq<A>, i: nat, step: A -> Result<B, E>)
    requires i <= |xs|
    requires forall j :: i <= j < |xs| ==> step(xs[j]).Ok?
    ensures AsResult(RunFrom(xs, i, step, [])).Ok?
    ensures var r := AsResult(RunFrom(xs, i, step, [])).value;
      && |r| == |xs| - i
      && forall j :: 0 <= j < |r| ==> r[j] == step(xs[i + j]).value
  {
    AllOkRunsThrough(xs, i, step);
    RunFromShape(xs, i, step, []);
    var r := RunFrom(xs, i, step, []).out;
    forall j | 0 <= j < |r| ensures r[j] == step(xs[i + j]).value {
      assert i <= i + j < |xs|;
    }
  }
}
