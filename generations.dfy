/**
 * The render-generation counter of a surface (`_renderId`) and the tokens that shader-compile callbacks
 * capture from it. Every render attempt bumps the counter and captures the new value; unmounting resets
 * it to 0. A decorated callback reaches the user only while the token it captured is the current value.
 */
module Generations {

  datatype LifecycleOp = RenderOp | UnmountOp

  /** The value of the counter after the operations `ops`, starting from `start`. */
  function RenderIdAfter(start: nat, ops: seq<LifecycleOp>): nat
    decreases |ops|
  {
    if ops == [] then start
    else
      var before := RenderIdAfter(start, ops[..|ops| - 1]);
      match ops[|ops| - 1]
      case RenderOp => before + 1
      case UnmountOp => 0
  }

  /** The tokens captured by the render operations among `ops`, in order. */
  function CapturedTokens(start: nat, ops: seq<LifecycleOp>): seq<nat>
    decreases |ops|
  {
    if ops == [] then []
    else
      CapturedTokens(start, ops[..|ops| - 1])
      + (if ops[|ops| - 1] == RenderOp then [RenderIdAfter(start, ops)] else [])
  }

  /** A callback decorated with `token` is still current when the counter holds `renderId`. */
  predicate IsCurrent(token: nat, renderId: nat) {
    token == renderId
  }

  /** Every token a render captures is at least 1, since the counter is bumped before it is read. */
  lemma {:induction false} CapturedTokensPositive(start: nat, ops: seq<LifecycleOp>)
    ensures forall i :: 0 <= i < |CapturedTokens(start, ops)| ==> CapturedTokens(start, ops)[i] >= 1
    decreases |ops|
  {
    if ops != [] {
      CapturedTokensPositive(start, ops[..|ops| - 1]);
    }
  }

  /** Running two stretches of operations one after the other is running the first, then the second. */
  lemma {:induction false} RunConcat(start: nat, a: seq<LifecycleOp>, b: seq<LifecycleOp>)
    ensures RenderIdAfter(start, a + b) == RenderIdAfter(RenderIdAfter(start, a), b)
    ensures CapturedTokens(start, a + b) == CapturedTokens(start, a) + CapturedTokens(RenderIdAfter(start, a), b)
    decreases |b|
  {
    if b == [] {
      assert a + b == a;
    } else {
      var b' := b[..|b| - 1];
      assert (a + b)[..|a + b| - 1] == a + b';
      RunConcat(start, a, b');
    }
  }

  /** While the surface stays mounted, each render adds exactly 1 and captures the new value. */
  lemma {:induction false} CounterWithinMount(start: nat, ops: seq<LifecycleOp>)
    requires UnmountOp !in ops
    ensures RenderIdAfter(start, ops) == start + |ops|
    ensures |CapturedTokens(start, ops)| == |ops|
    ensures forall i :: 0 <= i < |ops| ==> CapturedTokens(start, ops)[i] == start + i + 1
    decreases |ops|
  {
    if ops != [] {
      var prefix := ops[..|ops| - 1];
      assert ops[|ops| - 1] in ops;
      assert forall op :: op in prefix ==> op in ops;
      CounterWithinMount(start, prefix);
    }
  }

  /**
   * While the surface stays mounted, exactly the token of the latest render is current: every callback
   * decorated by an earlier render is stale.
   */
  lemma OnlyLatestRenderIsCurrent(start: nat, ops: seq<LifecycleOp>)
    requires UnmountOp !in ops
    ensures forall i :: 0 <= i < |CapturedTokens(start, ops)| ==>
              (IsCurrent(CapturedTokens(start, ops)[i], RenderIdAfter(start, ops)) <==> i == |ops| - 1)
  {
    CounterWithinMount(start, ops);
  }

  /**
   * A render attempt captures a token; any later render attempt, whatever its outcome, makes that token
   * stale for as long as the surface stays mounted.
   */
  lemma LaterRenderMakesStale(start: nat, before: seq<LifecycleOp>, after: seq<LifecycleOp>)
    requires after != [] && UnmountOp !in after
    ensures !IsCurrent(RenderIdAfter(start, before + [RenderOp]),
                       RenderIdAfter(start, before + [RenderOp] + after))
  {
    RunConcat(start, before + [RenderOp], after);
    CounterWithinMount(RenderIdAfter(start, before + [RenderOp]), after);
  }

  /** Unmounting resets the counter to 0, which silences every callback decorated so far. */
  lemma UnmountSilencesAll(start: nat, ops: seq<LifecycleOp>)
    ensures RenderIdAfter(start, ops + [UnmountOp]) == 0
    ensures CapturedTokens(start, ops + [UnmountOp]) == CapturedTokens(start, ops)
    ensures forall i :: 0 <= i < |CapturedTokens(start, ops)| ==>
              !IsCurrent(CapturedTokens(start, ops)[i], RenderIdAfter(start, ops + [UnmountOp]))
  {
    assert (ops + [UnmountOp])[..|ops|] == ops;
    CapturedTokensPositive(start, ops);
  }

  /**
   * The reset to 0 relies on the host never rendering an unmounted component again: whatever came before,
   * a render that follows an unmount captures token 1 once more.
   */
  lemma RenderAfterUnmountCapturesOne(start: nat, ops: seq<LifecycleOp>)
    ensures RenderIdAfter(start, ops + [UnmountOp, RenderOp]) == 1
    ensures CapturedTokens(start, ops + [UnmountOp, RenderOp]) == CapturedTokens(start, ops) + [1]
  {
    RunConcat(start, ops, [UnmountOp, RenderOp]);
    var tail := [UnmountOp, RenderOp];
    assert tail[..1] == [UnmountOp];
    assert [UnmountOp][..0] == [];
  }

  /** The first render of a surface whose counter starts at 0 captures token 1. */
  lemma FirstRenderCapturesOne(ops: seq<LifecycleOp>)
    requires ops != [] && ops[0] == RenderOp
    ensures |CapturedTokens(0, ops)| >= 1 && CapturedTokens(0, ops)[0] == 1
  {
    assert ops == [RenderOp] + ops[1..];
    RunConcat(0, [RenderOp], ops[1..]);
    assert [RenderOp][..0] == [];
  }

  /**
   * Hence, were an unmounted surface rendered again, a callback decorated by its very first render would
   * become current again.
   */
  lemma RenderAfterUnmountRevivesFirstToken(ops: seq<LifecycleOp>)
    requires ops != [] && ops[0] == RenderOp
    ensures |CapturedTokens(0, ops + [UnmountOp, RenderOp])| >= 1
    ensures IsCurrent(CapturedTokens(0, ops + [UnmountOp, RenderOp])[0],
                      RenderIdAfter(0, ops + [UnmountOp, RenderOp]))
  {
    RenderAfterUnmountCapturesOne(0, ops);
    FirstRenderCapturesOne(ops);
  }

  /** A counter started at 0 is either 0 or the token captured by the latest render. */
  lemma {:induction false} CounterIsLatestToken(ops: seq<LifecycleOp>)
    ensures RenderIdAfter(0, ops) == 0 || (CapturedTokens(0, ops) != []
              && RenderIdAfter(0, ops) == CapturedTokens(0, ops)[|CapturedTokens(0, ops)| - 1])
    decreases |ops|
  {
    if ops != [] {
      CounterIsLatestToken(ops[..|ops| - 1]);
    }
  }
}
