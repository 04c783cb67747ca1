/** Chains of calls on a `Maybe`, as the class is meant to be used:
    `m.transform(f).run(g).transform(h)`. `transform` hands the next call a new `Maybe`;
    `run` hands it `self`. */
module Chaining {
  import opened Wrappers
  import opened Structures

  /** One call of `apply`, `transform` or `run`: the function, the `unpack` flag, and the call
      stack text an exception raised there would be reported with. */
  datatype Call = Call(f: Callable, unpack: bool, trace: string)

  datatype Stage = TransformStage(call: Call) | RunStage(call: Call)

  /** The `Maybe` at the end of a chain and every line written to the error stream on the way. */
  datatype ChainResult = ChainResult(last: Maybe, diagnostics: seq<string>)

  /** Runs the stages left to right, starting from `m`. */
  function Chain(m: Maybe, stages: seq<Stage>): ChainResult
    decreases |stages|
  {
    if stages == [] then ChainResult(m, [])
    else
      match stages[0]
      case TransformStage(c) => Chain(m.Transform(c.f, c.unpack, c.trace), stages[1..])
      case RunStage(c) =>
        var r := m.Run(c.f, c.unpack, c.trace);
        var rest := Chain(r.self, stages[1..]);
        ChainResult(rest.last, (if r.diagnostic.Some? then [r.diagnostic.value] else []) + rest.diagnostics)
  }

  /** The chain with every `run` taken out. */
  function Transforms(stages: seq<Stage>): (ts: seq<Stage>)
    ensures RunCount(ts) == 0
    ensures |ts| == |stages| - RunCount(stages)
  {
    if stages == [] then []
    else if stages[0].RunStage? then Transforms(stages[1..])
    else [stages[0]] + Transforms(stages[1..])
  }

  /** How many `run` calls the chain makes. */
  function RunCount(stages: seq<Stage>): nat {
    if stages == [] then 0
    else (if stages[0].RunStage? then 1 else 0) + RunCount(stages[1..])
  }

  /** `run` is transparent to a chain: taking every `run` out leaves the final `Maybe` as it was. */
  lemma {:induction false} RunsLeaveChainValue(m: Maybe, stages: seq<Stage>)
    ensures Chain(m, stages).last == Chain(m, Transforms(stages)).last
    decreases |stages|
  {
    if stages != [] {
      match stages[0]
      case TransformStage(c) =>
        var n := m.Transform(c.f, c.unpack, c.trace);
        RunsLeaveChainValue(n, stages[1..]);
        assert Transforms(stages) == [stages[0]] + Transforms(stages[1..]);
        assert ([stages[0]] + Transforms(stages[1..]))[1..] == Transforms(stages[1..]);
      case RunStage(c) =>
        RunsLeaveChainValue(m, stages[1..]);
    }
  }

  /** Each `run` writes at most one line, and a chain made only of `transform` calls writes none. */
  lemma {:induction false} DiagnosticsAtMostRuns(m: Maybe, stages: seq<Stage>)
    ensures |Chain(m, stages).diagnostics| <= RunCount(stages)
    decreases |stages|
  {
    if stages != [] {
      match stages[0]
      case TransformStage(c) =>
        DiagnosticsAtMostRuns(m.Transform(c.f, c.unpack, c.trace), stages[1..]);
      case RunStage(c) =>
        DiagnosticsAtMostRuns(m, stages[1..]);
    }
  }

  /** A chain of `run` calls hands back the `Maybe` it started from; when that `Maybe` is empty
      not one of them writes a line, since `apply` gives `None` there. */
  lemma {:induction false} RunChainKeepsSelf(m: Maybe, stages: seq<Stage>)
    requires forall i :: 0 <= i < |stages| ==> stages[i].RunStage?
    ensures Chain(m, stages).last == m
    ensures !m.IsPresent() ==> Chain(m, stages).diagnostics == []
    decreases |stages|
  {
    if stages != [] {
      RunChainKeepsSelf(m, stages[1..]);
    }
  }
}
