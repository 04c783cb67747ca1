/** `apply` on an empty `Maybe` hands back `None` instead of the `Empty` it holds, although its
    annotation promises a value or an `Empty`. A failure therefore stops a chain of `transform`
    calls for one step only: the step after it wraps `None`, which tests present, and the step
    after that calls its function with `None`. This module holds the behaviour as written next
    to the evidently intended one, in which an empty `Maybe` hands back its own `Empty`. */
module StickyFailure {
  import opened Structures
  import opened Chaining

  /** The chain of `transform` calls, as the source behaves. */
  function TransformChain(m: Maybe, calls: seq<Call>): Maybe
    decreases |calls|
  {
    if calls == [] then m
    else TransformChain(m.Transform(calls[0].f, calls[0].unpack, calls[0].trace), calls[1..])
  }

  /** `apply` as intended: an empty `Maybe` hands back its own `Empty` and still never calls `f`. */
  function ApplyIntended(m: Maybe, f: Callable, unpack: bool, trace: string): (r: Value)
    ensures !m.IsPresent() ==> r == m.Get() && r.Empty?
    ensures m.IsPresent() ==> r == m.Apply(f, unpack, trace)
  {
    if m.IsPresent() then m.Apply(f, unpack, trace) else m.v
  }

  /** `transform` over the intended `apply`. */
  function TransformIntended(m: Maybe, c: Call): (n: Maybe)
    ensures !m.IsPresent() ==> n == m
    ensures m.IsPresent() ==> n == m.Transform(c.f, c.unpack, c.trace)
  {
    Maybe(ApplyIntended(m, c.f, c.unpack, c.trace))
  }

  function TransformChainIntended(m: Maybe, calls: seq<Call>): Maybe
    decreases |calls|
  {
    if calls == [] then m
    else TransformChainIntended(TransformIntended(m, calls[0]), calls[1..])
  }

  /** With the intended `apply`, the first failure is carried to the end of any chain, unchanged. */
  lemma {:induction false} IntendedFailureIsSticky(m: Maybe, calls: seq<Call>)
    requires !m.IsPresent()
    ensures TransformChainIntended(m, calls) == m
    decreases |calls|
  {
    if calls != [] {
      IntendedFailureIsSticky(TransformIntended(m, calls[0]), calls[1..]);
    }
  }

  /** Until something fails the two versions agree: a chain in which every call is made on a
      present `Maybe` gives the same result either way. */
  lemma {:induction false} IntendedAgreesWhilePresent(m: Maybe, calls: seq<Call>)
    requires forall k :: 0 <= k < |calls| ==> TransformChain(m, calls[..k]).IsPresent()
    ensures TransformChainIntended(m, calls) == TransformChain(m, calls)
    decreases |calls|
  {
    if calls != [] {
      assert calls[..0] == [];
      assert m.IsPresent();
      var n := m.Transform(calls[0].f, calls[0].unpack, calls[0].trace);
      forall k | 0 <= k < |calls[1..]|
        ensures TransformChain(n, calls[1..][..k]).IsPresent()
      {
        assert calls[..k + 1][1..] == calls[1..][..k];
        assert TransformChain(m, calls[..k + 1]).IsPresent();
      }
      IntendedAgreesWhilePresent(n, calls[1..]);
    }
  }

  /** As written, a failure is not sticky: `Maybe(0).transform(lambda x: 1 / x)` is empty, one
      more `transform` wraps `None` and tests present, and a third calls its function with
      `None`. With the intended `apply` the `Empty` reaches the end. */
  lemma FailureNotStickyAsWritten()
    ensures var zero := Maybe(Scalar("int", "0"));
            var divide := Call(args => Raised("division by zero"), false, "<stack>");
            var record := Call(args => Returned(Iterable("tuple", "(None,)", args)), false, "<stack>");
            && !TransformChain(zero, [divide]).IsPresent()
            && TransformChain(zero, [divide, record]) == Maybe(NoneValue)
            && TransformChain(zero, [divide, record, record]) == Maybe(Iterable("tuple", "(None,)", [NoneValue]))
            && TransformChainIntended(zero, [divide, record, record])
               == Maybe(Empty("division by zero" + TraceHeader + "<stack>"))
  {
    var zero := Maybe(Scalar("int", "0"));
    var divide := Call(args => Raised("division by zero"), false, "<stack>");
    var record := Call(args => Returned(Iterable("tuple", "(None,)", args)), false, "<stack>");
    var failed := Maybe(Empty("division by zero" + TraceHeader + "<stack>"));
    assert zero.Transform(divide.f, divide.unpack, divide.trace) == failed;
    var none := failed.Transform(record.f, record.unpack, record.trace);
    assert none == Maybe(NoneValue);
    assert none.Transform(record.f, record.unpack, record.trace) == Maybe(Iterable("tuple", "(None,)", [NoneValue]));
    assert [divide][1..] == [];
    assert [divide, record][1..] == [record];
    assert [divide, record, record][1..] == [record, record];
    assert [record, record][1..] == [record];
    assert [record][1..] == [];
    assert TransformChain(none, [record]) == Maybe(Iterable("tuple", "(None,)", [NoneValue]));
    assert TransformChain(failed, [record]) == none;
    IntendedFailureIsSticky(failed, [record, record]);
  }
}
