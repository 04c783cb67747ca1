/** The `Maybe` wrapper of src/structures/maybe.py and its nested `Maybe.Empty` sentinel.

    The source is dynamically typed: a `Maybe` wraps any object, and what `apply` hands back
    (a returned value, a captured `Empty`, or `None`) is wrapped again by `transform`. The model
    therefore works over one universe of values, `Value`, that distinguishes exactly what the
    wrapper inspects: `None`, objects that can be spread as positional arguments, objects that
    cannot, and instances of `Maybe.Empty`. A caller-supplied function is a `Callable` from the
    positional-argument list it receives to an `Outcome`: it returns a value or raises an
    exception carrying a message. */
module Structures {
  import opened Wrappers

  /** A Python value as far as the wrapper can tell values apart. */
  datatype Value =
    | NoneValue                                                  // Python's `None`
    | Scalar(typeName: string, text: string)                     // an object `*` cannot spread
    | Iterable(typeName: string, text: string, items: seq<Value>) // `*` spreads it into `items`
    | Empty(reason: string)                                      // an instance of `Maybe.Empty`
  {
    /** `type(x).__name__` */
    function TypeName(): string {
      match this
      case NoneValue => "NoneType"
      case Scalar(t, _) => t
      case Iterable(t, _, _) => t
      case Empty(_) => "Empty"
    }

    /** `str(x)`; for an `Empty` this is `Maybe.Empty.__str__`. */
    function Str(): string {
      match this
      case NoneValue => "None"
      case Scalar(_, s) => s
      case Iterable(_, s, _) => s
      case Empty(reason) => EmptyText(reason)
    }
  }

  /** What calling a caller-supplied function does: return a value, or raise an exception
      whose `str()` is `message`. */
  datatype Outcome = Returned(value: Value) | Raised(message: string)

  /** A caller-supplied function, applied to the list of its positional arguments. Whether it
      accepts that many arguments is its own affair: a mismatch is one more exception it raises. */
  type Callable = seq<Value> -> Outcome

  /** The terminal colour codes `Maybe.Empty.__str__` wraps its headline in. */
  const Red: string := "\U{1B}[1;4;91m"
  const Normal: string := "\U{1B}[0;0m"

  /** The two headlines and tails of an `Empty`'s rendering. */
  const Generic: string := Red + "This is empty" + Normal + "!"
  const SincePrefix: string := Red + "Empty since" + Normal + ": "

  /** The text put between an exception's message and the captured call stack. */
  const TraceHeader: string := ". Traceback:\n"

  /** The message of the `TypeError` the interpreter raises when `f(*x)` is asked to spread an
      object that is not iterable. */
  function SpreadError(typeName: string): string {
    "Value after * must be an iterable, not " + typeName
  }

  /** `Maybe.Empty.__str__`: the generic message exactly when the reason is the empty string
      (the flag the source calls HAS_REASON is true in that case), the reason otherwise. */
  function EmptyText(reason: string): (s: string)
    ensures reason == "" ==> s == Red + "This is empty" + Normal + "!"
    ensures reason != "" ==> s == Red + "Empty since" + Normal + ": " + reason
  {
    var noReason := reason == "";
    Red + (if noReason then "This is empty" else "Empty since")
      + Normal + (if noReason then "!" else ": " + reason)
  }

  /** Reads the reason back out of an `Empty`'s rendering: the inverse of `EmptyText`. */
  function ReasonFromText(s: string): Option<string> {
    if s == Generic then Some("")
    else if |SincePrefix| < |s| && s[..|SincePrefix|] == SincePrefix then Some(s[|SincePrefix|..])
    else None
  }

  /** Both shapes of the rendering can be read back: no two reasons render alike. */
  lemma EmptyTextRoundTrip(reason: string)
    ensures ReasonFromText(EmptyText(reason)) == Some(reason)
  {
    if reason != "" {
      var s := EmptyText(reason);
      assert s[..|SincePrefix|] == SincePrefix;
      assert s[|SincePrefix|..] == reason;
      // the two headlines part at their first letter
      assert s[|Red|] == 'E' && Generic[|Red|] == 'T';
    }
  }

  /** Every text `ReasonFromText` accepts is the rendering of the reason it reads. */
  lemma ReasonFromTextSound(s: string, reason: string)
    requires ReasonFromText(s) == Some(reason)
    ensures EmptyText(reason) == s
  {
  }

  /** Renders two reasons alike only when they are the same reason. */
  lemma EmptyTextInjective(r1: string, r2: string)
    requires EmptyText(r1) == EmptyText(r2)
    ensures r1 == r2
  {
    EmptyTextRoundTrip(r1);
    EmptyTextRoundTrip(r2);
  }

  /** The exception handler of `apply`: a returned value passes through unchanged, a raised
      exception becomes an `Empty` whose reason is its message followed by the call stack. */
  function Capture(o: Outcome, trace: string): Value {
    match o
    case Returned(x) => x
    case Raised(message) => Empty(message + TraceHeader + trace)
  }

  /** `func_calls[int(unpack)]()`: `f(value)` or `f(*value)`. Spreading an object that is not
      iterable raises inside the call, so it is caught like any exception `f` raises. */
  function Invoke(f: Callable, unpack: bool, value: Value): Outcome {
    if !unpack then f([value])
    else if value.Iterable? then f(value.items)
    else Raised(SpreadError(value.TypeName()))
  }

  /** What one `apply` does: the argument lists it hands to `f`, one per call, and the value it
      hands back. */
  datatype Applied = Applied(calls: seq<seq<Value>>, result: Value)

  /** What `run` hands back: `self`, the line it writes to the error stream, if any, and the
      argument lists `f` received. */
  datatype RunResult = RunResult(self: Maybe, diagnostic: Option<string>, calls: seq<seq<Value>>)

  /** `Maybe`: one wrapped value `v`, set by the constructor without any check and never
      reassigned. The copy `apply` takes before calling `f` is the value itself here: values
      are immutable, so nothing `f` does can reach `v`. */
  datatype Maybe = Maybe(v: Value)
  {
    /** `get`: the wrapped value, even when it is an `Empty`; wrapping it again gives back
        this very `Maybe`. */
    function Get(): (r: Value)
      ensures Maybe(r) == this
    {
      v
    }

    /** `__bool__`: true when the wrapped value is NOT an `Empty`, so false exactly for a
        `Maybe` built around some `Maybe.Empty` instance. */
    predicate IsPresent(): (b: bool)
      ensures !b <==> exists reason :: this == Maybe(Empty(reason))
    {
      !v.Empty?
    }

    /** `apply(f, unpack)`, where `trace` is the text of the call stack at the moment an
        exception is caught, innermost frame first and the handler's own frame dropped. */
    function Apply(f: Callable, unpack: bool, trace: string): (r: Value)
      // an empty `Maybe` never calls `f` and hands back `None`, not its `Empty`
      ensures !IsPresent() ==> r == NoneValue
      // on a present value: f(v) with one argument, or f(*v) with the value's items
      ensures IsPresent() && !unpack && f([v]).Returned? ==> r == f([v]).value
      ensures IsPresent() && !unpack && f([v]).Raised? ==> r == Empty(f([v]).message + TraceHeader + trace)
      ensures IsPresent() && unpack && v.Iterable? && f(v.items).Returned? ==> r == f(v.items).value
      ensures IsPresent() && unpack && v.Iterable? && f(v.items).Raised? ==>
                r == Empty(f(v.items).message + TraceHeader + trace)
      // spreading a value that is not iterable fails, and the failure is captured
      ensures IsPresent() && unpack && !v.Iterable? ==> r == Empty(SpreadError(v.TypeName()) + TraceHeader + trace)
    {
      ApplyLogged(f, unpack, trace).result
    }

    /** `apply` with its calls of `f` recorded. `f` is entered at most once: never on an empty
        `Maybe`, and never when spreading fails, since the `TypeError` is raised while the
        arguments are built. What `apply` hands back is the captured outcome of that one call. */
    function ApplyLogged(f: Callable, unpack: bool, trace: string): (a: Applied)
      ensures !IsPresent() ==> a.calls == [] && a.result == NoneValue
      ensures IsPresent() && !unpack ==> a.calls == [[v]]
      ensures IsPresent() && unpack && v.Iterable? ==> a.calls == [v.items]
      ensures IsPresent() && unpack && !v.Iterable? ==>
                a.calls == [] && a.result == Empty(SpreadError(v.TypeName()) + TraceHeader + trace)
      ensures |a.calls| == 1 ==> a.result == Capture(f(a.calls[0]), trace)
    {
      if !IsPresent() then Applied([], NoneValue)
      else if unpack && !v.Iterable? then Applied([], Empty(SpreadError(v.TypeName()) + TraceHeader + trace))
      else
        var args := if unpack then v.items else [v];
        Applied([args], Capture(f(args), trace))
    }

    /** `transform(f, unpack)`: a new `Maybe` around what `apply` hands back. */
    function Transform(f: Callable, unpack: bool, trace: string): (m: Maybe)
      ensures m.Get() == Apply(f, unpack, trace)
      // failure is sticky for one step only: an empty `Maybe` transforms into `Maybe(None)`
      ensures !IsPresent() ==> m.IsPresent() && m.Get() == NoneValue
      // on a present value the result is empty exactly when `f` raised or itself returned an `Empty`
      ensures IsPresent() ==>
                (!m.IsPresent() <==> (Invoke(f, unpack, v).Raised? || Invoke(f, unpack, v).value.Empty?))
    {
      Maybe(Apply(f, unpack, trace))
    }

    /** `run(f, unpack)`: `apply` for its effect only; `self` comes back unchanged, and an
        `Empty` result is printed to the error stream (`print` adds the newline). */
    function Run(f: Callable, unpack: bool, trace: string): (r: RunResult)
      ensures r.self == this
      ensures r.diagnostic.Some? <==> Apply(f, unpack, trace).Empty?
      ensures r.diagnostic.Some? ==> r.diagnostic.value == Apply(f, unpack, trace).Str() + "\n"
      // an empty `Maybe` never reports again: `apply` gave `None`
      ensures !IsPresent() ==> r.diagnostic == None
      // `f` is called exactly as `apply` calls it: once on a present value, never on an empty one
      ensures r.calls == ApplyLogged(f, unpack, trace).calls
      ensures !IsPresent() ==> r.calls == []
    {
      var a := ApplyLogged(f, unpack, trace);
      RunResult(this, if a.result.Empty? then Some(a.result.Str() + "\n") else None, a.calls)
    }

    /** `__str__`: the header naming the value's type, the value's `str()`, and " ]". Given
        the type name, the value's `str()` is exactly the slice between header and tail. */
    function ToString(): (s: string)
      ensures var head := ToStringHead(v.TypeName());
              && |head| + 2 <= |s|
              && s[..|head|] == head
              && s[|head|..|s| - 2] == v.Str()
              && s[|s| - 2..] == " ]"
    {
      ToStringHead(v.TypeName()) + v.Str() + " ]"
    }
  }

  /** Construction stores the value as given, without any check: `get` returns it, even an
      `Empty` or `None`. */
  lemma ConstructThenGet(x: Value)
    ensures Maybe(x).Get() == x
  {
  }

  /** `__bool__` is true exactly when the wrapped value is not an `Empty` (its own doc comment
      says the opposite). */
  lemma PresentIffNotEmpty(x: Value)
    ensures Maybe(x).IsPresent() <==> !x.Empty?
  {
  }

  /** An empty `Maybe` never calls the function it is given: no argument list reaches it, and
      any two functions give the same result, `None`. */
  lemma ApplyOnEmptyIgnoresFunction(m: Maybe, f: Callable, g: Callable, unpack: bool, t1: string, t2: string)
    requires !m.IsPresent()
    ensures m.ApplyLogged(f, unpack, t1).calls == []
    ensures m.Apply(f, unpack, t1) == m.Apply(g, unpack, t2) == NoneValue
  {
  }

  /** A present `Maybe` hands `f` exactly the argument list `unpack` selects: two functions that
      agree on that list give the same result. */
  lemma ApplyDependsOnlyOnArguments(m: Maybe, f: Callable, g: Callable, unpack: bool, trace: string)
    requires m.IsPresent()
    requires !unpack ==> f([m.v]) == g([m.v])
    requires unpack && m.v.Iterable? ==> f(m.v.items) == g(m.v.items)
    ensures m.Apply(f, unpack, trace) == m.Apply(g, unpack, trace)
  {
  }

  /** An exception is never lost: when `f` raises on a present value, the reason of the
      resulting `Empty` begins with the exception's message followed by the trace header. */
  lemma RaisedMessageLeadsReason(m: Maybe, f: Callable, unpack: bool, trace: string)
    requires m.IsPresent() && Invoke(f, unpack, m.v).Raised?
    ensures m.Apply(f, unpack, trace).Empty?
    ensures var msg := Invoke(f, unpack, m.v).message + TraceHeader;
            msg <= m.Apply(f, unpack, trace).reason
  {
  }

  /** The header of a `Maybe`'s rendering, up to the value's `str()`. */
  function ToStringHead(typeName: string): string {
    "Maybe[ value:" + typeName + " = "
  }

  /** The reason of a wrapped `Empty` can be read back from the `Maybe`'s own rendering. */
  lemma ToStringOfEmpty(reason: string)
    ensures var s := Maybe(Empty(reason)).ToString();
            var head := ToStringHead("Empty");
            && |head| + 2 <= |s|
            && ReasonFromText(s[|head|..|s| - 2]) == Some(reason)
  {
    EmptyTextRoundTrip(reason);
  }

  /** Two `Maybe`s holding `Empty`s render alike only when their reasons are the same. */
  lemma ToStringInjectiveOnEmpty(r1: string, r2: string)
    requires Maybe(Empty(r1)).ToString() == Maybe(Empty(r2)).ToString()
    ensures r1 == r2
  {
    ToStringOfEmpty(r1);
    ToStringOfEmpty(r2);
  }

  /** The `unpack` flag chooses the calling convention: a two-argument function applied to a
      pair succeeds when the pair is spread and fails on arity when it is passed whole; an
      integer cannot be spread at all. */
  lemma UnpackSelectsArguments(a: Value, b: Value, sum: Value, trace: string)
    ensures var pair := Maybe(Iterable("tuple", "(3, 4)", [a, b]));
            var add: Callable := args => if |args| == 2 then Returned(sum)
                                         else Raised("<lambda>() missing 1 required positional argument: 'b'");
            && pair.Apply(add, true, trace) == sum
            && pair.Apply(add, false, trace)
               == Empty("<lambda>() missing 1 required positional argument: 'b'" + TraceHeader + trace)
            && Maybe(Scalar("int", "5")).Apply(add, true, trace)
               == Empty("Value after * must be an iterable, not int" + TraceHeader + trace)
  {
  }
}
