# Maybe: an exception-capturing value wrapper

This project models `Maybe`, the generic wrapper in `src/structures/maybe.py` of the
AudioClassification repository, and its nested sentinel `Maybe.Empty`. The project proves
properties of that model in Dafny.

A `Maybe` holds one value, set once by its constructor. The wrapper applies caller-supplied
functions to that value:

- `apply(f, unpack)` calls `f(v)`, or `f(*v)` when `unpack` is set. It hands back `f`'s result,
  or an `Empty` that records the exception `f` raised. On a `Maybe` that already holds an
  `Empty`, it calls nothing and hands back `None`.
- `transform` wraps what `apply` hands back in a new `Maybe`.
- `run` calls `apply` only for its effect. When `apply` hands back an `Empty`, `run` prints it to
  the error stream. That `Empty` is either a captured exception or one `f` returned itself.
  `run` then returns `self`.
- `get` returns the wrapped value.
- `__bool__` tests that the wrapped value is not an `Empty`.
- `__str__` (on both classes) renders a value for diagnostics.

Python is dynamically typed, so the model works over one universe `Value`:

- `None`;
- an object that the `*` operator cannot spread (`Scalar`);
- an object that it spreads into a list of items (`Iterable`);
- an instance of `Maybe.Empty` (`Empty(reason)`).

A caller's function is a `Callable`: a map from the positional-argument list it receives to an
`Outcome`, which either returns a value or raises with a message.

- `f(v)` is the call on `[v]`.
- `f(*v)` is the call on the value's items.
- Spreading a non-iterable value raises a `TypeError` inside the `try`, so it is captured like
  any other failure.
- An arity mismatch is one more exception the function raises.

Files:
- `maybe.dfy`: module `Structures`. The values, `Maybe.Empty.__str__` and its inverse, and
  `Maybe` with `Apply`, `Transform`, `Run`, `Get`, `IsPresent` and `ToString`.
- `chaining.dfy`: module `Chaining`. Chains of `transform` and `run` calls, as the class is
  meant to be used.
- `sticky_failure.dfy`: module `StickyFailure`. The finding below: `apply` as written next to
  `apply` as evidently intended.
- `wrappers.dfy`: module `Wrappers`. `Option`.

The source of `Maybe.Empty.__str__` names its flag `HAS_REASON`, but the flag is true when the
reason is the empty string. The generic "This is empty" message is therefore shown exactly when
there is no reason. The behaviour is right and only the name is misleading. The model follows
the code: `EmptyText` shows the generic message exactly for the reason `""`. The terminal colour
codes are kept as written: `Red` and `Normal` are the two escape sequences the source uses.

`ApplyLogged` records the argument lists `apply` hands to `f`, so that "`f` is never called"
is a statement about that record rather than only about the result. `Apply` hands back the
`result` of that record, and `run` passes its `calls` on.

## Model

| member | source | states |
|---|---|---|
| `Structures.EmptyText` | src/structures/maybe.py:29-34 | with reason `""` the rendering is red "This is empty", normal, "!"; otherwise it is red "Empty since", normal, ": " and the reason |
| `Structures.EmptyTextRoundTrip` | src/structures/maybe.py:29-34 | the reason can be read back from either shape of the rendering |
| `Structures.ReasonFromTextSound` | src/structures/maybe.py:29-34 | every text the reader accepts is exactly the rendering of the reason it reads |
| `Structures.EmptyTextInjective` | src/structures/maybe.py:29-34 | two different reasons never render alike |
| `Structures.ConstructThenGet` | src/structures/maybe.py:36-41 | construction does no validation: `get` on a new `Maybe(x)` returns `x`, whatever it is |
| `Structures.PresentIffNotEmpty` | src/structures/maybe.py:88-93 | `__bool__` is true exactly when the wrapped value is not an `Empty`, contrary to its doc comment |
| `Structures.Maybe.Apply` | src/structures/maybe.py:43-58 | an empty `Maybe` gives `None`; a present one gives the result of `f([v])` (or of `f` on the items when unpacking), or an `Empty` whose reason is the exception message, ". Traceback:\n" and the trace; a value that cannot be spread yields a captured `TypeError` |
| `Structures.Maybe.ApplyLogged` | src/structures/maybe.py:50-58 | `f` is entered at most once: with `[v]` without unpacking, with the value's items when unpacking an iterable, never when the spread fails (the `TypeError` is captured instead), never on an empty `Maybe`; the value handed back is the captured outcome of that one call |
| `Structures.ApplyOnEmptyIgnoresFunction` | src/structures/maybe.py:50-58 | on an empty `Maybe` no argument list reaches `f`, and any two functions give the same `None` |
| `Structures.ApplyDependsOnlyOnArguments` | src/structures/maybe.py:50-54 | a present `Maybe` passes `f` exactly the argument list `unpack` selects, and nothing else affects the result |
| `Structures.RaisedMessageLeadsReason` | src/structures/maybe.py:53-58 | a raised exception is never lost: the result is an `Empty` whose reason begins with the message and the trace header |
| `Structures.UnpackSelectsArguments` | src/structures/maybe.py:51-54 | a two-argument function on a pair succeeds with `unpack` and fails on arity without it; spreading an `int` fails with a captured `TypeError` |
| `Structures.Maybe.Transform` | src/structures/maybe.py:60-67 | the new `Maybe` wraps `apply`'s result; an empty `Maybe` transforms into a present `Maybe(None)`; from a present value the new one is empty exactly when `f` raised or returned an `Empty` |
| `Structures.Maybe.Run` | src/structures/maybe.py:69-79 | returns `self` unchanged; calls `f` exactly as `apply` does, so never on an empty `Maybe`; writes a line exactly when `apply` gave an `Empty`, and that line is the `Empty`'s rendering plus a newline; never writes for an empty `Maybe` |
| `Structures.Maybe.Get` | src/structures/maybe.py:81-86 | `get` hands back the wrapped value itself, even an `Empty`: wrapping the result again gives back the same `Maybe` |
| `Structures.Maybe.IsPresent` | src/structures/maybe.py:88-93 | `__bool__` is false exactly for a `Maybe` built around some `Maybe.Empty` instance, whatever its reason |
| `Structures.Maybe.ToString` | src/structures/maybe.py:95-100 | `Maybe.__str__` is "Maybe[ value:", the type name, " = ", the value's `str()` and " ]"; given the type name, the value's `str()` text is exactly the slice between header and " ]" |
| `Structures.ToStringOfEmpty` | src/structures/maybe.py:95-100 | the reason of a wrapped `Empty` can be read back from the `Maybe`'s own rendering |
| `Structures.ToStringInjectiveOnEmpty` | src/structures/maybe.py:95-100 | two `Maybe`s holding `Empty`s with different reasons never render alike |
| `Chaining.RunsLeaveChainValue` | src/structures/maybe.py:60-79 | taking every `run` out of a chain of `transform` and `run` calls leaves the final `Maybe` unchanged |
| `Chaining.DiagnosticsAtMostRuns` | src/structures/maybe.py:69-79 | a chain writes at most one line per `run` call |
| `Chaining.RunChainKeepsSelf` | src/structures/maybe.py:69-79 | a chain of `run` calls hands back the `Maybe` it started from, and writes nothing when that `Maybe` is empty |
| `StickyFailure.ApplyIntended` | src/structures/maybe.py:43-58 | corrected `apply`: an empty `Maybe` hands back its own `Empty`; a present one behaves as `Apply` |
| `StickyFailure.TransformIntended` | src/structures/maybe.py:60-67 | corrected `transform`: an empty `Maybe` transforms into itself; a present one behaves as `Transform` |
| `StickyFailure.IntendedFailureIsSticky` | src/structures/maybe.py:52-58 | with the corrected `apply`, an `Empty` is carried unchanged to the end of any chain of `transform` calls |
| `StickyFailure.IntendedAgreesWhilePresent` | src/structures/maybe.py:60-67 | while every call is made on a present `Maybe`, the corrected chain and the chain as written give the same result |
| `StickyFailure.FailureNotStickyAsWritten` | src/structures/maybe.py:52-58 | as written, `Maybe(0).transform(1 / x)` is empty, the next `transform` gives `Maybe(None)`, and the one after calls its function with `None` |

## Findings

| source | as written | input that shows it | evidently intended | confidence | as-written member | corrected member |
|---|---|---|---|---|---|---|
| src/structures/maybe.py:52-58 | `apply` on a `Maybe` holding an `Empty` falls off the end and returns `None`, so `transform` then wraps `None`, which tests present | `Maybe(0).transform(lambda x: 1 / x).transform(g).transform(h)` calls `h(None)` | `apply` hands back the `Empty` it holds, as its annotation `Union[V, Maybe.Empty]` and its docstring ("the value or an Empty") say, so a failure is carried to the end of the chain | medium; not executed | `StickyFailure.FailureNotStickyAsWritten` | `StickyFailure.IntendedFailureIsSticky` |

`Structures.Maybe.Apply`, `Transform`, `Run` and the `Chaining` lemmas model the source as
written. The corrected `apply` and `transform` live beside them in `StickyFailure`.

## Left out

- The traceback text. `traceback.format_stack()`, its reversal and the dropping of the first
  frame are replaced by a `trace` parameter: the finished text placed after ". Traceback:\n".
- The write to `sys.stderr` in `run`. It is modelled as the line `run` would write
  (`RunResult.diagnostic`).
- `copy.deepcopy`. Dafny values are immutable, so `f` cannot change the wrapped value through
  its argument, which is all the copy protects. A failure of the copy itself is not modelled; in
  the source it happens outside the `try`, before the presence test.
- Aliasing. `Maybe(v)` keeps the caller's own object and `get` returns that object. A mutable
  value can therefore change through outside references, including from inside `f` through a
  closure (`xs = [1]; m = Maybe(xs); m.run(lambda _: xs.append(2))`). Every later `apply`,
  `transform`, `__bool__` and `__str__` then sees the new contents. The model's values are
  immutable, so it does not show this sharing.
- `Structures.ApplyOnEmptyIgnoresFunction`, `Structures.Maybe.ApplyLogged`: side effects of
  caller functions. A `Callable` only returns or raises. Whether `f` is called is stated through
  the recorded argument lists, not through any effect `f` has. What a `run` tap prints or changes
  inside `f` is therefore not modelled.
- Exceptions outside the `Exception` hierarchy. `KeyboardInterrupt` and `SystemExit` are not
  caught by the source. The model's functions only raise the caught kind.
- Python's own `str()` and type names for arbitrary objects. A `Scalar` or `Iterable` carries
  its type name and its `str()` text as given data.
- What iterating an object yields. An `Iterable` carries the items `*` spreads it into, and an
  iteration that itself raises is not modelled.
- The exact wording of the interpreter's `TypeError` for spreading a non-iterable object
  (`SpreadError`). The wording varies between Python versions.
- `main.py` and `src/functions/transfroms.py`: file walking, audio loading, FFT, STFT, MFCC,
  plotting and nearest-neighbour matching. These are input/output and floating-point library
  calls; the wrapper sees them only as functions that may raise.
