# fava in Dafny

fava is a small functional-programming library for Java. This project models
its core in Dafny and proves properties of the model:

- **Folds** (`Folding`): index-recursive left and right folds. Each is proved
  equal to a head-recursive reference fold.
- **Function objects** (`Currying`, `Composing`): the two- and three-argument
  function objects with partial application, and function composition. A Java
  `F1`/`F2`/`F3` is a Dafny arrow.
- **List helpers** (`Lists`, `Mapping`, `DataLists`): `add`, `map` built from
  `foldl`, and the data package's `append`, `flatten`, `reverse`, `sort`,
  `exists`, `map`, `flatMap` and `unique` with their curried wrappers. The Java
  methods that build a list in a loop are Dafny methods with loops, proved
  against specification functions.
- **Strings** (`DataStrings`): `concat`, `join` (a `foldl`) and `compare`
  (`String.compareTo`).
- **Optional values** (`DataMaybe`, `DataMaybes`): `Maybe` with `fmap`, `fmap2`
  and `equals`, and the helpers `fmap`, `fapply` and `liftA`.
- **Promises** (`PromiseCore`, `PromiseCombinators`):
  - a `Promise` class with its state machine PENDING → SUCCEEDED / FAILED;
  - its listener queue, with a ghost log of every callback made;
  - `fmap` over promises;
  - the two-promise combinator `fmap2`, both as written and as evidently
    intended.

Java assertions are modelled as enabled. An assertion on a caller's
obligation is a `requires`. Where the code itself breaks an assertion
(`fmap2`, `liftA`), the failure is an explicit value of the model.

## Model

| member | source | states |
|---|---|---|
| Folding.FoldlFrom | src/fava/Folding.java:23-25 | folding from `index` gives the left fold of the suffix `data[index..]`; the recursion ends because `size - index` decreases |
| Folding.FoldrFrom | src/fava/Folding.java:27-29 | folding from `index` gives the right fold of the suffix `data[index..]` |
| Folding.Foldl | src/fava/Folding.java:14-16 | `foldl(f, r, data)` equals the reference left fold, and is `r` on the empty list |
| Folding.Foldr | src/fava/Folding.java:19-21 | `foldr(f, r, data)` equals the reference right fold, and is `r` on the empty list |
| Folding.FoldlCons | src/fava/Folding.java:23-25 | `foldl(f, r, [x]+xs) == foldl(f, f(x)(r), xs)`: the elements are consumed left to right |
| Folding.FoldrCons | src/fava/Folding.java:27-29 | `foldr(f, r, [x]+xs) == f(x)(foldr(f, r, xs))` |
| Folding.FoldlAppend | src/fava/Folding.java:23-25 | a left fold over `xs+ys` continues over `ys` from the result over `xs` |
| Folding.FoldrAppend | src/fava/Folding.java:27-29 | a right fold over `xs+ys` folds `xs` onto the result over `ys` |
| Folding.ParenthesisedFolds | tests/fava/FoldingTest.java:23-35 | folding "123" from "0" with the parenthesising step gives "(((0+1)+2)+3)" with foldl and "(1+(2+(3+0)))" with foldr |
| Currying.Partial2 | src/fava/Currying.java:19-26 | `f.apply(a)` is the function whose value at `b` is `f.apply(a, b)` |
| Currying.Partial3 | src/fava/Currying.java:34-41 | `f.apply(a)` is the two-argument function whose value at `(b, c)` is `f.apply(a, b, c)` |
| Currying.CurriedThree | src/fava/Currying.java:19-41 | `f3.apply(a).apply(b).apply(c) == f3.apply(a, b, c)` |
| Composing.Compose | src/fava/Composing.java:16-23 | `compose(fn1, fn2)(x) == fn2(fn1(x))` |
| Composing.Compose3 | src/fava/Composing.java:30-32 | `compose(fn1, fn2, fn3)(x) == fn3(fn2(fn1(x)))` |
| Composing.ComposeAssociative | src/fava/Composing.java:16-32 | `compose(compose(f,g),h)`, `compose(f,compose(g,h))` and `compose(f,g,h)` agree on every argument |
| Lists.Add | src/fava/Lists.java:15-19 | `add(data, e)` is one longer, begins with `data` unchanged and ends with `e` |
| Lists.AddTo | src/fava/Lists.java:21-28 | `addTo(data).apply(e) == add(data, e)` for every `e` |
| Lists.AddF2 | src/fava/Lists.java:30-37 | `add().apply(data, e) == add(data, e)` for every pair |
| Lists.AddPartialIsAddTo | src/fava/Lists.java:21-37 | partially applying `add()` to a list agrees with `addTo` on that list, and both append |
| Mapping.FoldlSnoc | src/fava/Mapping.java:22 | a left fold whose step appends `f(x)` keeps the start value as prefix and then holds `f` of each element, in order |
| Mapping.AppendStep | src/fava/Mapping.java:22 | the step `compose(f, add)` appends `f(x)` to the accumulator |
| Mapping.Map | src/fava/Mapping.java:18-23 | `map(f, data)` has the length of `data` and `result[i] == f(data[i])` |
| Mapping.MapAppend | src/fava/Mapping.java:18-23 | `map(f, xs+ys) == map(f, xs) + map(f, ys)` |
| Mapping.MapSquares | tests/fava/MappingTest.java:24-27 | mapping squaring over [1, 2, 3] gives [1, 4, 9] |
| DataLists.Append | src/fava/data/Lists.java:32-36 | `append(e, list)` is `list`, unchanged, followed by `e` |
| DataLists.AppendF2 | src/fava/data/Lists.java:43-50 | the curried `append()` agrees with `append` on every pair |
| DataLists.ConcatAppend | src/fava/data/Lists.java:57-63 | flattening a concatenation of lists of lists is concatenating the flattened parts |
| DataLists.ConcatMember | src/fava/data/Lists.java:57-63 | an element is in the flattened list iff it is in one of the inner lists |
| DataLists.Flatten | src/fava/data/Lists.java:57-63 | the loop of `addAll` calls yields the in-order concatenation of the inner lists |
| DataLists.FlattenF1 | src/fava/data/Lists.java:70-77 | the curried `flatten()` gives the in-order concatenation |
| DataLists.FoldrAppendReverses | src/fava/data/Lists.java:84-86 | a right fold from `[]` whose step appends the element yields the list reversed |
| DataLists.Reverse | src/fava/data/Lists.java:84-86 | `reverse()`, a `foldr` of `append` from `[]`, keeps the length and puts element `|l|-1-i` at `i` |
| DataLists.ReverseInvolution | src/fava/data/Lists.java:84-86 | reversing twice gives the list back |
| DataLists.AdjacentSortedIsSorted | src/fava/data/Lists.java:93-102 | for a transitive comparator, neighbours in order means every pair in order |
| DataLists.Sort | src/fava/data/Lists.java:93-102 | `sort(cmp, list)` is a permutation of `list`, and it is in comparator order when `cmp` is antisymmetric in sign and transitive (neighbours are in order already for a sign-antisymmetric `cmp`, a property of the stand-in, see "## Left out") |
| DataLists.SortF2 | src/fava/data/Lists.java:109-116 | the curried `sort()` agrees with `sort` |
| DataLists.SortBy | src/fava/data/Lists.java:123-125 | `sort(cmp)` is `sort()` with the comparator bound |
| DataLists.Exists | src/fava/data/Lists.java:132-139 | the scan returns true iff some element satisfies the predicate |
| DataLists.ExistsF2 | src/fava/data/Lists.java:144-151 | the curried `exists()` is true iff some element satisfies the predicate |
| DataLists.Map | src/fava/data/Lists.java:163-168 | `map(f, list)`, a `foldl` of `f` composed with `append`, has the same length and `result[i] == f(list[i])` |
| DataLists.MapF2 | src/fava/data/Lists.java:173-180 | the curried `map()` agrees with `map` |
| DataLists.MapBy | src/fava/data/Lists.java:185-187 | `map(f)` is `map()` with `f` bound |
| DataLists.MapSquares | tests/fava/ListsTest.java:28-41 | `map(square)` applied to [1, 2, 3] gives [1, 4, 9] |
| DataLists.FlatMap | src/fava/data/Lists.java:200-202 | `flatMap(f, list)`, that is `flatten(map(f, list))`, holds exactly the elements of the lists `f(list[i])` |
| DataLists.FlatMapAppend | src/fava/data/Lists.java:200-202 | `flatMap` distributes over concatenation of the input |
| DataLists.FlatMapF2 | src/fava/data/Lists.java:207-214 | the curried `flatMap()` agrees with `flatMap` |
| DataLists.FlatMapBy | src/fava/data/Lists.java:219-221 | `flatMap(f)` is `flatMap()` with `f` bound |
| DataLists.FirstIndex | src/fava/data/Lists.java:231-239 | the first position of an element: it holds the element and no earlier position does |
| DataLists.DedupSameElements | src/fava/data/Lists.java:231-239 | the unique list has exactly the elements of the input |
| DataLists.DedupDistinct | src/fava/data/Lists.java:231-239 | the unique list has no duplicates |
| DataLists.DedupFirstOccurrenceOrder | src/fava/data/Lists.java:231-239 | the unique list keeps the elements in the order of their first occurrences in the input |
| DataLists.DedupOrderAt | src/fava/data/Lists.java:231-239 | for any two positions of the unique list, the earlier element first occurs earlier in the input |
| DataLists.Unique | src/fava/data/Lists.java:231-239 | the loop that adds each element not yet contained computes the unique list |
| DataLists.UniqueF1 | src/fava/data/Lists.java:244-251 | the curried `unique()` computes the unique list |
| DataStrings.Concat | src/fava/data/Strings.java:49-56 | `concat(a, b)` is `a` followed by `b` |
| DataStrings.JoinFromNonEmpty | src/fava/data/Strings.java:70-75 | once the accumulator is non-empty, each further element is added after the delimiter |
| DataStrings.JoinStep | src/fava/data/Strings.java:70-74 | the folding step appends the element to the accumulator, preceded by the delimiter exactly when the accumulator is non-empty |
| DataStrings.Join | src/fava/data/Strings.java:66-80 | `join(d, list)` is the elements after the leading empty ones, in order, with `d` between neighbours |
| DataStrings.JoinEmptyAndSingleton | src/fava/data/Strings.java:69-75 | `join(d, []) == ""` and `join(d, [s]) == s` |
| DataStrings.JoinNonEmptyElements | src/fava/data/Strings.java:72-75 | with no empty element, the elements are separated by `d`, with no leading or trailing delimiter |
| DataStrings.JoinSkipsLeadingEmpty | src/fava/data/Strings.java:72 | an empty first element adds no delimiter: `join(",", ["", "a"]) == "a"` |
| DataStrings.JoinThree | tests/fava/PromiseTest.java:117-118 | three non-empty pages joined by "," are `p1 + "," + p2 + "," + p3` |
| DataStrings.CompareTo | src/fava/data/Strings.java:120-127 | `String.compareTo`: at the first differing position, the difference of the two characters; when one string is a prefix of the other, the difference of the lengths |
| DataStrings.CompareZeroIffEqual | src/fava/data/Strings.java:112-127 | `compare(a, b)` is 0 iff `a == b` |
| DataStrings.CompareAntisymmetric | src/fava/data/Strings.java:120-127 | `compare(a, b) == -compare(b, a)` |
| DataStrings.CompareNegativeIffLess | src/fava/data/Strings.java:112-127 | `compare(a, b) < 0` iff `a` is lexicographically less than `b` |
| DataMaybe.Maybe.GetValue | src/fava/data/Maybe.java:28-31 | `getValue()` needs a value (the assertion) and returns it |
| DataMaybe.Maybe.Fmap | src/fava/data/Maybe.java:43-46 | `fmap(f)` has a value iff the receiver has one, and then it is `f(value)` |
| DataMaybe.JustOf | src/fava/data/Maybe.java:16-18 | `just(t)` has a value, and it is `t` |
| DataMaybe.NothingOf | src/fava/data/Maybe.java:20-22 | `nothing()` has no value |
| DataMaybe.Fmap2 | src/fava/data/Maybe.java:48-54 | `fmap2(f)(a, b)` has a value iff both arguments do, and then it is `f(a.value, b.value)` |
| DataMaybe.FmapIdentity | src/fava/data/Maybe.java:43-46 | mapping the identity changes nothing |
| DataMaybe.FmapComposition | src/fava/data/Maybe.java:43-46 | mapping `q∘p` is mapping `p` and then `q` |
| DataMaybe.Maybe.HasValue | src/fava/data/Maybe.java:24-26 | `hasValue()` is false exactly for `nothing()` |
| DataMaybe.Maybe.Equals | src/fava/data/Maybe.java:33-41 | `equals(obj)` is false for null, for a non-Maybe and for a Maybe that differs in `hasValue`; true for two nothings; for two values, it is the element equality |
| DataMaybe.EqualsIsEquality | src/fava/data/Maybe.java:33-41 | with the element type's equality, `equals(obj)` holds iff `obj` is a Maybe equal to the receiver (false for null and for non-Maybes) |
| DataMaybe.EqualsReflexive | src/fava/data/Maybe.java:33-35 | `equals` is reflexive when the element equality is |
| DataMaybe.EqualsSymmetric | src/fava/data/Maybe.java:33-35 | `equals` is symmetric when the element equality is |
| DataMaybes.Fmap | src/fava/data/Maybes.java:19-26 | `Maybes.fmap(f).apply(m) == m.fmap(f)` |
| DataMaybes.FApply | src/fava/data/Maybes.java:32-35 | `fapply(mf)` needs a function (the assertion) and maps that function |
| DataMaybes.FApplyIsFmap | src/fava/data/Maybes.java:32-35 | `fapply(just(g))` behaves as `fmap(g)` |
| DataMaybes.LiftCurried | src/fava/data/Maybes.java:44 | `fmap(curry(f))` applied to `a` has a function iff `a` has a value, and that function is `f(a.value, ·)` |
| DataMaybes.LiftAAsWrittenAt | src/fava/data/Maybes.java:41-45 | as written, one call of `liftA(f)` fails the assertion exactly when the first argument is nothing, and otherwise gives `fmap2(f)`'s result |
| DataMaybes.LiftAAsWritten | src/fava/data/Maybes.java:41-45 | the as-written `liftA(f)` fails iff its first argument is nothing, and otherwise agrees with `fmap2(f)` |
| DataMaybes.LiftAAsWrittenFailsOnNothing | src/fava/data/Maybes.java:32-45 | `liftA(add).apply(nothing, just(4))` reaches `fapply` with nothing and fails its assertion |
| DataMaybes.FApplyOrNothing | src/fava/data/Maybes.java:32-35 | the total `fapply`: a result iff both the function and the argument are present |
| DataMaybes.LiftAAt | src/fava/data/Maybes.java:41-45 | the corrected `liftA(f)` at `(a, b)` has a value iff both do, and then it is `f(a.value, b.value)` |
| DataMaybes.LiftA | src/fava/data/Maybes.java:41-45 | the corrected `liftA(f)` equals `Maybe.fmap2(f)` on every pair |
| DataMaybes.LiftAAdds | tests/fava/MaybeTest.java:39-42 | lifting addition maps just(3), just(4) to just(7), both as written and corrected |
| PromiseCore.Deliver | src/fava/promise/Promise.java:113-121 | the callback for a listener on a resolved promise names that listener and reports the outcome |
| PromiseCore.Deliveries | src/fava/promise/Promise.java:132-134 | one callback per listener, in listener order, each reporting the outcome |
| PromiseCore.DeliveriesSnoc | src/fava/promise/Promise.java:113-121 | serving one more listener adds exactly its callback at the end of the log |
| PromiseCore.FmapOutcome | src/fava/promise/Promise.java:152-168 | the derived promise is pending iff the source is, succeeds with `f(v)` if the source succeeded with `v`, and fails with the source's exception |
| PromiseCore.FmapIdentity | tests/fava/PromiseTest.java:60-65 | functor law: `fmap(id)` keeps the outcome |
| PromiseCore.FmapComposition | tests/fava/PromiseTest.java:67-77 | functor law: `fmap(q∘p)` equals `fmap(q)` after `fmap(p)` on outcomes |
| PromiseCore.Promise.constructor | src/fava/promise/Promise.java:37-40 | a new promise is pending, with no listener and no callback made |
| PromiseCore.Promise.SuccessOf | src/fava/promise/Promise.java:45-50 | `successOf(v)` is SUCCEEDED with value `v` and has no listener |
| PromiseCore.Promise.FailureOf | src/fava/promise/Promise.java:55-60 | `failureOf(e)` is FAILED with exception `e` and has no listener |
| PromiseCore.Promise.CurrentState | src/fava/promise/Promise.java:65-67 | `state()` names the kind of the current outcome |
| PromiseCore.Promise.GetValue | src/fava/promise/Promise.java:93-96 | `getValue()` needs SUCCEEDED (the assertion) and returns the stored value |
| PromiseCore.Promise.GetException | src/fava/promise/Promise.java:103-106 | `getException()` needs FAILED (the assertion) and returns the stored exception |
| PromiseCore.Promise.Await | src/fava/promise/Promise.java:81-85 | on a resolved promise, `await()` returns the value of a success or throws the exception of a failure |
| PromiseCore.Promise.AddListener | src/fava/promise/Promise.java:113-121 | pending: the listener is queued at the end and nothing is called; resolved: the queue is kept and the listener gets one callback of the matching kind at once; the state never changes |
| PromiseCore.Promise.NotifySuccess | src/fava/promise/Promise.java:127-135 | needs PENDING; stores the value, moves to SUCCEEDED (terminal before the loop), and gives every queued listener exactly one `onSuccess(value)`, in order |
| PromiseCore.Promise.NotifyFailure | src/fava/promise/Promise.java:141-149 | needs PENDING; stores the exception, moves to FAILED, and gives every queued listener exactly one `onFailure(exception)`, in order |
| PromiseCore.Promise.Fmap | src/fava/promise/Promise.java:152-168 | the derived promise's outcome is `FmapOutcome` of the source's, so it is resolved at once when the source is; the source keeps its outcome and gains the forwarding listener |
| PromiseCore.ForwardMapped | src/fava/promise/Promise.java:155-165 | the forwarding listener fulfils the derived promise with `f(v)` on success and rejects it with the same exception on failure |
| PromiseCore.FmapThenSucceed | src/fava/promise/Promise.java:152-168 | `fmap` on a pending promise that later succeeds with `v`: the source keeps its earlier listeners and gains `id` at the end, its callback log is one `onSuccess(v)` per queued listener with `id` last, and the derived promise, still with no listener, succeeds with `f(v)` |
| PromiseCombinators.FmapApply | src/fava/promise/Promises.java:8-29 | `Promises.fmap(f).apply(p)` matches `p.fmap(f)`: the result's outcome is `FmapOutcome` of `p`'s, and it is resolved before returning when `p` is; `p` keeps its outcome, queues the listener when pending, or calls it once at once when resolved |
| PromiseCombinators.AsWrittenStep | src/fava/promise/Promises.java:42-86 | one callback as written never takes back a notification, a broken flag or an outcome. A failure leaves the bookkeeping alone and, unless the other input is FAILED, notifies twice and breaks the result. A success records its value; once the other input has succeeded, it fulfils a pending result with `f(v1, v2)` |
| PromiseCombinators.AsWrittenRun | src/fava/promise/Promises.java:42-86 | over any sequence of callbacks as written, the result never loses a notification, a broken flag or its outcome |
| PromiseCombinators.AsWrittenNeverMarksFailed | src/fava/promise/Promises.java:42-86 | as written, no callback ever sets `state1` or `state2` to FAILED |
| PromiseCombinators.AsWrittenFailureBreaks | src/fava/promise/Promises.java:54-62 | as written, every failure of an input, after any history, makes a second `notifyFailure` on the rejected result and fails its assertion |
| PromiseCombinators.AsWrittenFailureNotifiesTwice | src/fava/promise/Promises.java:54-62 | one failure on a fresh `apply` notifies the result twice and fails the assertion |
| PromiseCombinators.AsWrittenPendingWhileFirstOnly | src/fava/promise/Promises.java:44-52 | while only the first input has succeeded, the result is not notified |
| PromiseCombinators.AsWrittenPendingWhileSecondOnly | src/fava/promise/Promises.java:67-75 | while only the second input has succeeded, the result is not notified |
| PromiseCombinators.AsWrittenBothSucceed | src/fava/promise/Promises.java:42-86 | on the first `apply`, two successes in either order notify once, with `f(v1, v2)` |
| PromiseCombinators.AsWrittenStaleSecondApply | src/fava/promise/Promises.java:31-52 | a second `apply` reuses the first one's bookkeeping: it succeeds with `f(c, b)` using the old `b`, then fails the assertion on a second `notifySuccess` |
| PromiseCombinators.Step | src/fava/promise/Promises.java:42-86 | one corrected callback: a failure marks its input FAILED and rejects a pending result unless the other input already failed (then the result is untouched); a success records its value and fulfils a pending result with `f(v1, v2)` exactly when the other input has succeeded; no earlier notification, broken flag or outcome is lost |
| PromiseCombinators.Run | src/fava/promise/Promises.java:42-86 | over any sequence of corrected callbacks, the result never loses a notification, a broken flag or its outcome |
| PromiseCombinators.StepResolvesOnce | src/fava/promise/Promises.java:54-62 | corrected: for every arrival order of the two inputs' callbacks, the result never fails an assertion, is notified at most once, and ends rejected by the first failure, fulfilled with `f(v1, v2)` or pending |
| PromiseCombinators.StepAgreesOnSuccess | src/fava/promise/Promises.java:44-75 | corrected and as-written agree on the first `apply` when both inputs succeed |
| PromiseCombinators.PairCombiner.constructor | src/fava/promise/Promises.java:33-40 | a new combiner has both inputs pending and a fresh, pending result |
| PromiseCombinators.PairCombiner.OnSuccess1 | src/fava/promise/Promises.java:44-52 | the first input's `onSuccess` is exactly one corrected step; the result stays consistent with the bookkeeping and keeps its listeners |
| PromiseCombinators.PairCombiner.OnFailure1 | src/fava/promise/Promises.java:54-62 | the first input's `onFailure` is exactly one corrected step: it rejects the result only if the second input has not failed first, and the result keeps its listeners |
| PromiseCombinators.PairCombiner.OnSuccess2 | src/fava/promise/Promises.java:67-75 | the second input's `onSuccess` is exactly one corrected step; the result keeps its listeners |
| PromiseCombinators.PairCombiner.OnFailure2 | src/fava/promise/Promises.java:77-85 | the second input's `onFailure` is exactly one corrected step: it rejects the result only if the first input has not failed first, and the result keeps its listeners |
| PromiseCombinators.Fmap2Apply | src/fava/promise/Promises.java:39-89 | a corrected `apply` gives a fresh result with no listener, whose outcome combines the inputs' outcomes (the first input's failure first), and records which inputs are still pending; each input keeps its outcome and invariant and queues its listener when pending or calls it at once when resolved; when both inputs are one promise, it gains both listeners in order |
| PromiseCombinators.CombinedListenerReceivesResult | src/fava/promise/Promises.java:44-75 | a listener on the result of a corrected `apply` is called exactly once, with `onSuccess(f(v1, v2))`, when both inputs succeed |

## Left out

- Thread waiting in `await()` (src/fava/promise/Promise.java:73-79) is left out. Only the result once the promise is resolved is modelled.
- PromiseCore.Promise.Await: requires a resolved promise, where the Java method instead waits for one.
- The `synchronized` blocks and the unsynchronised field writes of `fmap2` are left out. Callbacks are modelled as arriving one at a time, in any order.
- Listener code is not executed. A listener is an identifier, and the callbacks it receives are logged.
  - A listener that registers another listener from inside its callback is not modelled. `NotifySuccess` and `NotifyFailure` do show that the state is already terminal during the notification loop, so such a registration would be served at once.
  - An exception thrown by a listener, which would abort the rest of the notification loop, is not modelled.
- The as-written `fmap2` is modelled on values (`AsWrittenStep`, `AsWrittenRun`), not as methods on promise objects. Its second `notifyFailure` breaks `NotifyFailure`'s precondition. Object updates, aliasing and the listener calls are therefore captured only by the corrected `PairCombiner`.
- Promise identity and equality are left out; outcomes are compared instead.
- HttpPromise and the other test helpers are not part of this model.
- `Strings.split`, `toUpperCase`, `toLowerCase` and `compareIgnoreCase` are left out. They rest on Java's regular expressions and locale-aware case mapping.
- DataLists.Sort: the `Collections.sort` algorithm is not modelled. An insertion sort stands in for it, and its contract claims only a permutation in comparator order, not stability. With a comparator that is not a consistent order, Java may throw. Beyond the permutation, the model promises that neighbours are in order whenever `cmp` is antisymmetric in sign, even when it is not transitive. That is a property of the insertion sort that stands in, and `Collections.sort` does not guarantee it.
- DataStrings.CompareTo compares Dafny characters, where Java compares UTF-16 code units.
- Java `null` is left out: null lists, `Maybe.equals` on `just(null)`, and the null that `value1`/`value2` hold before a success. The model represents that initial null as an arbitrary value of the type.
- Interfaces and casts with no logic are left out: `Functions`, the `functor` and `monad` packages, `Pair`, `Numbers` and `Flipping`.
- Five symbols are called by the modelled code but are not part of this model. Each is modelled by its evident meaning:
  - `Composing._` (src/fava/data/Lists.java:167), as `compose`;
  - `Lists._add` (src/fava/Mapping.java:22), as appending to the accumulator;
  - `Currying.curry`/`uncurry` (src/fava/data/Maybes.java:44, src/fava/data/Strings.java:79), as the usual conversions;
  - the two-argument `foldl` (src/fava/data/Strings.java:75), as `foldl` with the list still to come;
  - the two-argument `foldr` (src/fava/data/Lists.java:85), as the three-argument `foldr` with `f` and `r` bound and the list still to come.
- Behaviour with Java assertions disabled, the JVM's default, is not modelled. The differences:
  - in `fmap2` (src/fava/promise/Promises.java:54-62, 77-85), the second `notifyFailure` rewrites the result's state and runs each of its listeners a second time instead of failing;
  - `liftA(f).apply(nothing, b)` passes the assertion in `fapply` (src/fava/data/Maybes.java:32-35) and gets `fmap(null)`. For `b == just(x)`, this ends in a NullPointerException when `Maybe.fmap` applies the null function (src/fava/data/Maybe.java:45). For `b == nothing`, it returns nothing;
  - `getValue()` and `getException()` on the wrong state return a stale value or null (src/fava/promise/Promise.java:93-106).
- Folding.Foldl and Folding.Foldr: Java's `foldl`/`foldr` (src/fava/Folding.java:23-29) recurse once per element without tail calls, so a long enough list ends in a StackOverflowError. The model has no stack bound.
- PromiseCombinators.Fmap2Apply: the listener object that `fmap2` registers on each input is modelled by the calls its callbacks make on the combiner. The contract states what each input's queue and callback log become, also for `apply(p, p)`, but it does not replay the later callbacks of an input that is still pending.
- DataMaybe.Maybe.Equals: the other object is a `Reference<T>` with the receiver's element type. Java erases generic types, so `Maybe.<Integer>nothing().equals(Maybe.<String>nothing())` is true, and a `just` of another element type reaches the element's own `equals`. The model cannot state a comparison across element types.
- DataLists.UniqueF1 is a ghost function, so the model has no compiled curried `unique()`. Both `UniqueF1` and the compiled `Unique` method are proved equal to `Dedup`, so they compute the same list.
- The test files come from another revision of the library (`Promise.unit`, `Promises.liftA`, `Strings.times`, ...). They are cited only where they exercise code that is modelled here.

## Findings

| source | as written | input that shows it | evidently intended | confidence | as-written member | corrected member |
|---|---|---|---|---|---|---|
| src/fava/promise/Promises.java:54-62 | each `onFailure` calls `notifyFailure` unconditionally, then again under `state2 != FAILED` (`state1` in the mirror at :77-85). No callback ever sets a state to FAILED, so the guard always holds. | the first input of a fresh `apply` fails with `e`: `notifyFailure(e)` runs twice, and the second call finds the result FAILED and fails `assert state == PENDING` | reject the result once, with the exception of the first input to fail | high, not executed | PromiseCombinators.AsWrittenFailureNotifiesTwice | PromiseCombinators.StepResolvesOnce |
| src/fava/promise/Promises.java:33-36 | `state1`, `state2`, `value1` and `value2` are fields of the lifted function, shared by every `apply` | lift `(x, y) => x - y`, apply it to inputs that succeed with `a` and `b`, then apply it again: when the new first input succeeds with `c`, the new result succeeds with `c - b` before the new second input resolves; when that input gives `d`, a second `notifySuccess` fails the assertion | bookkeeping fresh for each `apply` | medium, not executed | PromiseCombinators.AsWrittenStaleSecondApply | PromiseCombinators.Fmap2Apply |
| src/fava/data/Maybes.java:41-45 | `liftA(f)` passes `fmap(curry(f))(a)` to `fapply`, which asserts that a function is present | `liftA(add).apply(nothing(), just(4))`: `fapply` receives nothing and its assertion fails | nothing when either argument is nothing, as `Maybe.fmap2` | high, not executed | DataMaybes.LiftAAsWrittenFailsOnNothing | DataMaybes.LiftA |
