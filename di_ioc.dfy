/**
 * The registry, resolver and detour engine of node-di-ioc (lib/di-ioc.js).
 *
 * `di` registers producer functions under names in a namespace's container,
 * wrapping each producer whose parameter list names dependencies in a detour.
 * `resolve` looks a name up in a container and invokes its producer, caching
 * the value of a singleton. A detour, when called, builds its argument list
 * from the resolved values of its parameter names, falling back to the
 * caller's arguments. `ioc` replaces a method of an object by a takeover that
 * detours every function passed to it.
 *
 * The bodies of the functions the program registers are not visible: calling
 * one is an `Oracle` that logs the call and yields either a fresh instance or
 * a fixed value.
 */
module DiIoc {
  import opened Tokenizer

  /* ---------------------------------------------------------------- values */

  /** What calling a function written by the program yields, whatever its arguments. */
  datatype Yield = FreshInstance | Constant(value: Value)

  /** The JavaScript values the engine passes around, as far as it tells them apart. */
  datatype Value =
    | Undefined
    | Null
    | Boolean(b: bool)
    | Number(n: int)
    | Str(s: string)
    | Instance(id: nat)
    | Callable(f: Function)

  /**
   * Function values: one the program wrote (its source text and what it
   * yields), a detour built by `createDetourFunction`, or a takeover built by
   * `ioc`. The wrappers keep the container they resolve from and the
   * function they wrap.
   */
  datatype Function =
    | Source(text: string, outcome: Yield)
    | Detour(container: Container, names: seq<string>, original: Function)
    | Takeover(container: Container, original: Function)

  /**
   * The source text a detour or a takeover prints as. Only the part up to the
   * first `)` matters to the tokenizer; the bodies of the wrappers are not
   * part of this model.
   */
  const WrapperText := "function () {}"

  /** `func.toString()`. */
  function Text(f: Function): string
  {
    if f.Source? then f.text else WrapperText
  }

  /** What the tokenizer is given for a value: its text if it is a function, otherwise the not-a-function tag. */
  function SubjectOf(v: Value): Subject
  {
    if v.Callable? then Function(Text(v.f)) else NotAFunction
  }

  /** The errors the engine throws. */
  datatype Error =
    | DuplicateDependency(name: string)
    | NamespaceNotFound(namespace: string)
    | PropertyNotAFunction(funcName: string)
      /** TypeError: `.result` is read on the tokenizer's `null`. */
    | NullParameterNames
      /** TypeError: a registered `func` that is not a function is called. */
    | NotCallable

  /** The message of the errors the source raises itself; a TypeError's text comes from the engine. */
  function Message(e: Error): Option<string>
  {
    match e
    case DuplicateDependency(name) => Some("Dependency already registered for " + name)
    case NamespaceNotFound(namespace) => Some("Namespace " + namespace + " not found")
    case PropertyNotAFunction(funcName) => Some(funcName + " is not a function")
    case NullParameterNames => None
    case NotCallable => None
  }

  datatype Result<T> = Success(value: T) | Failure(error: Error)

  /* ---------------------------------------------------------------- calls */

  /** One call of a function, with the argument list it was given. */
  datatype Call = Call(callee: Function, args: seq<Value>)

  /** What the `serial`-th call made to `f` yields: a wrapper yields what the function it wraps yields. */
  function Produce(f: Function, serial: nat): Value
  {
    match f
    case Source(_, outcome) => if outcome.FreshInstance? then Instance(serial) else outcome.value
    case Detour(_, _, original) => Produce(original, serial)
    case Takeover(_, original) => Produce(original, serial)
  }

  /** Whether `f` yields `null`. */
  predicate YieldsNull(f: Function)
  {
    Produce(f, 0) == Null
  }

  /** Whether a function yields `null` does not depend on which call it is. */
  lemma {:induction false} NullIsFixed(f: Function, serial: nat)
    ensures Produce(f, serial) == Null <==> YieldsNull(f)
  {
    match f
    case Source(_, _) =>
    case Detour(_, _, original) => NullIsFixed(original, serial);
    case Takeover(_, original) => NullIsFixed(original, serial);
  }

  /** The calls made into functions whose bodies the model does not see, in order. */
  class Oracle {
    var calls: seq<Call>

    constructor ()
      ensures calls == []
    {
      calls := [];
    }

    /** Call `f` with `args`: the call is logged and yields what `f` yields as the next call. */
    method Invoke(f: Function, args: seq<Value>) returns (v: Value)
      modifies this
      ensures calls == old(calls) + [Call(f, args)]
      ensures v == Produce(f, |old(calls)|)
    {
      v := Produce(f, |calls|);
      calls := calls + [Call(f, args)];
    }
  }

  /* ---------------------------------------------------------------- containers */

  /** A registered dependency: the `{func, singleton, instance}` record a container holds. */
  class Dependency {
    const func: Value
    const singleton: Value
    var instance: Value

    constructor (func: Value, singleton: Value)
      ensures this.func == func && this.singleton == singleton && instance == Null
    {
      this.func := func;
      this.singleton := singleton;
      instance := Null;
    }
  }

  /** A namespace's container: dependency records by name. */
  class Container {
    var entries: map<string, Dependency>

    constructor ()
      ensures entries == map[]
    {
      entries := map[];
    }
  }

  /** An object whose methods `ioc` can take over: its properties by name. */
  class Target {
    var slots: map<string, Value>

    constructor (slots: map<string, Value>)
      ensures this.slots == slots
    {
      this.slots := slots;
    }
  }

  /** `obj[key]`: a missing property reads as `undefined`. */
  function Slot(slots: map<string, Value>, key: string): Value
  {
    if key in slots then slots[key] else Undefined
  }

  /* ---------------------------------------------------------------- detours */

  /** `createDetourFunction` reads `.result` on `null`: the function's text ends before a closing `)`. */
  predicate DetourFails(v: Value)
  {
    Extract(SubjectOf(v)).NoClose?
  }

  /**
   * `createDetourFunction`, by value: the value itself when the tokenizer
   * finds no names (this includes non-functions and rejected parameter
   * lists), a detour over `container` when it finds some, and a TypeError
   * when the tokenizer returns `null`.
   */
  function DetourOf(container: Container, v: Value): Result<Value>
  {
    var details := Extract(SubjectOf(v));
    if details.NoClose? then Failure(NullParameterNames)
    else if |details.Result()| == 0 then Success(v)
    else Success(Callable(Detour(container, details.names, v.f)))
  }

  /** `createDetourFunction`, as the source computes it: it asks the tokenizer, then decides. */
  method CreateDetourFunction(container: Container, func: Value) returns (r: Result<Value>)
    ensures r == DetourOf(container, func)
    ensures r.Failure? <==> DetourFails(func)
    ensures r.Failure? ==> r.error == NullParameterNames
    ensures !func.Callable? ==> r == Success(func)
  {
    var funcDetails := ExtractParameterNames(SubjectOf(func));
    if funcDetails.NoClose? {
      return Failure(NullParameterNames);
    }
    if |funcDetails.Result()| == 0 {
      return Success(func);
    }
    return Success(Callable(Detour(container, funcDetails.names, func.f)));
  }

  /** Anything that is not a function is kept as it is: the tokenizer rejects it with an empty result. */
  lemma NonFunctionKept(container: Container, v: Value)
    requires !v.Callable?
    ensures DetourOf(container, v) == Success(v)
  {
  }

  /** A wrapper's parameter list is empty, so a detour or a takeover is never wrapped again. */
  lemma WrapperKept(container: Container, w: Function)
    requires !w.Source?
    ensures DetourOf(container, Callable(w)) == Success(Callable(w))
  {
    ExampleEmpty(WrapperText);
  }

  /**
   * Detouring is idempotent: whatever `createDetourFunction` returns is
   * returned unchanged by a second `createDetourFunction`, over any container.
   */
  lemma DetourIdempotent(container: Container, other: Container, v: Value)
    requires DetourOf(container, v).Success?
    ensures DetourOf(other, DetourOf(container, v).value) == DetourOf(container, v)
  {
    var details := Extract(SubjectOf(v));
    if |details.Result()| == 0 {
      if v.Callable? && !v.f.Source? {
        WrapperKept(other, v.f);
      }
    } else {
      WrapperKept(other, Detour(container, details.names, v.f));
    }
  }

  /** A detour is built only for a function whose text declares names, all well formed, and it wraps that function. */
  lemma DetourNamesWellFormed(container: Container, v: Value)
    requires DetourOf(container, v).Success? && DetourOf(container, v).value != v
    ensures v.Callable? && DetourOf(container, v).value.Callable?
    ensures var d := DetourOf(container, v).value.f;
            d.Detour? && d.container == container && d.original == v.f && |d.names| > 0 &&
            Extract(SubjectOf(v)) == Parsed(d.names) &&
            forall i :: 0 <= i < |d.names| ==> WellFormedName(d.names[i])
  {
    ExtractedNamesWellFormed(SubjectOf(v));
  }

  /** Functions whose parameter list the tokenizer rejects (defaults, rest, destructuring) are kept unwrapped. */
  lemma RejectedParameterListKept(container: Container, v: Value)
    requires Extract(SubjectOf(v)).Rejected?
    ensures DetourOf(container, v) == Success(v)
  {
  }

  /* ---------------------------------------------------------------- resolve */

  /** A snapshot of a dependency record. */
  datatype Entry = Entry(func: Value, singleton: Value, instance: Value)

  /** The record registered under `name`, if any, as it stands. */
  function Lookup(container: Container, name: string): Option<Entry>
    reads container, container.entries.Values
  {
    if name in container.entries then
      var d := container.entries[name];
      Some(Entry(d.func, d.singleton, d.instance))
    else None
  }

  /** `dependency.singleton === true`: only the boolean `true` makes a singleton. */
  predicate IsSingleton(flag: Value)
  {
    flag == Boolean(true)
  }

  /** What one `resolve` does: its result, the record afterwards, and whether the producer was called. */
  datatype Resolution = Resolution(result: Result<Value>, after: Option<Entry>, invoked: bool)

  /** `resolve` by value, for the record found under the name and the serial number the next call would get. */
  function Resolved(entry: Option<Entry>, serial: nat): Resolution
  {
    match entry
    case None => Resolution(Success(Null), None, false)
    case Some(e) =>
      if IsSingleton(e.singleton) && e.instance != Null then Resolution(Success(e.instance), entry, false)
      else if !e.func.Callable? then Resolution(Failure(NotCallable), entry, false)
      else
        var v := Produce(e.func.f, serial);
        if IsSingleton(e.singleton) then Resolution(Success(v), Some(e.(instance := v)), true)
        else Resolution(Success(v), entry, true)
  }

  /** The calls one resolution makes: the producer, with no arguments, when it is invoked. */
  function ResolutionCalls(entry: Option<Entry>, serial: nat): seq<Call>
  {
    if Resolved(entry, serial).invoked then [Call(entry.value.func.f, [])] else []
  }

  /** `resolve`: look the name up, and call the producer unless a singleton's value is cached. */
  method Resolve(container: Container, dependencyName: string, oracle: Oracle) returns (r: Result<Value>)
    modifies oracle, if dependencyName in container.entries then {container.entries[dependencyName]} else {}
    ensures r == Resolved(old(Lookup(container, dependencyName)), |old(oracle.calls)|).result
    ensures Lookup(container, dependencyName) == Resolved(old(Lookup(container, dependencyName)), |old(oracle.calls)|).after
    ensures oracle.calls == old(oracle.calls) + ResolutionCalls(old(Lookup(container, dependencyName)), |old(oracle.calls)|)
  {
    if dependencyName !in container.entries {
      return Success(Null);
    }
    var dependency := container.entries[dependencyName];
    if IsSingleton(dependency.singleton) {
      if dependency.instance == Null {
        if !dependency.func.Callable? {
          return Failure(NotCallable);
        }
        dependency.instance := oracle.Invoke(dependency.func.f, []);
      }
      return Success(dependency.instance);
    }
    if !dependency.func.Callable? {
      return Failure(NotCallable);
    }
    var v := oracle.Invoke(dependency.func.f, []);
    return Success(v);
  }

  /** An unregistered name resolves to `null` without calling anything. */
  lemma UnregisteredResolvesToNull(serial: nat)
    ensures Resolved(None, serial) == Resolution(Success(Null), None, false)
    ensures ResolutionCalls(None, serial) == []
  {
  }

  /**
   * A singleton whose producer yields something other than `null` is produced
   * once: the first resolution calls the producer and caches the value, and
   * the next resolution returns that same value without calling anything.
   */
  lemma SingletonProducedOnce(e: Entry, serial: nat, later: nat)
    requires IsSingleton(e.singleton) && e.instance == Null && e.func.Callable?
    requires Produce(e.func.f, serial) != Null
    ensures var first := Resolved(Some(e), serial);
            first.invoked && first.result == Success(Produce(e.func.f, serial)) &&
            var second := Resolved(first.after, later);
            !second.invoked && second.result == first.result && second.after == first.after
  {
  }

  /** A singleton whose producer yields `null` is never cached: every resolution calls the producer again. */
  lemma NullSingletonReinvoked(e: Entry, serial: nat, later: nat)
    requires IsSingleton(e.singleton) && e.instance == Null && e.func.Callable?
    requires Produce(e.func.f, serial) == Null
    ensures var first := Resolved(Some(e), serial);
            first.invoked && first.after == Some(e) && Resolved(first.after, later).invoked
  {
  }

  /**
   * A dependency that is not a singleton (including one flagged with a truthy
   * value other than `true`) calls its producer on every resolution and keeps
   * no instance; a producer of fresh instances gives a different instance each time.
   */
  lemma NonSingletonProducedEveryTime(e: Entry, serial: nat, later: nat)
    requires !IsSingleton(e.singleton) && e.func.Callable?
    ensures var first := Resolved(Some(e), serial);
            first.invoked && first.after == Some(e) && Resolved(first.after, later).invoked
    ensures e.func.f.Source? && e.func.f.outcome.FreshInstance? && serial != later ==>
              Resolved(Some(e), serial).result != Resolved(Some(e), later).result
  {
  }

  /** Once a singleton holds a value other than `null`, no resolution changes it. */
  lemma CachedSingletonStays(e: Entry, serial: nat)
    requires IsSingleton(e.singleton) && e.instance != Null
    ensures Resolved(Some(e), serial) == Resolution(Success(e.instance), Some(e), false)
  {
  }

  /* ---------------------------------------------------------------- the detour, called */

  /** `x ?? fallback`. */
  function Coalesce(x: Value, fallback: Value): Value
  {
    if x.Null? || x.Undefined? then fallback else x
  }

  /** `arguments[index]`: a missing argument reads as `undefined`. */
  function Positional(arguments: seq<Value>, index: nat): Value
  {
    if index < |arguments| then arguments[index] else Undefined
  }

  /** The dependency records a detour over `names` may update: those of its registered names. */
  function Records(container: Container, names: seq<string>): set<Dependency>
    reads container
  {
    set i | 0 <= i < |names| && names[i] in container.entries :: container.entries[names[i]]
  }

  /** `c` is a call, with no arguments, of the producer registered under one of `names`. */
  predicate ProducerCall(container: Container, names: seq<string>, c: Call)
    reads container
  {
    exists j :: 0 <= j < |names| && names[j] in container.entries && container.entries[names[j]].func.Callable? &&
                c == Call(container.entries[names[j]].func.f, [])
  }

  /** A singleton record that holds a value other than `null`. */
  predicate Cached(d: Dependency)
    reads d
  {
    IsSingleton(d.singleton) && d.instance != Null
  }

  /**
   * Calling a detour: resolve each parameter name in order, falling back to
   * the caller's argument at the same position when the resolved value is
   * `null` or `undefined`, then call the wrapped function with that list.
   * `args` is the list built; `resolved` the values `resolve` returned.
   *
   * The call throws only at a registered name whose `func` is not a
   * function. A singleton's record ends up holding the value handed out for
   * it; any other registered name gets what its producer yielded in one of
   * the calls made.
   */
  method InvokeDetour(detour: Function, arguments: seq<Value>, oracle: Oracle)
      returns (r: Result<Value>, args: seq<Value>, ghost resolved: seq<Value>)
    requires detour.Detour?
    modifies oracle, Records(detour.container, detour.names)
    ensures r.Success? ==>
              |args| == |resolved| == |detour.names| &&
              forall i :: 0 <= i < |args| ==> args[i] == Coalesce(resolved[i], Positional(arguments, i))
    ensures r.Success? ==> |oracle.calls| > 0 && oracle.calls[|oracle.calls| - 1] == Call(detour.original, args) &&
                           r.value == Produce(detour.original, |oracle.calls| - 1)
    ensures r.Failure? ==> r.error == NotCallable
    ensures r.Failure? ==>
              exists i :: 0 <= i < |detour.names| && detour.names[i] in detour.container.entries &&
                          !detour.container.entries[detour.names[i]].func.Callable?
    ensures (forall i :: 0 <= i < |detour.names| && detour.names[i] in detour.container.entries ==>
               detour.container.entries[detour.names[i]].func.Callable?) ==> r.Success?
    ensures old(oracle.calls) <= oracle.calls
    ensures |oracle.calls| <= |old(oracle.calls)| + |detour.names| + (if r.Success? then 1 else 0)
    ensures forall s :: |old(oracle.calls)| <= s < |oracle.calls| - (if r.Success? then 1 else 0) ==>
                        ProducerCall(detour.container, detour.names, oracle.calls[s])
    ensures forall i :: 0 <= i < |detour.names| && detour.names[i] in detour.container.entries &&
                        !IsSingleton(detour.container.entries[detour.names[i]].singleton) ==>
                          detour.container.entries[detour.names[i]].instance == old(detour.container.entries[detour.names[i]].instance)
    ensures |resolved| <= |detour.names|
    ensures forall i :: 0 <= i < |resolved| && detour.names[i] !in detour.container.entries ==> resolved[i] == Null
    ensures forall i :: 0 <= i < |resolved| && detour.names[i] in detour.container.entries &&
                        IsSingleton(detour.container.entries[detour.names[i]].singleton) ==>
                          var d := detour.container.entries[detour.names[i]];
                          resolved[i] == d.instance && (resolved[i] == Null ==> d.func.Callable? && YieldsNull(d.func.f))
    ensures forall i :: 0 <= i < |resolved| && detour.names[i] in detour.container.entries &&
                        !IsSingleton(detour.container.entries[detour.names[i]].singleton) ==>
                          var f := detour.container.entries[detour.names[i]].func;
                          f.Callable? &&
                          exists s :: |old(oracle.calls)| <= s < |oracle.calls| && oracle.calls[s] == Call(f.f, []) &&
                                      resolved[i] == Produce(f.f, s)
    ensures forall i :: 0 <= i < |detour.names| && detour.names[i] in detour.container.entries &&
                        old(Cached(detour.container.entries[detour.names[i]])) ==>
                          var d := detour.container.entries[detour.names[i]];
                          Cached(d) && d.instance == old(d.instance) && (i < |resolved| ==> resolved[i] == d.instance)
  {
    var container, names := detour.container, detour.names;
    ghost var from := |oracle.calls|;
    ghost var serials: seq<nat> := [];
    args, resolved := [], [];
    var failed := false;
    ghost var failedAt := 0;
    var i := 0;
    while i < |names|
      invariant i <= |names|
      invariant !failed
      invariant |args| == |resolved| == |serials| == i
      invariant old(oracle.calls) <= oracle.calls
      invariant forall k :: 0 <= k < i ==> args[k] == Coalesce(resolved[k], Positional(arguments, k))
      invariant forall k :: 0 <= k < i ==> ResolvedAs(container, names[k], resolved[k], oracle.calls, from, serials[k])
      invariant from == |old(oracle.calls)|
      invariant |oracle.calls| <= from + i
      invariant forall s :: from <= s < |oracle.calls| ==> ProducerCall(container, names, oracle.calls[s])
      invariant forall k :: 0 <= k < |names| && names[k] in container.entries && !IsSingleton(container.entries[names[k]].singleton) ==>
                  container.entries[names[k]].instance == old(container.entries[names[k]].instance)
      invariant forall k :: 0 <= k < |names| && names[k] in container.entries && old(Cached(container.entries[names[k]])) ==>
                  Cached(container.entries[names[k]]) && container.entries[names[k]].instance == old(container.entries[names[k]].instance)
    {
      ghost var calls := oracle.calls;
      var value := ResolveArgument(container, names, i, resolved, serials, from, oracle);
      if value.Failure? {
        failed, failedAt := true, i;
        r := Failure(value.error);
        break;
      }
      args := args + [Coalesce(value.value, Positional(arguments, i))];
      resolved := resolved + [value.value];
      serials := serials + [|calls|];
      i := i + 1;
    }
    if failed {
      assert names[failedAt] in container.entries && !container.entries[names[failedAt]].func.Callable?;
      ResolvedAsMeans(container, names, resolved, serials, from, oracle.calls, oracle.calls);
      return;
    }
    ghost var before := oracle.calls;
    var v := oracle.Invoke(detour.original, args);
    r := Success(v);
    ResolvedAsMeans(container, names, resolved, serials, from, before, oracle.calls);
  }

  /**
   * One step of a detour call: resolve the next name and keep the account of
   * the names resolved so far. It throws only at a registered name whose
   * `func` is not a function, and a cached singleton stays cached.
   */
  method ResolveArgument(container: Container, names: seq<string>, i: nat, ghost resolved: seq<Value>, ghost serials: seq<nat>,
                         ghost from: nat, oracle: Oracle) returns (value: Result<Value>)
    requires i == |resolved| == |serials| < |names| && from <= |oracle.calls|
    requires forall k :: 0 <= k < |resolved| ==> ResolvedAs(container, names[k], resolved[k], oracle.calls, from, serials[k])
    modifies oracle, if names[|resolved|] in container.entries then {container.entries[names[|resolved|]]} else {}
    ensures old(oracle.calls) <= oracle.calls && |oracle.calls| <= |old(oracle.calls)| + 1
    ensures forall s :: |old(oracle.calls)| <= s < |oracle.calls| ==> ProducerCall(container, names, oracle.calls[s])
    ensures forall d :: d in container.entries.Values && !IsSingleton(d.singleton) ==> d.instance == old(d.instance)
    ensures value.Failure? ==>
              oracle.calls == old(oracle.calls) && value.error == NotCallable && names[|resolved|] in container.entries &&
              !container.entries[names[|resolved|]].func.Callable?
    ensures value.Success? ==>
              forall k :: 0 <= k < |resolved| + 1 ==>
                ResolvedAs(container, names[k], (resolved + [value.value])[k], oracle.calls, from, (serials + [|old(oracle.calls)|])[k])
    ensures forall d :: d in container.entries.Values && old(Cached(d)) ==> Cached(d) && d.instance == old(d.instance)
  {
    var name := names[i];
    ghost var calls := oracle.calls;
    value := Resolve(container, name, oracle);
    if |oracle.calls| > |calls| {
      assert oracle.calls[|calls|] == Call(container.entries[name].func.f, []);
      assert ProducerCall(container, names, oracle.calls[|calls|]);
    }
    if value.Success? {
      forall k | 0 <= k < i + 1
        ensures ResolvedAs(container, names[k], (resolved + [value.value])[k], oracle.calls, from, (serials + [|calls|])[k])
      {
        if k < i && names[k] in container.entries {
          var d := container.entries[names[k]];
          assert old(ResolvedAs(container, names[k], resolved[k], oracle.calls, from, serials[k]));
          if !IsSingleton(d.singleton) {
            assert oracle.calls[serials[k]] == calls[serials[k]];
          } else if name in container.entries && d == container.entries[name] && old(d.instance) == Null {
            NullIsFixed(d.func.f, |calls|);
          }
        } else if k == i && name in container.entries && IsSingleton(container.entries[name].singleton) {
          var d := container.entries[name];
          if value.value == Null {
            NullIsFixed(d.func.f, |calls|);
          }
        }
      }
    }
  }

  /** A singleton's record holds the value handed out for it, and holds `null` only when its producer yields `null`. */
  ghost predicate SingletonHandedOut(d: Dependency, value: Value)
    reads d
  {
    && value == d.instance
    && (value == Null ==> d.func.Callable? && YieldsNull(d.func.f))
  }

  /** `value` is what `d`'s producer yielded in the call at `serial`, one of the calls made since `from`. */
  ghost predicate ProducedAt(d: Dependency, value: Value, calls: seq<Call>, from: nat, serial: nat)
  {
    && d.func.Callable?
    && from <= serial < |calls|
    && calls[serial] == Call(d.func.f, [])
    && value == Produce(d.func.f, serial)
  }

  /** What a detour's argument for `name` was resolved to, as the record under `name` now stands. */
  ghost predicate ResolvedAs(container: Container, name: string, value: Value, calls: seq<Call>, from: nat, serial: nat)
    reads container, container.entries.Values
  {
    if name !in container.entries then value == Null
    else if IsSingleton(container.entries[name].singleton) then SingletonHandedOut(container.entries[name], value)
    else ProducedAt(container.entries[name], value, calls, from, serial)
  }

  /** The account of the resolved names, spelled out: unregistered, singleton, and any other registered name. */
  lemma ResolvedAsMeans(container: Container, names: seq<string>, resolved: seq<Value>, serials: seq<nat>,
                        from: nat, calls: seq<Call>, later: seq<Call>)
    requires |resolved| == |serials| <= |names| && calls <= later
    requires forall k :: 0 <= k < |resolved| ==> ResolvedAs(container, names[k], resolved[k], calls, from, serials[k])
    ensures forall k :: 0 <= k < |resolved| && names[k] !in container.entries ==> resolved[k] == Null
    ensures forall k :: 0 <= k < |resolved| && names[k] in container.entries && IsSingleton(container.entries[names[k]].singleton) ==>
              var d := container.entries[names[k]];
              resolved[k] == d.instance && (resolved[k] == Null ==> d.func.Callable? && YieldsNull(d.func.f))
    ensures forall k :: 0 <= k < |resolved| && names[k] in container.entries && !IsSingleton(container.entries[names[k]].singleton) ==>
              var f := container.entries[names[k]].func;
              f.Callable? && exists s :: from <= s < |later| && later[s] == Call(f.f, []) && resolved[k] == Produce(f.f, s)
  {
    forall k | 0 <= k < |resolved| && names[k] in container.entries && !IsSingleton(container.entries[names[k]].singleton)
      ensures var f := container.entries[names[k]].func;
              f.Callable? && exists s :: from <= s < |later| && later[s] == Call(f.f, []) && resolved[k] == Produce(f.f, s)
    {
      var s := serials[k];
      assert ResolvedAs(container, names[k], resolved[k], calls, from, serials[k]);
      assert later[s] == calls[s];
    }
  }

  /* ---------------------------------------------------------------- the takeover, called */

  /** What a takeover passes on for one argument: a function is detoured over `container`, anything else passed as it is. */
  function Passed(container: Container, argument: Value): Result<Value>
  {
    if argument.Callable? then DetourOf(container, argument) else Success(argument)
  }

  /**
   * Calling a takeover: build the argument list index by index, detouring
   * every function argument and passing anything else as it is, then call
   * the function it took over. The list has the call's length and holds, at
   * each position, what is passed on for the argument there; when some
   * function argument's text ends before a closing `)`, the TypeError is
   * thrown and nothing is called.
   */
  method InvokeTakeover(takeover: Function, arguments: seq<Value>, oracle: Oracle)
      returns (r: Result<Value>, args: seq<Value>)
    requires takeover.Takeover?
    modifies oracle
    ensures r.Failure? <==> exists i {:trigger DetourFails(arguments[i])} :: 0 <= i < |arguments| && DetourFails(arguments[i])
    ensures r.Failure? ==> r.error == NullParameterNames && oracle.calls == old(oracle.calls)
    ensures r.Success? ==>
              |args| == |arguments| &&
              (forall i :: 0 <= i < |arguments| ==> Success(args[i]) == Passed(takeover.container, arguments[i])) &&
              oracle.calls == old(oracle.calls) + [Call(takeover.original, args)] &&
              r.value == Produce(takeover.original, |old(oracle.calls)|)
  {
    var container := takeover.container;
    args := [];
    for index := 0 to |arguments|
      invariant |args| == index && oracle.calls == old(oracle.calls)
      invariant forall k :: 0 <= k < index ==> Success(args[k]) == Passed(container, arguments[k])
      invariant forall k {:trigger DetourFails(arguments[k])} :: 0 <= k < index ==> !DetourFails(arguments[k])
    {
      var arg := arguments[index];
      var next: Value;
      if arg.Callable? {
        var detour := CreateDetourFunction(container, arg);
        if detour.Failure? {
          return Failure(detour.error), args;
        }
        next := detour.value;
      } else {
        next := arg;
      }
      assert !DetourFails(arg);
      PassedExtend(container, arguments, args, next);
      args := args + [next];
    }
    var v := oracle.Invoke(takeover.original, args);
    r := Success(v);
  }

  /** One more argument passed on keeps the list in step with the arguments. */
  lemma PassedExtend(container: Container, arguments: seq<Value>, args: seq<Value>, next: Value)
    requires |args| < |arguments|
    requires forall k :: 0 <= k < |args| ==> Success(args[k]) == Passed(container, arguments[k])
    requires Success(next) == Passed(container, arguments[|args|])
    ensures forall k :: 0 <= k < |args| + 1 ==> Success((args + [next])[k]) == Passed(container, arguments[k])
  {
  }

  /* ---------------------------------------------------------------- di */

  /** One item of a `di` call: `{name, func, singleton}`. */
  datatype Registration = Registration(name: string, func: Value, singleton: Value)

  /** How far one `di` call gets: how many items it registers, and what it throws, if anything. */
  datatype Plan = Plan(admitted: nat, error: Option<Error>)

  /**
   * The items of a `di` call, against the names `keys` already in the
   * container, by value: the first item whose name is taken (by an earlier
   * registration or an earlier item of the same call) throws
   * `DuplicateDependency`, the first whose function text ends before a `)`
   * throws the TypeError, and every item before it is registered.
   */
  function Registering(keys: set<string>, dependencies: seq<Registration>): (p: Plan)
    ensures p.admitted <= |dependencies|
    ensures p.error.None? ==> p.admitted == |dependencies|
    decreases |dependencies|
  {
    if dependencies == [] then Plan(0, None)
    else
      var dependency := dependencies[0];
      if dependency.name in keys then Plan(0, Some(DuplicateDependency(dependency.name)))
      else if DetourFails(dependency.func) then Plan(0, Some(NullParameterNames))
      else
        var rest := Registering(keys + {dependency.name}, dependencies[1..]);
        Plan(rest.admitted + 1, rest.error)
  }

  /** The first `n` items can all be registered: fresh names, pairwise distinct, and functions the detour accepts. */
  predicate Admissible(keys: set<string>, dependencies: seq<Registration>, n: nat)
    requires n <= |dependencies|
  {
    && (forall i :: 0 <= i < n ==>
          dependencies[i].name !in keys && forall j :: 0 <= j < i ==> dependencies[j].name != dependencies[i].name)
    && forall i {:trigger DetourFails(dependencies[i].func)} :: 0 <= i < n ==> !DetourFails(dependencies[i].func)
  }

  /**
   * `di` registers the longest admissible prefix of its items, and the item
   * that stops it is the first one whose name is taken (throwing
   * `DuplicateDependency` with that name) or whose function text has no
   * closing `)` (throwing the TypeError).
   */
  lemma {:induction false} RegisteringStopsAtFirstConflict(keys: set<string>, dependencies: seq<Registration>)
    ensures var p := Registering(keys, dependencies);
            Admissible(keys, dependencies, p.admitted) &&
            (p.error.Some? ==>
               p.admitted < |dependencies| &&
               var d := dependencies[p.admitted];
               var taken := d.name in keys || exists j :: 0 <= j < p.admitted && dependencies[j].name == d.name;
               (taken ==> p.error == Some(DuplicateDependency(d.name))) &&
               (!taken ==> DetourFails(d.func) && p.error == Some(NullParameterNames)))
    decreases |dependencies|
  {
    if dependencies != [] {
      var d := dependencies[0];
      if d.name !in keys && !DetourFails(d.func) {
        var rest := dependencies[1..];
        var keys' := keys + {d.name};
        RegisteringStopsAtFirstConflict(keys', rest);
        var p, q := Registering(keys, dependencies), Registering(keys', rest);
        assert p.admitted == q.admitted + 1;
        AdmissibleCons(keys, dependencies, q.admitted);
        if p.error.Some? {
          var e := dependencies[p.admitted];
          assert e == rest[q.admitted];
          TakenShift(keys, dependencies, q.admitted);
        }
      }
    }
  }

  /** An admissible item in front of an admissible tail gives an admissible prefix. */
  lemma AdmissibleCons(keys: set<string>, dependencies: seq<Registration>, n: nat)
    requires n < |dependencies|
    requires dependencies[0].name !in keys && !DetourFails(dependencies[0].func)
    requires Admissible(keys + {dependencies[0].name}, dependencies[1..], n)
    ensures Admissible(keys, dependencies, n + 1)
  {
    var rest := dependencies[1..];
    forall i | 0 <= i < n + 1
      ensures dependencies[i].name !in keys && !DetourFails(dependencies[i].func) &&
              forall j :: 0 <= j < i ==> dependencies[j].name != dependencies[i].name
    {
      if i > 0 {
        assert dependencies[i] == rest[i - 1];
        forall j | 0 <= j < i ensures dependencies[j].name != dependencies[i].name {
          if j > 0 { assert dependencies[j] == rest[j - 1]; }
        }
      }
    }
  }

  /** Whether the item after an admitted prefix is taken is the same seen from the tail. */
  lemma TakenShift(keys: set<string>, dependencies: seq<Registration>, n: nat)
    requires n + 1 < |dependencies|
    ensures var e, rest, keys' := dependencies[n + 1], dependencies[1..], keys + {dependencies[0].name};
            (e.name in keys || exists j :: 0 <= j < n + 1 && dependencies[j].name == e.name) <==>
            (e.name in keys' || exists j :: 0 <= j < n && rest[j].name == e.name)
  {
    var e, rest, keys' := dependencies[n + 1], dependencies[1..], keys + {dependencies[0].name};
    if e.name !in keys' && exists j :: 0 <= j < n && rest[j].name == e.name {
      var j :| 0 <= j < n && rest[j].name == e.name;
      assert dependencies[j + 1] == rest[j];
    }
    if e.name !in keys' && exists j :: 0 <= j < n + 1 && dependencies[j].name == e.name {
      var j :| 0 <= j < n + 1 && dependencies[j].name == e.name;
      if j > 0 { assert dependencies[j] == rest[j - 1]; }
    }
  }

  /** A `di` call throws nothing exactly when all its items are admissible. */
  lemma RegisteringSucceeds(keys: set<string>, dependencies: seq<Registration>)
    ensures Registering(keys, dependencies).error.None? <==> Admissible(keys, dependencies, |dependencies|)
  {
    RegisteringStopsAtFirstConflict(keys, dependencies);
    var p := Registering(keys, dependencies);
    if p.error.Some? {
      var d := dependencies[p.admitted];
      if d.name !in keys && !DetourFails(d.func) {
        var j :| 0 <= j < p.admitted && dependencies[j].name == d.name;
      }
    }
  }

  /** The names of the first `n` items. */
  function Names(dependencies: seq<Registration>, n: nat): set<string>
    requires n <= |dependencies|
  {
    if n == 0 then {} else Names(dependencies, n - 1) + {dependencies[n - 1].name}
  }

  /** A name is among the first `n` exactly when one of the first `n` items carries it. */
  lemma {:induction false} NamesMembers(dependencies: seq<Registration>, n: nat, name: string)
    requires n <= |dependencies|
    ensures name in Names(dependencies, n) <==> exists j :: 0 <= j < n && dependencies[j].name == name
  {
    if n > 0 {
      NamesMembers(dependencies, n - 1, name);
    }
  }

  /**
   * `container` holds the records of `before` unchanged, and a record for
   * each of the first `n` items: its detour, its `singleton` flag and
   * `instance: null`.
   */
  ghost predicate Registered(container: Container, entries: map<string, Dependency>, before: map<string, Dependency>,
                            dependencies: seq<Registration>, n: nat)
    requires n <= |dependencies|
    reads entries.Values
  {
    && entries.Keys == before.Keys + Names(dependencies, n)
    && (forall name :: name in before ==> entries[name] == before[name])
    && (forall i :: 0 <= i < n ==> dependencies[i].name in entries)
    && forall i {:trigger RecordOf(container, entries[dependencies[i].name], dependencies[i])} :: 0 <= i < n ==>
         RecordOf(container, entries[dependencies[i].name], dependencies[i])
  }

  /** `d` is the record `di` creates for `item`: its detour, its `singleton` flag, and no instance yet. */
  ghost predicate RecordOf(container: Container, d: Dependency, item: Registration)
    reads d
  {
    && Success(d.func) == DetourOf(container, item.func)
    && d.singleton == item.singleton
    && d.instance == Null
  }

  /** Nothing is registered before the first item. */
  lemma RegisteredNone(container: Container, before: map<string, Dependency>, dependencies: seq<Registration>)
    ensures Registered(container, before, before, dependencies, 0)
  {
  }

  /** Registering the next item under its free name adds its record to the container and leaves the others alone. */
  lemma RegisteredNext(container: Container, entries: map<string, Dependency>, before: map<string, Dependency>,
                       dependencies: seq<Registration>, i: nat, entry: Dependency)
    requires i < |dependencies| && Registered(container, entries, before, dependencies, i)
    requires dependencies[i].name !in entries
    requires RecordOf(container, entry, dependencies[i])
    ensures Registered(container, entries[dependencies[i].name := entry], before, dependencies, i + 1)
  {
    var name, after := dependencies[i].name, entries[dependencies[i].name := entry];
    assert after.Keys == before.Keys + Names(dependencies, i + 1);
    forall key | key in before ensures after[key] == before[key] {
      assert key in entries;
    }
    forall j | 0 <= j < i + 1
      ensures dependencies[j].name in after && RecordOf(container, after[dependencies[j].name], dependencies[j])
    {
      if j < i {
        assert dependencies[j].name in entries && after[dependencies[j].name] == entries[dependencies[j].name];
        assert RecordOf(container, entries[dependencies[j].name], dependencies[j]);
      }
    }
  }

  /**
   * One item of a `di` call: it throws when its name is already registered
   * or when its function's text ends before a closing `)`; otherwise it adds
   * a fresh record under its name, leaving the other records as they were.
   */
  method Register(container: Container, dependency: Registration) returns (r: Option<Error>)
    modifies container
    ensures dependency.name in old(container.entries) ==> r == Some(DuplicateDependency(dependency.name))
    ensures dependency.name !in old(container.entries) && DetourFails(dependency.func) ==> r == Some(NullParameterNames)
    ensures r.None? <==> dependency.name !in old(container.entries) && !DetourFails(dependency.func)
    ensures r.Some? ==> container.entries == old(container.entries)
    ensures r.None? ==>
              && dependency.name in container.entries
              && container.entries == old(container.entries)[dependency.name := container.entries[dependency.name]]
              && fresh(container.entries[dependency.name])
              && RecordOf(container, container.entries[dependency.name], dependency)
  {
    if dependency.name in container.entries {
      return Some(DuplicateDependency(dependency.name));
    }
    var func := CreateDetourFunction(container, dependency.func);
    if func.Failure? {
      return Some(func.error);
    }
    var entry := new Dependency(func.value, dependency.singleton);
    container.entries := container.entries[dependency.name := entry];
    r := None;
  }

  /**
   * The items of a `di` call, registered in order into `container`: each
   * item's name must be free, and its function is stored detoured, as a
   * fresh record with no instance. The first item that throws ends the call,
   * and the items before it stay registered.
   */
  method RegisterAll(container: Container, dependencies: seq<Registration>) returns (r: Option<Error>)
    modifies container
    ensures r == Registering(old(container.entries).Keys, dependencies).error
    ensures Registered(container, container.entries, old(container.entries), dependencies,
                       Registering(old(container.entries).Keys, dependencies).admitted)
    ensures forall name :: name in container.entries && name !in old(container.entries) ==> fresh(container.entries[name])
  {
    ghost var before := container.entries;
    RegisteredNone(container, before, dependencies);
    assert dependencies[0..] == dependencies;
    for i := 0 to |dependencies|
      invariant Registered(container, container.entries, before, dependencies, i)
      invariant forall name :: name in container.entries && name !in before ==> fresh(container.entries[name])
      invariant Registering(before.Keys, dependencies) ==
                (var rest := Registering(container.entries.Keys, dependencies[i..]); Plan(rest.admitted + i, rest.error))
    {
      ghost var entries := container.entries;
      RegisteringNext(entries.Keys, dependencies, i);
      r := Register(container, dependencies[i]);
      if r.Some? {
        assert Registering(entries.Keys, dependencies[i..]) == Plan(0, r);
        assert Registering(before.Keys, dependencies) == Plan(i, r);
        return;
      }
      RegisteredNext(container, entries, before, dependencies, i, container.entries[dependencies[i].name]);
      assert container.entries.Keys == entries.Keys + {dependencies[i].name};
    }
    assert dependencies[|dependencies|..] == [];
    r := None;
  }

  /** The module-level `namespaces` map. */
  class Registry {
    var namespaces: map<string, Container>

    constructor ()
      ensures namespaces == map[]
    {
      namespaces := map[];
    }

    /** The records of the namespace's container, or none when the namespace is unseen. */
    function EntriesOf(namespace: string): map<string, Dependency>
      reads this, if namespace in namespaces then {namespaces[namespace]} else {}
    {
      if namespace in namespaces then namespaces[namespace].entries else map[]
    }

    /**
     * `di`: register the items, in order, into the namespace's container (a
     * new one for an unseen namespace), then store the container. `container`
     * is the container written into; when an item throws, the items before it
     * stay registered in it, but a new container is not stored.
     */
    method Di(namespace: string, dependencies: seq<Registration>) returns (r: Option<Error>, ghost container: Container)
      modifies this, if namespace in namespaces then {namespaces[namespace]} else {}
      ensures namespace in old(namespaces) ==> container == old(namespaces[namespace])
      ensures namespace !in old(namespaces) ==> fresh(container) && old(EntriesOf(namespace)) == map[]
      ensures r == Registering(old(EntriesOf(namespace)).Keys, dependencies).error
      ensures Registered(container, container.entries, old(EntriesOf(namespace)), dependencies,
                         Registering(old(EntriesOf(namespace)).Keys, dependencies).admitted)
      ensures forall name :: name in container.entries && name !in old(EntriesOf(namespace)) ==> fresh(container.entries[name])
      ensures r.None? ==> namespaces == old(namespaces)[namespace := container]
      ensures r.Some? ==> namespaces == old(namespaces)
    {
      var c: Container;
      if namespace in namespaces {
        c := namespaces[namespace];
      } else {
        c := new Container();
      }
      container := c;
      r := RegisterAll(c, dependencies);
      if r.None? {
        namespaces := namespaces[namespace := c];
      }
    }

    /**
     * `ioc`: replace `obj[funcName]` by a takeover over the namespace's
     * container. It throws, changing nothing, when the namespace is unseen or
     * the property is not a function.
     */
    method Ioc(namespace: string, obj: Target, funcName: string) returns (r: Option<Error>)
      modifies obj
      ensures namespace !in namespaces ==> r == Some(NamespaceNotFound(namespace))
      ensures namespace in namespaces && !Slot(old(obj.slots), funcName).Callable? ==> r == Some(PropertyNotAFunction(funcName))
      ensures r.Some? ==> obj.slots == old(obj.slots)
      ensures r.None? <==> namespace in namespaces && Slot(old(obj.slots), funcName).Callable?
      ensures r.None? ==>
                obj.slots == old(obj.slots)[funcName := Callable(Takeover(namespaces[namespace], Slot(old(obj.slots), funcName).f))]
    {
      if namespace !in namespaces {
        return Some(NamespaceNotFound(namespace));
      }
      var container := namespaces[namespace];
      var funcOriginal := Slot(obj.slots, funcName);
      if !funcOriginal.Callable? {
        return Some(PropertyNotAFunction(funcName));
      }
      obj.slots := obj.slots[funcName := Callable(Takeover(container, funcOriginal.f))];
      return None;
    }
  }

  /** `di` on the items from `i` on: the first decides, and the rest follow with its name taken. */
  lemma RegisteringNext(keys: set<string>, dependencies: seq<Registration>, i: nat)
    requires i < |dependencies|
    ensures var d := dependencies[i];
            Registering(keys, dependencies[i..]) ==
              if d.name in keys then Plan(0, Some(DuplicateDependency(d.name)))
              else if DetourFails(d.func) then Plan(0, Some(NullParameterNames))
              else
                var rest := Registering(keys + {d.name}, dependencies[i + 1..]);
                Plan(rest.admitted + 1, rest.error)
  {
    assert dependencies[i..][0] == dependencies[i];
    assert dependencies[i..][1..] == dependencies[i + 1..];
  }
}
