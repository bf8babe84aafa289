/** `pkg/genericapi/router.go` and `verify.go`: a request names one route, the route's handler is found by name and
    cached, and a check run beforehand makes sure that every route has a handler of the right signature. */
module Router {
  import opened GoStrings

  /** A `reflect.Type`. `accepts` names the types that an interface type admits besides itself. */
  datatype Type = Type(name: string, isError: bool, accepts: set<string>)
  {
    predicate Admits(t: Type) { this == t || t.name in accepts }
  }

  datatype Signature = Signature(ins: seq<Type>, outs: seq<Type>)

  /** The exported methods of the routes value, by name. */
  type Handlers = map<string, Signature>

  /** A field of the input struct: a pointer, nil unless its route is requested. */
  datatype InputField = InputField(name: string, typ: Type)

  // ---------------------------------------------------------------- verification

  datatype VerifyError =
    | CountMismatch(fields: nat, handlers: nat)
    | NoHandler(name: string)
    | BadArguments(name: string)
    | BadArgumentType(name: string)
    | BadErrorType(name: string)
    | BadReturns(name: string)

  /** A handler for an input: one argument of the input's type, and an error as its only or second result. */
  predicate Fits(handler: Signature, input: Type)
  {
    && handler.ins == [input]
    && 1 <= |handler.outs| <= 2 && handler.outs[|handler.outs| - 1].isError
  }

  /** `verifySignature`. */
  function VerifySignature(name: string, handler: Signature, input: Type): (err: Option<VerifyError>)
    ensures err == None <==> Fits(handler, input)
  {
    if |handler.ins| != 1 then Some(BadArguments(name))
    else if handler.ins[0] != input then Some(BadArgumentType(name))
    else if |handler.outs| == 1 then (if handler.outs[0].isError then None else Some(BadErrorType(name)))
    else if |handler.outs| == 2 then (if handler.outs[1].isError then None else Some(BadErrorType(name)))
    else Some(BadReturns(name))
  }

  /** As many handlers as routes, and a fitting handler under every route's name. */
  ghost predicate Verified(handlers: Handlers, fields: seq<InputField>)
  {
    && |fields| == |handlers|
    && forall i | 0 <= i < |fields| :: fields[i].name in handlers && Fits(handlers[fields[i].name], fields[i].typ)
  }

  /** `VerifyHandlers`. */
  method VerifyHandlers(handlers: Handlers, fields: seq<InputField>) returns (err: Option<VerifyError>)
    ensures err == None <==> Verified(handlers, fields)
  {
    if |fields| != |handlers| {
      return Some(CountMismatch(|fields|, |handlers|));
    }
    for i := 0 to |fields|
      invariant forall j | 0 <= j < i :: fields[j].name in handlers && Fits(handlers[fields[j].name], fields[j].typ)
    {
      var handlerName := fields[i].name;
      if handlerName !in handlers {
        return Some(NoHandler(handlerName));
      }
      err := VerifySignature(handlerName, handlers[handlerName], fields[i].typ);
      if err.Some? {
        return err;
      }
    }
    return None;
  }

  /** Go does not allow two fields of one name. */
  ghost predicate DistinctNames(fields: seq<InputField>)
  {
    forall i, j | 0 <= i < j < |fields| :: fields[i].name != fields[j].name
  }

  function Names(fields: seq<InputField>): (names: set<string>)
    ensures forall name :: name in names <==> exists i | 0 <= i < |fields| :: fields[i].name == name
  {
    set i | 0 <= i < |fields| :: fields[i].name
  }

  lemma {:induction false} DistinctCount(fields: seq<InputField>)
    requires DistinctNames(fields)
    ensures |Names(fields)| == |fields|
  {
    if fields != [] {
      var n := |fields| - 1;
      DistinctCount(fields[..n]);
      assert Names(fields) == Names(fields[..n]) + {fields[n].name};
    }
  }

  lemma SubsetOfEqualSize<T>(a: set<T>, b: set<T>)
    requires a <= b && |a| == |b|
    ensures a == b
  {
    assert |b - a| == |b| - |a|;
  }

  /** Equal counts and distinct names leave no handler without a route: an input struct is accepted exactly when routes
      and handlers are in bijection by name and every handler fits its route. */
  lemma VerifiedIsBijection(handlers: Handlers, fields: seq<InputField>)
    requires DistinctNames(fields)
    ensures Verified(handlers, fields) <==>
      && Names(fields) == handlers.Keys
      && forall i | 0 <= i < |fields| :: fields[i].name in handlers && Fits(handlers[fields[i].name], fields[i].typ)
  {
    DistinctCount(fields);
    assert |handlers| == |handlers.Keys|;
    if Verified(handlers, fields) {
      SubsetOfEqualSize(Names(fields), handlers.Keys);
    }
  }

  // ---------------------------------------------------------------- finding the request

  type Arg = string

  /** The only route that is not nil. */
  ghost predicate OnlyRoute(values: seq<Option<Arg>>, i: nat)
  {
    i < |values| && values[i].Some? && forall j | 0 <= j < |values| && j != i :: values[j].None?
  }

  /** The first two routes that are not nil. */
  ghost predicate FirstTwo(values: seq<Option<Arg>>, i: nat, j: nat)
  {
    && i < j < |values| && values[i].Some? && values[j].Some?
    && forall k | 0 <= k < j && k != i :: values[k].None?
  }

  datatype Found = Only(at: nat) | InvalidInput(route: string, message: string)

  /** No route or more than one, with the error that says so. */
  ghost predicate BadRoutes(fields: seq<InputField>, values: seq<Option<Arg>>, route: string, message: string)
    requires |values| == |fields|
  {
    || ((forall i | 0 <= i < |values| :: values[i].None?)
        && route == "nil" && message == "exactly one route must be specified: found none")
    || exists i, j | 0 <= i < |values| && 0 <= j < |values| && FirstTwo(values, i, j) ::
         route == fields[i].name && message == "exactly one route must be specified: also found " + fields[j].name
  }

  /** `findRequest`: the one route, or an error that names the first route and the first superfluous one. */
  method FindRequest(fields: seq<InputField>, values: seq<Option<Arg>>) returns (r: Found)
    requires |values| == |fields|
    ensures r.Only? <==> exists i: nat :: OnlyRoute(values, i)
    ensures r.Only? ==> OnlyRoute(values, r.at)
    ensures r.InvalidInput? ==> BadRoutes(fields, values, r.route, r.message)
  {
    var result: Option<nat> := None;
    for i := 0 to |fields|
      invariant result.None? ==> forall k | 0 <= k < i :: values[k].None?
      invariant result.Some? ==> result.value < i && OnlyRoute(values[..i], result.value)
    {
      if values[i].None? {
        continue;
      }
      if result.None? {
        result := Some(i);
      } else {
        assert FirstTwo(values, result.value, i);
        return InvalidInput(
          fields[result.value].name, "exactly one route must be specified: also found " + fields[i].name);
      }
    }
    assert values[..|fields|] == values;
    if result.None? {
      return InvalidInput("nil", "exactly one route must be specified: found none");
    }
    return Only(result.value);
  }

  // ---------------------------------------------------------------- errors

  datatype RouteField = NoRoute | TextRoute | OtherRoute

  /** A struct behind an error, which may have a `Route` field. */
  class ErrorObject {
    const routeField: RouteField
    var route: string
  }

  /** What a handler returns in one place. `Unusual` stands for what reflection refuses to look into: an error that is
      no struct, a nil pointer inside an error, a result that cannot be nil. */
  datatype Value =
    | NilValue
    | Plain(text: string)
    | Pointer(obj: ErrorObject)
    | StructValue(hasRoute: bool)
    | Unusual

  /** The error results that `toError` can convert: none, a struct by pointer whose `Route` is absent or text, or a
      struct by value without `Route`, because a field of a copy cannot be set. */
  predicate Convertible(v: Value)
  {
    || v.NilValue?
    || (v.Pointer? && v.obj.routeField != OtherRoute)
    || (v.StructValue? && !v.hasRoute)
  }

  /** `toError`, which writes the route's name into the error. */
  method ToError(v: Value, routeName: string) returns (panics: bool)
    modifies if v.Pointer? then {v.obj} else {}
    ensures panics <==> !Convertible(v)
    ensures v.Pointer? ==> v.obj.route == if v.obj.routeField == TextRoute then routeName else old(v.obj.route)
  {
    match v
    case NilValue => return false;
    case Pointer(obj) =>
      if obj.routeField == NoRoute {
        return false;
      }
      if obj.routeField == OtherRoute {
        return true;
      }
      obj.route := routeName;
      return false;
    case StructValue(hasRoute) => return hasRoute;
    case _ => return true;
  }

  // ---------------------------------------------------------------- dispatch

  datatype Handler = Handler(name: string, signature: Signature)
  datatype Invocation = Invocation(handler: Handler, arg: Arg, typ: Type)

  /** A request as `Handle` sees it: the fields, their values and the validator's complaint. */
  datatype Req = Req(fields: seq<InputField>, values: seq<Option<Arg>>, complaint: Option<string>)

  /** `MethodByName`: nothing for an unknown name. */
  function MethodByName(handlers: Handlers, name: string): Option<Handler>
  {
    if name in handlers then Some(Handler(name, handlers[name])) else None
  }

  type Cache = map<string, Option<Handler>>

  /** Everything cached is what a fresh lookup finds. */
  ghost predicate Faithful(handlers: Handlers, cache: Cache)
  {
    forall name | name in cache :: cache[name] == MethodByName(handlers, name)
  }

  predicate CanCall(handler: Option<Handler>, typ: Type)
  {
    handler.Some? && |handler.value.signature.ins| == 1 && handler.value.signature.ins[0].Admits(typ)
  }

  /** The route that is looked up, if the request gets that far. */
  ghost predicate Asks(q: Req, i: nat)
  {
    |q.values| == |q.fields| && OnlyRoute(q.values, i) && q.complaint.None?
  }

  function Lookup(handlers: Handlers, cache: Cache, name: string): Option<Handler>
  {
    if name in cache then cache[name] else MethodByName(handlers, name)
  }

  /** One request through the cache: the cache afterwards and the handler invoked, if any. */
  ghost function Step(handlers: Handlers, cache: Cache, q: Req): (Cache, seq<Invocation>)
  {
    if i: nat :| Asks(q, i) then
      var handler := Lookup(handlers, cache, q.fields[i].name);
      (cache[q.fields[i].name := handler],
       if CanCall(handler, q.fields[i].typ) then [Invocation(handler.value, q.values[i].value, q.fields[i].typ)]
         else [])
    else (cache, [])
  }

  lemma StepOf(handlers: Handlers, cache: Cache, q: Req, i: nat)
    requires Asks(q, i)
    ensures
      var handler := Lookup(handlers, cache, q.fields[i].name);
      Step(handlers, cache, q)
      == (cache[q.fields[i].name := handler],
          if CanCall(handler, q.fields[i].typ) then [Invocation(handler.value, q.values[i].value, q.fields[i].typ)]
            else [])
  {
  }

  /** What the caller of `Handle` gets. */
  datatype Outcome = Panic | Returned(result: Option<Value>, err: Error)
  datatype Error = NoError | Invalid(route: string, message: string) | FromHandler(value: Value)

  /** What a handler's results turn into. */
  function Respond(results: seq<Value>): Outcome
  {
    if results == [] then Panic
    else
      var err := results[if |results| == 1 then 0 else 1];
      if !Convertible(err) then Panic
      else Returned(if |results| == 1 then None else Some(results[0]),
        if err.NilValue? then NoError else FromHandler(err))
  }

  /** The name of the requested route. */
  ghost function RouteOf(q: Req): string
    requires |q.values| == |q.fields|
  {
    if i: nat :| OnlyRoute(q.values, i) then q.fields[i].name else ""
  }

  /** The error that a handler's results hold and that has a `Route` field to be set. */
  ghost predicate ToTag(results: seq<Value>, e: ErrorObject)
  {
    results != [] && results[if |results| == 1 then 0 else 1] == Pointer(e) && e.routeField == TextRoute
  }

  /** How a request for the route `i` alone is answered, given what the handler's results were. */
  ghost predicate RouteAnswered(handlers: Handlers, cache: Cache, q: Req, i: nat, results: seq<Value>, out: Outcome)
    requires |q.values| == |q.fields| && i < |q.fields|
  {
    if q.complaint.Some? then results == [] && out == Returned(None, Invalid(q.fields[i].name, q.complaint.value))
    else
      var handler := Lookup(handlers, cache, q.fields[i].name);
      if CanCall(handler, q.fields[i].typ) then
        && |results| == |handler.value.signature.outs| && out == Respond(results)
        && forall k | 0 <= k < |results| && handler.value.signature.outs[k].isError :: !results[k].Plain?
      else results == [] && out == Panic
  }

  /** How a request is answered. */
  ghost predicate Answered(handlers: Handlers, cache: Cache, q: Req, results: seq<Value>, out: Outcome)
  {
    && |q.values| == |q.fields|
    && if i: nat :| OnlyRoute(q.values, i) then RouteAnswered(handlers, cache, q, i, results, out)
       else
         && results == [] && out.Returned? && out.result == None && out.err.Invalid?
         && BadRoutes(q.fields, q.values, out.err.route, out.err.message)
  }

  lemma AnsweredAt(handlers: Handlers, cache: Cache, q: Req, i: nat, results: seq<Value>, out: Outcome)
    requires |q.values| == |q.fields| && OnlyRoute(q.values, i) && RouteAnswered(handlers, cache, q, i, results, out)
    ensures Answered(handlers, cache, q, results, out) && RouteOf(q) == q.fields[i].name
  {
  }

  class Router {
    const handlers: Handlers
    /** The error structs that handlers may return; they outlive a request. */
    const errors: set<ErrorObject>
    var routesByName: Cache
    ghost var calls: seq<Invocation>

    constructor (handlers: Handlers, errors: set<ErrorObject>)
      ensures this.handlers == handlers && this.errors == errors && Valid() && routesByName == map[] && calls == []
    {
      this.handlers, this.errors, routesByName, calls := handlers, errors, map[], [];
    }

    ghost predicate Valid() reads this { Faithful(handlers, routesByName) }

    /** `reflect.Value.Call`: it panics on a missing method or a wrong argument, and otherwise the handler runs. */
    method Call(handler: Option<Handler>, arg: Arg, typ: Type) returns (results: Option<seq<Value>>)
      modifies this`calls
      ensures results.Some? <==> CanCall(handler, typ)
      ensures results.None? ==> calls == old(calls)
      ensures results.Some? ==>
        && calls == old(calls) + [Invocation(handler.value, arg, typ)]
        && |results.value| == |handler.value.signature.outs|
        && (forall i | 0 <= i < |results.value| && results.value[i].Pointer? :: results.value[i].obj in errors)
        && (forall i | 0 <= i < |results.value| && handler.value.signature.outs[i].isError :: !results.value[i].Plain?)
    {
      if !CanCall(handler, typ) {
        return None;
      }
      var values := Answers(handler.value.signature.outs);
      calls := calls + [Invocation(handler.value, arg, typ)];
      return Some(values);
    }

    /** Whatever a handler of these result types may answer. */
    method Answers(outs: seq<Type>) returns (values: seq<Value>)
      ensures |values| == |outs|
      ensures forall i | 0 <= i < |values| && values[i].Pointer? :: values[i].obj in errors
      ensures forall i | 0 <= i < |values| && outs[i].isError :: !values[i].Plain?
    {
      values := [];
      for i := 0 to |outs|
        invariant |values| == i
        invariant forall j | 0 <= j < i && values[j].Pointer? :: values[j].obj in errors
        invariant forall j | 0 <= j < i && outs[j].isError :: !values[j].Plain?
      {
        var v := Answer(outs[i].isError);
        values := values + [v];
      }
    }

    /** One of the results. */
    method Answer(isError: bool) returns (v: Value)
      ensures v.Pointer? ==> v.obj in errors
      ensures isError ==> !v.Plain?
    {
      var choice: int, text: string, flag: bool := *, *, *;
      if choice == 0 && errors != {} {
        var obj :| obj in errors;
        v := Pointer(obj);
      } else {
        v := if choice == 1 then NilValue else if choice == 2 then StructValue(flag)
             else if choice == 3 || isError then Unusual else Plain(text);
      }
    }

    /** The handler, cached or looked up and then cached. */
    method Find(route: string) returns (handler: Option<Handler>)
      requires Valid()
      modifies this`routesByName
      ensures Valid() && handler == MethodByName(handlers, route)
      ensures routesByName == old(routesByName)[route := Lookup(handlers, old(routesByName), route)]
    {
      if route in routesByName {
        handler := routesByName[route];
        assert routesByName[route := handler] == routesByName;
      } else {
        handler := MethodByName(handlers, route);
        routesByName := routesByName[route := handler];
      }
    }

    /** The end of `Handle`: results to outcome, with the route's name written into the error. */
    method Conclude(values: seq<Value>, route: string) returns (out: Outcome)
      requires forall i | 0 <= i < |values| && values[i].Pointer? :: values[i].obj in errors
      modifies errors
      ensures out == Respond(values)
      ensures forall e | e in errors :: e.route == if ToTag(values, e) then route else old(e.route)
    {
      if |values| == 0 {
        return Panic;
      }
      var err := values[if |values| == 1 then 0 else 1];
      var panics := ToError(err, route);
      if panics {
        return Panic;
      }
      return Returned(if |values| == 1 then None else Some(values[0]),
        if err.NilValue? then NoError else FromHandler(err));
    }

    /** `Handle`. Cache and invocation are those of `Step`; the outcome is an input error, a panic of the call, or
        what the handler's results turn into; only the returned error may change, and gets the name of its route. */
    method Handle(q: Req) returns (out: Outcome, ghost results: seq<Value>)
      requires Valid() && |q.values| == |q.fields|
      modifies this, errors
      ensures Valid()
      ensures routesByName == Step(handlers, old(routesByName), q).0
      ensures calls == old(calls) + Step(handlers, old(routesByName), q).1
      ensures Answered(handlers, old(routesByName), q, results, out)
      ensures forall e | e in errors :: e.route == if ToTag(results, e) then RouteOf(q) else old(e.route)
    {
      results := [];
      var found := FindRequest(q.fields, q.values);
      if found.InvalidInput? {
        return Returned(None, Invalid(found.route, found.message)), results;
      }
      var route := q.fields[found.at].name;
      if q.complaint.Some? {
        return Returned(None, Invalid(route, q.complaint.value)), results;
      }
      StepOf(handlers, routesByName, q, found.at);
      var handler := Find(route);
      var values := Call(handler, q.values[found.at].value, q.fields[found.at].typ);
      if values.None? {
        out := Panic;
      } else {
        results := values.value;
        out := Conclude(values.value, route);
      }
      AnsweredAt(handlers, old(routesByName), q, found.at, results, out);
    }
  }

  // ---------------------------------------------------------------- runs

  /** Many requests one after the other: the cache afterwards, and what each request invoked. */
  ghost function Run(handlers: Handlers, cache: Cache, requests: seq<Req>): (r: (Cache, seq<seq<Invocation>>))
    ensures |r.1| == |requests|
  {
    if requests == [] then (cache, [])
    else
      var n := |requests| - 1;
      var before := Run(handlers, cache, requests[..n]);
      var last := Step(handlers, before.0, requests[n]);
      (last.0, before.1 + [last.1])
  }

  /** A faithful cache stays faithful and does not show. */
  lemma StepIgnoresCache(handlers: Handlers, cache: Cache, q: Req)
    requires Faithful(handlers, cache)
    ensures Faithful(handlers, Step(handlers, cache, q).0) && Step(handlers, cache, q).1 == Step(handlers, map[], q).1
  {
  }

  /** Over every run, each request invokes what it would invoke on its own, without a cache. */
  lemma {:induction false} RunIgnoresCache(handlers: Handlers, cache: Cache, requests: seq<Req>)
    requires Faithful(handlers, cache)
    ensures Faithful(handlers, Run(handlers, cache, requests).0)
    ensures forall k | 0 <= k < |requests| ::
      Run(handlers, cache, requests).1[k] == Step(handlers, map[], requests[k]).1
  {
    if requests != [] {
      var n := |requests| - 1;
      RunIgnoresCache(handlers, cache, requests[..n]);
      StepIgnoresCache(handlers, Run(handlers, cache, requests[..n]).0, requests[n]);
      assert forall k | 0 <= k < n :: requests[..n][k] == requests[k];
    }
  }

  /** The request reaches the handler of its own name, with its own argument, of the type the handler takes. */
  ghost predicate ReachesOwn(handlers: Handlers, q: Req, invoked: seq<Invocation>)
  {
    exists i: nat :: Asks(q, i) && q.fields[i].name in handlers
      && invoked == [Invocation(Handler(q.fields[i].name, handlers[q.fields[i].name]), q.values[i].value,
         q.fields[i].typ)]
      && handlers[q.fields[i].name].ins == [q.fields[i].typ]
  }

  /** With verified handlers, over every run and from any faithful cache, every valid request with a single route
      reaches its own handler. */
  lemma VerifiedRunsReachOwn(handlers: Handlers, fields: seq<InputField>, cache: Cache, requests: seq<Req>, k: nat)
    requires Verified(handlers, fields) && Faithful(handlers, cache)
    requires k < |requests| && requests[k].fields == fields && exists i: nat :: Asks(requests[k], i)
    ensures ReachesOwn(handlers, requests[k], Run(handlers, cache, requests).1[k])
  {
    RunIgnoresCache(handlers, cache, requests);
    var i: nat :| Asks(requests[k], i);
    StepOf(handlers, map[], requests[k], i);
    assert Fits(handlers[fields[i].name], fields[i].typ);
  }

  /** One request with the results of its handler, if one ran, and what the caller got. */
  datatype Turn = Turn(q: Req, results: seq<Value>, out: Outcome)

  function Requests(turns: seq<Turn>): seq<Req> { seq(|turns|, k requires 0 <= k < |turns| => turns[k].q) }

  /** Calls of `Handle` one after the other, each on the cache that the ones before it left. */
  ghost predicate Plays(handlers: Handlers, cache: Cache, turns: seq<Turn>)
  {
    forall k | 0 <= k < |turns| ::
      Answered(handlers, Run(handlers, cache, Requests(turns[..k])).0, turns[k].q, turns[k].results, turns[k].out)
  }

  /** What a caller gets of the results of a handler that fits: its error, if that is not nil, and the other result,
      if there is one. */
  ghost predicate PassedOn(results: seq<Value>, out: Outcome)
  {
    match out
    case Panic => 1 <= |results| <= 2
    case Returned(result, err) =>
      if |results| == 1 then result == None && PassedOnError(results[0], err)
      else |results| == 2 && result == Some(results[0]) && PassedOnError(results[1], err)
  }

  ghost predicate PassedOnError(value: Value, err: Error)
  {
    (value == NilValue ==> err == NoError) && (value != NilValue ==> err == FromHandler(value))
  }

  lemma TurnPanicsIff(handlers: Handlers, cache: Cache, turn: Turn)
    requires Verified(handlers, turn.q.fields) && Faithful(handlers, cache)
    requires Answered(handlers, cache, turn.q, turn.results, turn.out)
    ensures (exists i: nat :: Asks(turn.q, i)) <==> turn.results != []
    ensures turn.out.Panic? <==> turn.results != [] && !Convertible(turn.results[|turn.results| - 1])
    ensures
      if turn.results != [] then PassedOn(turn.results, turn.out)
      else turn.out.result == None && turn.out.err.Invalid?
  {
    if i: nat :| OnlyRoute(turn.q.values, i) {
      assert RouteAnswered(handlers, cache, turn.q, i, turn.results, turn.out);
      assert turn.q.complaint.None? ==> Asks(turn.q, i);
      assert Fits(handlers[turn.q.fields[i].name], turn.q.fields[i].typ);
    }
  }

  /** Over every run from a faithful cache, a verified router panics exactly when a handler was asked and its error
      cannot be tagged, such as a struct by value with a `Route` field. Otherwise the caller gets the handler's result
      and error, or the complaint about an input for which no handler was asked. */
  lemma VerifiedPanicIff(handlers: Handlers, fields: seq<InputField>, cache: Cache, turns: seq<Turn>, k: nat)
    requires Verified(handlers, fields) && Faithful(handlers, cache) && Plays(handlers, cache, turns)
    requires k < |turns| && turns[k].q.fields == fields
    ensures
      var turn := turns[k];
      && ((exists i: nat :: Asks(turn.q, i)) <==> turn.results != [])
      && (turn.out.Panic? <==> turn.results != [] && !Convertible(turn.results[|turn.results| - 1]))
      && (turn.results != [] ==> PassedOn(turn.results, turn.out))
      && (turn.results == [] ==> turn.out.result == None && turn.out.err.Invalid?)
  {
    RunIgnoresCache(handlers, cache, Requests(turns[..k]));
    TurnPanicsIff(handlers, Run(handlers, cache, Requests(turns[..k])).0, turns[k]);
  }

  /** At an input: verification accepts the handler, and the request panics. */
  lemma VerifiedPanics(name: string, input: Type, error: Type, arg: Arg)
    requires error.isError
    ensures
      var handlers, fields := map[name := Signature([input], [error])], [InputField(name, input)];
      var turn := Turn(Req(fields, [Some(arg)], None), [StructValue(true)], Panic);
      Verified(handlers, fields) && Plays(handlers, map[], [turn])
  {
    assert OnlyRoute([Some(arg)], 0);
  }
}
