/**
 * Sentinel-guarded member resolution (`__get`, `__isset`, `__call`).
 *
 * A read of an undeclared property or a call of an undeclared method is
 * offered to the handlers listening on the `__get` or `__call` hook, in
 * registration order. The slot starts as the string 'noneset'; each handler
 * may claim (overwriting the slot, so the last claim wins), decline, or
 * throw (which aborts the rest of the chain). The finisher hands the slot
 * back unchanged. A slot still identical to 'noneset' means nobody claimed.
 */
module Resolution {
  import opened Wrappers
  import opened PhpValues
  import opened Naming
  import opened Identity

  /** The marker the slot starts with; a claim of this very string is indistinguishable from no claim. */
  const Sentinel: Value := Str("noneset")

  /** What a resolution may throw. */
  datatype Error =
    | PropertyNotFound(property: string, component: Value)  // PropertyNotFoundException($property, getName())
    | BadMethodCall(message: string)                         // BadMethodCallException
    | HandlerThrew(payload: Value)                           // anything else a handler throws

  /** What the handlers are asked: a property read or a method call with its arguments. */
  datatype Request = GetRequest(property: string) | CallRequest(methodName: string, params: seq<Value>)

  /** What one handler does with a request: nothing, a claim of a value, or an exception. */
  datatype Step = Decline | Claim(value: Value) | Raise(error: Error)

  /** A listener on one hook; the component it is handed is captured by the function. */
  type Handler = Request -> Step

  /** The listeners of the `__get` and `__call` hooks, each list in registration order. */
  datatype Listeners = Listeners(onGet: seq<Handler>, onCall: seq<Handler>)

  /** True when some handler of the chain throws on `req`. */
  predicate SomeRaise(handlers: seq<Handler>, req: Request) {
    exists i :: 0 <= i < |handlers| && handlers[i](req).Raise?
  }

  /**
   * The trigger and its finisher, run left to right: each claim overwrites
   * the slot and the first exception stops the chain. The result is either
   * the starting slot or a value some handler claimed.
   */
  function Trigger(handlers: seq<Handler>, req: Request, slot: Value): (r: Result<Value, Error>)
    ensures r.Ok? <==> !SomeRaise(handlers, req)
    ensures r.Ok? ==> r.value == slot || exists i :: 0 <= i < |handlers| && handlers[i](req) == Claim(r.value)
    ensures r.Err? ==> exists i :: 0 <= i < |handlers| && handlers[i](req) == Raise(r.error)
    decreases |handlers|
  {
    if |handlers| == 0 then Ok(slot)
    else
      var rest := handlers[1..];
      assert forall i :: 0 <= i < |rest| ==> rest[i] == handlers[i + 1];
      match handlers[0](req)
      case Decline => Trigger(rest, req, slot)
      case Claim(v) => Trigger(rest, req, v)
      case Raise(e) => Err(e)
  }

  /** Reference semantics, read from the end: the value claimed by the last handler that claims. */
  function LastClaim(handlers: seq<Handler>, req: Request): Option<Value>
    decreases |handlers|
  {
    if |handlers| == 0 then None
    else match handlers[|handlers| - 1](req)
      case Claim(v) => Some(v)
      case _ => LastClaim(handlers[..|handlers| - 1], req)
  }

  /** Reference semantics, read from the front: the exception of the first handler that throws. */
  function FirstRaise(handlers: seq<Handler>, req: Request): Option<Error>
    decreases |handlers|
  {
    if |handlers| == 0 then None
    else match handlers[0](req)
      case Raise(e) => Some(e)
      case _ => FirstRaise(handlers[1..], req)
  }

  /** The reference outcome of a chain: the first exception, else the last claim, else the slot. */
  function Expected(handlers: seq<Handler>, req: Request, slot: Value): Result<Value, Error> {
    match FirstRaise(handlers, req)
    case Some(e) => Err(e)
    case None => Ok(LastClaim(handlers, req).GetOr(slot))
  }

  /** Putting a handler in front only matters to the last claim when nobody behind it claims. */
  lemma {:induction false} LastClaimCons(h: Handler, rest: seq<Handler>, req: Request)
    ensures LastClaim([h] + rest, req) ==
      if LastClaim(rest, req).Some? then LastClaim(rest, req)
      else if h(req).Claim? then Some(h(req).value)
      else None
    decreases |rest|
  {
    var hs := [h] + rest;
    if |rest| == 0 {
      assert hs[..0] == [];
    } else {
      assert hs[|hs| - 1] == rest[|rest| - 1];
      assert hs[..|hs| - 1] == [h] + rest[..|rest| - 1];
      LastClaimCons(h, rest[..|rest| - 1], req);
    }
  }

  /**
   * Last claim wins: running the chain left to right, overwriting the slot
   * on every claim, gives the reference outcome: the first exception if any
   * handler throws, else the last claimed value, else the starting slot.
   */
  lemma {:induction false} TriggerIsLastClaim(handlers: seq<Handler>, req: Request, slot: Value)
    ensures Trigger(handlers, req, slot) == Expected(handlers, req, slot)
    decreases |handlers|
  {
    if |handlers| > 0 {
      var rest := handlers[1..];
      assert handlers == [handlers[0]] + rest;
      LastClaimCons(handlers[0], rest, req);
      match handlers[0](req)
      case Decline => TriggerIsLastClaim(rest, req, slot);
      case Claim(v) => TriggerIsLastClaim(rest, req, v);
      case Raise(e) =>
    }
  }

  /** The last claim is made by the claiming handler with no claimer after it. */
  lemma {:induction false} LastClaimAt(handlers: seq<Handler>, req: Request, k: nat, v: Value)
    requires k < |handlers|
    requires handlers[k](req) == Claim(v)
    requires forall j :: k < j < |handlers| ==> !handlers[j](req).Claim?
    ensures LastClaim(handlers, req) == Some(v)
    decreases |handlers|
  {
    if k < |handlers| - 1 {
      var init := handlers[..|handlers| - 1];
      assert !handlers[|handlers| - 1](req).Claim?;
      LastClaimAt(init, req, k, v);
    }
  }

  /**
   * Whatever earlier handlers claimed, when handler `k` claims `v`, no later
   * handler claims and none throws, the finished slot is `v`.
   */
  lemma LastClaimWins(handlers: seq<Handler>, req: Request, slot: Value, k: nat, v: Value)
    requires k < |handlers|
    requires handlers[k](req) == Claim(v)
    requires forall j :: k < j < |handlers| ==> !handlers[j](req).Claim?
    requires !SomeRaise(handlers, req)
    ensures Trigger(handlers, req, slot) == Ok(v)
  {
    LastClaimAt(handlers, req, k, v);
    TriggerIsLastClaim(handlers, req, slot);
  }

  /** No claim leaves the slot as it was: the finisher returns the default it was given. */
  lemma UnclaimedKeepsSlot(handlers: seq<Handler>, req: Request, slot: Value)
    requires forall j :: 0 <= j < |handlers| ==> handlers[j](req) == Decline
    ensures Trigger(handlers, req, slot) == Ok(slot)
  {
  }

  /** A handler registered after all others overrides their claims. */
  lemma LateRegistrationOverrides(handlers: seq<Handler>, h: Handler, req: Request, slot: Value, v: Value)
    requires !SomeRaise(handlers, req)
    requires h(req) == Claim(v)
    ensures Trigger(handlers + [h], req, slot) == Ok(v)
  {
    var hs := handlers + [h];
    assert forall j :: 0 <= j < |handlers| ==> hs[j] == handlers[j];
    LastClaimWins(hs, req, slot, |handlers|, v);
  }

  /** True when the chain's outcome reads as "nobody claimed": no claim, or a last claim of the sentinel itself. */
  predicate Unclaimed(handlers: seq<Handler>, req: Request) {
    LastClaim(handlers, req).None? || LastClaim(handlers, req) == Some(Sentinel)
  }

  /**
   * `__get`: a handler's exception propagates; a slot still strictly equal
   * to 'noneset' throws PropertyNotFoundException naming the property and
   * the component's name; any other value, null included, is returned.
   */
  function Get(listeners: Listeners, c: Component, cfg: Config, property: string): (r: Result<Value, Error>)
    ensures FirstRaise(listeners.onGet, GetRequest(property)).Some? ==>
      r == Err(FirstRaise(listeners.onGet, GetRequest(property)).value)
    ensures FirstRaise(listeners.onGet, GetRequest(property)).None? && Unclaimed(listeners.onGet, GetRequest(property)) ==>
      r == Err(PropertyNotFound(property, GetName(c, cfg)))
    ensures FirstRaise(listeners.onGet, GetRequest(property)).None? && !Unclaimed(listeners.onGet, GetRequest(property)) ==>
      r == Ok(LastClaim(listeners.onGet, GetRequest(property)).value)
    ensures r.Ok? ==> r.value != Sentinel
  {
    var req := GetRequest(property);
    TriggerIsLastClaim(listeners.onGet, req, Sentinel);
    match Trigger(listeners.onGet, req, Sentinel)
    case Err(e) => Err(e)
    case Ok(value) =>
      if value == Sentinel then Err(PropertyNotFound(property, GetName(c, cfg)))
      else Ok(value)
  }

  /**
   * `__isset`: true when `__get` returns, false when it throws
   * PropertyNotFoundException (from the sentinel check or from a handler),
   * and any other exception propagates.
   */
  function IsSet(listeners: Listeners, c: Component, cfg: Config, property: string): (r: Result<bool, Error>)
    ensures r == Ok(true) <==> Get(listeners, c, cfg, property).Ok?
    ensures r == Ok(false) <==>
      Get(listeners, c, cfg, property).Err? && Get(listeners, c, cfg, property).error.PropertyNotFound?
    ensures r.Err? ==> r.error == Get(listeners, c, cfg, property).error && !r.error.PropertyNotFound?
  {
    match Get(listeners, c, cfg, property)
    case Ok(_) => Ok(true)
    case Err(e) => if e.PropertyNotFound? then Ok(false) else Err(e)
  }

  /** How a `__call` that does not throw completes: a claimed value, or dispatch to a macro. */
  datatype Reply = Returned(value: Value) | MacroDispatch(methodName: string, params: seq<Value>)

  /** The BadMethodCallException message, `Method <class>::<method> does not exist.` */
  function MissingMethodMessage(cls: string, methodName: string): string {
    "Method " + cls + "::" + methodName + " does not exist."
  }

  /**
   * `__call`: a handler's exception propagates; a claimed non-sentinel
   * value is returned without looking at macros; otherwise a registered
   * macro of that name is called; otherwise BadMethodCallException is thrown
   * naming the class and the method.
   */
  function Call(listeners: Listeners, c: Component, macros: set<string>, methodName: string, params: seq<Value>)
    : (r: Result<Reply, Error>)
    ensures FirstRaise(listeners.onCall, CallRequest(methodName, params)).Some? ==>
      r == Err(FirstRaise(listeners.onCall, CallRequest(methodName, params)).value)
    ensures FirstRaise(listeners.onCall, CallRequest(methodName, params)).None? && !Unclaimed(listeners.onCall, CallRequest(methodName, params)) ==>
      r == Ok(Returned(LastClaim(listeners.onCall, CallRequest(methodName, params)).value))
    ensures FirstRaise(listeners.onCall, CallRequest(methodName, params)).None? && Unclaimed(listeners.onCall, CallRequest(methodName, params)) ==>
      r == if methodName in macros then Ok(MacroDispatch(methodName, params))
           else Err(BadMethodCall(MissingMethodMessage(c.cls, methodName)))
    ensures r.Ok? && r.value.Returned? ==> r.value.value != Sentinel
  {
    var req := CallRequest(methodName, params);
    TriggerIsLastClaim(listeners.onCall, req, Sentinel);
    match Trigger(listeners.onCall, req, Sentinel)
    case Err(e) => Err(e)
    case Ok(value) =>
      if value != Sentinel then Ok(Returned(value))
      else if methodName in macros then Ok(MacroDispatch(methodName, params))
      else Err(BadMethodCall(MissingMethodMessage(c.cls, methodName)))
  }

  /**
   * Nothing is cached between calls: a call that failed for want of a
   * method succeeds through the macro once a macro of that name exists.
   */
  lemma MacroAfterFailedCall(listeners: Listeners, c: Component, macros: set<string>, methodName: string, params: seq<Value>)
    requires FirstRaise(listeners.onCall, CallRequest(methodName, params)).None?
    requires Call(listeners, c, macros, methodName, params).Err?
    ensures Call(listeners, c, macros, methodName, params) == Err(BadMethodCall(MissingMethodMessage(c.cls, methodName)))
    ensures Call(listeners, c, macros + {methodName}, methodName, params) == Ok(MacroDispatch(methodName, params))
  {
  }

  /**
   * The sentinel can collide with a real value: a last claim of the string
   * 'noneset' reads as no claim, so `__get` throws and `__isset` is false.
   */
  lemma SentinelClaimReadsAsMissing(listeners: Listeners, c: Component, cfg: Config, property: string)
    requires FirstRaise(listeners.onGet, GetRequest(property)).None?
    requires LastClaim(listeners.onGet, GetRequest(property)) == Some(Str("noneset"))
    ensures Get(listeners, c, cfg, property) == Err(PropertyNotFound(property, GetName(c, cfg)))
    ensures IsSet(listeners, c, cfg, property) == Ok(false)
  {
  }

  /** A claim of null is a real value: `__get` returns null and `__isset` is true. */
  lemma NullClaimIsSet(listeners: Listeners, c: Component, cfg: Config, property: string)
    requires FirstRaise(listeners.onGet, GetRequest(property)).None?
    requires LastClaim(listeners.onGet, GetRequest(property)) == Some(Null)
    ensures Get(listeners, c, cfg, property) == Ok(Null)
    ensures IsSet(listeners, c, cfg, property) == Ok(true)
  {
  }
}
