/**
 * The component's identity fields (`$__id`, `$__name`) and their accessors
 * `id`, `setId`, `getId`, `setName` and `getName`. A component is an
 * immutable value here: a setter returns the updated component.
 */
module Identity {
  import opened Wrappers
  import opened PhpValues
  import opened Naming

  /** A component instance: its class path and its two protected fields. */
  datatype Component = Component(cls: string, id: Value, name: Value)

  /** A freshly constructed component: both fields hold PHP's null. */
  function Fresh(cls: string): Component {
    Component(cls, Null, Null)
  }

  /** `setId`: stores `id`, whatever it is; nothing else changes. */
  function SetId(c: Component, id: Value): (c': Component)
    ensures c'.id == id
    ensures c'.cls == c.cls && c'.name == c.name
  {
    c.(id := id)
  }

  /** `getId`: the stored identifier, null when none was set (there is no "not set" error). */
  function GetId(c: Component): Value {
    c.id
  }

  /** `id`: the same value as `getId`. */
  function Id(c: Component): Value {
    GetId(c)
  }

  /** `setName`: stores `name`, whatever it is; nothing else changes. */
  function SetName(c: Component, name: Value): (c': Component)
    ensures c'.name == name
    ensures c'.cls == c.cls && c'.id == c.id
  {
    c.(name := name)
  }

  /**
   * `getName`: the stored name when it is truthy; otherwise (null, "",
   * "0", ...) the derived name, recomputed on every call.
   */
  function GetName(c: Component, cfg: Config): (r: Value)
    ensures Truthy(c.name) ==> r == c.name
    ensures !Truthy(c.name) ==> r == GenerateName(c.cls, cfg)
  {
    if Truthy(c.name) then c.name else GenerateName(c.cls, cfg)
  }

  /** A call of one of the two setters. */
  datatype Mutation = AssignId(newId: Value) | AssignName(newName: Value)

  /** Runs the setter calls in order, first to last. */
  function Replay(c: Component, ms: seq<Mutation>): Component
    decreases |ms|
  {
    if |ms| == 0 then c
    else
      var c' := match ms[0]
        case AssignId(v) => SetId(c, v)
        case AssignName(v) => SetName(c, v);
      Replay(c', ms[1..])
  }

  /** The argument of the last `setId` call in `ms`, if any. */
  function LastIdAssigned(ms: seq<Mutation>): Option<Value>
    decreases |ms|
  {
    if |ms| == 0 then None
    else if ms[|ms| - 1].AssignId? then Some(ms[|ms| - 1].newId)
    else LastIdAssigned(ms[..|ms| - 1])
  }

  /** The argument of the last `setName` call in `ms`, if any. */
  function LastNameAssigned(ms: seq<Mutation>): Option<Value>
    decreases |ms|
  {
    if |ms| == 0 then None
    else if ms[|ms| - 1].AssignName? then Some(ms[|ms| - 1].newName)
    else LastNameAssigned(ms[..|ms| - 1])
  }

  /** Replaying a history and then one more call is replaying the longer history. */
  lemma {:induction false} ReplaySnoc(c: Component, ms: seq<Mutation>, m: Mutation)
    ensures Replay(c, ms + [m]) == Replay(Replay(c, ms), [m])
    decreases |ms|
  {
    if |ms| > 0 {
      assert (ms + [m])[1..] == ms[1..] + [m];
      var c' := match ms[0]
        case AssignId(v) => SetId(c, v)
        case AssignName(v) => SetName(c, v);
      ReplaySnoc(c', ms[1..], m);
    }
  }

  /**
   * After any sequence of setter calls, `id()` and `getId()` return the
   * value most recently passed to `setId`, or the previous identifier
   * (null for a fresh component) when `setId` was never called; the class
   * never changes.
   */
  lemma {:induction false} IdIsLastAssigned(c: Component, ms: seq<Mutation>)
    ensures Id(Replay(c, ms)) == LastIdAssigned(ms).GetOr(c.id)
    ensures GetId(Replay(c, ms)) == LastIdAssigned(ms).GetOr(c.id)
    ensures Replay(c, ms).cls == c.cls
    decreases |ms|
  {
    if |ms| > 0 {
      var init := ms[..|ms| - 1];
      assert ms == init + [ms[|ms| - 1]];
      ReplaySnoc(c, init, ms[|ms| - 1]);
      IdIsLastAssigned(c, init);
    }
  }

  /**
   * After any sequence of setter calls, the stored name is the value most
   * recently passed to `setName`, or the previous name when `setName` was
   * never called.
   */
  lemma {:induction false} NameIsLastAssigned(c: Component, ms: seq<Mutation>)
    ensures Replay(c, ms).name == LastNameAssigned(ms).GetOr(c.name)
    decreases |ms|
  {
    if |ms| > 0 {
      var init := ms[..|ms| - 1];
      assert ms == init + [ms[|ms| - 1]];
      ReplaySnoc(c, init, ms[|ms| - 1]);
      NameIsLastAssigned(c, init);
    }
  }

  /**
   * What `getName` reports after any sequence of setter calls on a fresh
   * component: the last name set, when there is one and it is truthy;
   * otherwise the derived name.
   */
  lemma ReportedName(cls: string, ms: seq<Mutation>, cfg: Config)
    ensures LastNameAssigned(ms).Some? && Truthy(LastNameAssigned(ms).value) ==>
      GetName(Replay(Fresh(cls), ms), cfg) == LastNameAssigned(ms).value
    ensures !(LastNameAssigned(ms).Some? && Truthy(LastNameAssigned(ms).value)) ==>
      GetName(Replay(Fresh(cls), ms), cfg) == GenerateName(cls, cfg)
  {
    NameIsLastAssigned(Fresh(cls), ms);
    IdIsLastAssigned(Fresh(cls), ms);
  }

  /**
   * A fresh component whose name was set to a falsy value (null, "" or "0")
   * still reports its derived name.
   */
  lemma FalsyNameFallsBackToDerived(cls: string, name: Value, cfg: Config)
    requires name == Null || name == Str("") || name == Str("0")
    ensures GetName(SetName(Fresh(cls), name), cfg) == GenerateName(cls, cfg)
  {
  }
}
