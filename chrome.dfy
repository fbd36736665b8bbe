/** The part of the browser-extension platform the pages and the
    background script use: values kept in `chrome.storage.local`, their
    JavaScript truthiness, the store itself as a mutable key-value map,
    and the requests the pages send with `chrome.runtime.sendMessage`. */
module Chrome {

  import opened Wrappers

  /** A stored value. JavaScript numbers are modelled as exact reals (no NaN
      or infinity can be stored by the code modelled here). */
  datatype Value =
    | Null
    | Bool(b: bool)
    | Num(x: real)
    | Str(s: string)
    | StrList(strs: seq<string>)

  /** JavaScript truthiness: `null`, `false`, `0` and `""` are falsy; every
      array, even an empty one, is truthy. */
  predicate Truthy(v: Value) {
    match v
    case Null => false
    case Bool(b) => b
    case Num(x) => x != 0.0
    case Str(s) => s != ""
    case StrList(_) => true
  }

  /** Reading `data[key]` from a `get` result: `None` is `undefined`. */
  function Get(items: map<string, Value>, key: string): Option<Value> {
    if key in items then Some(items[key]) else None
  }

  /** Truthiness of a possibly missing value (`undefined` is falsy). */
  predicate TruthyOpt(v: Option<Value>) {
    v.Some? && Truthy(v.value)
  }

  const AllowedWebsitesKey: string := "allowedWebsites"
  const TimerEndTimeKey: string := "timerEndTime"
  const IsBreakKey: string := "isBreak"
  const StudyMinutesKey: string := "studyMinutes"
  const BreakMinutesKey: string := "breakMinutes"

  /** `data.allowedWebsites || []`: the stored list, or the empty list when
      the key is missing or holds a falsy value. */
  function AllowedWebsites(items: map<string, Value>): (urls: seq<string>)
    ensures AllowedWebsitesKey in items && items[AllowedWebsitesKey].StrList? ==>
              urls == items[AllowedWebsitesKey].strs
    ensures AllowedWebsitesKey !in items ==> urls == []
  {
    if AllowedWebsitesKey in items && items[AllowedWebsitesKey].StrList? then
      items[AllowedWebsitesKey].strs
    else
      []
  }

  /** A request sent to the background script by `chrome.runtime.sendMessage`. */
  datatype Action = StartTimer | ResetTimer | UpdateSettings

  /** `chrome.storage.local`: a key-value map that `set` merges into and
      `remove` deletes keys from. The asynchronous callbacks are modelled as
      running right after the change they follow. */
  class LocalStore {
    var items: map<string, Value>

    constructor (initial: map<string, Value>)
      ensures items == initial
    {
      items := initial;
    }

    /** `set(updates)`: every key of `updates` takes its new value; every
        other key is unchanged. */
    method Set(updates: map<string, Value>)
      modifies this
      ensures items == old(items) + updates
      ensures forall k :: k in updates ==> k in items && items[k] == updates[k]
      ensures forall k :: k !in updates ==> Get(items, k) == Get(old(items), k)
    {
      items := items + updates;
    }

    /** `remove(keys)`: the keys are gone; every other key is unchanged. */
    method Remove(keys: set<string>)
      modifies this
      ensures items == old(items) - keys
      ensures forall k :: k in keys ==> k !in items
      ensures forall k :: k !in keys ==> Get(items, k) == Get(old(items), k)
    {
      items := items - keys;
    }
  }
}
