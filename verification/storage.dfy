/** The keyed state store: a map from string keys to values plus the ordered
    log of `{key, value}` events pushed onto the notification bus. Every
    operation is a pure transition on an immutable `Store`; an operation that
    throws returns `Failure` and, as in the source, has changed nothing. */
module StorageService {
  import opened Outcomes
  import opened JsValues

  /** One broadcast on the notification bus. */
  datatype Event = Event(key: string, value: Value)

  /** `dataMap` and everything ever pushed onto `eventQueue`, oldest first. */
  datatype Store = Store(data: map<string, Value>, log: seq<Event>)

  /** The two errors the store throws. */
  datatype Error = ValueDoesNotExist | CannotBroadcastNonExistentValue

  /** A freshly constructed service: empty map, nothing broadcast yet. */
  const Fresh: Store := Store(map[], [])

  /** `checkData`: whether `key` currently has an entry (even one holding
      `undefined`); exactly when deleting it would change the store. */
  function CheckData(s: Store, key: string): (b: bool)
    ensures b <==> Delete(s, key) != s
  {
    assert key in s.data ==> key !in Delete(s, key).data;
    key in s.data
  }

  /** `get`: the stored value, or `ValueDoesNotExist` when there is no entry. */
  function Get(s: Store, key: string): (r: Result<Value, Error>)
    ensures r.Success? <==> CheckData(s, key)
    ensures r.Success? ==> r.value == s.data[key]
    ensures r.Failure? ==> r.error == ValueDoesNotExist
  {
    if CheckData(s, key) then Success(s.data[key]) else Failure(ValueDoesNotExist)
  }

  /** The private `broadcast`: `value || this.get(key)` is pushed with `key`.
      The right operand is only evaluated when `value` is falsy, and then the
      `get` may throw. The map is never touched. */
  function Broadcast(s: Store, key: string, value: Value): (r: Result<Store, Error>)
    ensures r.Failure? <==> !Truthy(value) && !CheckData(s, key)
    ensures r.Failure? ==> r.error == ValueDoesNotExist
    ensures r.Success? ==> r.value.data == s.data
    ensures r.Success? ==>
      r.value.log == s.log + [Event(key, if Truthy(value) then value else s.data[key])]
  {
    match (if Truthy(value) then Success(value) else Get(s, key))
    case Failure(e) => Failure(e)
    case Success(v) => Success(s.(log := s.log + [Event(key, v)]))
  }

  /** `set`: upsert the entry, then broadcast it. The broadcast is given no
      explicit value, so it falls back to `get`, which finds the entry just
      written: the event carries `value` even when `value` is falsy. */
  function Set(s: Store, key: string, value: Value): (r: Store)
    ensures r.data == s.data[key := value]
    ensures r.log == s.log + [Event(key, value)]
  {
    var written := s.(data := s.data[key := value]);
    Broadcast(written, key, Undefined).value
  }

  /** `delete`: remove the entry if there is one; never broadcasts. */
  function Delete(s: Store, key: string): (r: Store)
    ensures r.data == s.data - {key} && r.log == s.log
  {
    s.(data := s.data - {key})
  }

  /** `broadcastValue`: re-announce `key`. It throws when `checkData(key) || value`
      is falsy, that is when the key is absent and the argument is omitted or
      falsy. Otherwise the event carries the argument when it is truthy and the
      stored value when it is not, so a falsy explicit argument is replaced by
      the stored value. Returns `true`; the map is never touched. */
  function BroadcastValue(s: Store, key: string, value: Option<Value>): (r: Result<(bool, Store), Error>)
    ensures r.Failure? <==> !CheckData(s, key) && !Truthy(Argument(value))
    ensures r.Failure? ==> r.error == CannotBroadcastNonExistentValue
    ensures r.Success? ==> r.value.0 && r.value.1.data == s.data
    ensures r.Success? ==>
      r.value.1.log == s.log + [Event(key, if Truthy(Argument(value)) then Argument(value) else s.data[key])]
  {
    var arg := Argument(value);
    if Truthy(Or(Boolean(CheckData(s, key)), arg)) then
      Success((true, Broadcast(s, key, arg).value))
    else
      Failure(CannotBroadcastNonExistentValue)
  }

  /** `clearData`: delete each key of `keys` in turn (`forEach`); absent keys
      are skipped silently and nothing is broadcast. */
  function ClearData(s: Store, keys: seq<string>): (r: Store)
    ensures r.data.Keys == s.data.Keys - set k | k in keys
    ensures forall k :: k in r.data ==> k in s.data && r.data[k] == s.data[k]
    ensures r.log == s.log
    decreases |keys|
  {
    if keys == [] then s else ClearData(Delete(s, keys[0]), keys[1..])
  }

  /** After `set(key, value)` the key is present, `get` returns `value`, and
      every other key answers `get` and `checkData` exactly as before. */
  lemma SetThenGet(s: Store, key: string, value: Value)
    ensures CheckData(Set(s, key, value), key)
    ensures Get(Set(s, key, value), key) == Success(value)
    ensures forall other :: other != key ==>
      Get(Set(s, key, value), other) == Get(s, other) &&
      CheckData(Set(s, key, value), other) == CheckData(s, other)
  {
  }

  /** After `delete(key)` the key is absent and `get` throws; other keys are
      untouched; nothing is broadcast; deleting an absent key changes nothing;
      deleting twice is deleting once. */
  lemma DeleteProperties(s: Store, key: string)
    ensures !CheckData(Delete(s, key), key)
    ensures Get(Delete(s, key), key) == Failure(ValueDoesNotExist)
    ensures forall other :: other != key ==> Get(Delete(s, key), other) == Get(s, other)
    ensures Delete(s, key).log == s.log
    ensures !CheckData(s, key) ==> Delete(s, key) == s
    ensures Delete(Delete(s, key), key) == Delete(s, key)
  {
  }

  /** `clearData(keys)` leaves every listed key absent, whether or not it was
      present before, and gives every unlisted key the answer it had. */
  lemma ClearDataProperties(s: Store, keys: seq<string>)
    ensures forall k :: k in keys ==> Get(ClearData(s, keys), k) == Failure(ValueDoesNotExist)
    ensures forall k :: k !in keys ==> Get(ClearData(s, keys), k) == Get(s, k)
    ensures ClearData(s, keys).log == s.log
  {
  }

  /** Omitting the argument of `broadcastValue` is the same as passing `undefined`. */
  lemma BroadcastOmittedIsUndefined(s: Store, key: string)
    ensures BroadcastValue(s, key, None) == BroadcastValue(s, key, Some(Undefined))
  {
  }

  /** A falsy explicit value is treated as no value: with the key present the
      stored value is broadcast instead, with the key absent the call throws. */
  lemma BroadcastFalsyArgument(s: Store, key: string, value: Value)
    requires !Truthy(value)
    ensures CheckData(s, key) ==>
      BroadcastValue(s, key, Some(value)) == BroadcastValue(s, key, None)
    ensures !CheckData(s, key) ==>
      BroadcastValue(s, key, Some(value)) == Failure(CannotBroadcastNonExistentValue)
  {
  }

  /** A concrete instance of the quirk: `broadcastValue('n', 0)` on a store
      holding `'n' -> 'seven'` announces `'seven'`, not `0`. */
  lemma BroadcastZeroAnnouncesStored()
    ensures BroadcastValue(Set(Fresh, "n", Str("seven")), "n", Some(Number(0.0))).Success?
    ensures BroadcastValue(Set(Fresh, "n", Str("seven")), "n", Some(Number(0.0))).value.1.log
      == [Event("n", Str("seven")), Event("n", Str("seven"))]
  {
  }

  /** Re-announcing a key that was set to `value` returns `true`, emits `value`
      once more and leaves the map as `set` left it. */
  lemma RebroadcastAfterSet(s: Store, key: string, value: Value)
    ensures var t := Set(s, key, value);
      BroadcastValue(t, key, None) == Success((true, Store(t.data, t.log + [Event(key, value)])))
  {
  }
}
