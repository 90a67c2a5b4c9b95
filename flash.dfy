/**
 * One-shot flash messages kept in one slot of a session storage: an array of
 * messages by type under the key "__flash" (by default).
 */
module Session {
  import opened Wrappers
  import opened PhpArrays
  import opened Values
  import opened HttpRequest

  const DEFAULT_FLASH_KEY := "__flash"
  const STORAGE_MESSAGE := "storage argument must be an array or instance of ArrayAccess"

  /** The messages array: keyed by type, as PHP normalises array keys. */
  type Messages = seq<(Key, Value)>

  /**
   * The storage Flash holds by reference: the session array or an ArrayAccess object.
   * `accessible` says whether what was passed is one of the two.
   */
  class SessionStorage {
    var slots: Entries
    const accessible: bool

    constructor(slots: Entries, accessible: bool)
      ensures this.slots == slots && this.accessible == accessible
    {
      this.slots := slots;
      this.accessible := accessible;
    }
  }

  /** getInStorage: `storage[key] ?? []`, returned as `array`; anything else is a TypeError. */
  function InStorage(slots: Entries, key: string): (r: Result<Messages>)
    ensures Get(slots, key).None? || Get(slots, key) == Some(Null) ==> r == Ok([])
    ensures r.Ok? && r.value != [] ==> Get(slots, key) == Some(Arr(r.value))
    ensures r.Err? <==> Get(slots, key).Some? && !Get(slots, key).value.Null? && !Get(slots, key).value.Arr?
    ensures r.Err? ==> r.error == TypeError
    ensures r.Ok? && Get(slots, key).Some? && Get(slots, key).value.Arr? ==> r.value == Get(slots, key).value.entries
  {
    match Get(slots, key)
    case None => Ok([])
    case Some(v) =>
      if v.Null? then Ok([])
      else if v.Arr? then Ok(v.entries)
      else Err(TypeError)
  }

  /** set(type, message): the new slots, or the failure. */
  function SetSpec(slots: Entries, key: string, t: string, message: string): Result<Entries>
  {
    var messages :- InStorage(slots, key);
    Ok(Put(slots, key, Arr(Put(messages, KeyOf(t), Str(message)))))
  }

  /** get(type): the value returned (a `?string`) and the new slots. */
  function GetSpec(slots: Entries, key: string, t: string): (Result<Option<string>>, Entries)
  {
    match InStorage(slots, key)
    case Err(e) => (Err(e), slots)
    case Ok(messages) =>
      match PhpArrays.Get(messages, KeyOf(t))
      case None => (Ok(None), slots)
      case Some(m) =>
        var slots' := Put(slots, key, Arr(Remove(messages, KeyOf(t))));
        // the `?string` return type, checked after the write-back
        if m.Str? then (Ok(Some(m.s)), slots')
        else if m.Null? then (Ok(None), slots')
        else (Err(TypeError), slots')
  }

  class Flash {
    const storage: SessionStorage
    const key: string

    constructor(storage: SessionStorage, key: string)
      ensures this.storage == storage && this.key == key
    {
      this.storage := storage;
      this.key := key;
    }

    method Set(t: string, message: string) returns (r: Outcome)
      modifies storage
      ensures SetSpec(old(storage.slots), key, t, message).Ok? ==> r == Pass && storage.slots == SetSpec(old(storage.slots), key, t, message).value
      ensures SetSpec(old(storage.slots), key, t, message).Err? ==> r == Fail(TypeError) && storage.slots == old(storage.slots)
    {
      var messages := InStorage(storage.slots, key);
      if messages.Err? {
        return Fail(messages.error);
      }
      var updated := Put(messages.value, KeyOf(t), Str(message));
      storage.slots := Put(storage.slots, key, Arr(updated));
      r := Pass;
    }

    method Get(t: string) returns (r: Result<Option<string>>)
      modifies storage
      ensures (r, storage.slots) == GetSpec(old(storage.slots), key, t)
    {
      var messages := InStorage(storage.slots, key);
      if messages.Err? {
        return Err(messages.error);
      }
      var k := KeyOf(t);
      if !HasKey(messages.value, k) {
        return Ok(None);
      }
      var message := PhpArrays.Get(messages.value, k).value;
      storage.slots := Put(storage.slots, key, Arr(Remove(messages.value, k)));
      if message.Str? {
        return Ok(Some(message.s));
      } else if message.Null? {
        return Ok(None);
      }
      return Err(TypeError);
    }
  }

  /** `new Flash($storage, $key)`: only an array or an ArrayAccess object is accepted. */
  method NewFlash(storage: SessionStorage, key: string := DEFAULT_FLASH_KEY) returns (r: Result<Flash>)
    ensures r.Err? <==> !storage.accessible
    ensures r.Err? ==> r.error == InvalidArgumentException(STORAGE_MESSAGE)
    ensures r.Ok? ==> fresh(r.value) && r.value.storage == storage && r.value.key == key
  {
    if !storage.accessible {
      return Err(InvalidArgumentException(STORAGE_MESSAGE));
    }
    var f := new Flash(storage, key);
    return Ok(f);
  }

  // ---------------------------------------------------------------- lemmas

  /** The flash slot holds a PHP array, or nothing yet. */
  predicate WellFormed(slots: Entries, key: string)
  {
    InStorage(slots, key).Ok? && DistinctKeys(InStorage(slots, key).value)
  }

  lemma SlotAfterPut(slots: Entries, key: string, v: Value)
    ensures PhpArrays.Get(Put(slots, key, v), key) == Some(v)
  {
    PutGet(slots, key, v, key);
  }

  /** set keeps the slot well formed, and succeeds on any well-formed slot. */
  lemma SetKeepsWellFormed(slots: Entries, key: string, t: string, message: string)
    requires WellFormed(slots, key)
    ensures SetSpec(slots, key, t, message).Ok?
    ensures WellFormed(SetSpec(slots, key, t, message).value, key)
  {
    var messages := InStorage(slots, key).value;
    var updated := Put(messages, KeyOf(t), Str(message));
    assert SetSpec(slots, key, t, message) == Ok(Put(slots, key, Arr(updated)));
    PutKeys(messages, KeyOf(t), Str(message));
    InStorageAfterPut(slots, key, updated);
  }

  /** After set(t, m), get(t) returns m. */
  lemma SetThenGet(slots: Entries, key: string, t: string, message: string)
    requires SetSpec(slots, key, t, message).Ok?
    ensures GetSpec(SetSpec(slots, key, t, message).value, key, t).0 == Ok(Some(message))
  {
    var messages := InStorage(slots, key).value;
    var updated := Put(messages, KeyOf(t), Str(message));
    SlotAfterPut(slots, key, Arr(updated));
    PutGet(messages, KeyOf(t), Str(message), KeyOf(t));
  }

  /** A second set of the same type replaces the first. */
  lemma SetReplaces(slots: Entries, key: string, t: string, m1: string, m2: string)
    requires SetSpec(slots, key, t, m1).Ok?
    ensures SetSpec(SetSpec(slots, key, t, m1).value, key, t, m2).Ok?
    ensures GetSpec(SetSpec(SetSpec(slots, key, t, m1).value, key, t, m2).value, key, t).0 == Ok(Some(m2))
  {
    var s1 := SetSpec(slots, key, t, m1).value;
    var messages := InStorage(slots, key).value;
    SlotAfterPut(slots, key, Arr(Put(messages, KeyOf(t), Str(m1))));
    SetThenGet(s1, key, t, m2);
  }

  /** get is one-shot: once it has returned a message, the next get of that type returns null. */
  lemma GetIsOneShot(slots: Entries, key: string, t: string)
    requires WellFormed(slots, key)
    requires GetSpec(slots, key, t).0.Ok? && GetSpec(slots, key, t).0.value.Some?
    ensures GetSpec(GetSpec(slots, key, t).1, key, t).0 == Ok(None)
  {
    var messages := InStorage(slots, key).value;
    var rest := Remove(messages, KeyOf(t));
    SlotAfterPut(slots, key, Arr(rest));
    RemoveGet(messages, KeyOf(t), KeyOf(t));
  }

  /** get of an absent type returns null and writes nothing. */
  lemma GetAbsent(slots: Entries, key: string, t: string)
    requires InStorage(slots, key).Ok? && !HasKey(InStorage(slots, key).value, KeyOf(t))
    ensures GetSpec(slots, key, t) == (Ok(None), slots)
  {
  }

  /** set touches only the flash slot, and within it only the type it names. */
  lemma SetIsLocal(slots: Entries, key: string, t: string, message: string, other: string, t': string)
    requires SetSpec(slots, key, t, message).Ok?
    ensures InStorage(slots, key).Ok? && InStorage(SetSpec(slots, key, t, message).value, key).Ok?
    ensures other != key ==> PhpArrays.Get(SetSpec(slots, key, t, message).value, other) == PhpArrays.Get(slots, other)
    ensures t' != t ==> PhpArrays.Get(InStorage(SetSpec(slots, key, t, message).value, key).value, KeyOf(t')) ==
                         PhpArrays.Get(InStorage(slots, key).value, KeyOf(t'))
  {
    var messages := InStorage(slots, key).value;
    var updated := Put(messages, KeyOf(t), Str(message));
    PutGet(slots, key, Arr(updated), other);
    SlotAfterPut(slots, key, Arr(updated));
    if t' != t {
      if KeyOf(t') == KeyOf(t) {
        KeyOfInjective(t', t);
      }
      PutGet(messages, KeyOf(t), Str(message), KeyOf(t'));
      if updated == [] {
        PutKeys(messages, KeyOf(t), Str(message));
      }
    }
  }

  /** get touches no slot but the flash slot. */
  lemma GetKeepsOtherSlots(slots: Entries, key: string, t: string, other: string)
    requires other != key
    ensures PhpArrays.Get(GetSpec(slots, key, t).1, other) == PhpArrays.Get(slots, other)
  {
    match InStorage(slots, key)
    case Err(_) =>
    case Ok(messages) =>
      if HasKey(messages, KeyOf(t)) {
        assert GetSpec(slots, key, t).1 == Put(slots, key, Arr(Remove(messages, KeyOf(t))));
        PutGet(slots, key, Arr(Remove(messages, KeyOf(t))), other);
      } else {
        assert GetSpec(slots, key, t).1 == slots;
      }
  }

  /** Within the flash slot, get removes only the type it names. */
  lemma GetKeepsOtherTypes(slots: Entries, key: string, t: string, t': string)
    requires WellFormed(slots, key) && t' != t
    ensures InStorage(GetSpec(slots, key, t).1, key).Ok?
    ensures PhpArrays.Get(InStorage(GetSpec(slots, key, t).1, key).value, KeyOf(t')) == PhpArrays.Get(InStorage(slots, key).value, KeyOf(t'))
  {
    var messages := InStorage(slots, key).value;
    var k, k' := KeyOf(t), KeyOf(t');
    assert k' != k by {
      if k' == k {
        KeyOfInjective(t', t);
      }
    }
    if HasKey(messages, k) {
      var rest := Remove(messages, k);
      assert GetSpec(slots, key, t).1 == Put(slots, key, Arr(rest));
      InStorageAfterPut(slots, key, rest);
      RemoveGet(messages, k, k');
    } else {
      assert GetSpec(slots, key, t).1 == slots;
    }
  }

  /** Writing an array into the flash slot is what the next read finds there. */
  lemma InStorageAfterPut(slots: Entries, key: string, es: Messages)
    ensures InStorage(Put(slots, key, Arr(es)), key) == Ok(es)
  {
    SlotAfterPut(slots, key, Arr(es));
  }
}
