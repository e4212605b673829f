/**
 * The `useLocalStorageState(initialState, key)` hook: one state cell,
 * initialised from storage slot `key` and written back to that slot after
 * every change of the value or of the key.
 */
module LocalStorageState {
  import opened Wrappers
  import opened Json
  import opened Browser

  /** What `JSON.parse` throws on text that is not JSON. */
  datatype SyntaxError = SyntaxError

  /**
   * The text `JSON.parse` sees for `localStorage.getItem(key)`: the slot's text,
   * or "null" because `JSON.parse(null)` parses the string "null".
   */
  function SlotText(slots: map<string, string>, key: string): (text: string)
    ensures key in slots ==> text == slots[key]
    ensures key !in slots ==> text == "null"
  {
    if key in slots then slots[key] else "null"
  }

  /**
   * The initialiser `JSON.parse(localStorage.getItem(key)) || []`.  It reads
   * nothing else: the hook's `initialState` argument plays no part in it.
   */
  function InitialValue(slots: map<string, string>, key: string, c: Codec): (r: Result<Json, SyntaxError>)
    ensures r.Failure? <==> c.parse(SlotText(slots, key)).None?
    ensures r.Success? ==> !IsFalsy(r.value)
    ensures r.Success? && r.value != Arr([]) ==> c.parse(SlotText(slots, key)) == Some(r.value)
    ensures c.parse(SlotText(slots, key)).Some? && !IsFalsy(c.parse(SlotText(slots, key)).value) ==>
              r == Success(c.parse(SlotText(slots, key)).value)
  {
    match c.parse(SlotText(slots, key))
    case None => Failure(SyntaxError)
    case Some(parsed) => Success(OrEmptyArray(parsed))
  }

  /** An absent slot initialises the state to `[]`. */
  lemma AbsentSlotGivesEmptyArray(slots: map<string, string>, key: string, c: Codec)
    requires c.parse("null") == Some(Null)
    requires key !in slots
    ensures InitialValue(slots, key, c) == Success(Arr([]))
  {
  }

  /** A slot holding a falsy value (`null`, `false`, `0`, `""`) initialises to `[]` too. */
  lemma FalsySlotGivesEmptyArray(slots: map<string, string>, key: string, c: Codec)
    requires key in slots
    requires c.parse(slots[key]).Some? && IsFalsy(c.parse(slots[key]).value)
    ensures InitialValue(slots, key, c) == Success(Arr([]))
  {
  }

  /** Text that is not JSON makes the initialiser throw; nothing recovers from it. */
  lemma MalformedSlotThrows(slots: map<string, string>, key: string, c: Codec)
    requires key in slots && c.parse(slots[key]).None?
    ensures InitialValue(slots, key, c) == Failure(SyntaxError)
  {
  }

  /**
   * Round trip: initialising from a store in which slot `key` was last written
   * with `value` gives back `value`, or `[]` when `value` is falsy.
   */
  lemma ReloadAfterWrite(slots: map<string, string>, key: string, value: Json, c: Codec)
    requires ValidCodec(c) && WellKeyed(value)
    ensures InitialValue(slots[key := c.stringify(value)], key, c) == Success(OrEmptyArray(value))
  {
  }

  /** The hook's state cell and the storage it mirrors. */
  class StoredState {
    const storage: Storage
    const codec: Codec
    var key: string
    var value: Json

    /** Write-through invariant: slot `key` holds the serialisation of `value`. */
    predicate Synced()
      reads this, storage
    {
      key in storage.slots && storage.slots[key] == codec.stringify(value)
    }

    /** The state cell as `useState` creates it; the mount effect has not yet run. */
    constructor (storage: Storage, codec: Codec, key: string, value: Json)
      ensures this.storage == storage && this.codec == codec
      ensures this.key == key && this.value == value
    {
      this.storage := storage;
      this.codec := codec;
      this.key := key;
      this.value := value;
    }

    /** The effect on `[value, key]`: `localStorage.setItem(key, JSON.stringify(value))`. */
    method WriteThrough()
      modifies storage
      ensures storage.slots == old(storage.slots)[key := codec.stringify(value)]
      ensures Synced()
    {
      storage.SetItem(key, codec.stringify(value));
    }

    /** `setValue(v)`: replaces the value wholesale; the effect then writes slot `key`. */
    method SetValue(v: Json)
      modifies this`value, storage
      ensures value == v && key == old(key)
      ensures storage.slots == old(storage.slots)[key := codec.stringify(v)]
      ensures Synced()
    {
      value := v;
      WriteThrough();
    }

    /**
     * A re-render with another `key`: the value is kept (the initialiser runs
     * only on mount) and the effect writes it to the new slot; the old slot
     * keeps its last text.
     */
    method ChangeKey(k: string)
      modifies this`key, storage
      ensures key == k && value == old(value)
      ensures storage.slots == old(storage.slots)[k := codec.stringify(value)]
      ensures Synced()
    {
      key := k;
      WriteThrough();
    }
  }

  /**
   * Mounting `useLocalStorageState(initialState, key)`: initialise from the
   * slot (throwing on malformed text), then run the write-through effect once.
   * `initialState` is accepted and never read.
   */
  method UseLocalStorageState(initialState: Json, key: string, storage: Storage, codec: Codec)
    returns (r: Result<StoredState, SyntaxError>)
    modifies storage
    ensures InitialValue(old(storage.slots), key, codec).Failure? ==>
              r == Failure(SyntaxError) && storage.slots == old(storage.slots)
    ensures InitialValue(old(storage.slots), key, codec).Success? ==>
              && r.Success? && fresh(r.value)
              && r.value.storage == storage && r.value.codec == codec
              && r.value.key == key
              && r.value.value == InitialValue(old(storage.slots), key, codec).value
              && storage.slots == old(storage.slots)[key := codec.stringify(r.value.value)]
              && r.value.Synced()
  {
    var stored := storage.GetItem(key);
    var text := if stored.Some? then stored.value else "null";
    match codec.parse(text)
    case None =>
      r := Failure(SyntaxError);
    case Some(parsed) =>
      var state := new StoredState(storage, codec, key, OrEmptyArray(parsed));
      state.WriteThrough();
      r := Success(state);
  }

  /** While the write-through invariant holds, remounting reads back the current value. */
  lemma RemountReadsCurrentValue(state: StoredState)
    requires state.Synced() && ValidCodec(state.codec) && WellKeyed(state.value)
    ensures InitialValue(state.storage.slots, state.key, state.codec) == Success(OrEmptyArray(state.value))
  {
  }
}
