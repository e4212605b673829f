/** The browser's `localStorage`: a mutable map from slot names to strings. */
module Browser {
  import opened Wrappers

  class Storage {
    var slots: map<string, string>

    constructor (initial: map<string, string>)
      ensures slots == initial
    {
      slots := initial;
    }

    /** `localStorage.getItem(key)`: the slot's text, or `null` when absent. */
    method GetItem(key: string) returns (r: Option<string>)
      ensures r.Some? <==> key in slots
      ensures r.Some? ==> r.value == slots[key]
    {
      r := if key in slots then Some(slots[key]) else None;
    }

    /** `localStorage.setItem(key, text)`: overwrites one slot, no other. */
    method SetItem(key: string, text: string)
      modifies this
      ensures slots == old(slots)[key := text]
    {
      slots := slots[key := text];
    }
  }
}
