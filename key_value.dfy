/** Device storage as a map from keys to string values. Writes are methods
    of the store; a read of a key is a `ReadResult`, which carries the stored
    value or a failure of the storage layer, the choice between the two being
    an input. */
module KeyValue {
  import opened Wizard

  /** The outcome of a read: the stored value (None when the key is not
      set), or a failure of the storage layer. */
  datatype ReadResult = ReadOk(value: Option<string>) | ReadFailed

  /** The value stored under a key, as `getItem` returns it. */
  function Lookup(entries: map<string, string>, key: string): (r: Option<string>)
    ensures r.Some? <==> key in entries
    ensures r.Some? ==> r.value == entries[key]
  {
    if key in entries then Some(entries[key]) else None
  }

  /** `getItem` of one key: the value stored under it, unless the storage
      layer fails. */
  function Read(entries: map<string, string>, key: string, failed: bool): (r: ReadResult)
    ensures r.ReadFailed? <==> failed
    ensures r.ReadOk? ==> r.value == Lookup(entries, key)
  {
    if failed then ReadFailed else ReadOk(Lookup(entries, key))
  }

  class Store {
    var entries: map<string, string>

    constructor (entries: map<string, string>)
      ensures this.entries == entries
    {
      this.entries := entries;
    }

    /** `setItem`: the key now holds the value; other keys are unchanged. */
    method SetItem(key: string, value: string)
      modifies this
      ensures entries == old(entries)[key := value]
    {
      entries := entries[key := value];
    }

    /** `removeItem`: the key is no longer set; other keys are unchanged. */
    method RemoveItem(key: string)
      modifies this
      ensures entries == old(entries) - {key}
    {
      entries := entries - {key};
    }
  }
}
