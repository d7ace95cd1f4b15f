/** Plain objects used as dictionaries: their own properties. */
module Objects {

  const PROTO := "__proto__"

  // Entries that are primitive values: assigning one to `__proto__` does nothing.
  function Put<V>(entries: map<string, V>, key: string, v: V): map<string, V> {
    if key == PROTO then entries else entries[key := v]
  }
}
