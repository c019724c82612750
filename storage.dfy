/**
 * The device's persistent key-value store (AsyncStorage), as the value it
 * holds. Reads return `null` for a missing key; a value is truthy when it is
 * present and not the empty string.
 */
module Storage {
  import opened Wrappers

  type Store = map<string, string>

  const TokenKey := "token"
  const UserKey := "user"

  /** `getItem(key)`: the stored string, or `null`. */
  function GetItem(store: Store, key: string): (v: Option<string>)
    ensures v.Some? <==> key in store
    ensures v.Some? ==> v.value == store[key]
  {
    if key in store then Some(store[key]) else None
  }

  /** JavaScript truthiness of a `string | null`. */
  predicate Truthy(v: Option<string>)
  {
    v.Some? && v.value != ""
  }
}
