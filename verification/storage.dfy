/** The browser's key-value storage (`window.localStorage`) as an immutable string map. */
module Storage {
  import opened Wrappers

  type Store = map<string, string>

  /** `getItem`: the stored string, or nothing when the key was never set or was removed. */
  function Get(store: Store, key: string): (v: Option<string>)
    ensures v.Some? <==> key in store
    ensures v.Some? ==> v.value == store[key]
  {
    if key in store then Some(store[key]) else None
  }

  /** JavaScript truthiness of a nullable string: present and not empty. */
  predicate Truthy(v: Option<string>) {
    v.Some? && v.value != ""
  }
}
