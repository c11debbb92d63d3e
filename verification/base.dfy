/** Values shared by every part of the model: JavaScript's "absent" value
    and the outcome of a call into the REST API. */
module Base {

  /** A value that may be `undefined`/`null` on the JavaScript side. */
  datatype Option<+T> = None | Some(value: T)

  /** JavaScript truthiness of an optional string: absent and `""` are falsy. */
  predicate Truthy(v: Option<string>) {
    v.Some? && v.value != ""
  }

  /** `v || fallback` for an optional string. */
  function OrElse(v: Option<string>, fallback: string): (r: string)
    ensures Truthy(v) ==> r == v.value
    ensures !Truthy(v) ==> r == fallback
    ensures r == "" ==> fallback == ""
  {
    if Truthy(v) then v.value else fallback
  }

  /** The settled promise of a REST call: the response body, or a rejection
      carrying the server's `response.data.message` when there is one. */
  datatype Reply<+T> = Replied(body: T) | Rejected(message: Option<string>)

  /** The browser's `localStorage`: string keys to string values. */
  type Storage = map<string, string>

  /** `localStorage.getItem(key)`: `null` when the key is absent. */
  function GetItem(storage: Storage, key: string): (r: Option<string>)
    ensures r.Some? <==> key in storage
    ensures r.Some? ==> r.value == storage[key]
  {
    if key in storage then Some(storage[key]) else None
  }
}
