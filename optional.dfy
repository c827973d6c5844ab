/** An optional value: JavaScript's `null`/`undefined` versus a present value. */
module Optional {
  datatype Option<+T> = None | Some(value: T)

  /** JavaScript truthiness of an optional id or layer: present and not the empty string. */
  predicate Truthy(s: Option<string>) {
    s.Some? && s.value != ""
  }
}
