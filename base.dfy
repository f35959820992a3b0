/** Small value wrappers shared by every route module. */
module Base {

  /** An optional value: JavaScript's `null`/`undefined` versus a present value. */
  datatype Option<+T> = None | Some(value: T) {
    /** `x || default` and `x ?? default` for a present value. */
    function GetOr(default: T): T {
      match this
      case Some(v) => v
      case None => default
    }
  }

  /** The result of one remote call: the awaited value, or the exception it threw
      (a transport error, a non-2xx status, or a property read on a missing body). */
  datatype Reply<+T> = Ok(value: T) | Fail

  /** JavaScript truthiness of an optional string: present and not "". */
  predicate Truthy(s: Option<string>) {
    s.Some? && s.value != ""
  }
}
