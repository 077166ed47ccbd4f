/** Shared data model: the records of src/types/index.ts plus the small
    Option/Outcome wrappers the rest of the model uses in place of
    `null`/`undefined` and thrown errors. */
module Types {

  /** `T | null` and `field?: T`. */
  datatype Option<+T> = None | Some(value: T)

  /** The settled result of an async step: resolved, or rejected with a message. */
  datatype Outcome<+E> = Pass | Fail(error: E)

  /** `'admin' | 'user' | 'guest'`. */
  datatype Role = Admin | UserRole | Guest

  /** A signed-in identity. */
  datatype User = User(id: string, name: string, email: string, avatar: Option<string>, role: Role)

  /** The response envelope every API call resolves to. */
  datatype ApiResponse<T> = ApiResponse(data: T, success: bool, message: Option<string>, error: Option<string>)

  /** How an awaited service call settled: it resolved with a response,
      or it rejected with an error message. */
  datatype Settled<T> = Responded(response: ApiResponse<T>) | Threw(error: string)

  /** The form record of the contact page. */
  datatype ContactFormData = ContactFormData(name: string, email: string, subject: string, message: string)

  /** JavaScript truthiness of an optional string: present and non-empty. */
  predicate Truthy(s: Option<string>) {
    s.Some? && s.value != ""
  }

  /** `a || b` on optional strings: `a` when it is truthy, `b` otherwise. */
  function OrElse(a: Option<string>, b: string): (r: string)
    ensures Truthy(a) ==> r == a.value
    ensures !Truthy(a) ==> r == b
  {
    if a.Some? && a.value != "" then a.value else b
  }
}
