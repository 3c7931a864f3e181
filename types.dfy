// The record shapes of the API management console: an API definition, the
// values its form submits, and the navigation menu entries.

module ApiTypes {

  datatype Option<T> = None | Some(value: T)

  /** The HTTP method of an API definition: exactly one of four. */
  datatype HttpMethod = GET | POST | PUT | DELETE

  /** Lifecycle status of an API definition: exactly one of two. */
  datatype Status = Draft | Published

  /** An API definition. Timestamps are values read from an injected clock. */
  datatype Api = Api(
    id: string,
    name: string,
    description: string,
    business: string,
    httpMethod: HttpMethod,
    status: Status,
    createdAt: nat,
    updatedAt: nat)

  /** The four fields the create/edit form submits once validated. */
  datatype FormValues = FormValues(
    name: string,
    description: string,
    business: string,
    httpMethod: HttpMethod)

  /** A navigation menu entry, identified by its key and shown by its label (`caption`). */
  datatype MenuItem = MenuItem(key: string, caption: string)

  /** The string literal the source uses for a method. */
  function MethodName(m: HttpMethod): string {
    match m
    case GET => "GET"
    case POST => "POST"
    case PUT => "PUT"
    case DELETE => "DELETE"
  }

  /** Reads a method back from its string literal; any other string is not a method. */
  function ParseMethod(s: string): (r: Option<HttpMethod>)
    ensures r.Some? <==> s in {"GET", "POST", "PUT", "DELETE"}
    ensures r.Some? ==> MethodName(r.value) == s
  {
    if s == "GET" then Some(GET)
    else if s == "POST" then Some(POST)
    else if s == "PUT" then Some(PUT)
    else if s == "DELETE" then Some(DELETE)
    else None
  }

  /** The string literal the source uses for a status. */
  function StatusName(st: Status): string {
    match st
    case Draft => "draft"
    case Published => "published"
  }

  /** Reads a status back from its string literal; any other string is not a status. */
  function ParseStatus(s: string): (r: Option<Status>)
    ensures r.Some? <==> s in {"draft", "published"}
    ensures r.Some? ==> StatusName(r.value) == s
  {
    if s == "draft" then Some(Draft)
    else if s == "published" then Some(Published)
    else None
  }

  /** Every method survives the trip to its string literal and back. */
  lemma MethodNameRoundTrip(m: HttpMethod)
    ensures ParseMethod(MethodName(m)) == Some(m)
  {
  }

  /** Every status survives the trip to its string literal and back. */
  lemma StatusNameRoundTrip(st: Status)
    ensures ParseStatus(StatusName(st)) == Some(st)
  {
  }

  /** The form fields of a record: what the form shows when it edits that record. */
  function FormOf(a: Api): FormValues {
    FormValues(a.name, a.description, a.business, a.httpMethod)
  }
}
