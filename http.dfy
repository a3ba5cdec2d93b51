/** The Fetch `Response` objects that route actions and loaders return:
    `json(data)` and `redirect(url)` build one, and its `headers` list is
    appended to in place. */
module Http {
  import opened Wrappers
  import opened Forms

  /** One header line, name and value. */
  type Header = (string, string)

  /** The JSON bodies the form actions return. */
  datatype Payload =
    | ErrorRecord(errors: Errors)   // `{ errors }`
    | Succeeded                     // `{ success: true }`

  class Response {
    const status: nat
    const body: Option<Payload>
    /** The header list, in the order the lines were appended. */
    var headers: seq<Header>

    /** `json(payload)`: status 200 with a JSON content type. */
    constructor Json(payload: Payload)
      ensures status == 200 && body == Some(payload)
      ensures headers == [("Content-Type", "application/json; charset=utf-8")]
    {
      status := 200;
      body := Some(payload);
      headers := [("Content-Type", "application/json; charset=utf-8")];
    }

    /** `redirect(url)`: status 302 carrying a `Location` header. */
    constructor Redirect(url: string)
      ensures status == 302 && body == None
      ensures headers == [("Location", url)]
    {
      status := 302;
      body := None;
      headers := [("Location", url)];
    }

    /** `headers.append(name, value)`: adds one line after the others. */
    method Append(name: string, value: string)
      modifies this
      ensures headers == old(headers) + [(name, value)]
    {
      headers := headers + [(name, value)];
    }
  }

  /** The values of every header line called `name`, in order. */
  function ValuesOf(headers: seq<Header>, name: string): (vs: seq<string>)
    ensures |vs| <= |headers|
    ensures forall v :: v in vs <==> exists i :: 0 <= i < |headers| && headers[i] == (name, v)
  {
    if headers == [] then []
    else (if headers[0].0 == name then [headers[0].1] else []) + ValuesOf(headers[1..], name)
  }

  /** Appending a line adds its value at the end of the list when the
      name matches, so the values keep the order and the number of the
      lines. */
  lemma {:induction false} ValuesOfAppend(headers: seq<Header>, h: Header, name: string)
    ensures ValuesOf(headers + [h], name) == ValuesOf(headers, name) + (if h.0 == name then [h.1] else [])
    decreases |headers|
  {
    if headers != [] {
      assert (headers + [h])[1..] == headers[1..] + [h];
      ValuesOfAppend(headers[1..], h, name);
    }
  }
}
