/**
 * The slice of an HTTP request the gateway reads or writes: its method (`verb`),
 * its decoded path and its headers. Header names are case-insensitive
 * (Spring's HttpHeaders); the model stores each header under its
 * lower-cased name and lower-cases every name it looks up or sets.
 */
module Http {
  import opened Wrappers

  /** Header name to the list of its values, in arrival order; every name is stored lower-cased. */
  type Headers = h: map<string, seq<string>> | forall k :: k in h ==> Lower(k) == k
    witness map[]

  /** An inbound or forwarded request; `path` is `getURI().getPath()`. */
  datatype Request = Request(verb: string, path: string, headers: Headers)

  function LowerChar(c: char): char {
    if 'A' <= c <= 'Z' then (c as int + 32) as char else c
  }

  /** ASCII lower-casing of a header name. */
  function Lower(name: string): (lowered: string)
    ensures |lowered| == |name|
  {
    seq(|name|, i requires 0 <= i < |name| => LowerChar(name[i]))
  }

  /** Lower-casing a lower-cased name changes nothing. */
  lemma LowerIdempotent(name: string)
    ensures Lower(Lower(name)) == Lower(name)
  {
  }

  /**
   * `headers.getFirst(name)`: the first value stored under a name that equals
   * `name` up to case, or null when there is none or it has no value.
   */
  function GetFirst(headers: Headers, name: string): (found: Option<string>)
    ensures found.Some? ==>
      exists k :: k in headers && Lower(k) == Lower(name) && |headers[k]| > 0 && found.value == headers[k][0]
    ensures found.None? ==>
      forall k :: k in headers && Lower(k) == Lower(name) ==> headers[k] == []
  {
    var key := Lower(name);
    if key in headers && |headers[key]| > 0 then Some(headers[key][0]) else None
  }

  /**
   * `request.mutate().header(name, value).build()`: a copy of the request
   * whose header `name` now holds exactly `[value]`, whatever it held before.
   */
  function WithHeader(request: Request, name: string, value: string): (copy: Request)
    ensures copy.verb == request.verb && copy.path == request.path
  {
    LowerIdempotent(name);
    request.(headers := request.headers[Lower(name) := [value]])
  }

  /**
   * The copy's whole header map: the set header holds exactly `[value]`, so
   * nothing a client sent under that name survives; every other header keeps
   * its full list of values; no other name appears or disappears.
   */
  lemma WithHeaderFrame(request: Request, name: string, value: string)
    ensures WithHeader(request, name, value).headers.Keys == request.headers.Keys + {Lower(name)}
    ensures WithHeader(request, name, value).headers[Lower(name)] == [value]
    ensures forall k :: k in request.headers && k != Lower(name) ==>
      WithHeader(request, name, value).headers[k] == request.headers[k]
  {
  }

  /**
   * Reading a header back from the copy: the header that was set yields the
   * new value under any spelling of its name; every other header reads as before.
   */
  lemma GetFirstWithHeader(request: Request, name: string, value: string, other: string)
    ensures GetFirst(WithHeader(request, name, value).headers, other) ==
      if Lower(other) == Lower(name) then Some(value) else GetFirst(request.headers, other)
  {
  }
}
