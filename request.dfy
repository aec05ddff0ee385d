/** The request side of a conformance test: where the body of the request
    comes from, whether the test is a deliberately malformed ("bad") one,
    the authorization to attach and the parameter overrides, together with
    the builders that produce and transform such a description, and the
    resolved request record.

    The authorization, operation and resolved-parameter types are defined
    outside this file, so they are type parameters here. */
module Request {
  import opened Param

  /** Raw request bodies are byte strings. */
  type Bytes = seq<bv8>

  /** Headers of a resolved request: each header name with its values in order. */
  type HeaderMap = map<string, seq<Bytes>>

  /** The media type fixed by `from_json_example`. */
  const JsonMediaType: string := "application/json"

  /** Where the request body comes from: a declared example, bytes given
      verbatim, or no body at all. */
  datatype RequestSource =
    | Example(mediaType: string, name: string)
    | Raw(body: Bytes)
    | Empty

  /** The declarative request description. `params` is kept in the order the
      overrides were added. */
  datatype RequestSpec<Auth> = RequestSpec(
    source: RequestSource,
    bad: bool,
    auth: Option<Auth>,
    params: seq<ParamReplacement>)

  datatype Option<T> = None | Some(value: T)

  /** The resolved, concrete request handed to the transport. */
  datatype TestRequest<Operation, TestParam> = TestRequest(
    operation: Operation,
    headers: HeaderMap,
    params: seq<TestParam>,
    body: Bytes)

  /** `RequestSpec::empty`: the base every constructor starts from. */
  function EmptySpec<Auth>(): (r: RequestSpec<Auth>)
    ensures r.source == Empty
    ensures !r.bad && r.auth == None && r.params == []
  {
    RequestSpec(Empty, false, None, [])
  }

  /** `RequestSpec::from_example`: the body is the declared example with this
      media type and name; everything else is as in `EmptySpec`. */
  function FromExample<Auth>(mediaType: string, name: string): (r: RequestSpec<Auth>)
    ensures r.source == Example(mediaType, name)
    ensures r.bad == EmptySpec<Auth>().bad
    ensures r.auth == EmptySpec<Auth>().auth
    ensures r.params == EmptySpec<Auth>().params
  {
    EmptySpec().(source := Example(mediaType, name))
  }

  /** `RequestSpec::from_json_example`. The Rust builder writes its own struct
      literal rather than calling `from_example`; `FromJsonExampleIsFromExample`
      shows the two agree. */
  function FromJsonExample<Auth>(name: string): (r: RequestSpec<Auth>)
    ensures r.source.Example? && r.source.name == name
    ensures r.source.mediaType == JsonMediaType
    ensures !r.bad && r.auth == None && r.params == []
  {
    EmptySpec().(source := Example("application/json", name))
  }

  /** `RequestSpec::from_bad_raw`: the bytes are sent verbatim and the test
      is marked bad, whatever the bytes are (the empty sequence included). */
  function FromBadRaw<Auth>(body: Bytes): (r: RequestSpec<Auth>)
    ensures r.source == Raw(body) && r.bad
    ensures r.auth == None && r.params == []
  {
    EmptySpec().(source := Raw(body), bad := true)
  }

  /** `RequestSpec::with_auth`: attaches (a copy of) the authorization and
      keeps every other field. */
  function WithAuth<Auth>(s: RequestSpec<Auth>, auth: Auth): (r: RequestSpec<Auth>)
    ensures r.auth == Some(auth)
    ensures r.source == s.source && r.bad == s.bad && r.params == s.params
  {
    s.(auth := Some(auth))
  }

  /** `RequestSpec::add_param`: one more override at the end of `params`;
      the earlier overrides keep their positions and nothing else changes. */
  function AddParam<Auth>(s: RequestSpec<Auth>, name: string, value: string): (r: RequestSpec<Auth>)
    ensures |r.params| == |s.params| + 1
    ensures r.params[..|s.params|] == s.params
    ensures r.params[|s.params|] == ParamReplacement(name, value)
    ensures r.source == s.source && r.bad == s.bad && r.auth == s.auth
  {
    s.(params := s.params + [NewReplacement(name, value)])
  }

  /** `AddParam` written as statements, in the order of the Rust builder:
      build the replacement, append it to a local copy of the parameter list,
      store the list back. The list is a value here, so the `Vec::push` in
      place becomes an append to a sequence. */
  method PushParam<Auth>(s: RequestSpec<Auth>, name: string, value: string) returns (r: RequestSpec<Auth>)
    ensures r == AddParam(s, name, value)
    ensures r.params == s.params + [ParamReplacement(name, value)]
  {
    r := s;
    var param := NewReplacement(name, value);
    var params := r.params;
    params := params + [param];
    r := r.(params := params);
  }

  /** The four constructors, as data, so that a property can range over all of them. */
  datatype Constructor =
    | EmptyCtor
    | ExampleCtor(mediaType: string, name: string)
    | JsonExampleCtor(name: string)
    | BadRawCtor(body: Bytes)

  function Construct<Auth>(c: Constructor): RequestSpec<Auth>
  {
    match c
    case EmptyCtor => EmptySpec()
    case ExampleCtor(m, n) => FromExample(m, n)
    case JsonExampleCtor(n) => FromJsonExample(n)
    case BadRawCtor(b) => FromBadRaw(b)
  }

  /** `from_json_example(n)` is `from_example("application/json", n)`. */
  lemma FromJsonExampleIsFromExample<Auth>(name: string)
    ensures FromJsonExample<Auth>(name) == FromExample<Auth>(JsonMediaType, name)
  {
  }

  /** Distinct media types or names give distinct specs. */
  lemma FromExampleInjective<Auth>(m1: string, n1: string, m2: string, n2: string)
    ensures FromExample<Auth>(m1, n1) == FromExample<Auth>(m2, n2) <==> m1 == m2 && n1 == n2
  {
    if FromExample<Auth>(m1, n1) == FromExample<Auth>(m2, n2) {
      assert FromExample<Auth>(m1, n1).source == FromExample<Auth>(m2, n2).source;
    }
  }

  /** Of the constructors, exactly `from_bad_raw` sets the bad flag; every
      constructor leaves the authorization and the overrides empty. */
  lemma OnlyBadRawIsBad<Auth>(c: Constructor)
    ensures Construct<Auth>(c).bad <==> c.BadRawCtor?
    ensures Construct<Auth>(c).bad <==> Construct<Auth>(c).source.Raw?
    ensures Construct<Auth>(c).auth == None && Construct<Auth>(c).params == []
  {
  }

  /** `with_auth` is last-wins: the second authorization replaces the first. */
  lemma WithAuthLastWins<Auth>(s: RequestSpec<Auth>, a: Auth, b: Auth)
    ensures WithAuth(WithAuth(s, a), b) == WithAuth(s, b)
  {
  }

  /** Attaching the same authorization again changes nothing: last-wins
      with both authorizations equal. */
  lemma WithAuthIdempotent<Auth>(s: RequestSpec<Auth>, a: Auth)
    ensures WithAuth(WithAuth(s, a), a) == WithAuth(s, a)
  {
    WithAuthLastWins(s, a, a);
  }

  /** `with_auth` and `add_param` touch disjoint fields, so they commute. */
  lemma WithAuthAddParamCommute<Auth>(s: RequestSpec<Auth>, a: Auth, name: string, value: string)
    ensures AddParam(WithAuth(s, a), name, value) == WithAuth(AddParam(s, name, value), a)
  {
  }

  /** Two `add_param` calls leave their overrides in call order. */
  lemma AddParamTwice<Auth>(s: RequestSpec<Auth>, n1: string, v1: string, n2: string, v2: string)
    ensures AddParam(AddParam(s, n1, v1), n2, v2).params
         == s.params + [ParamReplacement(n1, v1), ParamReplacement(n2, v2)]
  {
  }
}
