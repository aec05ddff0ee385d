# Request specs of the OpenAPI conformance tester

This project models the request side of the conformance-testing component of
`oas3-rs` (`src/conformance/request.rs`). A conformance test describes the
request it sends as a `RequestSpec`. The spec holds four things:

- where the body comes from (`RequestSource`): a declared example, raw bytes or no body;
- whether the test is a deliberately malformed ("bad") one;
- an optional authorization;
- an ordered list of parameter overrides (`ParamReplacement`).

Specs are built with the builders `empty`, `from_example`, `from_json_example`,
`from_bad_raw`, `with_auth` and `add_param`. `TestRequest` is the record of the
resolved, concrete request.

Files:

- `param.dfy` (module `Param`) holds `ParamReplacement` as a (name, value) pair.
- `request.dfy` (module `Request`) holds the source variants, the spec, the
  resolved request record, the six builders and the lemmas about single builder
  calls.
- `builder_chain.dfy` (module `BuilderChain`) treats a chain of
  `.with_auth(..)` / `.add_param(..)` calls as data. It proves the normal form
  of any chain: overrides are appended in call order, the last authorization
  wins, and the source and the bad flag never change. From that it derives the
  rule that a spec built by one of the four constructors followed by
  `with_auth`/`add_param` calls is bad exactly when the constructor was
  `from_bad_raw`.

The authorization, operation and resolved-parameter types
(`TestAuthorization`, `TestOperation`, `TestParam`) are defined in files that
are not part of this model, so they are type parameters. `Bytes` is `seq<bv8>`.
`HeaderMap` is a plain map from header name to its values.

`add_param` takes the spec by value (`mut self`) and pushes onto its own
parameter list. Nothing else can observe that list, so the function `AddParam`
models it as a sequence append. The method `PushParam` is `AddParam` written as
statements in the Rust builder's order, and is proved equal to it; the list is
still a value there, not a vector updated in place.

## Model

| member | source | states |
|---|---|---|
| `Param.NewReplacement` | src/conformance/request.rs:81 | an override keeps the given name and value unvalidated |
| `Request.EmptySpec` | src/conformance/request.rs:22-29 | the base spec: no body, not bad, no authorization, no overrides |
| `Request.FromExample` | src/conformance/request.rs:31-43 | the source is the example with the given media type and name; bad flag, authorization and overrides are those of `empty()` |
| `Request.FromJsonExample` | src/conformance/request.rs:45-56 | the source is an example named as given with media type `application/json`; not bad, no authorization, no overrides |
| `Request.FromBadRaw` | src/conformance/request.rs:58-67 | the source is the given bytes verbatim and the spec is bad for every byte string, the empty one included; no authorization, no overrides |
| `Request.WithAuth` | src/conformance/request.rs:69-74 | the authorization becomes the given one; source, bad flag and overrides are unchanged |
| `Request.AddParam` | src/conformance/request.rs:76-84 | the override list grows by exactly one, earlier overrides keep their positions, the new one is last; source, bad flag and authorization are unchanged |
| `Request.PushParam` | src/conformance/request.rs:76-84 | building the override and appending it to a copy of the list yields the old list plus that override, i.e. `AddParam` |
| `Request.FromJsonExampleIsFromExample` | src/conformance/request.rs:31-56 | `from_json_example(n)` equals `from_example("application/json", n)` |
| `Request.FromExampleInjective` | src/conformance/request.rs:31-43 | two `from_example` specs are equal exactly when their media types and names are |
| `Request.OnlyBadRawIsBad` | src/conformance/request.rs:22-67 | among the four constructors a spec is bad exactly when it came from `from_bad_raw`, equivalently when its source is raw bytes; none sets an authorization or overrides |
| `Request.WithAuthLastWins` | src/conformance/request.rs:69-74 | attaching two authorizations in turn leaves the second |
| `Request.WithAuthIdempotent` | src/conformance/request.rs:69-74 | attaching the same authorization twice is the same as once (last-wins with equal authorizations) |
| `Request.WithAuthAddParamCommute` | src/conformance/request.rs:69-84 | `with_auth` and `add_param` commute |
| `Request.AddParamTwice` | src/conformance/request.rs:76-84 | two `add_param` calls append their overrides in call order |
| `BuilderChain.ChainNormalForm` | src/conformance/request.rs:69-84 | any chain of `with_auth`/`add_param` calls appends the chain's overrides in call order, ends on the chain's last authorization (or the previous one if it attaches none), and keeps source and bad flag |
| `BuilderChain.ChainKeepsSourceAndBad` | src/conformance/request.rs:69-84 | no chain of `with_auth`/`add_param` calls changes the source or the bad flag |
| `BuilderChain.BadOnlyFromBadRaw` | src/conformance/request.rs:22-84 | a constructor followed by any chain gives a bad spec exactly when the constructor was `from_bad_raw` |
| `BuilderChain.ChainsWithSameEffectAgree` | src/conformance/request.rs:69-84 | two chains with the same overrides in the same order and the same final authorization build the same spec, however their calls interleave |
| `BuilderChain.StepsSplit` | src/conformance/request.rs:69-84 | every builder call in a chain either adds one override or attaches one authorization |
| `BuilderChain.ChainParamCount` | src/conformance/request.rs:76-84 | a chain of n calls, k of them `with_auth`, grows the override list by exactly n - k |
| `BuilderChain.ChainAppend` | src/conformance/request.rs:69-84 | running one chain after another is running their concatenation |

## Left out

- `TestRequest` (src/conformance/request.rs:88-93) is modelled as a record only. The source gives it no operations, so no member states anything about it.
- Resolving a `RequestSpec` into a `TestRequest` is not part of this model, because the code that does it is not in `request.rs`. That covers example lookup, parameter substitution, path-template filling and authorization injection.
- Response validation, the test runner, transport, timeouts and concurrent dispatch are also not part of this model: they live in other modules or are I/O and concurrency.
- `TestAuthorization`, `TestOperation`, `TestParam` and `OperationSpec` are defined in files that are not part of this model. They are type parameters, and `OperationSpec` is not used by `request.rs` beyond its import.
- `ParamReplacement` keeps only its (name, value) pair. Any further structure of its type is not part of this model.
- `Param.NewReplacement`: `ParamReplacement::new` is assumed to store both strings as given; its definition is not part of this model, and line 81 only calls it.
- `BadOnlyFromBadRaw` / `ChainKeepsSourceAndBad`: all four fields of `RequestSpec` are public, so a spec can be made bad by a struct literal, and a `from_bad_raw` spec can have `bad` set back to false by a direct field write. These lemmas cover only specs built by a constructor followed by `with_auth`/`add_param` calls, not such direct writes.
- `ChainKeepsSourceAndBad`: see the line above; direct writes to the public fields are not covered.
- `PushParam`: the `Vec::push` in place is modelled as an append to a sequence value; there is no shared vector to alias.
- `HeaderMap` is a plain map from header name to values. It does not capture the case-insensitive header names or the insertion order of `http::HeaderMap`.
- The generic conversions `Into<String>` and `Into<Bytes>` are identity on the model's `string` and `Bytes`.
- `with_auth` clones the authorization it borrows. Values have no identity in the model, so the clone is the value itself.
