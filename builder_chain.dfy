/** A request spec is normally built as one constructor followed by a chain
    of `.with_auth(..)` and `.add_param(..)` calls. This module describes such
    a chain as data and proves what any chain does: the overrides are appended
    in call order, the last authorization wins, and the source and the bad
    flag are never touched. */
module BuilderChain {
  import opened Param
  import opened Request

  /** One call in a builder chain. */
  datatype Step<Auth> =
    | AuthStep(auth: Auth)
    | ParamStep(name: string, value: string)

  function ApplyStep<Auth>(s: RequestSpec<Auth>, step: Step<Auth>): RequestSpec<Auth>
  {
    match step
    case AuthStep(a) => WithAuth(s, a)
    case ParamStep(n, v) => AddParam(s, n, v)
  }

  /** The chain applied left to right, as method calls on a value are. */
  function ApplyChain<Auth>(s: RequestSpec<Auth>, steps: seq<Step<Auth>>): RequestSpec<Auth>
    decreases |steps|
  {
    if steps == [] then s else ApplyChain(ApplyStep(s, steps[0]), steps[1..])
  }

  /** The overrides a chain adds, in call order. */
  function ParamsOf<Auth>(steps: seq<Step<Auth>>): seq<ParamReplacement>
  {
    if steps == [] then []
    else match steps[0]
      case AuthStep(_) => ParamsOf(steps[1..])
      case ParamStep(n, v) => [ParamReplacement(n, v)] + ParamsOf(steps[1..])
  }

  /** The authorizations a chain attaches, in call order. */
  function AuthsOf<Auth>(steps: seq<Step<Auth>>): seq<Auth>
  {
    if steps == [] then []
    else match steps[0]
      case AuthStep(a) => [a] + AuthsOf(steps[1..])
      case ParamStep(_, _) => AuthsOf(steps[1..])
  }

  /** Every step of a chain either adds one override or attaches one
      authorization, so a chain of n calls adds n minus the number of its
      `with_auth` calls overrides. */
  lemma {:induction false} StepsSplit<Auth>(steps: seq<Step<Auth>>)
    ensures |ParamsOf(steps)| + |AuthsOf(steps)| == |steps|
    decreases |steps|
  {
    if steps != [] {
      StepsSplit(steps[1..]);
    }
  }

  /** The last of `auths`, or `fallback` when there is none. */
  function LastOr<Auth>(auths: seq<Auth>, fallback: Option<Auth>): Option<Auth>
  {
    if auths == [] then fallback else Some(auths[|auths| - 1])
  }

  /** Normal form of a chain: the overrides of the chain are appended to those
      already present, in call order; the authorization is the last one the
      chain attaches, or the previous one when it attaches none; the source and
      the bad flag are those of the starting spec. */
  lemma {:induction false} ChainNormalForm<Auth>(s: RequestSpec<Auth>, steps: seq<Step<Auth>>)
    ensures ApplyChain(s, steps)
         == RequestSpec(s.source, s.bad, LastOr(AuthsOf(steps), s.auth), s.params + ParamsOf(steps))
    decreases |steps|
  {
    if steps == [] {
      assert s.params + [] == s.params;
    } else {
      var rest := steps[1..];
      var t := ApplyStep(s, steps[0]);
      ChainNormalForm(t, rest);
      match steps[0]
      case AuthStep(a) =>
        assert AuthsOf(steps) == [a] + AuthsOf(rest);
        assert ParamsOf(steps) == ParamsOf(rest);
        if AuthsOf(rest) != [] {
          assert ([a] + AuthsOf(rest))[|AuthsOf(steps)| - 1] == AuthsOf(rest)[|AuthsOf(rest)| - 1];
        }
      case ParamStep(n, v) =>
        assert AuthsOf(steps) == AuthsOf(rest);
        assert ParamsOf(steps) == [ParamReplacement(n, v)] + ParamsOf(rest);
        assert t.params + ParamsOf(rest) == s.params + ParamsOf(steps);
    }
  }

  /** No chain of `with_auth` and `add_param` calls changes the source or the
      bad flag. Direct writes to the public fields are not builder calls and
      are outside this statement. */
  lemma ChainKeepsSourceAndBad<Auth>(s: RequestSpec<Auth>, steps: seq<Step<Auth>>)
    ensures ApplyChain(s, steps).source == s.source
    ensures ApplyChain(s, steps).bad == s.bad
  {
    ChainNormalForm(s, steps);
  }

  /** A chain of n calls, k of them `with_auth`, adds exactly n - k overrides. */
  lemma ChainParamCount<Auth>(s: RequestSpec<Auth>, steps: seq<Step<Auth>>)
    ensures |ApplyChain(s, steps).params| == |s.params| + |steps| - |AuthsOf(steps)|
  {
    ChainNormalForm(s, steps);
    StepsSplit(steps);
  }

  /** Whatever chain follows the constructor, the spec is bad exactly when the
      constructor was `from_bad_raw`. A spec whose public `bad` field is
      written directly is not built this way and is outside this statement. */
  lemma BadOnlyFromBadRaw<Auth>(c: Constructor, steps: seq<Step<Auth>>)
    ensures ApplyChain(Construct<Auth>(c), steps).bad <==> c.BadRawCtor?
  {
    ChainKeepsSourceAndBad(Construct<Auth>(c), steps);
    OnlyBadRawIsBad<Auth>(c);
  }

  /** Two chains that add the same overrides in the same order and end on the
      same authorization build the same spec, however the `with_auth` and
      `add_param` calls are interleaved. */
  lemma ChainsWithSameEffectAgree<Auth>(s: RequestSpec<Auth>, steps1: seq<Step<Auth>>, steps2: seq<Step<Auth>>)
    requires ParamsOf(steps1) == ParamsOf(steps2)
    requires LastOr(AuthsOf(steps1), s.auth) == LastOr(AuthsOf(steps2), s.auth)
    ensures ApplyChain(s, steps1) == ApplyChain(s, steps2)
  {
    ChainNormalForm(s, steps1);
    ChainNormalForm(s, steps2);
  }

  /** Running two chains one after the other is running their concatenation. */
  lemma {:induction false} ChainAppend<Auth>(s: RequestSpec<Auth>, steps1: seq<Step<Auth>>, steps2: seq<Step<Auth>>)
    ensures ApplyChain(ApplyChain(s, steps1), steps2) == ApplyChain(s, steps1 + steps2)
    decreases |steps1|
  {
    if steps1 == [] {
      assert steps1 + steps2 == steps2;
    } else {
      assert (steps1 + steps2)[0] == steps1[0];
      assert (steps1 + steps2)[1..] == steps1[1..] + steps2;
      ChainAppend(ApplyStep(s, steps1[0]), steps1[1..], steps2);
    }
  }
}
