/** The `inject_config` decorator of config.py. A wrapped call fills every
    parameter that was passed neither positionally nor by keyword (a keyword
    bound to the `DEFAULT` sentinel counts as not passed) with
    `configured(annotation)`, when the parameter is annotated, and then calls
    the wrapped function once with the positional arguments and the completed
    keyword arguments. */
module Inject {
  import opened Wrappers
  import opened Config

  /** A parameter as `inspect.signature` reports it: its name and its
      annotation, the configuration key, if it has one. */
  datatype Parameter = Parameter(name: string, annotation: Option<string>)

  /** A wrapped function: its signature and the code it runs on a call. */
  datatype Function = Function(
    params: seq<Parameter>,
    call: (seq<Value>, map<string, Value>) -> Result<Value, Error>)

  /** Python refuses a signature that repeats a parameter name. */
  predicate DistinctNames(ps: seq<Parameter>) {
    forall i, j :: 0 <= i < j < |ps| ==> ps[i].name != ps[j].name
  }

  /** `kwargs.get(name, DEFAULT) is not DEFAULT`. */
  predicate Supplied(kwargs: map<string, Value>, name: string) {
    name in kwargs && kwargs[name] != Default
  }

  /** A parameter the wrapper resolves: not supplied, and annotated. */
  predicate Gap(p: Parameter, kwargs: map<string, Value>) {
    !Supplied(kwargs, p.name) && p.annotation.Some?
  }

  /** `list(sig.parameters)[len(args):]`: Python's slice is empty when there
      are at least as many positional arguments as parameters. */
  function Unfilled(ps: seq<Parameter>, nargs: nat): (r: seq<Parameter>)
    ensures nargs <= |ps| ==> |r| == |ps| - nargs && forall i :: 0 <= i < |r| ==> r[i] == ps[nargs + i]
    ensures nargs >= |ps| ==> r == []
  {
    if nargs <= |ps| then ps[nargs..] else []
  }

  /** The names of the annotated parameters of `ps`. */
  function AnnotatedNames(ps: seq<Parameter>): set<string> {
    set i | 0 <= i < |ps| && ps[i].annotation.Some? :: ps[i].name
  }

  lemma AnnotatedNamesTail(ps: seq<Parameter>)
    requires ps != []
    ensures AnnotatedNames(ps) ==
      AnnotatedNames(ps[1..]) + if ps[0].annotation.Some? then {ps[0].name} else {}
  {
    var tail := AnnotatedNames(ps[1..]);
    forall n | n in AnnotatedNames(ps) ensures n in tail || (ps[0].annotation.Some? && n == ps[0].name) {
      var i :| 0 <= i < |ps| && ps[i].annotation.Some? && ps[i].name == n;
      if i > 0 { assert ps[1..][i - 1] == ps[i]; }
    }
    forall n | n in tail ensures n in AnnotatedNames(ps) {
      var i :| 0 <= i < |ps| - 1 && ps[1..][i].annotation.Some? && ps[1..][i].name == n;
      assert ps[i + 1] == ps[1..][i];
    }
  }

  /** The keyword arguments after the wrapper's loop over `ps`, or the first
      resolution error. Explicit keywords are kept, only annotated parameters
      are added, and every annotated parameter ends up supplied. */
  function Fill(env: Env, ps: seq<Parameter>, kwargs: map<string, Value>): (r: Result<map<string, Value>, Error>)
    ensures r.Ok? ==> forall n :: Supplied(kwargs, n) ==> n in r.value && r.value[n] == kwargs[n]
    ensures r.Ok? ==> r.value.Keys <= kwargs.Keys + AnnotatedNames(ps)
    ensures r.Ok? ==> forall n :: n in AnnotatedNames(ps) ==> Supplied(r.value, n)
    decreases |ps|
  {
    if ps == [] then Ok(kwargs)
    else
      var p := ps[0];
      AnnotatedNamesTail(ps);
      if Gap(p, kwargs) then
        var v :- Configured(env, p.annotation.value, None);
        Fill(env, ps[1..], kwargs[p.name := v])
      else
        Fill(env, ps[1..], kwargs)
  }


  /** The keyword arguments the wrapper passes on, for a call with `args`
      and `kwargs`. */
  function FilledKwargs(env: Env, f: Function, args: seq<Value>, kwargs: map<string, Value>): Result<map<string, Value>, Error> {
    Fill(env, Unfilled(f.params, |args|), kwargs)
  }

  /** What a call of the wrapper returns or raises. A resolution error
      propagates and the function is not called; otherwise the function is
      called once, with the positional arguments unchanged and with keywords
      that keep every value the caller supplied. */
  function Injected(env: Env, f: Function, args: seq<Value>, kwargs: map<string, Value>): (r: Result<Value, Error>)
    ensures FilledKwargs(env, f, args, kwargs).Err? ==> r == Err(FilledKwargs(env, f, args, kwargs).error)
    ensures FilledKwargs(env, f, args, kwargs).Ok? ==>
      var filled := FilledKwargs(env, f, args, kwargs).value;
      r == f.call(args, filled) && forall k :: Supplied(kwargs, k) ==> k in filled && filled[k] == kwargs[k]
  {
    var filled :- FilledKwargs(env, f, args, kwargs);
    f.call(args, filled)
  }

  /** The wrapper: fills the gaps of `kwargs` in place, parameter by
      parameter, then calls `f` once. */
  method InjectedCall(env: Env, f: Function, args: seq<Value>, kwargs: map<string, Value>) returns (r: Result<Value, Error>)
    ensures r == Injected(env, f, args, kwargs)
  {
    var ps := Unfilled(f.params, |args|);
    var kw := kwargs;
    var i := 0;
    while i < |ps|
      invariant 0 <= i <= |ps|
      invariant Fill(env, ps, kwargs) == Fill(env, ps[i..], kw)
    {
      var p := ps[i];
      assert ps[i..][1..] == ps[i + 1..];
      if !Supplied(kw, p.name) && p.annotation.Some? {
        var v := Configured(env, p.annotation.value, None);
        if v.Err? {
          return Err(v.error);
        }
        kw := kw[p.name := v.value];
      }
      i := i + 1;
    }
    r := f.call(args, kw);
  }


  // ---------------------------------------------------------------------
  // Properties of the wrapper

  /** One step of the loop on a gap that resolves to `v`. */
  lemma FillGapStep(env: Env, ps: seq<Parameter>, kwargs: map<string, Value>, v: Value)
    requires ps != [] && Gap(ps[0], kwargs)
    requires Configured(env, ps[0].annotation.value, None) == Ok(v)
    ensures Fill(env, ps, kwargs) == Fill(env, ps[1..], kwargs[ps[0].name := v])
  {
  }

  /** One step of the loop on a parameter that is not a gap. */
  lemma FillSkipStep(env: Env, ps: seq<Parameter>, kwargs: map<string, Value>)
    requires ps != [] && !Gap(ps[0], kwargs)
    ensures Fill(env, ps, kwargs) == Fill(env, ps[1..], kwargs)
  {
  }

  lemma DistinctTail(ps: seq<Parameter>)
    requires DistinctNames(ps) && ps != []
    ensures DistinctNames(ps[1..])
  {
    forall i, j | 0 <= i < j < |ps| - 1 ensures ps[1..][i].name != ps[1..][j].name {
      assert ps[1..][i] == ps[i + 1] && ps[1..][j] == ps[j + 1];
    }
  }

  /** Filling the first parameter does not change whether a later, distinctly
      named parameter is a gap. */
  lemma GapShift(ps: seq<Parameter>, kwargs: map<string, Value>, kw': map<string, Value>, j: nat)
    requires DistinctNames(ps) && 0 < j < |ps|
    requires kw' == kwargs || (ps[0].name in kw' && kw' == kwargs[ps[0].name := kw'[ps[0].name]])
    ensures ps[1..][j - 1] == ps[j]
    ensures Gap(ps[j], kw') == Gap(ps[j], kwargs)
  {
    assert ps[j].name != ps[0].name;
  }

  /** A name that is no parameter's gap keeps its presence and its value. */
  lemma {:induction false} FillLeavesOthers(env: Env, ps: seq<Parameter>, kwargs: map<string, Value>, n: string)
    requires forall i :: 0 <= i < |ps| && ps[i].name == n ==> !Gap(ps[i], kwargs)
    requires Fill(env, ps, kwargs).Ok?
    ensures n in Fill(env, ps, kwargs).value <==> n in kwargs
    ensures n in kwargs ==> Fill(env, ps, kwargs).value[n] == kwargs[n]
    decreases |ps|
  {
    if ps != [] {
      var p := ps[0];
      var kw' := kwargs;
      if Gap(p, kwargs) {
        var v := Configured(env, p.annotation.value, None).value;
        FillGapStep(env, ps, kwargs, v);
        kw' := kwargs[p.name := v];
      } else {
        FillSkipStep(env, ps, kwargs);
      }
      forall i | 0 <= i < |ps| - 1 && ps[1..][i].name == n ensures !Gap(ps[1..][i], kw') {
        assert ps[1..][i] == ps[i + 1];
      }
      FillLeavesOthers(env, ps[1..], kw', n);
    }
  }

  /** Every gap is filled with a fresh resolution of its own annotation. */
  lemma {:induction false} FillResolvesGaps(env: Env, ps: seq<Parameter>, kwargs: map<string, Value>, k: nat)
    requires DistinctNames(ps)
    requires k < |ps| && Gap(ps[k], kwargs)
    requires Fill(env, ps, kwargs).Ok?
    ensures ps[k].name in Fill(env, ps, kwargs).value
    ensures Configured(env, ps[k].annotation.value, None) == Ok(Fill(env, ps, kwargs).value[ps[k].name])
    decreases |ps|
  {
    var p := ps[0];
    var rest := ps[1..];
    if k == 0 {
      var v := Configured(env, p.annotation.value, None).value;
      FillGapStep(env, ps, kwargs, v);
      forall j | 0 <= j < |rest| ensures rest[j].name != p.name {
        assert rest[j] == ps[j + 1];
      }
      FillLeavesOthers(env, rest, kwargs[p.name := v], p.name);
    } else {
      var kw' := kwargs;
      if Gap(p, kwargs) {
        var v := Configured(env, p.annotation.value, None).value;
        FillGapStep(env, ps, kwargs, v);
        kw' := kwargs[p.name := v];
      } else {
        FillSkipStep(env, ps, kwargs);
      }
      GapShift(ps, kwargs, kw', k);
      DistinctTail(ps);
      FillResolvesGaps(env, rest, kw', k - 1);
    }
  }

  /** Gap `k` of `ps` cannot be resolved. */
  predicate FailsAt(env: Env, ps: seq<Parameter>, kwargs: map<string, Value>, k: int) {
    0 <= k < |ps| && Gap(ps[k], kwargs) && Configured(env, ps[k].annotation.value, None).Err?
  }

  /** Every gap before position `k` resolves. */
  predicate ResolvesBefore(env: Env, ps: seq<Parameter>, kwargs: map<string, Value>, k: int) {
    forall j :: 0 <= j < k && j < |ps| && Gap(ps[j], kwargs) ==> Configured(env, ps[j].annotation.value, None).Ok?
  }

  /** The loop fails exactly when some gap's resolution fails. */
  lemma {:induction false} FillFailsIffGapFails(env: Env, ps: seq<Parameter>, kwargs: map<string, Value>)
    requires DistinctNames(ps)
    ensures Fill(env, ps, kwargs).Err? <==> exists k :: FailsAt(env, ps, kwargs, k)
    decreases |ps|
  {
    if ps != [] {
      var p := ps[0];
      if Gap(p, kwargs) && Configured(env, p.annotation.value, None).Err? {
        assert FailsAt(env, ps, kwargs, 0);
      } else {
        var kw' := kwargs;
        if Gap(p, kwargs) {
          var v := Configured(env, p.annotation.value, None).value;
          FillGapStep(env, ps, kwargs, v);
          kw' := kwargs[p.name := v];
        } else {
          FillSkipStep(env, ps, kwargs);
        }
        DistinctTail(ps);
        FillFailsIffGapFails(env, ps[1..], kw');
        if Fill(env, ps, kwargs).Err? {
          var k :| FailsAt(env, ps[1..], kw', k);
          GapShift(ps, kwargs, kw', k + 1);
          assert FailsAt(env, ps, kwargs, k + 1);
        }
        if k :| FailsAt(env, ps, kwargs, k) {
          GapShift(ps, kwargs, kw', k);
          assert FailsAt(env, ps[1..], kw', k - 1);
        }
      }
    }
  }

  /** A failing loop raises the error of the first gap that fails, and every
      gap before it resolved. */
  lemma {:induction false} FillErrorIsFirst(env: Env, ps: seq<Parameter>, kwargs: map<string, Value>)
    requires DistinctNames(ps)
    requires Fill(env, ps, kwargs).Err?
    ensures exists k :: (FailsAt(env, ps, kwargs, k) && ResolvesBefore(env, ps, kwargs, k)
      && Configured(env, ps[k].annotation.value, None) == Err(Fill(env, ps, kwargs).error))
    decreases |ps|
  {
    var p := ps[0];
    if Gap(p, kwargs) && Configured(env, p.annotation.value, None).Err? {
      assert FailsAt(env, ps, kwargs, 0) && ResolvesBefore(env, ps, kwargs, 0);
    } else {
      var kw' := kwargs;
      if Gap(p, kwargs) {
        var v := Configured(env, p.annotation.value, None).value;
        FillGapStep(env, ps, kwargs, v);
        kw' := kwargs[p.name := v];
      } else {
        FillSkipStep(env, ps, kwargs);
      }
      DistinctTail(ps);
      FillErrorIsFirst(env, ps[1..], kw');
      var k :| FailsAt(env, ps[1..], kw', k) && ResolvesBefore(env, ps[1..], kw', k)
        && Configured(env, ps[1..][k].annotation.value, None) == Err(Fill(env, ps[1..], kw').error);
      GapShift(ps, kwargs, kw', k + 1);
      forall j | 0 <= j < k + 1 && j < |ps| && Gap(ps[j], kwargs)
        ensures Configured(env, ps[j].annotation.value, None).Ok?
      {
        if j > 0 {
          GapShift(ps, kwargs, kw', j);
        }
      }
      assert FailsAt(env, ps, kwargs, k + 1) && ResolvesBefore(env, ps, kwargs, k + 1);
    }
  }

  /** With no gap, the loop returns the keywords untouched and reads nothing,
      so explicit arguments bypass resolution whatever the environment. */
  lemma {:induction false} NoGapNoResolution(env: Env, ps: seq<Parameter>, kwargs: map<string, Value>)
    requires forall i :: 0 <= i < |ps| ==> !Gap(ps[i], kwargs)
    ensures Fill(env, ps, kwargs) == Ok(kwargs)
    decreases |ps|
  {
    if ps != [] {
      FillSkipStep(env, ps, kwargs);
      assert forall i :: 0 <= i < |ps| - 1 ==> ps[1..][i] == ps[i + 1];
      NoGapNoResolution(env, ps[1..], kwargs);
    }
  }

  /** Filling is idempotent: a second pass, under any environment, resolves
      nothing more and changes nothing. */
  lemma FillIdempotent(env: Env, env': Env, ps: seq<Parameter>, kwargs: map<string, Value>)
    requires Fill(env, ps, kwargs).Ok?
    ensures Fill(env', ps, Fill(env, ps, kwargs).value) == Fill(env, ps, kwargs)
  {
    var kw := Fill(env, ps, kwargs).value;
    forall i | 0 <= i < |ps| ensures !Gap(ps[i], kw) {
      if ps[i].annotation.Some? {
        assert ps[i].name in AnnotatedNames(ps);
      }
    }
    NoGapNoResolution(env', ps, kw);
  }

  /** Parameters bound positionally are never touched by the wrapper. */
  lemma PositionalUntouched(env: Env, f: Function, args: seq<Value>, kwargs: map<string, Value>, k: nat)
    requires DistinctNames(f.params)
    requires k < |args| && k < |f.params|
    requires FilledKwargs(env, f, args, kwargs).Ok?
    ensures var n := f.params[k].name;
      (n in FilledKwargs(env, f, args, kwargs).value <==> n in kwargs)
      && (n in kwargs ==> FilledKwargs(env, f, args, kwargs).value[n] == kwargs[n])
  {
    var ps := Unfilled(f.params, |args|);
    forall j | 0 <= j < |ps| ensures ps[j].name != f.params[k].name {
      assert ps[j] == f.params[|args| + j];
    }
    FillLeavesOthers(env, ps, kwargs, f.params[k].name);
  }

  /** With at least as many positional arguments as parameters nothing is
      resolved, and the call goes straight to the wrapped function. */
  lemma SurplusPositionalResolvesNothing(env: Env, f: Function, args: seq<Value>, kwargs: map<string, Value>)
    requires |args| >= |f.params|
    ensures FilledKwargs(env, f, args, kwargs) == Ok(kwargs)
    ensures Injected(env, f, args, kwargs) == f.call(args, kwargs)
  {
  }

  /** An unannotated parameter that was not passed stays absent, so the
      wrapped function sees its usual missing argument. */
  lemma UnannotatedStaysAbsent(env: Env, f: Function, args: seq<Value>, kwargs: map<string, Value>, k: nat)
    requires DistinctNames(f.params)
    requires |args| <= k < |f.params| && f.params[k].annotation.None? && f.params[k].name !in kwargs
    requires FilledKwargs(env, f, args, kwargs).Ok?
    ensures f.params[k].name !in FilledKwargs(env, f, args, kwargs).value
  {
    var ps := Unfilled(f.params, |args|);
    forall j | 0 <= j < |ps| && ps[j].name == f.params[k].name ensures !Gap(ps[j], kwargs) {
      assert ps[j] == f.params[|args| + j];
    }
    FillLeavesOthers(env, ps, kwargs, f.params[k].name);
  }
}
