/** The configuration resolver of config.py: the chain table, the constructor
    registry and `configured(key, default)`, which reads a key from the
    environment and applies the key's registered constructor (or the identity)
    to the raw value or to the default. */
module Config {
  import opened Wrappers

  /** The process environment, read-only from the resolver's point of view. */
  type Env = map<string, string>

  /** The Python values the resolver and the wrapper hand around. `Object`
      stands for the open world of other values a wrapped function may be
      passed, return or raise; the resolver itself never makes one. */
  datatype Value =
    | Str(s: string)                               // a plain string, e.g. a raw environment value
    | ChainHandle(chain: string)                   // the handle `project.get_chain(chain)`
    | ContractHandle(chain: string, name: string)  // contract `name` fetched or deployed on that chain
    | Object(id: nat)                              // any other object a caller passes in
    | Default                                      // the module's `DEFAULT` sentinel

  /** The exceptions that propagate out of a resolution or a wrapped call.
      `Raised` stands for any exception a wrapped function may raise beyond
      the named ones; the resolver itself never raises it. */
  datatype Error =
    | KeyError(key: string)          // missing environment variable, or unknown chain name
    | AttributeError(name: string)   // the resolved active chain has no provider
    | TypeError(message: string)     // raised by a wrapped function on bad arguments
    | ValueError(message: string)    // raised by a wrapped function on a bad value
    | Raised(exception: Value)       // anything else a wrapped function raises

  /** The `chains` table: "testnet" is another name for the ropsten chain. */
  const Chains: map<string, Value> := map[
    "tester" := ChainHandle("tester"),
    "ropsten" := ChainHandle("ropsten"),
    "testnet" := ChainHandle("ropsten"),
    "mainnet" := ChainHandle("mainnet")]

  /** The names the `chains` table knows. */
  const KnownChains: set<string> := Chains.Keys

  /** The two constructors the registry holds. */
  datatype Constructor =
    | ChainByName            // lambda name: chains[name]
    | ContractOnActiveChain  // get_contract_from_active_chain

  /** The `constructors` registry. */
  const Constructors: map<string, Constructor> := map[
    "active_chain" := ChainByName,
    "manager_contract" := ContractOnActiveChain]

  /** How many registry levels a constructor may recurse through. */
  function Depth(c: Constructor): nat {
    match c
    case ChainByName => 0
    case ContractOnActiveChain => 1
  }

  function Rank(key: string): nat {
    if key in Constructors then Depth(Constructors[key]) else 0
  }

  /** `os.environ[key]` without a default, `os.environ.get(key, default)` with one. */
  function RawValue(env: Env, key: string, default: Option<string>): (r: Result<string, Error>)
    ensures r.Ok? <==> key in env || default.Some?
    ensures key in env ==> r == Ok(env[key])
    ensures key !in env && default.Some? ==> r == Ok(default.value)
    ensures r.Err? ==> r.error == KeyError(key)
  {
    match default
    case None => if key in env then Ok(env[key]) else Err(KeyError(key))
    case Some(d) => Ok(if key in env then env[key] else d)
  }

  /** `configured(key, default)`: the registered constructor, or the identity,
      applied to the environment's value for `key` or else to the default. */
  function Configured(env: Env, key: string, default: Option<string>): (r: Result<Value, Error>)
    ensures r.Ok? ==> r.value != Default
    ensures r.Ok? && key == "active_chain" ==> r.value.ChainHandle?
    ensures r.Ok? && key == "manager_contract" ==> r.value.ContractHandle?
    ensures r.Ok? && key !in Constructors ==> r.value.Str?
    decreases Rank(key), 2
  {
    var raw :- RawValue(env, key, default);
    if key in Constructors then Apply(Constructors[key], env, raw) else Ok(Str(raw))
  }

  /** A registered constructor applied to a raw value. */
  function Apply(c: Constructor, env: Env, raw: string): (r: Result<Value, Error>)
    ensures r.Ok? ==> r.value != Default
    ensures r.Ok? && c == ChainByName ==> r.value.ChainHandle? && raw in KnownChains
    ensures r.Ok? && c == ContractOnActiveChain ==> r.value.ContractHandle? && r.value.name == raw
    decreases Depth(c), 1
  {
    match c
    case ChainByName => if raw in Chains then Ok(Chains[raw]) else Err(KeyError(raw))
    case ContractOnActiveChain => ContractFromActiveChain(env, raw)
  }

  /** `get_contract_from_active_chain(name)`: resolves "active_chain" afresh and
      fetches (or deploys) contract `name` through that chain's provider. */
  function ContractFromActiveChain(env: Env, name: string): (r: Result<Value, Error>)
    ensures r.Ok? ==> r.value.ContractHandle? && r.value.name == name
    decreases 1, 0
  {
    var chain :- Configured(env, "active_chain", None);
    match chain
    case ChainHandle(c) => Ok(ContractHandle(c, name))
    case _ => Err(AttributeError("provider"))
  }

  /** The environment keys one resolution of `key` reads, in order. Nothing is
      cached, so a key read by a constructor is read again on every resolution. */
  ghost function Lookups(env: Env, key: string, default: Option<string>): seq<string>
    decreases Rank(key)
  {
    [key] +
      if key in Constructors && Constructors[key] == ContractOnActiveChain && RawValue(env, key, default).Ok?
      then Lookups(env, "active_chain", None)
      else []
  }

  // ---------------------------------------------------------------------
  // Properties of the resolver

  /** A resolution depends on the environment only through the keys that
      `Lookups` lists: two environments that agree on those keys give the
      same result. */
  lemma {:induction false} ConfiguredReadsOnlyLookups(e1: Env, e2: Env, key: string, default: Option<string>)
    requires forall k :: k in Lookups(e1, key, default) ==> (k in e1 <==> k in e2) && (k in e1 ==> e1[k] == e2[k])
    ensures Configured(e1, key, default) == Configured(e2, key, default)
    decreases Rank(key)
  {
    assert key in Lookups(e1, key, default);
    if key in Constructors && Constructors[key] == ContractOnActiveChain && RawValue(e1, key, default).Ok? {
      assert forall k :: k in Lookups(e1, "active_chain", None) ==> k in Lookups(e1, key, default);
      ConfiguredReadsOnlyLookups(e1, e2, "active_chain", None);
    }
  }

  /** Without a registered constructor the raw string comes back unchanged. */
  lemma IdentityFallback(env: Env, key: string, default: Option<string>)
    requires key !in Constructors
    ensures key in env ==> Configured(env, key, default) == Ok(Str(env[key]))
    ensures key !in env && default.Some? ==> Configured(env, key, default) == Ok(Str(default.value))
    ensures default.Some? ==> Configured(env, key, default).Ok?
    ensures Lookups(env, key, default) == [key]
  {
  }

  /** A registered constructor is applied to the environment value, and to
      the default too when the key is absent. */
  lemma ConstructorApplied(env: Env, key: string, default: Option<string>)
    requires key in Constructors
    ensures key in env ==> Configured(env, key, default) == Apply(Constructors[key], env, env[key])
    ensures key !in env && default.Some? ==>
      Configured(env, key, default) == Apply(Constructors[key], env, default.value)
  {
  }

  /** A key missing from the environment without a default is a KeyError on
      that key, raised before any constructor runs. */
  lemma MissingKeyFails(env: Env, key: string)
    requires key !in env
    ensures Configured(env, key, None) == Err(KeyError(key))
    ensures Lookups(env, key, None) == [key]
  {
  }

  /** "active_chain" succeeds exactly for the four chain names; "testnet" and
      "ropsten" give the same chain; any other name is a KeyError on it. */
  lemma ActiveChainResolution(env: Env)
    ensures Configured(env, "active_chain", None).Ok? <==>
      "active_chain" in env && env["active_chain"] in KnownChains
    ensures "active_chain" in env && env["active_chain"] in KnownChains ==>
      var name := env["active_chain"];
      Configured(env, "active_chain", None) == Ok(ChainHandle(if name == "testnet" then "ropsten" else name))
    ensures "active_chain" in env && env["active_chain"] !in KnownChains ==>
      Configured(env, "active_chain", None) == Err(KeyError(env["active_chain"]))
  {
  }

  /** "manager_contract" first resolves "active_chain" and then fetches the
      named contract on that chain; a failure there propagates unchanged. */
  lemma ManagerContractResolution(env: Env)
    requires "manager_contract" in env
    ensures var chain := Configured(env, "active_chain", None);
      Configured(env, "manager_contract", None) ==
        if chain.Ok? then Ok(ContractHandle(chain.value.chain, env["manager_contract"]))
        else Err(chain.error)
    ensures Lookups(env, "manager_contract", None) == ["manager_contract", "active_chain"]
  {
  }

  /** The scenario with manager_contract=ProductManagerV2 and active_chain=tester. */
  lemma ManagerOnTester(env: Env)
    requires "manager_contract" in env && env["manager_contract"] == "ProductManagerV2"
    requires "active_chain" in env && env["active_chain"] == "tester"
    ensures Configured(env, "manager_contract", None) == Ok(ContractHandle("tester", "ProductManagerV2"))
  {
  }
}
