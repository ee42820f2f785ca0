# Configuration resolver of the bevy product-manager client

The Python client talks to an on-chain product-manager contract. Its only
logic of its own is the configuration resolver in `config.py`:

- `configured(key, default)` looks `key` up in the `constructors` registry
  (falling back to the identity), reads the key from the environment (or
  takes the default), and applies the constructor. `"active_chain"` maps a
  chain name through the `chains` table; `"manager_contract"` resolves
  `"active_chain"` again and fetches the named contract on that chain.
- `inject_config` wraps a function. On each call it fills every parameter
  not passed positionally and not passed by keyword with
  `configured(annotation)`, if the parameter is annotated, and then calls the
  function once.

The project also models the `within` tolerance check of
`tests/test_api_common.py` and its default epsilon.

Files:

- `wrappers.dfy`: `Option` and `Result`.
- `config.dfy`, module `Config`: the environment (an immutable
  `map<string, string>`), the values and exceptions, the `chains` table, the
  constructor registry, and `Configured`. `Configured`, `Apply` and
  `ContractFromActiveChain` are mutually recursive functions. The ghost
  function `Lookups` lists the environment keys one resolution reads.
- `inject.dfy`, module `Inject`: signatures as sequences of
  (name, optional annotation). `Fill` is the specification of the wrapper's
  loop. `InjectedCall` is the wrapper itself: a `while` loop that updates a
  local keyword map in place and then makes the single call. It is proved
  equal to `Injected`.
- `inject_examples.dfy`, module `InjectExamples`: the `get_recipe` doctest
  of `config.py`, and the signatures of `check_share_value` and
  `redeem_shares` from `api/common.py`, stated as lemmas about the model.
- `tolerance.dfy`, module `ApiCommonTest`: `Within` and
  `CommonTransactionCost`.

Modelling choices:

- Python values are the datatype `Config.Value`. The `DEFAULT` sentinel is
  `Value.Default`. A chain handle is `ChainHandle(n)`, where `n` is the name
  passed to `project.get_chain`. A contract handle is `ContractHandle(c, name)`,
  the result of `get_or_deploy_contract(name)` on chain `c`. It is a free
  constructor, so fetching is deterministic and uninterpreted.
- The check `x is DEFAULT` is equality with `Default`. In Python the
  entries "testnet" and "ropsten" hold two separate `get_chain("ropsten")`
  objects. In the model they are the same handle, because both name the
  same chain.
- A keyword argument bound to the `DEFAULT` sentinel counts as not passed,
  because the code tests `kwargs.get(name, DEFAULT) is DEFAULT`.
- Errors are the exceptions that propagate: `KeyError` for a missing
  environment variable (carrying the key) and for an unknown chain name
  (carrying the name). `AttributeError` stands for a resolved active chain
  without a provider; the registry never produces one.

## Model

| member | source | states |
|---|---|---|
| `Config.RawValue` | config.py:33-36 | Without a default the environment value is returned, or a KeyError on the key when it is absent. With a default the read never fails, and the default is used only when the key is absent. |
| `Config.Configured` | config.py:31-36 | A successful resolution is never the `DEFAULT` sentinel. "active_chain" always yields a chain handle. "manager_contract" always yields a contract handle. A key without a constructor yields a string. |
| `Config.Apply` | config.py:25-28 | The chain constructor succeeds only on one of the four known chain names and yields a chain handle. The contract constructor yields a handle for the contract it was given the name of. |
| `Config.ContractFromActiveChain` | config.py:19-22 | The result is a contract handle for the requested contract name. |
| `Config.ConfiguredReadsOnlyLookups` | config.py:19-36 | A resolution depends on the environment only through the keys `Lookups` lists: two environments that agree on those keys resolve the key to the same value or the same error. |
| `Config.IdentityFallback` | config.py:32-36 | With no registered constructor, the raw environment string comes back unchanged. With a default it is the default. With a default such a key never fails. `Lookups` is just the key, so by `ConfiguredReadsOnlyLookups` the result depends on no other variable. |
| `Config.ConstructorApplied` | config.py:32-36 | With a registered constructor, the result is that constructor applied to the environment value. When the key is absent and a default is given, the constructor is applied to the default. |
| `Config.MissingKeyFails` | config.py:33-34 | A key absent from the environment, with no default, raises a KeyError on that key before any constructor runs. |
| `Config.ActiveChainResolution` | config.py:11-26 | "active_chain" resolves if and only if the variable is set to tester, ropsten, testnet or mainnet. testnet gives the ropsten chain. Any other name raises a KeyError on that name. |
| `Config.ManagerContractResolution` | config.py:19-27 | "manager_contract" resolves "active_chain" and returns the named contract on that chain, or that resolution's error. `Lookups` is "manager_contract" then "active_chain", so by `ConfiguredReadsOnlyLookups` the result depends on those two variables only, and both are read on every resolution, so nothing is cached. |
| `Config.ManagerOnTester` | config.py:19-27 | With manager_contract=ProductManagerV2 and active_chain=tester, the result is ProductManagerV2 on the tester chain. |
| `Inject.Unfilled` | config.py:62 | The parameters left after the positional arguments are exactly those from position `len(args)` on, in order, and none when there are at least as many arguments as parameters. |
| `Inject.Fill` | config.py:62-68 | Every keyword that was explicitly supplied keeps its value. Only annotated parameters are added. After the loop, every annotated parameter is supplied. |
| `Inject.Injected` | config.py:57-70 | A resolution error propagates and the wrapped function is not called. Otherwise the function is called once, with the positional arguments unchanged and with keywords that keep every value the caller supplied. |
| `Inject.InjectedCall` | config.py:57-70 | The wrapper loop updates the keyword map in place. It returns exactly `Injected`: the first resolution error, or else one call of the function with the unchanged positional arguments and the filled keywords. |
| `Inject.FillLeavesOthers` | config.py:62-68 | A name that is not an unsupplied annotated parameter keeps its presence or absence and its value. |
| `Inject.FillResolvesGaps` | config.py:64-68 | Each unsupplied annotated parameter receives exactly `configured(annotation)`, resolved without a default. |
| `Inject.FillFailsIffGapFails` | config.py:64-68 | Filling fails if and only if the resolution of some unsupplied annotated parameter fails. |
| `Inject.FillErrorIsFirst` | config.py:64-68 | A failing fill raises the error of the first gap whose resolution fails, and every gap before it resolved. |
| `Inject.NoGapNoResolution` | config.py:62-64 | When every parameter is supplied or unannotated, the keywords come back unchanged under any environment. Explicit arguments bypass resolution entirely. |
| `Inject.FillIdempotent` | config.py:62-68 | A second pass over already filled keywords, under any environment, changes nothing. |
| `Inject.PositionalUntouched` | config.py:62 | A parameter at a position below the number of positional arguments is never added, removed or changed. |
| `Inject.SurplusPositionalResolvesNothing` | config.py:62-70 | With at least as many positional arguments as parameters, nothing is resolved. The function is called with the caller's keywords. |
| `Inject.UnannotatedStaysAbsent` | config.py:66-70 | An unannotated parameter that was not passed stays absent, so the wrapped function reports its usual missing argument. |
| `InjectExamples.ParseNat` | config.py:49 | `int(spam)` succeeds if and only if the string is a non-empty run of decimal digits. |
| `InjectExamples.ParseNatValue` | config.py:49 | `int(spam)` of a digit string is its decimal value, read most significant digit first. |
| `InjectExamples.DecimalValueSnoc` | config.py:49 | Appending a digit to a decimal string multiplies its value by ten and adds the digit. |
| `InjectExamples.SpamsShape` | config.py:49 | `", ".join` of `n` spams is `6n - 2` characters long (empty for zero). Every one of its `n` four-character blocks is "spam", and every one of the `n - 1` separators between them is ", ". |
| `InjectExamples.GetRecipeBinding` | config.py:48-49 | A successful `get_recipe` call received `spam` either positionally or by keyword, never both, and nothing else. Its line ends in " and eggs". A call without arguments, or with a non-string argument, is a TypeError. |
| `InjectExamples.GetRecipeDoctest` | config.py:47-53 | With spam_amount="3" in the environment, `get_recipe()` produces "spam, spam, spam and eggs". |
| `InjectExamples.GetRecipeKeyword` | config.py:57-70 | An explicit keyword argument wins over the environment, under any environment. |
| `InjectExamples.GetRecipePositional` | config.py:57-70 | An explicit positional argument wins over the environment, under any environment. |
| `InjectExamples.GetRecipeUnconfigured` | config.py:33-34 | Without spam_amount in the environment the wrapped call raises KeyError("spam_amount"), and the wrapped function is not called. |
| `InjectExamples.CheckShareValueResolves` | api/common.py:4-6 | Called with no argument and the ProductManagerV2/tester environment, the manager parameter receives ProductManagerV2 on the tester chain. |
| `InjectExamples.CheckShareValueExplicit` | api/common.py:4-6 | An explicit contract handle, by keyword or by position, bypasses both resolutions under any environment. |
| `InjectExamples.RedeemSharesResolves` | api/common.py:28-34 | For any known chain name, `redeem_shares(amount)` keeps the amount positional. It fills user with the raw address, chain with that name's entry in the chain table, and manager with the named contract on the same chain, because both resolutions of "active_chain" agree. |
| `InjectExamples.RedeemSharesUnconfigured` | api/common.py:28-34 | Without user_address, `redeem_shares(amount)` fails on that key, the first annotated parameter. |
| `ApiCommonTest.Within` | tests/test_api_common.py:20-28 | `within(a, b, epsilon)` holds if and only if a equals b or they are strictly less than epsilon apart. |
| `ApiCommonTest.WithinDefault` | tests/test_api_common.py:19-20 | With the default epsilon, `within` holds if and only if the values are less than 210000000000000 wei apart. |
| `ApiCommonTest.CommonTransactionCostValue` | tests/test_api_common.py:19 | The default epsilon is 21000 times 10 gwei, which is 210000000000000 wei. |
| `ApiCommonTest.WithinReflexive` | tests/test_api_common.py:22-23 | Every value is within any epsilon of itself. |
| `ApiCommonTest.WithinBranches` | tests/test_api_common.py:24-27 | For a > b it holds if and only if a < b + epsilon. For a < b it holds if and only if a > b - epsilon. |
| `ApiCommonTest.WithinStrict` | tests/test_api_common.py:24-28 | Values epsilon or more apart are rejected, including exactly epsilon apart. A non-positive epsilon accepts only equal values. |
| `ApiCommonTest.WithinSymmetric` | tests/test_api_common.py:20-28 | `within(a, b, e)` equals `within(b, a, e)`. |

## Left out

- The populus `Project`, `get_chain` and `provider.get_or_deploy_contract` are foreign chain calls. Chain handles are represented by chain names, and contract fetching by the free constructor `ContractHandle`. Provider failures, such as an unreachable chain or a failed deployment, are not modelled.
- `os.environ` is process-global mutable state. Here it is an immutable map passed to every call, so a wrapped function that changes the environment is not modelled.
- The network round trips that a constructor makes on every resolution are not modelled. `Config.Lookups` records only which environment keys each resolution reads.
- Repeated resolutions under a stable environment give equal results. In this model that holds trivially, because `Configured` is a function.
- `Config.Configured`: defaults are modelled as strings only. The source accepts any Python object as a default, but no caller passes one.
- `Inject.Parameter`: annotations are modelled as configuration-key strings. The `*args`, `**kwargs` and keyword-only parameter kinds and Python's own parameter defaults are not modelled. `inspect.signature` is replaced by an explicit parameter list, and `functools.wraps` metadata copying is left out.
- `Inject.Function`: the wrapped function's argument binding and body are an opaque function value. The `get_recipe` example alone spells its binding out. Its `TypeError` precedence is an approximation, and its `print` is modelled as returning the printed line.
- The rule that annotated parameters must follow non-configurable ones is a comment at config.py:43, not a check. The model does not enforce it either, and the wrapper properties hold for any order.
- The contract accounting (share value, redeem, upgrade): its Solidity source is not part of this model.
- The CLI (main.py and the Go commands), the contract-call wrappers in api/common.py, test fixtures and packaging are dispatch and I/O only. api/common.py is used only for its signatures.
- `InjectExamples.ParseNat`: `int()` is modelled for plain digit strings only. Signs, surrounding whitespace and underscores, which Python accepts, are rejected. A non-string argument such as `int(3)` is a TypeError in the model, where Python would accept it.
- `eth_utils.to_wei` is foreign; 10 gwei is written as the constant 10^10 wei.
