/** Wrapped functions from the repository, stated as lemmas about the wrapper
    model: the `get_recipe` doctest of config.py and the signatures of
    api/common.py. */
module InjectExamples {
  import opened Wrappers
  import opened Config
  import opened Inject

  /** The part of `int(s)` this model covers: a non-empty string of ASCII
      decimal digits is read as a number, and every other string is
      rejected, including those with a sign, surrounding whitespace or
      underscores, which Python's `int` would accept. */
  function ParseNat(s: string): (r: Option<nat>)
    ensures r.Some? <==> s != [] && forall i :: 0 <= i < |s| ==> '0' <= s[i] <= '9'
    decreases |s|
  {
    if s == [] || !('0' <= s[|s| - 1] <= '9') then None
    else if |s| == 1 then Some(s[0] as nat - '0' as nat)
    else match ParseNat(s[..|s| - 1])
      case None => None
      case Some(n) => Some(10 * n + (s[|s| - 1] as nat - '0' as nat))
  }

  /** The value of one decimal digit. */
  function DigitValue(c: char): nat {
    if '0' <= c <= '9' then c as nat - '0' as nat else 0
  }

  function Pow10(k: nat): nat {
    if k == 0 then 1 else 10 * Pow10(k - 1)
  }

  /** The decimal reading of a digit string, most significant digit first:
      the leading digit weighs 10^(|s|-1). */
  function DecimalValue(s: string): nat {
    if s == [] then 0 else DigitValue(s[0]) * Pow10(|s| - 1) + DecimalValue(s[1..])
  }

  /** Appending a digit shifts the value one decimal place. */
  lemma {:induction false} DecimalValueSnoc(s: string, c: char)
    ensures DecimalValue(s + [c]) == 10 * DecimalValue(s) + DigitValue(c)
  {
    if s != [] {
      assert (s + [c])[1..] == s[1..] + [c];
      DecimalValueSnoc(s[1..], c);
      calc {
        DigitValue(s[0]) * Pow10(|s|);
        DigitValue(s[0]) * (10 * Pow10(|s| - 1));
        10 * (DigitValue(s[0]) * Pow10(|s| - 1));
      }
    }
  }

  /** `int(s)` of a digit string is its decimal value. */
  lemma {:induction false} ParseNatValue(s: string)
    requires s != [] && forall i :: 0 <= i < |s| ==> '0' <= s[i] <= '9'
    ensures ParseNat(s) == Some(DecimalValue(s))
    decreases |s|
  {
    if |s| > 1 {
      var init := s[..|s| - 1];
      ParseNatValue(init);
      DecimalValueSnoc(init, s[|s| - 1]);
      assert init + [s[|s| - 1]] == s;
    }
  }

  /** `", ".join(["spam" for x in range(n)])`. */
  function Spams(n: nat): (r: string)
    ensures n == 0 <==> r == []
  {
    if n == 0 then "" else if n == 1 then "spam" else Spams(n - 1) + ", spam"
  }

  /** `n` spams joined by ", ": the i-th four-character block is "spam",
      and each of the n - 1 separators between blocks is ", ". */
  lemma {:induction false} SpamsShape(n: nat)
    ensures |Spams(n)| == if n == 0 then 0 else 6 * n - 2
    ensures n > 0 ==> Spams(n)[..4] == "spam"
    ensures forall i :: 0 <= i < n ==> Spams(n)[6 * i .. 6 * i + 4] == "spam"
    ensures forall i :: 0 <= i < n - 1 ==> Spams(n)[6 * i + 4 .. 6 * i + 6] == ", "
  {
    if n > 1 {
      SpamsShape(n - 1);
      var prev := Spams(n - 1);
      assert Spams(n) == prev + ", spam";
      forall i | 0 <= i < n
        ensures Spams(n)[6 * i .. 6 * i + 4] == "spam"
      {
        if i < n - 1 {
          assert Spams(n)[6 * i .. 6 * i + 4] == prev[6 * i .. 6 * i + 4];
        } else {
          assert Spams(n)[6 * i .. 6 * i + 4] == (", spam")[2..6];
        }
      }
      forall i | 0 <= i < n - 1
        ensures Spams(n)[6 * i + 4 .. 6 * i + 6] == ", "
      {
        if i < n - 2 {
          assert Spams(n)[6 * i + 4 .. 6 * i + 6] == prev[6 * i + 4 .. 6 * i + 6];
        } else {
          assert Spams(n)[6 * i + 4 .. 6 * i + 6] == (", spam")[..2];
        }
      }
    }
  }

  /** The body of `get_recipe(spam)`, with Python's binding of its single
      parameter; the line it prints is returned. */
  function GetRecipeCall(args: seq<Value>, kwargs: map<string, Value>): Result<Value, Error> {
    if |args| > 1 then Err(TypeError("get_recipe() takes 1 positional argument"))
    else if exists k :: k in kwargs && k != "spam" then Err(TypeError("get_recipe() got an unexpected keyword argument"))
    else if |args| == 1 && "spam" in kwargs then Err(TypeError("get_recipe() got multiple values for argument 'spam'"))
    else if |args| == 0 && "spam" !in kwargs then Err(TypeError("get_recipe() missing 1 required positional argument: 'spam'"))
    else
      var spam := if |args| == 1 then args[0] else kwargs["spam"];
      match spam
      case Str(s) =>
        (match ParseNat(s)
         case Some(n) => Ok(Str(Spams(n) + " and eggs"))
         case None => Err(ValueError("invalid literal for int()")))
      case _ => Err(TypeError("int() argument must be a string"))
  }

  /** A successful `get_recipe` call had `spam` from exactly one place and no
      other argument, and its line ends in " and eggs"; a call with no
      argument at all is a TypeError, and so is a non-string `spam`. */
  lemma GetRecipeBinding(args: seq<Value>, kwargs: map<string, Value>)
    ensures var r := GetRecipeCall(args, kwargs);
      r.Ok? ==> |args| <= 1 && kwargs.Keys <= {"spam"} && (|args| == 1 <==> "spam" !in kwargs)
    ensures var r := GetRecipeCall(args, kwargs);
      r.Ok? ==> r.value.Str? && |r.value.s| >= 9 && r.value.s[|r.value.s| - 9..] == " and eggs"
    ensures |args| == 0 && kwargs == map[] ==> GetRecipeCall(args, kwargs) == Err(TypeError("get_recipe() missing 1 required positional argument: 'spam'"))
    ensures |args| == 1 && kwargs == map[] && !args[0].Str? ==> GetRecipeCall(args, kwargs).Err? && GetRecipeCall(args, kwargs).error.TypeError?
  {
  }

  /** `get_recipe(spam: "spam_amount")`. */
  function GetRecipe(): Function {
    Function([Parameter("spam", Some("spam_amount"))], GetRecipeCall)
  }

  /** The doctest: with spam_amount=3 in the environment, a call without
      arguments prints three spams and eggs. */
  lemma GetRecipeDoctest()
    ensures Injected(map["spam_amount" := "3"], GetRecipe(), [], map[]) == Ok(Str("spam, spam, spam and eggs"))
  {
    var env := map["spam_amount" := "3"];
    var ps := GetRecipe().params;
    assert Unfilled(ps, 0) == ps && ps[1..] == [];
    IdentityFallback(env, "spam_amount", None);
    FillGapStep(env, ps, map[], Str("3"));
    assert FilledKwargs(env, GetRecipe(), [], map[]) == Ok(map["spam" := Str("3")]);
    ThreeSpams();
  }

  lemma ThreeSpams()
    ensures GetRecipeCall([], map["spam" := Str("3")]) == Ok(Str("spam, spam, spam and eggs"))
  {
    assert ParseNat("3") == Some(3);
    assert Spams(1) == "spam";
    assert Spams(2) == "spam" + ", spam";
    assert Spams(3) == "spam, spam" + ", spam";
    RecipeOfSpam(Str("3"), 3);
    assert Spams(3) + " and eggs" == "spam, spam, spam and eggs";
  }

  /** An explicit keyword wins: the environment is not even read. */
  lemma GetRecipeKeyword(env: Env)
    ensures Injected(env, GetRecipe(), [], map["spam" := Str("2")]) == Ok(Str("spam, spam and eggs"))
  {
    var ps := GetRecipe().params;
    var kw := map["spam" := Str("2")];
    assert Unfilled(ps, 0) == ps && ps[1..] == [];
    FillSkipStep(env, ps, kw);
    assert FilledKwargs(env, GetRecipe(), [], kw) == Ok(kw);
    assert ParseNat("2") == Some(2);
    RecipeOfSpam(Str("2"), 2);
    assert Spams(1) == "spam";
    assert Spams(2) == "spam" + ", spam";
    assert Spams(2) + " and eggs" == "spam, spam and eggs";
  }

  /** An explicit positional argument wins as well. */
  lemma GetRecipePositional(env: Env)
    ensures Injected(env, GetRecipe(), [Str("1")], map[]) == Ok(Str("spam and eggs"))
  {
    var none: map<string, Value> := map[];
    assert Unfilled(GetRecipe().params, 1) == [];
    assert FilledKwargs(env, GetRecipe(), [Str("1")], none) == Ok(none);
    assert ParseNat("1") == Some(1);
    assert !exists k :: k in none && k != "spam";
    assert GetRecipe().call([Str("1")], none) == Ok(Str(Spams(1) + " and eggs"));
    assert Spams(1) + " and eggs" == "spam and eggs";
  }

  lemma RecipeOfSpam(spam: Value, n: nat)
    requires spam.Str? && ParseNat(spam.s) == Some(n)
    ensures GetRecipeCall([], map["spam" := spam]) == Ok(Str(Spams(n) + " and eggs"))
  {
    var kw := map["spam" := spam];
    assert !exists k :: k in kw && k != "spam";
  }

  /** Without spam_amount in the environment the call fails with a KeyError
      before the wrapped function runs. */
  lemma GetRecipeUnconfigured(env: Env)
    requires "spam_amount" !in env
    ensures Injected(env, GetRecipe(), [], map[]) == Err(KeyError("spam_amount"))
  {
  }

  /** `check_share_value(manager: "manager_contract")`. */
  const CheckShareValueParams: seq<Parameter> := [Parameter("manager", Some("manager_contract"))]

  /** `redeem_shares(amount, user, manager, chain)`: one plain parameter
      followed by three annotated ones. */
  const RedeemSharesParams: seq<Parameter> := [
    Parameter("amount", None),
    Parameter("user", Some("user_address")),
    Parameter("manager", Some("manager_contract")),
    Parameter("chain", Some("active_chain"))]

  /** With manager_contract=ProductManagerV2 and active_chain=tester, the
      manager parameter receives that contract on the tester chain. */
  lemma CheckShareValueResolves(env: Env)
    requires "manager_contract" in env && env["manager_contract"] == "ProductManagerV2"
    requires "active_chain" in env && env["active_chain"] == "tester"
    ensures Fill(env, Unfilled(CheckShareValueParams, 0), map[]) ==
      Ok(map["manager" := ContractHandle("tester", "ProductManagerV2")])
  {
    ManagerOnTester(env);
    assert CheckShareValueParams[1..] == [];
  }

  /** An explicit contract handle, by keyword or by position, bypasses both
      resolutions, whatever the environment holds. */
  lemma CheckShareValueExplicit(env: Env, handle: Value)
    requires handle != Default
    ensures Fill(env, Unfilled(CheckShareValueParams, 0), map["manager" := handle]) == Ok(map["manager" := handle])
    ensures Fill(env, Unfilled(CheckShareValueParams, 1), map[]) == Ok(map[])
  {
  }

  /** `redeem_shares(500)` with all three keys configured and any known chain
      name: the amount stays positional, and the chain parameter and the
      manager's chain are the same chain, each resolved on its own. */
  lemma RedeemSharesResolves(env: Env)
    requires "user_address" in env && "manager_contract" in env
    requires "active_chain" in env && env["active_chain"] in KnownChains
    ensures var chain := Chains[env["active_chain"]];
      Fill(env, Unfilled(RedeemSharesParams, 1), map[]) == Ok(map[
        "user" := Str(env["user_address"]),
        "manager" := ContractHandle(chain.chain, env["manager_contract"]),
        "chain" := chain])
  {
    var ps := RedeemSharesParams[1..];
    assert Unfilled(RedeemSharesParams, 1) == ps;
    var user := Str(env["user_address"]);
    var chain := Chains[env["active_chain"]];
    var manager := ContractHandle(chain.chain, env["manager_contract"]);
    IdentityFallback(env, "user_address", None);
    ActiveChainResolution(env);
    ManagerContractResolution(env);
    var kw1 := map["user" := user];
    var kw2 := kw1["manager" := manager];
    FillGapStep(env, ps, map[], user);
    assert ps[1..][0] == RedeemSharesParams[2];
    FillGapStep(env, ps[1..], kw1, manager);
    assert ps[1..][1..][0] == RedeemSharesParams[3] && ps[1..][1..][1..] == [];
    FillGapStep(env, ps[1..][1..], kw2, chain);
  }

  /** `redeem_shares(500)` without user_address fails on that key first. */
  lemma RedeemSharesUnconfigured(env: Env)
    requires "user_address" !in env
    ensures Fill(env, Unfilled(RedeemSharesParams, 1), map[]) == Err(KeyError("user_address"))
  {
    assert Unfilled(RedeemSharesParams, 1) == RedeemSharesParams[1..];
  }
}
