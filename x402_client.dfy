/**
 * Client assembly in `x402_invoke.ts` (lines 72-94): the payment client collects
 * (network scope, mechanism) registrations and payment policies. A TRON key
 * registers the exact and the permit mechanism on four TRON scopes, an EVM key
 * the same two on the EVM wildcard scope, and the balance policy is always added.
 * The mechanisms and the signer are the payment library's; here they are data.
 */
module X402Client {
  import opened Wrappers
  import opened X402Credentials

  /** The two payment mechanisms registered per scope: exact amount, then permit. */
  datatype Scheme = Exact | ExactPermit

  /** A mechanism of a scheme for a chain family, bound to the signer built from `signerKey`. */
  datatype Mechanism = Mechanism(chain: Chain, scheme: Scheme, signerKey: string)

  /** One `client.register(scope, mechanism)` call. */
  datatype Registration = Registration(scope: string, mechanism: Mechanism)

  /** The policy `client.registerPolicy` receives: spend only with sufficient balance. */
  datatype Policy = SufficientBalance

  /** The TRON network names the registration loop walks over. */
  const TronNetworks: seq<string> := ["mainnet", "nile", "shasta", "*"]

  /** The TRON scopes, in registration order. */
  const TronScopes: seq<string> := ["tron:mainnet", "tron:nile", "tron:shasta", "tron:*"]

  /** The single EVM scope. */
  const EvmScope: string := "eip155:*"

  /** `net === '*' ? 'tron:*' : `tron:${net}``. */
  function NetworkId(net: string): string {
    if net == "*" then "tron:*" else "tron:" + net
  }

  /** The two registrations a scope receives: exact first, permit second. */
  function ScopeRegistrations(scope: string, chain: Chain, key: string): seq<Registration> {
    [Registration(scope, Mechanism(chain, Exact, key)), Registration(scope, Mechanism(chain, ExactPermit, key))]
  }

  /** The registrations for a list of scopes, scope by scope. */
  function ForScopes(scopes: seq<string>, chain: Chain, key: string): seq<Registration> {
    if scopes == [] then []
    else ForScopes(scopes[..|scopes| - 1], chain, key) + ScopeRegistrations(scopes[|scopes| - 1], chain, key)
  }

  /** Every registration `client.register` receives for the environment, in call order. */
  function RegistrationPlan(env: Env): seq<Registration> {
    var tronKey := FindPrivateKey(env, Tron);
    var evmKey := FindPrivateKey(env, Evm);
    (if Usable(tronKey) then ForScopes(TronScopes, Tron, tronKey.value) else [])
    + (if Usable(evmKey) then ScopeRegistrations(EvmScope, Evm, evmKey.value) else [])
  }

  /** The payment client's registry, updated in place by its two methods. */
  class PaymentClient {
    var registrations: seq<Registration>
    var policies: seq<Policy>

    /** `new X402Client()`: nothing registered. */
    constructor ()
      ensures registrations == [] && policies == []
    {
      registrations := [];
      policies := [];
    }

    /** `client.register(scope, mechanism)`: appends one registration. */
    method Register(scope: string, mechanism: Mechanism)
      modifies this
      ensures registrations == old(registrations) + [Registration(scope, mechanism)]
      ensures policies == old(policies)
    {
      registrations := registrations + [Registration(scope, mechanism)];
    }

    /** `client.registerPolicy(policy)`: appends one policy. */
    method RegisterPolicy(policy: Policy)
      modifies this
      ensures policies == old(policies) + [policy]
      ensures registrations == old(registrations)
    {
      policies := policies + [policy];
    }
  }

  /**
   * Builds the client: the TRON loop over the four networks, then the EVM scope,
   * then the balance policy. `enabled` lists the families announced as enabled.
   */
  method AssembleClient(env: Env) returns (client: PaymentClient, enabled: seq<Chain>)
    ensures fresh(client)
    ensures client.registrations == RegistrationPlan(env)
    ensures client.policies == [SufficientBalance]
    ensures enabled == AvailableWallets(env)
  {
    client := new PaymentClient();
    enabled := [];
    var tronKey := FindPrivateKey(env, Tron);
    if Usable(tronKey) {
      var networks := TronNetworks;
      for n := 0 to |networks|
        invariant client.registrations == ForScopes(TronScopes[..n], Tron, tronKey.value)
        invariant client.policies == []
      {
        var networkId := NetworkId(networks[n]);
        assert networkId == TronScopes[n];
        assert TronScopes[..n + 1][..n] == TronScopes[..n];
        client.Register(networkId, Mechanism(Tron, Exact, tronKey.value));
        client.Register(networkId, Mechanism(Tron, ExactPermit, tronKey.value));
      }
      assert TronScopes[..|networks|] == TronScopes;
      enabled := enabled + [Tron];
    }
    var evmKey := FindPrivateKey(env, Evm);
    if Usable(evmKey) {
      client.Register(EvmScope, Mechanism(Evm, Exact, evmKey.value));
      client.Register(EvmScope, Mechanism(Evm, ExactPermit, evmKey.value));
      enabled := enabled + [Evm];
    }
    client.RegisterPolicy(SufficientBalance);
  }

  /** Each scope contributes its exact registration at an even index and its permit right after. */
  lemma {:induction false} ForScopesAt(scopes: seq<string>, chain: Chain, key: string, i: nat)
    requires i < |scopes|
    ensures |ForScopes(scopes, chain, key)| == 2 * |scopes|
    ensures ForScopes(scopes, chain, key)[2 * i] == Registration(scopes[i], Mechanism(chain, Exact, key))
    ensures ForScopes(scopes, chain, key)[2 * i + 1] == Registration(scopes[i], Mechanism(chain, ExactPermit, key))
  {
    var init := scopes[..|scopes| - 1];
    if i < |init| {
      ForScopesAt(init, chain, key, i);
    } else if init != [] {
      ForScopesAt(init, chain, key, 0);
    }
  }

  /**
   * The shape of the plan: a usable TRON key gives eight registrations, exact then
   * permit on each of the four TRON scopes in order; a usable EVM key gives two
   * more on `eip155:*`; with neither key there are none.
   */
  lemma RegistrationPlanShape(env: Env)
    ensures var plan := RegistrationPlan(env);
      var tron := Usable(FindPrivateKey(env, Tron));
      var evm := Usable(FindPrivateKey(env, Evm));
      && |plan| == (if tron then 8 else 0) + (if evm then 2 else 0)
      && (tron ==> forall i :: 0 <= i < 4 ==>
            && plan[2 * i] == Registration(TronScopes[i], Mechanism(Tron, Exact, FindPrivateKey(env, Tron).value))
            && plan[2 * i + 1] == Registration(TronScopes[i], Mechanism(Tron, ExactPermit, FindPrivateKey(env, Tron).value)))
      && (evm ==> plan[|plan| - 2..] == ScopeRegistrations(EvmScope, Evm, FindPrivateKey(env, Evm).value))
  {
    var tronKey := FindPrivateKey(env, Tron);
    if Usable(tronKey) {
      forall i | 0 <= i < 4
        ensures |ForScopes(TronScopes, Tron, tronKey.value)| == 8
        ensures ForScopes(TronScopes, Tron, tronKey.value)[2 * i] == Registration(TronScopes[i], Mechanism(Tron, Exact, tronKey.value))
        ensures ForScopes(TronScopes, Tron, tronKey.value)[2 * i + 1] == Registration(TronScopes[i], Mechanism(Tron, ExactPermit, tronKey.value))
      {
        ForScopesAt(TronScopes, Tron, tronKey.value, i);
      }
    }
  }
}
