/**
 * `findPrivateKey` of `x402_invoke.ts` (lines 6-14): a fixed-priority lookup of a
 * wallet's private key among environment variables, per chain family.
 */
module X402Credentials {
  import opened Wrappers

  /** The process environment: variable name to value; a missing name is `undefined`. */
  type Env = map<string, string>

  /** The two chain families the tool signs for. */
  datatype Chain = Tron | Evm

  /** `process.env[name]`. */
  function Lookup(env: Env, name: string): Option<string> {
    if name in env then Some(env[name]) else None
  }

  /** JavaScript truthiness of a `string | undefined`: present and non-empty. */
  predicate Usable(v: Option<string>) {
    v.Some? && v.value != ""
  }

  /** The variables consulted for a family, in priority order; the generic one comes last. */
  function Candidates(chain: Chain): seq<string> {
    match chain
    case Tron => ["TRON_PRIVATE_KEY", "PRIVATE_KEY"]
    case Evm => ["EVM_PRIVATE_KEY", "ETH_PRIVATE_KEY", "PRIVATE_KEY"]
  }

  /**
   * The key for a family, checked in the order the source checks the variables.
   * It is always read from one of the family's candidate variables, never from
   * any other.
   */
  function FindPrivateKey(env: Env, chain: Chain): (key: Option<string>)
    ensures exists i :: 0 <= i < |Candidates(chain)| && key == Lookup(env, Candidates(chain)[i])
  {
    var cs := Candidates(chain);
    if chain == Tron && Usable(Lookup(env, "TRON_PRIVATE_KEY")) then
      assert cs[0] == "TRON_PRIVATE_KEY";
      Lookup(env, "TRON_PRIVATE_KEY")
    else if chain == Evm && Usable(Lookup(env, "EVM_PRIVATE_KEY")) then
      assert cs[0] == "EVM_PRIVATE_KEY";
      Lookup(env, "EVM_PRIVATE_KEY")
    else if chain == Evm && Usable(Lookup(env, "ETH_PRIVATE_KEY")) then
      assert cs[1] == "ETH_PRIVATE_KEY";
      Lookup(env, "ETH_PRIVATE_KEY")
    else
      assert cs[|cs| - 1] == "PRIVATE_KEY";
      Lookup(env, "PRIVATE_KEY")
  }

  /**
   * The resolved key is the value of the first candidate variable that is set to
   * a non-empty string, and a family is enabled exactly when some candidate is.
   * When none is, the result is whatever `PRIVATE_KEY` holds, which may be absent
   * or the empty string: neither enables the family.
   */
  lemma FindPrivateKeyPriority(env: Env, chain: Chain)
    ensures var key := FindPrivateKey(env, chain);
      && (Usable(key) <==> exists i :: 0 <= i < |Candidates(chain)| && Usable(Lookup(env, Candidates(chain)[i])))
      && (Usable(key) ==> exists i :: 0 <= i < |Candidates(chain)| && key == Lookup(env, Candidates(chain)[i])
                                      && forall j :: 0 <= j < i ==> !Usable(Lookup(env, Candidates(chain)[j])))
      && (!Usable(key) ==> key == Lookup(env, "PRIVATE_KEY"))
  {
    var cs := Candidates(chain);
    var key := FindPrivateKey(env, chain);
    if Usable(Lookup(env, cs[0])) {
      assert key == Lookup(env, cs[0]);
    } else if chain == Evm && Usable(Lookup(env, cs[1])) {
      assert key == Lookup(env, cs[1]);
    } else {
      assert key == Lookup(env, cs[|cs| - 1]);
    }
  }

  /** The families whose key is usable, TRON first: the wallets the status check reports and the families the client enables. */
  function AvailableWallets(env: Env): (wallets: seq<Chain>)
    ensures Tron in wallets <==> Usable(FindPrivateKey(env, Tron))
    ensures Evm in wallets <==> Usable(FindPrivateKey(env, Evm))
    ensures |wallets| <= 2
    ensures forall i, j :: 0 <= i < j < |wallets| ==> wallets[i] == Tron && wallets[j] == Evm
  {
    (if Usable(FindPrivateKey(env, Tron)) then [Tron] else [])
    + (if Usable(FindPrivateKey(env, Evm)) then [Evm] else [])
  }

  /** With no key variable set at all, no family is enabled. */
  lemma NoKeysNoWallets(env: Env)
    requires forall c: Chain, i :: 0 <= i < |Candidates(c)| ==> Candidates(c)[i] !in env
    ensures AvailableWallets(env) == []
  {
    assert Candidates(Tron)[1] !in env;
    assert Candidates(Tron)[0] !in env;
    assert Candidates(Evm)[0] !in env;
    assert Candidates(Evm)[1] !in env;
  }

  /** The family-specific variable wins over the generic one when both are set. */
  lemma SpecificKeyWins(env: Env, chain: Chain)
    requires Usable(Lookup(env, Candidates(chain)[0]))
    ensures FindPrivateKey(env, chain) == Lookup(env, Candidates(chain)[0])
  {
  }
}
