/** The `useWallet` hook: one piece of state, the wallet address, loaded
    silently on mount and set by an explicit connect. */
module UseWallet {
  import opened Wrappers
  import opened Js
  import opened Provider

  /** `walletAddress` starts as null. It is a JS value because connecting with
      an empty account list stores `accounts[0]`, which is undefined. */
  datatype WalletState = WalletState(walletAddress: Value)

  const Initial := WalletState(Null)

  const NotInstalledMessage := "MetaMask not installed"

  datatype Step = Step(requests: seq<Request>, state: WalletState, result: Result<(), Thrown>)

  /** The mount effect's `load`: `eth_accounts` (no prompt); the first account
      is stored only when the list is non-empty. A rejected request is an
      unhandled rejection and changes nothing. */
  function Load(s: WalletState, providerPresent: bool, answer: Result<seq<string>, Thrown>): (st: Step)
    ensures !providerPresent ==> st == Step([], s, Success(()))
    ensures providerPresent ==> st.requests == [EthAccounts]
    ensures st.state != s ==> providerPresent && answer.Success? && |answer.value| > 0
    ensures providerPresent && answer.Success? && |answer.value| > 0 ==>
      st.state.walletAddress == Str(answer.value[0])
  {
    if !providerPresent then Step([], s, Success(()))
    else
      match answer
      case Failure(e) => Step([EthAccounts], s, Failure(e))
      case Success(accounts) =>
        if |accounts| > 0 then Step([EthAccounts], WalletState(Str(accounts[0])), Success(()))
        else Step([EthAccounts], s, Success(()))
  }

  /** `connectWallet`: `eth_requestAccounts`, then `accounts[0]` is stored
      without an emptiness check. */
  function ConnectWallet(s: WalletState, providerPresent: bool, answer: Result<seq<string>, Thrown>): (st: Step)
    ensures !providerPresent ==> st == Step([], s, Failure(Raise(NotInstalledMessage)))
    ensures providerPresent ==> st.requests == [EthRequestAccounts]
    ensures providerPresent && answer.Failure? ==> st.state == s && st.result == Failure(answer.error)
    ensures providerPresent && answer.Success? ==>
      st.result.Success? && st.state.walletAddress == Index(answer.value, 0)
  {
    if !providerPresent then Step([], s, Failure(Raise(NotInstalledMessage)))
    else
      match answer
      case Failure(e) => Step([EthRequestAccounts], s, Failure(e))
      case Success(accounts) => Step([EthRequestAccounts], WalletState(Index(accounts, 0)), Success(()))
  }

  /** Connecting with an empty account list leaves the address undefined, a
      state the null-initialised hook otherwise never has (see AddressKind). */
  lemma ConnectEmptyStoresUndefined(s: WalletState)
    ensures ConnectWallet(s, true, Success([])).state.walletAddress == Undefined
  {
  }

  /** `disconnectWallet`: only local state is cleared; the wallet is not told. */
  function DisconnectWallet(s: WalletState): (s': WalletState)
    ensures s'.walletAddress == Null
  {
    WalletState(Null)
  }

  lemma DisconnectIdempotent(s: WalletState)
    ensures DisconnectWallet(DisconnectWallet(s)) == DisconnectWallet(s)
    ensures DisconnectWallet(s) == Initial
  {
  }

  /** What the hook's state is meant to hold: null or an address string. */
  predicate NullOrAddress(s: WalletState) {
    s.walletAddress.Null? || s.walletAddress.Str?
  }

  /** Starting from null or an address, `load` and `disconnectWallet` keep
      that shape, and `connectWallet` keeps it exactly when it has no provider,
      is rejected, or receives a non-empty account list: the empty list is the
      only way to reach an undefined address. */
  lemma AddressKind(s: WalletState, providerPresent: bool, answer: Result<seq<string>, Thrown>)
    requires NullOrAddress(s)
    ensures NullOrAddress(Load(s, providerPresent, answer).state)
    ensures NullOrAddress(DisconnectWallet(s))
    ensures NullOrAddress(ConnectWallet(s, providerPresent, answer).state) <==>
      !providerPresent || answer.Failure? || |answer.value| > 0
  {
  }
}
