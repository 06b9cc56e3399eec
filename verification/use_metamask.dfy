/** The `useMetaMask` hook: an installed flag detected on mount, a connecting
    flag and an error message around one `eth_requestAccounts` request. */
module UseMetaMask {
  import opened Wrappers
  import opened Js
  import opened Provider

  datatype MetaMaskState = MetaMaskState(installed: bool, isConnecting: bool, error: Option<string>)

  const Initial := MetaMaskState(false, false, None)

  const NotInstalledMessage := "MetaMask is not installed"
  const NoProviderMessage := "No provider found"
  const ConnectFailedMessage := "Failed to connect to MetaMask"

  /** The mount effect: record whether an injected provider was detected. */
  function Mount(s: MetaMaskState, detected: bool): (s': MetaMaskState)
    ensures s'.installed == detected
    ensures s'.isConnecting == s.isConnecting && s'.error == s.error
  {
    s.(installed := detected)
  }

  /** `busy` is the state while the request is pending (None when `connect`
      returned before starting); `after` is the settled state. */
  datatype Connection = Connection(requests: seq<Request>, busy: Option<MetaMaskState>, after: MetaMaskState)

  /** `connect`. `providerPresent` is what `getMetaMaskProvider()` returns at
      call time, which may differ from the flag detected on mount; `answer` is
      the request's outcome. The returned accounts are discarded. */
  function Connect(s: MetaMaskState, providerPresent: bool, answer: Result<seq<string>, Thrown>): (c: Connection)
    // Not installed: error set, nothing requested, the connecting flag untouched.
    ensures !s.installed ==> c.requests == [] && c.busy.None?
    ensures !s.installed ==> c.after == s.(error := Some(NotInstalledMessage))
    // Installed: the error is cleared and the flag raised before any request.
    ensures s.installed ==> c.busy == Some(s.(isConnecting := true, error := None))
    ensures s.installed ==> !c.after.isConnecting
    ensures c.requests != [] <==> s.installed && providerPresent
    ensures c.requests != [] ==> c.requests == [EthRequestAccounts]
    // The error message after an installed attempt.
    ensures s.installed ==> (c.after.error.None? <==> providerPresent && answer.Success?)
    ensures s.installed && !providerPresent ==> c.after.error == Some(NoProviderMessage)
    ensures s.installed && providerPresent && answer.Failure? ==>
      c.after.error == Some(MessageOr(answer.error, ConnectFailedMessage))
    ensures c.after.installed == s.installed
  {
    if !s.installed then Connection([], None, s.(error := Some(NotInstalledMessage)))
    else
      var busy := s.(isConnecting := true, error := None);
      if !providerPresent then
        Connection([], Some(busy), busy.(error := Some(MessageOr(Raise(NoProviderMessage), ConnectFailedMessage)), isConnecting := false))
      else
        match answer
        case Success(_) => Connection([EthRequestAccounts], Some(busy), busy.(isConnecting := false))
        case Failure(e) =>
          Connection([EthRequestAccounts], Some(busy), busy.(error := Some(MessageOr(e, ConnectFailedMessage)), isConnecting := false))
  }

  /** A settled `connect` never leaves the connecting flag raised when it was
      down before. */
  lemma ConnectSettles(s: MetaMaskState, providerPresent: bool, answer: Result<seq<string>, Thrown>)
    requires !s.isConnecting
    ensures !Connect(s, providerPresent, answer).after.isConnecting
  {
  }
}
