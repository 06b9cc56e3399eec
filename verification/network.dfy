/** `ensureHardhatNetwork` of the contract hook: make sure the wallet is on the
    local Hardhat chain, switching to it or adding it when needed. */
module Network {
  import opened Wrappers
  import opened Js
  import opened Provider

  const HardhatChainId := "0x7A69"

  /** The local Hardhat chain (chain id 31337). */
  const Hardhat := ChainDescriptor(
    HardhatChainId, "Hardhat Local", "Ethereum", "ETH", 18, ["http://127.0.0.1:8545"])

  /** The wallet provider's code for "unrecognised chain id". */
  const UnrecognizedChain := 4902

  /** The own properties of the supported-networks table; every name is a
      non-empty, hence truthy, string. */
  const SupportedNetworks: map<string, string> := map[
    "0x7A69" := "Hardhat Local",
    "0x1" := "Ethereum Mainnet",
    "0x5" := "Goerli Testnet",
    "0x89" := "Polygon Mainnet",
    "0x13881" := "Mumbai Testnet"]

  /** Names a plain object literal inherits from `Object.prototype`. Reading one
      of them off the table gives a function or an object, which is truthy. */
  const InheritedNames: set<string> := {
    "constructor", "hasOwnProperty", "isPrototypeOf", "propertyIsEnumerable",
    "toLocaleString", "toString", "valueOf", "__proto__",
    "__defineGetter__", "__defineSetter__", "__lookupGetter__", "__lookupSetter__"}

  /** `SUPPORTED_NETWORKS[chainId]` as a JavaScript property read: an own key
      gives its network name, `__proto__` gives `Object.prototype`, another
      inherited name gives a method, anything else is undefined. */
  function TableRead(chainId: string): Value {
    if chainId in SupportedNetworks then Str(SupportedNetworks[chainId])
    else if chainId == "__proto__" then Object(map[])
    else if chainId in InheritedNames then Function(map[])
    else Undefined
  }

  /** `!!SUPPORTED_NETWORKS[chainId]`: the lookup is a case-sensitive property
      read, which also finds inherited names. */
  function Supported(chainId: string): (b: bool)
    ensures b <==> Truthy(TableRead(chainId))
  {
    chainId in SupportedNetworks || chainId in InheritedNames
  }

  const InstallMessage := "Please install MetaMask!"
  const SwitchFailedMessage := "Failed to switch to Hardhat network. Please add it manually in MetaMask."

  /** What the wallet answers to each request `ensureHardhatNetwork` may send. */
  datatype Answers = Answers(
    chainId: Result<string, Thrown>,
    switchChain: Result<(), Thrown>,
    addChain: Result<(), Thrown>)

  /** The requests issued and the outcome (`Failure(message)` for the error thrown). */
  datatype Run = Run(requests: seq<Request>, result: Result<(), string>)

  /** Every failure after the chain-id request, including the "not supported"
      error thrown inside the same `try`, is replaced by one generic error. */
  function EnsureHardhatNetwork(providerPresent: bool, answers: Answers): (run: Run)
    // No provider: the install error escapes unwrapped and nothing is requested.
    ensures !providerPresent ==> run == Run([], Failure(InstallMessage))
    // With a provider, the chain id is always asked first.
    ensures providerPresent ==> |run.requests| >= 1 && run.requests[0] == EthChainId
    // Every failure with a provider is the generic message.
    ensures providerPresent && run.result.Failure? ==> run.result.error == SwitchFailedMessage
    // At most one switch and at most one add, in that order.
    ensures |run.requests| <= 3
    ensures |run.requests| >= 2 ==> run.requests[1] == SwitchChain(HardhatChainId)
    // The switch is sent exactly when the wallet is on a supported chain other than Hardhat.
    ensures |run.requests| >= 2 <==>
      && providerPresent
      && answers.chainId.Success?
      && Supported(answers.chainId.value)
      && answers.chainId.value != HardhatChainId
    ensures |run.requests| == 3 ==> run.requests[2] == AddChain(Hardhat)
  {
    if !providerPresent then Run([], Failure(InstallMessage))
    else
      match answers.chainId
      case Failure(_) => Run([EthChainId], Failure(SwitchFailedMessage))
      case Success(chainId) =>
        if !Supported(chainId) then Run([EthChainId], Failure(SwitchFailedMessage))
        else if chainId == HardhatChainId then Run([EthChainId], Success(()))
        else
          var switched := [EthChainId, SwitchChain(HardhatChainId)];
          match answers.switchChain
          case Success(_) => Run(switched, Success(()))
          case Failure(e) =>
            if e.code == Some(UnrecognizedChain) then
              var added := switched + [AddChain(Hardhat)];
              match answers.addChain
              case Success(_) => Run(added, Success(()))
              case Failure(_) => Run(added, Failure(SwitchFailedMessage))
            else Run(switched, Failure(SwitchFailedMessage))
  }

  /** A chain id the table does not have (the lookup is case-sensitive, so
      "0x7a69" is one) issues no switch or add request and fails generically. */
  lemma UnsupportedChainFails(chainId: string, answers: Answers)
    requires answers.chainId == Success(chainId)
    requires !Supported(chainId)
    ensures EnsureHardhatNetwork(true, answers) == Run([EthChainId], Failure(SwitchFailedMessage))
  {
  }

  lemma LowerCaseHardhatIdUnsupported()
    ensures !Supported("0x7a69")
  {
  }

  /** On Hardhat already, nothing beyond the chain-id query is sent. */
  lemma OnHardhatSucceeds(answers: Answers)
    requires answers.chainId == Success(HardhatChainId)
    ensures EnsureHardhatNetwork(true, answers) == Run([EthChainId], Success(()))
  {
  }

  /** Outcome of the whole procedure, stated without reference to its body:
      it succeeds exactly when the wallet is on Hardhat, or on another
      supported chain and either the switch succeeds or it fails with 4902 and
      the add succeeds. */
  lemma SuccessIff(providerPresent: bool, answers: Answers)
    ensures EnsureHardhatNetwork(providerPresent, answers).result.Success? <==>
      && providerPresent
      && answers.chainId.Success?
      && Supported(answers.chainId.value)
      && (|| answers.chainId.value == HardhatChainId
          || answers.switchChain.Success?
          || (answers.switchChain.error.code == Some(UnrecognizedChain) && answers.addChain.Success?))
  {
  }

  /** The add-chain request is sent exactly when the switch was rejected with
      4902, and the switch is never retried after it. */
  lemma AddChainIff(answers: Answers)
    ensures AddChain(Hardhat) in EnsureHardhatNetwork(true, answers).requests <==>
      && answers.chainId.Success?
      && Supported(answers.chainId.value)
      && answers.chainId.value != HardhatChainId
      && answers.switchChain.Failure?
      && answers.switchChain.error.code == Some(UnrecognizedChain)
    ensures multiset(EnsureHardhatNetwork(true, answers).requests)[SwitchChain(HardhatChainId)] <= 1
  {
  }
}
