/** The requests the front end sends to the injected wallet provider
    (`window.ethereum.request`, EIP-1193), as data, so that each operation can
    report exactly which requests it issued and in what order. */
module Provider {

  /** `wallet_addEthereumChain`'s network descriptor (EIP-3085). */
  datatype ChainDescriptor = ChainDescriptor(
    chainId: string,
    chainName: string,
    currencyName: string,
    currencySymbol: string,
    decimals: nat,
    rpcUrls: seq<string>)

  datatype Request =
    | EthChainId
    | EthAccounts
    | EthRequestAccounts
    | SwitchChain(chainId: string)
    | AddChain(network: ChainDescriptor)
}
