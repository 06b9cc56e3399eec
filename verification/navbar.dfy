/** The wallet button label of the navigation bar (the same shortening is
    repeated by the wallet connect button). */
module Navbar {
  import opened Wrappers
  import opened Js

  const ConnectPrompt := "Connect Wallet"

  /** `address.slice(0, 6) + "..." + address.slice(-4)`, with `slice`'s
      clamping: the first six characters (all of a shorter string) and the last
      four (all of a shorter string). */
  function ShortAddress(a: string): (r: string)
    ensures r == a[..if |a| < 6 then |a| else 6] + "..." + a[if |a| < 4 then 0 else |a| - 4..]
  {
    Slice(a, 0, Some(6)) + "..." + Slice(a, -4, None)
  }

  /** For an address of ten or more characters the label is 13 characters: the
      first six, "...", the last four. */
  lemma ShortAddressLong(a: string)
    requires |a| >= 10
    ensures |ShortAddress(a)| == 13
    ensures ShortAddress(a)[..6] == a[..6]
    ensures ShortAddress(a)[6..9] == "..."
    ensures ShortAddress(a)[9..] == a[|a| - 4..]
  {
  }

  /** Below four characters both halves are the whole address. */
  lemma ShortAddressTiny(a: string)
    requires |a| < 4
    ensures ShortAddress(a) == a + "..." + a
  {
  }

  /** Below ten characters the halves overlap: the first character of the
      suffix also appears in the prefix. */
  lemma ShortAddressOverlap(a: string)
    requires 0 < |a| < 10
    ensures var k := if |a| < 4 then 0 else |a| - 4;
      && (if |a| < 6 then |a| else 6) > k
      && ShortAddress(a)[k] == a[k]
      && ShortAddress(a)[(if |a| < 6 then |a| else 6) + 3] == a[k]
  {
  }

  /** `isConnected && address ? ShortAddress(address) : 'Connect Wallet'`;
      an empty address is falsy. */
  function WalletLabel(isConnected: bool, address: Option<string>): (shown: string)
    ensures shown == ConnectPrompt <==> !(isConnected && address.Some? && address.value != "")
  {
    if isConnected && address.Some? && address.value != "" then ShortAddress(address.value)
    else ConnectPrompt
  }

  /** The prompt is shown exactly when there is no connected, non-empty
      address; otherwise the label is the shortened address. */
  lemma LabelIff(isConnected: bool, address: Option<string>)
    ensures WalletLabel(isConnected, address) == ConnectPrompt <==>
      !(isConnected && address.Some? && address.value != "")
    ensures isConnected && address.Some? && address.value != "" ==>
      WalletLabel(isConnected, address) == ShortAddress(address.value)
  {
  }
}
