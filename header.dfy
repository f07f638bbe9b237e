/** The page header (`components/Header.tsx`): the shortened wallet address and
    which controls are shown. */
module Header {
  import opened Util
  import opened Text

  function Min(a: int, b: int): int
  {
    if a <= b then a else b
  }

  /** `walletAddress ? walletAddress.slice(0, 6) + '...' + walletAddress.slice(-4) : ''`. */
  function TruncatedAddress(walletAddress: Option<string>): (r: string)
    ensures !Truthy(walletAddress) ==> r == ""
    ensures Truthy(walletAddress) ==>
              var a := walletAddress.value;
              r == a[..Min(6, |a|)] + "..." + a[|a| - Min(4, |a|)..]
  {
    if Truthy(walletAddress) then
      var a := walletAddress.value;
      Slice(a, 0, 6) + "..." + Slice(a, -4, |a|)
    else ""
  }

  /** An address of ten characters or more is shown as its first six and last four
      characters around an ellipsis, thirteen characters in all, the two parts
      taken from disjoint places of the address. */
  lemma TruncationOfLongAddress(a: string)
    requires |a| >= 10
    ensures var r := TruncatedAddress(Some(a));
            && |r| == 13
            && r[..6] == a[..6] && r[6..9] == "..." && r[9..] == a[|a| - 4..]
            && 6 <= |a| - 4
  {
  }

  /** What the right side of the header shows. */
  datatype Controls =
    | ConnectButton
    | WalletPanel(balance: Option<real>, address: string)

  /** The connect button without an address; otherwise the balance (when known),
      the shortened address and the disconnect button. */
  function HeaderControls(walletAddress: Option<string>, walletBalance: Option<real>): (c: Controls)
    ensures c.ConnectButton? <==> !Truthy(walletAddress)
    ensures c.WalletPanel? ==> c.address == TruncatedAddress(walletAddress) && c.address != ""
    ensures c.WalletPanel? ==> c.balance == walletBalance
  {
    if Truthy(walletAddress) then WalletPanel(walletBalance, TruncatedAddress(walletAddress))
    else ConnectButton
  }
}
