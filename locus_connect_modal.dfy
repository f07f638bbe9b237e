/** The wallet connection dialog (`components/LocusConnectModal.tsx`): the user types
    a key, which is passed on trimmed, and only when something is left after trimming. */
module LocusConnectModal {
  import opened Util
  import opened Text

  /** `walletKey.trim()` when it is truthy; None when the dialog alerts instead. */
  function KeyToConnect(walletKey: string): (r: Option<string>)
    ensures r.None? <==> AllWhitespace(walletKey)
    ensures r.Some? ==>
              && r.value != []
              && !IsWhitespace(r.value[0]) && !IsWhitespace(r.value[|r.value| - 1])
              && r.value == Trim(walletKey)
  {
    var t := Trim(walletKey);
    if t != "" then Some(t) else None
  }

  /** `disabled={!walletKey.trim()}`. */
  predicate ConnectDisabled(walletKey: string)
  {
    Trim(walletKey) == ""
  }

  /** The button is disabled exactly when pressing it would not connect. */
  lemma DisabledIffNoKey(walletKey: string)
    ensures ConnectDisabled(walletKey) <==> KeyToConnect(walletKey).None?
  {
  }

  /** The key passed on is already trimmed: typing it again would pass on the same. */
  lemma ConnectedKeyIsStable(walletKey: string)
    requires KeyToConnect(walletKey).Some?
    ensures KeyToConnect(KeyToConnect(walletKey).value) == KeyToConnect(walletKey)
  {
    TrimIdempotent(walletKey);
  }

  class Modal {
    var isOpen: bool
    var walletKey: string

    /** A closed dialog holds no key. */
    predicate Valid()
      reads this
    {
      !isOpen ==> walletKey == ""
    }

    constructor (isOpen: bool)
      ensures this.isOpen == isOpen && walletKey == ""
      ensures Valid()
    {
      this.isOpen := isOpen;
      walletKey := "";
    }

    /** A new `isOpen` prop; the effect clears the key when the dialog is closed. */
    method SetOpen(isOpen: bool)
      requires Valid()
      modifies this
      ensures this.isOpen == isOpen
      ensures !isOpen ==> walletKey == ""
      ensures isOpen ==> walletKey == old(walletKey)
      ensures Valid()
    {
      this.isOpen := isOpen;
      if !isOpen {
        walletKey := "";
      }
    }

    /** The input's `onChange`; the input exists only while the dialog is open. */
    method SetKey(k: string)
      requires Valid() && isOpen
      modifies this`walletKey
      ensures walletKey == k
      ensures Valid()
    {
      walletKey := k;
    }

    /** `handleConnect`: the key passed to `onConnect`, or None when it alerts. */
    method HandleConnect() returns (connected: Option<string>)
      requires isOpen
      ensures connected.None? <==> AllWhitespace(walletKey)
      ensures connected.Some? ==> connected.value == Trim(walletKey) && connected.value != []
    {
      var key := Trim(walletKey);
      if key != "" {
        connected := Some(key);
      } else {
        connected := None;
      }
    }
  }
}
