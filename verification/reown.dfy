/** The Reown AppKit provider component: it keeps `(isConnected, address)` in
    step with the SDK's account value, which is untyped (a string, an object
    with an `address` field, or something falsy). */
module Reown {
  import opened Wrappers
  import opened Js

  datatype Session = Session(isConnected: bool, address: Option<string>)

  const Disconnected := Session(false, None)

  /** The account is itself a non-empty string. */
  predicate StringAccount(account: Value) {
    account.Str? && account.s != ""
  }

  /** The account is an object whose `address` is a non-empty string. */
  predicate ObjectAccount(account: Value) {
    account.Object? && Get(account.props, "address").Str? && Get(account.props, "address").s != ""
  }

  /** The normalisation shared by `checkConnection` and the subscription
      callback: connected is the account's truthiness; the address is taken
      from a string account or from an object's string `address` field. */
  function Normalise(account: Value): (s: Session)
    ensures s.isConnected <==> Truthy(account)
    ensures s.address.Some? <==> StringAccount(account) || ObjectAccount(account)
    ensures StringAccount(account) ==> s.address == Some(account.s)
    ensures ObjectAccount(account) ==> s.address == Some(Get(account.props, "address").s)
  {
    var address :=
      if Truthy(account) && TypeOf(account) == "string" then Some(account.s)
      else if Truthy(account) && TypeOf(account) == "object" && Truthy(Get(account.props, "address"))
              && TypeOf(Get(account.props, "address")) == "string"
      then Some(Get(account.props, "address").s)
      else None;
    Session(Truthy(account), address)
  }

  /** A known address always comes with a connected flag, and is non-empty. */
  lemma AddressImpliesConnected(account: Value)
    ensures Normalise(account).address.Some? ==>
      Normalise(account).isConnected && Normalise(account).address.value != ""
  {
  }

  /** Connected without an address is reachable: an object lacking a string
      `address`. */
  lemma ConnectedWithoutAddress()
    ensures Normalise(Object(map[])) == Session(true, None)
    ensures Normalise(Object(map["address" := Number(1.0)])) == Session(true, None)
  {
  }

  /** A function account is truthy but not of type "object", so it connects
      without an address even when it carries an `address` property. */
  lemma FunctionAccountHasNoAddress(props: map<string, Value>)
    ensures Normalise(Function(props)) == Session(true, None)
  {
  }

  /** What `appKit.getAccount()` did: returned a value or threw. */
  type AccountAnswer = Result<Value, Thrown>

  /** `checkConnection`: no SDK leaves the state alone; a throwing SDK
      disconnects; otherwise the state is the normalised account. */
  function CheckConnection(s: Session, appKitPresent: bool, answer: AccountAnswer): (s': Session)
    ensures !appKitPresent ==> s' == s
    ensures appKitPresent && answer.Failure? ==> s' == Disconnected
    ensures appKitPresent && answer.Success? ==> s' == OnAccountChange(answer.value)
  {
    if !appKitPresent then s
    else
      match answer
      case Failure(_) => Disconnected
      case Success(account) => Normalise(account)
  }

  /** The `subscribeAccount` callback. */
  function OnAccountChange(account: Value): (s': Session)
    ensures s'.isConnected <==> Truthy(account)
    ensures s'.address.Some? ==> s'.isConnected
    ensures s'.address.Some? <==> StringAccount(account) || ObjectAccount(account)
    ensures StringAccount(account) ==> s'.address == Some(account.s)
    ensures ObjectAccount(account) ==> s'.address == Some(Get(account.props, "address").s)
  {
    Normalise(account)
  }

  /** `disconnect`: with the SDK, asks it to disconnect and clears the state;
      without it, does nothing. */
  datatype Disconnection = Disconnection(session: Session, sdkDisconnectCalled: bool)

  function Disconnect(s: Session, appKitPresent: bool): (d: Disconnection)
    ensures d.sdkDisconnectCalled <==> appKitPresent
    ensures appKitPresent ==> d.session == Disconnected
    ensures !appKitPresent ==> d.session == s
  {
    if appKitPresent then Disconnection(Disconnected, true) else Disconnection(s, false)
  }

  lemma DisconnectIdempotent(s: Session, appKitPresent: bool)
    ensures Disconnect(Disconnect(s, appKitPresent).session, appKitPresent).session
         == Disconnect(s, appKitPresent).session
  {
  }
}
