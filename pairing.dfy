/**
 * Pairing a TON wallet (bot.py lines 70-80 and 112-154): the wallet menu,
 * the search of the provider's wallet list, and the 179-tick poll that saves
 * the address once the wallet app reports a connection.
 */
module Pairing {
  import opened Wrappers
  import opened CallbackData
  import opened Ledger

  /** The poll runs `for i in range(1, 180)`: at most 179 status checks. */
  const POLL_TICKS := 179

  /** One entry of the provider's wallet list: its `name` and the rest of the dictionary. */
  datatype Wallet = Wallet(name: string, details: map<string, string>)

  /** What the provider reports at one tick: `connected`, and the raw account address ("" if none). */
  datatype Observation = Observation(connected: bool, address: string)

  /**
   * How the poll ends; `at` is the index of the tick that saw `connected`
   * (so `at + 1` checks were made). `AddressRejected` is the address
   * conversion raising, which ends the handler without a write.
   */
  datatype PollOutcome =
    | Paired(at: nat, address: string)
    | ConnectedWithoutAddress(at: nat)
    | AddressRejected(at: nat)
    | TimedOut

  /** The buttons of the wallet menu: one per wallet in list order, then manual entry (bot.py lines 76-79). */
  function WalletMenu(wallets: seq<Wallet>): (data: seq<string>)
    ensures |data| == |wallets| + 1
    ensures forall i :: 0 <= i < |wallets| ==> data[i] == ConnectData(wallets[i].name)
    ensures data[|wallets|] == MANUAL_ENTRY
    ensures forall i :: 0 <= i < |wallets| ==> WalletNameOf(data[i]).Some?
    ensures WalletNameOf(data[|wallets|]).None?
  {
    ManualEntryIsNotConnect();
    seq(|wallets|, i requires 0 <= i < |wallets| => ConnectData(wallets[i].name)) + [MANUAL_ENTRY]
  }

  /** `i` is the last entry of `wallets` with the requested name. */
  ghost predicate IsLastMatch(wallets: seq<Wallet>, name: string, i: int)
  {
    0 <= i < |wallets| && wallets[i].name == name &&
    forall j :: i < j < |wallets| ==> wallets[j].name != name
  }

  /** The index of the wallet the search settles on: the last one named `name`, if any. */
  function LastMatch(wallets: seq<Wallet>, name: string): (r: Option<nat>)
    ensures r.None? <==> forall j :: 0 <= j < |wallets| ==> wallets[j].name != name
    ensures r.Some? ==> IsLastMatch(wallets, name, r.value)
    decreases |wallets|
  {
    if wallets == [] then None
    else if wallets[|wallets| - 1].name == name then Some(|wallets| - 1)
    else LastMatch(wallets[..|wallets| - 1], name)
  }

  /**
   * The search loop of `connect_wallet` (bot.py lines 115-120): every entry
   * with the requested name replaces the one found before, so the last
   * match wins; `None` is the case the source reports as an unknown wallet.
   */
  method FindWallet(wallets: seq<Wallet>, name: string) returns (wallet: Option<Wallet>)
    ensures wallet.None? <==> forall j :: 0 <= j < |wallets| ==> wallets[j].name != name
    ensures wallet.Some? ==> exists i :: IsLastMatch(wallets, name, i) && wallet.value == wallets[i]
    ensures wallet.Some? ==> wallet.value == wallets[LastMatch(wallets, name).value]
  {
    wallet := None;
    var k := 0;
    while k < |wallets|
      invariant 0 <= k <= |wallets|
      invariant wallet.None? <==> LastMatch(wallets[..k], name).None?
      invariant wallet.Some? ==> wallet.value == wallets[LastMatch(wallets[..k], name).value]
    {
      assert wallets[..k + 1][..k] == wallets[..k];
      if wallets[k].name == name {
        wallet := Some(wallets[k]);
      }
      k := k + 1;
    }
    assert wallets[..k] == wallets;
  }

  /**
   * The poll from tick index `k` on: the first tick that reports `connected`
   * ends it, with the converted address when the account has one; if no tick
   * up to the last does, it times out.
   */
  function PollFrom(observations: seq<Observation>, toUserFriendly: string -> Option<string>, k: nat): (r: PollOutcome)
    requires k <= POLL_TICKS <= |observations|
    ensures r.TimedOut? <==> forall j :: k <= j < POLL_TICKS ==> !observations[j].connected
    ensures !r.TimedOut? ==> k <= r.at < POLL_TICKS && observations[r.at].connected
    ensures !r.TimedOut? ==> forall j :: k <= j < r.at ==> !observations[j].connected
    ensures r.ConnectedWithoutAddress? <==> !r.TimedOut? && observations[r.at].address == ""
    ensures r.Paired? ==> observations[r.at].address != "" && toUserFriendly(observations[r.at].address) == Some(r.address)
    ensures r.AddressRejected? ==> observations[r.at].address != "" && toUserFriendly(observations[r.at].address).None?
    decreases POLL_TICKS - k
  {
    if k == POLL_TICKS then TimedOut
    else if observations[k].connected then
      if observations[k].address == "" then ConnectedWithoutAddress(k)
      else
        match toUserFriendly(observations[k].address)
        case None => AddressRejected(k)
        case Some(a) => Paired(k, a)
    else PollFrom(observations, toUserFriendly, k + 1)
  }

  /** The whole poll, from the first of its 179 ticks. */
  function Poll(observations: seq<Observation>, toUserFriendly: string -> Option<string>): (r: PollOutcome)
    requires POLL_TICKS <= |observations|
    ensures r.TimedOut? <==> forall j :: 0 <= j < POLL_TICKS ==> !observations[j].connected
    ensures !r.TimedOut? ==> r.at < POLL_TICKS && observations[r.at].connected
    ensures !r.TimedOut? ==> forall j :: 0 <= j < r.at ==> !observations[j].connected
  {
    PollFrom(observations, toUserFriendly, 0)
  }

  /** How `connect_wallet` ends: the name matched no wallet, or the poll ran for the chosen one. */
  datatype ConnectReply = UnknownWallet(name: string) | Finished(wallet: Wallet, outcome: PollOutcome)

  /**
   * `connect_wallet` for chat `chatId` (bot.py lines 112-148). An unknown
   * name fails before any pairing; otherwise the poll decides, and only a
   * `Paired` outcome writes, to this chat's row alone.
   */
  function OnConnect(t: Tables, chatId: int, wallets: seq<Wallet>, name: string,
                     observations: seq<Observation>, toUserFriendly: string -> Option<string>): (h: Handled<ConnectReply>)
    requires POLL_TICKS <= |observations|
    ensures h.reply.UnknownWallet? <==> forall j :: 0 <= j < |wallets| ==> wallets[j].name != name
    ensures h.reply.Finished? ==> h.reply.wallet.name == name && h.reply.outcome == Poll(observations, toUserFriendly)
    ensures h.tables == if h.reply.Finished? && h.reply.outcome.Paired? then SaveWallet(t, chatId, h.reply.outcome.address) else t
  {
    match LastMatch(wallets, name)
    case None => Handled(t, UnknownWallet(name))
    case Some(i) =>
      var outcome := Poll(observations, toUserFriendly);
      Handled(if outcome.Paired? then SaveWallet(t, chatId, outcome.address) else t, Finished(wallets[i], outcome))
  }

  /**
   * Every button of the wallet menu reaches the connect handler, and for a
   * wallet whose name holds no ':' the handler finds a wallet of that name.
   * The menu (bot.py line 76) and the search (bot.py line 115) each call
   * `get_wallets()`; the lemma takes both calls to return the same list.
   */
  lemma MenuButtonFindsWallet(wallets: seq<Wallet>, i: int)
    requires 0 <= i < |wallets| && ':' !in wallets[i].name
    ensures WalletNameOf(WalletMenu(wallets)[i]) == Some(wallets[i].name)
    ensures LastMatch(wallets, wallets[i].name).Some?
    ensures wallets[LastMatch(wallets, wallets[i].name).value].name == wallets[i].name
  {
    ConnectDataRoundTrip(wallets[i].name);
  }

  /** The poll never writes without a connected tick: a timeout leaves both tables as they were. */
  lemma TimeoutWritesNothing(t: Tables, chatId: int, wallets: seq<Wallet>, name: string,
                             observations: seq<Observation>, toUserFriendly: string -> Option<string>)
    requires POLL_TICKS <= |observations|
    requires forall j :: 0 <= j < POLL_TICKS ==> !observations[j].connected
    ensures OnConnect(t, chatId, wallets, name, observations, toUserFriendly).tables == t
  {
  }

  /**
   * After a successful pairing that stored a non-empty address, the welcome
   * screen of that chat's user no longer offers the connect-wallet button.
   */
  lemma PairedHidesConnectButton(t: Tables, chatId: int, wallets: seq<Wallet>, name: string,
                                 observations: seq<Observation>, toUserFriendly: string -> Option<string>)
    requires POLL_TICKS <= |observations| && chatId in t.users
    ensures var h := OnConnect(t, chatId, wallets, name, observations, toUserFriendly);
      h.reply.Finished? && h.reply.outcome.Paired? && h.reply.outcome.address != "" ==>
        IntroFor(h.tables.users, chatId, true) == Welcome(t.users[chatId].balance, false)
  {
  }
}
