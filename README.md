# ARRR drop bot: referral ledger and wallet pairing, in Dafny

This project models the core of the ARRR drop Telegram bot (`bot.py`). The
bot keeps two SQLite tables:

- `users`: one row per Telegram id, holding the profile, the stored TON
  wallet address (empty until one is saved), a subscription flag and a
  token balance (10 by default).
- `referrals`: one `(referrer_id, referral_id)` row per credited invitation.

The model covers what the handlers do to these tables and what they reply:

- `/start`: onboarding, plus the referral bonus of 20 for whoever the link
  token names.
- Manual wallet entry.
- The subscription check.
- The referral screen: the personal link and the invited count.
- The wallet menu and its `connect:<name>` callback data.
- `connect_wallet`: it searches the provider's wallet list, then polls the
  wallet provider for up to 179 ticks and stores the address of the first
  connected account.

Layout:

- `wrappers.dfy`: `Option`.
- `numerals.dfy`: Python's `str(int)` and `int(str)` in base 10. The main
  result is the round trip `int(str(n)) == n`.
- `callback_data.dfy`: `str.split`, `str.join` and the callback data of the
  wallet buttons.
- `ledger.dfy`: the tables as values (`Tables`), the consistency invariant,
  and each handler as a function from the old tables to the new tables and
  the reply. The lemmas state the referral rules.
- `pairing.dfy`: the wallet menu, the wallet search loop (`FindWallet`), the
  poll as a function (`PollFrom`) and the whole `connect_wallet` handler
  (`OnConnect`).
- `bot.dfy`: class `Database`, whose fields are the two tables. Its methods
  run the handlers step by step. Each method is proved to produce exactly
  the tables and reply of its handler function, and to keep `Consistent`.

The invariant `Ledger.Consistent` holds after every handler:

- every referral row names two existing users;
- a user is the referral of at most one row;
- every balance equals 10 plus 20 for each row that credits that user.

This ties the balance shown on the welcome screen to the invited count
shown on the referral screen.

Behaviour the code has and the model keeps:

- Self-referral is not refused. The newcomer's row is inserted
  (bot.py:50) before the referrer is looked up (bot.py:58). So a token equal
  to the newcomer's own id adds the row `(id, id)` and raises the newcomer's
  balance to 30.
- A token that `int()` rejects raises after the newcomer's row is
  committed. The user exists, no referral row is added and no welcome
  screen is sent. The same holds for a token that `int()` reads but that
  SQLite cannot bind as a 64-bit INTEGER (bot.py:58 raises `OverflowError`
  outside [-2^63, 2^63)).
- `UPDATE ... WHERE id=?` on an id with no row changes nothing. The poll
  writes to the row of the chat id (bot.py:143), not the user id.
- The poll returns on the first connected tick even when the account has
  no address. In that case, and on a timeout, nothing is written.
- The bonus is the literal 20 of bot.py:64. A pairing session cannot be cancelled. The poll lasts the 179 ticks of
  `range(1, 180)` (bot.py:137).

## Model

| member | source | states |
|---|---|---|
| Numerals.ParseInt | bot.py:56 | `int()` on the token: a value is read only when the text holds a digit, and a negative value only when it holds a '-' |
| Numerals.IntToString | bot.py:205 | `str(n)`: a '-' exactly for negative `n`, then a non-empty run of digits with no leading zero unless `n` is 0 |
| Numerals.ParseIntToString | bot.py:56 | `int()` applied to `str(n)` gives back `n` for every integer, negative ones included |
| CallbackData.ConnectData | bot.py:78 | a wallet button's data is `connect:` followed by the wallet name verbatim; `ConnectDataRoundTrip` states what the handler reads back |
| CallbackData.WalletNameOf | bot.py:151-153 | the connect handler is dispatched exactly for data starting with `connect:`, and then always has a field 1 to read |
| CallbackData.Split | bot.py:153 | `split(':')` always yields at least one field, so field 0 exists |
| CallbackData.SplitFieldCount | bot.py:153 | `split(':')` yields one field more than the text has separators |
| CallbackData.SplitFieldsOmitSeparator | bot.py:153 | no field of `split(':')` contains the separator |
| CallbackData.SplitWithoutSeparator | bot.py:153 | text without a separator splits into itself alone |
| CallbackData.SplitFirstField | bot.py:153 | text made of a separator-free head, a separator and a rest splits into the head followed by the rest's fields |
| CallbackData.JoinSplit | bot.py:153 | `split(':')` loses nothing: joining its fields with ':' restores the data |
| CallbackData.SplitHead | bot.py:153 | the first field of a split is a prefix without the separator, and a strict prefix when the text holds one |
| CallbackData.ConnectDataRoundTrip | bot.py:78 | the name read back from a wallet button's `connect:<name>` equals the name iff the name holds no ':'; otherwise it is the part before the name's first ':' |
| CallbackData.ManualEntryIsNotConnect | bot.py:79 | the manual-entry button never reaches the connect handler |
| Pairing.WalletMenu | bot.py:76-79 | button i carries `connect:` plus the name of wallet i, in list order, and the last button is `manual_wallet_input`; every wallet button reaches the connect handler and the last never does |
| Pairing.MenuButtonFindsWallet | bot.py:76-78 | every wallet button whose name holds no ':' reads back as that name, and the search then finds a wallet of that name |
| Pairing.LastMatch | bot.py:115-123 | no index iff no entry has the requested name; otherwise the index of the last entry with that name |
| Pairing.FindWallet | bot.py:115-120 | the search loop returns `None` iff no wallet has the name, else the last wallet with that name |
| Pairing.Poll | bot.py:137-148 | the poll times out iff none of the 179 ticks reports `connected`; otherwise it ends at the first tick that does |
| Pairing.PollFrom | bot.py:137-148 | the poll ends on the first connected tick among at most 179. It stores a converted address only when the account has a non-empty address. It times out iff no tick reports `connected` |
| Pairing.OnConnect | bot.py:112-148 | an unknown wallet name fails with no write. Otherwise the outcome is the poll's, and only a `Paired` outcome updates the tables, on this chat's row alone |
| Pairing.TimeoutWritesNothing | bot.py:147-148 | a poll during which no tick reports `connected` leaves both tables unchanged |
| Pairing.PairedHidesConnectButton | bot.py:178-180 | after a pairing that stored a non-empty address, that user's welcome screen no longer offers the connect button |
| Ledger.NewUser | bot.py:50 | the inserted row carries the profile, an empty wallet, no subscription and the default balance 10, so in any table holding that row a member sees a welcome screen with balance 10 and the connect button |
| Ledger.Invited | bot.py:203-204 | the rows selected for a referrer are exactly the referral rows naming that referrer |
| Ledger.InvitedCount | bot.py:203-213 | `len(value_ref)` equals the number of referral rows naming the user as referrer |
| Ledger.CreditingRowsAppend | bot.py:62 | a new referral row adds its own position to the rows crediting its referrer and to no one else's |
| Ledger.InvitedAppend | bot.py:62 | appending a referral row extends only its referrer's selection, by that row |
| Ledger.AppendCountsOnce | bot.py:62 | a new referral row raises its referrer's invited count by exactly one and leaves every other user's list unchanged |
| Ledger.NobodyInvited | bot.py:203-204 | a user named as referrer by no row has an empty invited list |
| Ledger.SaveWallet | bot.py:106 | the update rewrites the address of the named row only; it changes nothing for an unknown id and keeps the tables consistent |
| Ledger.MarkSubscribed | bot.py:233 | the update sets the subscription flag of the named row only; it changes nothing for an unknown id and keeps the tables consistent |
| Ledger.IntroFor | bot.py:167-180 | a non-member gets the subscription prompt. A member gets the balance, with the connect button iff the stored address is empty. A member without a row is the failing case |
| Ledger.Credit | bot.py:62-65 | the referral row `(referrer, referral)` is appended, the referrer's balance rises by 20 and every other row is unchanged |
| Ledger.OnStart | bot.py:39-67 | a known user gets the welcome screen only. A newcomer's row is always added. The token is rejected iff it is non-empty and `int()` refuses it or SQLite cannot bind its value. A referral row is appended only when a referrer is credited, and that referrer has a row. A newcomer who gets a welcome screen gets the one computed from the new tables |
| Ledger.StartKnownUser | bot.py:45-49 | `/start` from an existing user changes neither table and only shows the welcome screen |
| Ledger.StartAddsOneUser | bot.py:49-52 | `/start` from a new id adds exactly that row: empty wallet, not subscribed, balance 10, plus 20 only for self-referral |
| Ledger.StartCreditsReferrer | bot.py:54-65 | a token naming a user appends exactly the row `(referrer, id)` and raises only the referrer's balance, by 20. The referrer's invited count rises by one and no other count changes |
| Ledger.StartSkipsReferral | bot.py:55-60 | a known user, an empty token, a non-integer token, a value outside SQLite's 64-bit range or a token naming nobody leaves the referrals table and all existing rows unchanged |
| Ledger.StartRejectsToken | bot.py:50-58 | a non-integer token, or one SQLite cannot bind, leaves the newcomer's committed default row, adds no referral row and shows no welcome screen |
| Ledger.StartSelfReferral | bot.py:50-64 | a newcomer whose token is its own id gets the row `(id, id)` and a balance of 30 |
| Ledger.JoinKeepsConsistent | bot.py:50-52 | inserting a new user's row keeps the tables consistent, and no existing row names the new user |
| Ledger.CreditKeepsConsistent | bot.py:62-65 | inserting a referral row and crediting its referrer together keep the tables consistent |
| Ledger.StartKeepsConsistent | bot.py:39-65 | every `/start` keeps the tables consistent: rows name users, each user is referred at most once, and each balance is 10 + 20 × invited count |
| Ledger.ReferralLink | bot.py:205 | the link is the bot's `start` URL followed by a token that reads back under `int()` as the id the link was built for |
| Ledger.ReferralStats | bot.py:202-213 | the referral screen shows the user's own link and the number of referral rows naming the user as referrer |
| Ledger.StartThroughLink | bot.py:54-65 | a newcomer arriving through a known user's link credits that user: invited count +1 and balance +20 |
| Ledger.InvitedMatchesBalance | bot.py:203-213 | in consistent tables, the invited count on the referral screen is exactly what the balance was credited for |
| Ledger.OnCheckSubscription | bot.py:227-237 | a non-member gets the alert and no change. A member gets the subscription flag set and the welcome screen computed from the updated row, whose balance and button come from the row |
| Bot.Database.constructor | bot.py:17-30 | a fresh database file: both tables start empty, which is consistent |
| Bot.Database.Start | bot.py:39-67 | the step-by-step `/start` leaves exactly the tables and reply of `OnStart` and keeps the tables consistent |
| Bot.Database.SaveManualWallet | bot.py:102-109 | the typed text, unchecked, becomes the address of the chat's row, if that row exists |
| Bot.Database.ConnectWallet | bot.py:112-148 | the search followed by the 179-tick poll loop leaves exactly the tables and reply of `OnConnect` and keeps the tables consistent |
| Bot.Database.CheckSubscription | bot.py:227-237 | the handler leaves exactly the tables and reply of `OnCheckSubscription` |

## Left out

- Chat I/O is not modelled: aiogram dispatch, keyboards, `answer`, `answer_photo`, `send_photo`, the photo files and QR rendering. Replies are datatypes (`Intro`, `StartReply`, `ConnectReply`, `SubscriptionReply`).
- The channel-membership call `check_subscription` (bot.py:158-163) is a remote Telegram call. Its answer is a boolean parameter. `process_check_subscription` asks twice (once itself, once through the welcome screen), so it takes two booleans.
- `get_connector` and `connector.connect` are not modelled, because the connector module is not part of this model. The wallet list and one `(connected, address)` observation per tick are inputs; the pairing URL is not modelled.
- `Bot.Database.ConnectWallet` and `Pairing.OnConnect` require at least 179 observations, one for each tick the loop may read. This is the model's input shape, not a demand of the source.
- The conversion `Address(...).to_str(is_bounceable=False)` is foreign code. It is the parameter `toUserFriendly`. `None` stands for the conversion raising, which ends the handler without a write.
- `asyncio.sleep` timing is reduced to ticks. Concurrent handlers are not modelled: two `connect_wallet` polls for the same chat can both write in the source.
- The aiogram FSM state for manual entry (`manual_wallet_input`, `cancel_wallet_input`, bot.py:83-98) is chat plumbing. `SaveManualWallet` models the handler once the chat is in the waiting state.
- SQL errors and `conn.commit` failures are not modelled; each commit is the state update. The `username` and `first_name` columns are carried in `Profile` but never read.
- Numerals.ParseIntToString: `ParseInt` accepts ASCII digits and ASCII whitespace only. Python's `int()` also accepts other Unicode decimal digits and whitespace.
- Ledger.OnStart: the user id itself is assumed to fit SQLite's 64-bit INTEGER, as Telegram ids do; an id outside that range would raise already at bot.py:46.
- Numerals.ParseInt: Python's limit of 4300 digits on `int()` of a string is not modelled; a `/start` argument cannot reach it within Telegram's 4096-character message limit.
- `Bot.Database.constructor` models a fresh database file. A file reopened from an earlier run is consistent if only these handlers wrote it; rows written by other tools are not covered.
- Pairing.MenuButtonFindsWallet: the menu (bot.py:76) and the search (bot.py:115) each call `get_wallets()`; the lemma assumes both calls return the same list.
- `message.get_args()` is taken as the given token string. Telegram's 64-byte limit on callback data is not modelled.
- config.py only loads the bot token and builds the Bot and Dispatcher objects; it has no logic to model.
