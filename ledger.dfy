/**
 * The bot's two tables and what its handlers do to them. `users` maps a
 * Telegram id to its row; `referrals` holds one `(referrer_id, referral_id)`
 * row per credited invitation, in insertion order. Each handler is a function
 * from the tables before to the tables after and the reply it shows.
 */
module Ledger {
  import opened Wrappers
  import opened Numerals

  /** Column defaults of the users table (bot.py lines 21-23) and the referral bonus (line 64). */
  const INITIAL_BALANCE := 10
  const REFERRAL_CREDIT := 20
  /** The referral deep link, followed by the user id (bot.py line 205). */
  const LINK_BASE := "https://t.me/ARRRdrop_bot?start="

  /** The Telegram profile fields stored with a user; `username` may be absent. */
  datatype Profile = Profile(username: Option<string>, firstName: string)

  /** One row of the users table; `wallet` is "" until an address is saved. */
  datatype User = User(profile: Profile, wallet: string, subscribed: bool, balance: int)

  /** One row of the referrals table. */
  datatype Edge = Edge(referrer: int, referral: int)

  datatype Tables = Tables(users: map<int, User>, referrals: seq<Edge>)

  /** The tables after a handler ran, and what it replied. */
  datatype Handled<R> = Handled(tables: Tables, reply: R)

  /** The row `INSERT INTO users (id, username, first_name)` creates: every other column at its default. */
  function NewUser(profile: Profile): (u: User)
    ensures u.profile == profile && u.wallet == "" && !u.subscribed && u.balance == INITIAL_BALANCE
    ensures forall users: map<int, User>, id: int | id in users && users[id] == u :: IntroFor(users, id, true) == Welcome(INITIAL_BALANCE, true)
  {
    User(profile, "", false, INITIAL_BALANCE)
  }

  /** The positions of the referral rows that name `id` as referrer. */
  function CreditingRows(edges: seq<Edge>, id: int): set<nat>
  {
    set i: nat | i < |edges| && edges[i].referrer == id
  }

  /** `SELECT * FROM referrals WHERE referrer_id=?`: the rows crediting `id`, in table order. */
  function Invited(edges: seq<Edge>, id: int): (rows: seq<Edge>)
    ensures |rows| <= |edges|
    ensures forall e :: e in rows ==> e in edges && e.referrer == id
    ensures forall e :: e in edges && e.referrer == id ==> e in rows
    decreases |edges|
  {
    if edges == [] then []
    else
      var last := edges[|edges| - 1];
      assert edges == edges[..|edges| - 1] + [last];
      Invited(edges[..|edges| - 1], id) + (if last.referrer == id then [last] else [])
  }

  /** The invited list has one entry per row naming `id` as referrer: `len(value_ref)` counts those rows. */
  lemma {:induction false} InvitedCount(edges: seq<Edge>, id: int)
    ensures |Invited(edges, id)| == |CreditingRows(edges, id)|
    decreases |edges|
  {
    if edges != [] {
      var init := edges[..|edges| - 1];
      var last := edges[|edges| - 1];
      InvitedCount(init, id);
      assert edges == init + [last];
      CreditingRowsAppend(init, last, id);
    }
  }

  /** Appending a row adds its position to the crediting rows of its referrer only. */
  lemma CreditingRowsAppend(edges: seq<Edge>, e: Edge, id: int)
    ensures CreditingRows(edges + [e], id) == CreditingRows(edges, id) + (if e.referrer == id then {|edges|} else {})
  {
    var grown := edges + [e];
    assert forall i :: 0 <= i < |edges| ==> grown[i] == edges[i];
  }

  /** Appending a row adds to the invited list of its referrer only. */
  lemma InvitedAppend(edges: seq<Edge>, e: Edge, id: int)
    ensures Invited(edges + [e], id) == Invited(edges, id) + (if e.referrer == id then [e] else [])
  {
    assert (edges + [e])[..|edges|] == edges;
  }

  /** A user that no row names as referrer has invited nobody. */
  lemma {:induction false} NobodyInvited(edges: seq<Edge>, id: int)
    requires forall e :: e in edges ==> e.referrer != id
    ensures Invited(edges, id) == []
    decreases |edges|
  {
    if edges != [] {
      var init := edges[..|edges| - 1];
      assert forall e :: e in init ==> e in edges;
      NobodyInvited(init, id);
      assert edges[|edges| - 1] in edges;
    }
  }

  /**
   * What the handlers keep true of the tables: every referral row names two
   * users; a user is the referral of at most one row; and every balance is
   * the default plus one bonus per row crediting that user.
   */
  predicate Consistent(t: Tables)
  {
    RowsNameUsers(t) && ReferredOnce(t.referrals) && BalancesMatchInvites(t)
  }

  predicate RowsNameUsers(t: Tables)
  {
    forall e :: e in t.referrals ==> e.referrer in t.users && e.referral in t.users
  }

  predicate ReferredOnce(edges: seq<Edge>)
  {
    forall i, j :: 0 <= i < j < |edges| ==> edges[i].referral != edges[j].referral
  }

  predicate BalancesMatchInvites(t: Tables)
  {
    forall id :: id in t.users ==> t.users[id].balance == INITIAL_BALANCE + REFERRAL_CREDIT * |Invited(t.referrals, id)|
  }

  /**
   * `UPDATE users SET wallet_address=? WHERE id=?` (bot.py lines 106 and 143):
   * rewrites the address of one existing row; for an unknown id it matches
   * no row and changes nothing.
   */
  function SaveWallet(t: Tables, id: int, address: string): (t': Tables)
    ensures t'.referrals == t.referrals && t'.users.Keys == t.users.Keys
    ensures id in t.users ==> t'.users[id] == t.users[id].(wallet := address)
    ensures forall other :: other in t.users && other != id ==> t'.users[other] == t.users[other]
    ensures Consistent(t) ==> Consistent(t')
  {
    if id in t.users then t.(users := t.users[id := t.users[id].(wallet := address)]) else t
  }

  /** `UPDATE users SET subscribed=1 WHERE id=?` (bot.py line 233). */
  function MarkSubscribed(t: Tables, id: int): (t': Tables)
    ensures t'.referrals == t.referrals && t'.users.Keys == t.users.Keys
    ensures id in t.users ==> t'.users[id] == t.users[id].(subscribed := true)
    ensures forall other :: other in t.users && other != id ==> t'.users[other] == t.users[other]
    ensures Consistent(t) ==> Consistent(t')
  {
    if id in t.users then t.(users := t.users[id := t.users[id].(subscribed := true)]) else t
  }

  /**
   * The welcome screen: a subscription prompt for a non-member; for a member,
   * the balance, and the connect-wallet button only while no address is
   * stored. A member without a row makes the handler fail on `None[0]`.
   */
  datatype Intro = SubscribePrompt | Welcome(balance: int, offersConnect: bool) | RowMissing

  function IntroFor(users: map<int, User>, id: int, member: bool): (r: Intro)
    ensures r.SubscribePrompt? <==> !member
    ensures r.RowMissing? <==> member && id !in users
    ensures r.Welcome? ==> r.balance == users[id].balance
    ensures r.Welcome? ==> (r.offersConnect <==> users[id].wallet == "")
  {
    if !member then SubscribePrompt
    else if id !in users then RowMissing
    else Welcome(users[id].balance, users[id].wallet == "")
  }

  /** What became of the referrer token of a first `/start`. */
  datatype Referral = NoToken | UnknownReferrer(referrer: int) | Credited(referrer: int)

  /**
   * The outcome of `/start`: a returning user only sees the welcome screen; a
   * newcomer also has a referral outcome; `TokenRejected` is the `ValueError`
   * of `int()`, which ends the handler before the welcome screen.
   */
  datatype StartReply = Returning(intro: Intro) | Joined(referral: Referral, intro: Intro) | TokenRejected

  /** Inserts the referral row and credits the referrer, committed together (bot.py lines 62-65). */
  function Credit(t: Tables, referrer: int, referral: int): (t': Tables)
    requires referrer in t.users
    ensures t'.referrals == t.referrals + [Edge(referrer, referral)] && t'.users.Keys == t.users.Keys
    ensures t'.users[referrer] == t.users[referrer].(balance := t.users[referrer].balance + REFERRAL_CREDIT)
    ensures forall other :: other in t.users && other != referrer ==> t'.users[other] == t.users[other]
  {
    Tables(t.users[referrer := t.users[referrer].(balance := t.users[referrer].balance + REFERRAL_CREDIT)],
           t.referrals + [Edge(referrer, referral)])
  }

  /**
   * `/start` with argument `token` from user `id` (bot.py lines 39-67). The
   * newcomer's row is committed before the token is read, so a token that
   * `int()` rejects, or whose value SQLite cannot bind as a 64-bit integer
   * (an `OverflowError` at line 58), still leaves the row; and a token naming
   * the newcomer itself finds that row.
   */
  function OnStart(t: Tables, id: int, profile: Profile, token: string, member: bool): (h: Handled<StartReply>)
    ensures h.reply.Returning? <==> id in t.users
    ensures h.reply.TokenRejected? <==>
      id !in t.users && |token| > 0 && (ParseInt(token).None? || !IsSqlInteger(ParseInt(token).value))
    ensures h.tables.users.Keys == t.users.Keys + {id}
    ensures h.tables.referrals == t.referrals + (if h.reply.Joined? && h.reply.referral.Credited? then [Edge(h.reply.referral.referrer, id)] else [])
    ensures h.reply.Joined? && h.reply.referral.Credited? ==> h.reply.referral.referrer in h.tables.users
    ensures h.reply.Joined? ==> h.reply.intro == IntroFor(h.tables.users, id, member)
  {
    if id in t.users then Handled(t, Returning(IntroFor(t.users, id, member)))
    else
      var joined := t.(users := t.users[id := NewUser(profile)]);
      if |token| == 0 then Handled(joined, Joined(NoToken, IntroFor(joined.users, id, member)))
      else
        match ParseInt(token)
        case None => Handled(joined, TokenRejected)
        case Some(referrer) =>
          if !IsSqlInteger(referrer) then Handled(joined, TokenRejected)
          else if referrer in joined.users then
            var credited := Credit(joined, referrer, id);
            Handled(credited, Joined(Credited(referrer), IntroFor(credited.users, id, member)))
          else Handled(joined, Joined(UnknownReferrer(referrer), IntroFor(joined.users, id, member)))
  }

  /** `/start` from a known user changes neither table. */
  lemma StartKnownUser(t: Tables, id: int, profile: Profile, token: string, member: bool)
    requires id in t.users
    ensures OnStart(t, id, profile, token, member) == Handled(t, Returning(IntroFor(t.users, id, member)))
  {
  }

  /**
   * `/start` from a newcomer adds exactly one row, with an empty wallet, not
   * subscribed, and the default balance, plus the bonus only when the token
   * named the newcomer itself. The newcomer's welcome screen never misses
   * the row.
   */
  lemma StartAddsOneUser(t: Tables, id: int, profile: Profile, token: string, member: bool)
    requires id !in t.users
    ensures var h := OnStart(t, id, profile, token, member);
      && h.tables.users.Keys == t.users.Keys + {id}
      && h.tables.users[id].profile == profile
      && h.tables.users[id].wallet == ""
      && !h.tables.users[id].subscribed
      && h.tables.users[id].balance == INITIAL_BALANCE + (if h.reply.Joined? && h.reply.referral == Credited(id) then REFERRAL_CREDIT else 0)
      && !h.reply.Returning?
      && (h.reply.Joined? ==> !h.reply.intro.RowMissing?)
  {
  }

  /**
   * A newcomer whose token reads as the id of a user (an existing one, or the
   * newcomer just inserted) appends exactly one referral row and raises the
   * referrer's balance, and only it, by exactly the bonus. The referrer's
   * invited count rises by one; every other count stays.
   */
  lemma StartCreditsReferrer(t: Tables, id: int, profile: Profile, token: string, member: bool, referrer: int)
    requires id !in t.users && |token| > 0 && ParseInt(token) == Some(referrer) && IsSqlInteger(referrer)
    requires referrer in t.users || referrer == id
    ensures var h := OnStart(t, id, profile, token, member);
      && h.reply.Joined? && h.reply.referral == Credited(referrer)
      && h.tables.referrals == t.referrals + [Edge(referrer, id)]
      && h.tables.users[referrer].balance == (if referrer == id then INITIAL_BALANCE else t.users[referrer].balance) + REFERRAL_CREDIT
      && (forall u :: u in t.users && u != referrer ==> h.tables.users[u] == t.users[u])
      && |Invited(h.tables.referrals, referrer)| == |Invited(t.referrals, referrer)| + 1
      && (forall u :: u != referrer ==> Invited(h.tables.referrals, u) == Invited(t.referrals, u))
  {
    var joined := t.(users := t.users[id := NewUser(profile)]);
    var credited := Credit(joined, referrer, id);
    var h := OnStart(t, id, profile, token, member);
    assert h == Handled(credited, Joined(Credited(referrer), IntroFor(credited.users, id, member)));
    assert joined.users[referrer].balance == (if referrer == id then INITIAL_BALANCE else t.users[referrer].balance);
    AppendCountsOnce(t.referrals, Edge(referrer, id));
  }

  /** A new row adds one to its referrer's invited list and leaves every other list as it was. */
  lemma AppendCountsOnce(edges: seq<Edge>, e: Edge)
    ensures |Invited(edges + [e], e.referrer)| == |Invited(edges, e.referrer)| + 1
    ensures forall u :: u != e.referrer ==> Invited(edges + [e], u) == Invited(edges, u)
  {
    InvitedAppend(edges, e, e.referrer);
    forall u | u != e.referrer
      ensures Invited(edges + [e], u) == Invited(edges, u)
    {
      InvitedAppend(edges, e, u);
    }
  }

  /**
   * Referral handling is skipped when the user is known, the token is empty,
   * not an integer or outside SQLite's integers, or it names nobody: the
   * referrals table and every existing row stay as they were.
   */
  lemma StartSkipsReferral(t: Tables, id: int, profile: Profile, token: string, member: bool)
    requires || id in t.users
             || |token| == 0
             || ParseInt(token).None?
             || !IsSqlInteger(ParseInt(token).value)
             || (ParseInt(token).value !in t.users && ParseInt(token).value != id)
    ensures var h := OnStart(t, id, profile, token, member);
      && h.tables.referrals == t.referrals
      && (forall u :: u in t.users ==> u in h.tables.users && h.tables.users[u] == t.users[u])
      && !(h.reply.Joined? && h.reply.referral.Credited?)
  {
  }

  /**
   * A token that is not an integer, or is one SQLite cannot bind, raises
   * after the newcomer's row was committed: the user exists with its default
   * row, no referral row is added, and no welcome screen is shown.
   */
  lemma StartRejectsToken(t: Tables, id: int, profile: Profile, token: string, member: bool)
    requires id !in t.users && |token| > 0
    requires ParseInt(token).None? || !IsSqlInteger(ParseInt(token).value)
    ensures OnStart(t, id, profile, token, member) == Handled(t.(users := t.users[id := NewUser(profile)]), TokenRejected)
  {
  }

  /**
   * Self-referral is not refused: a newcomer whose token is its own id gets
   * the row `(id, id)` and its own balance rises to the default plus the bonus.
   */
  lemma StartSelfReferral(t: Tables, id: int, profile: Profile, member: bool)
    ensures var h := OnStart(t, id, profile, IntToString(id), member);
      id !in t.users && IsSqlInteger(id) ==>
        && h.reply.Joined? && h.reply.referral == Credited(id)
        && h.tables.referrals == t.referrals + [Edge(id, id)]
        && h.tables.users[id].balance == INITIAL_BALANCE + REFERRAL_CREDIT
  {
    ParseIntToString(id);
  }

  /** Every `/start` keeps the tables consistent. */
  lemma StartKeepsConsistent(t: Tables, id: int, profile: Profile, token: string, member: bool)
    requires Consistent(t)
    ensures Consistent(OnStart(t, id, profile, token, member).tables)
  {
    if id !in t.users {
      var joined := t.(users := t.users[id := NewUser(profile)]);
      JoinKeepsConsistent(t, id, profile);
      var parsed := ParseInt(token);
      if |token| > 0 && parsed.Some? && IsSqlInteger(parsed.value) && parsed.value in joined.users {
        CreditKeepsConsistent(joined, parsed.value, id);
        assert OnStart(t, id, profile, token, member).tables == Credit(joined, parsed.value, id);
      } else {
        assert OnStart(t, id, profile, token, member).tables == joined;
      }
    }
  }

  /** Inserting a newcomer's row keeps the tables consistent: no row credits or names it yet. */
  lemma JoinKeepsConsistent(t: Tables, id: int, profile: Profile)
    requires Consistent(t) && id !in t.users
    ensures Consistent(t.(users := t.users[id := NewUser(profile)]))
    ensures forall e :: e in t.referrals ==> e.referral != id
  {
    NobodyInvited(t.referrals, id);
  }

  /** Crediting keeps the tables consistent when the referral is a user no row names yet. */
  lemma CreditKeepsConsistent(t: Tables, referrer: int, referral: int)
    requires Consistent(t) && referrer in t.users && referral in t.users
    requires forall e :: e in t.referrals ==> e.referral != referral
    ensures Consistent(Credit(t, referrer, referral))
  {
    var t' := Credit(t, referrer, referral);
    var e := Edge(referrer, referral);
    assert RowsNameUsers(t') by {
      assert forall f :: f in t'.referrals ==> f in t.referrals || f == e;
    }
    assert ReferredOnce(t'.referrals) by {
      forall i, j | 0 <= i < j < |t'.referrals|
        ensures t'.referrals[i].referral != t'.referrals[j].referral
      {
        if j == |t.referrals| {
          assert t.referrals[i] in t.referrals;
        }
      }
    }
    assert BalancesMatchInvites(t') by {
      AppendCountsOnce(t.referrals, e);
      forall u | u in t'.users
        ensures t'.users[u].balance == INITIAL_BALANCE + REFERRAL_CREDIT * |Invited(t'.referrals, u)|
      {
        if u != referrer {
          assert t'.users[u] == t.users[u];
        }
      }
    }
  }

  /** What the referral screen shows: the personal link and the number of users invited. */
  datatype ReferralInfo = ReferralInfo(link: string, invited: nat)

  /** The referral link of `id`; the token it carries reads back under `int()` as `id`. */
  function ReferralLink(id: int): (link: string)
    ensures LINK_BASE <= link
    ensures ParseInt(link[|LINK_BASE|..]) == Some(id)
  {
    var link := LINK_BASE + IntToString(id);
    assert link[|LINK_BASE|..] == IntToString(id);
    ParseIntToString(id);
    link
  }

  /** The referral screen for `id` (bot.py lines 202-213); it needs no users row. */
  function ReferralStats(t: Tables, id: int): (info: ReferralInfo)
    ensures info.link == ReferralLink(id)
    ensures info.invited == |CreditingRows(t.referrals, id)|
  {
    InvitedCount(t.referrals, id);
    ReferralInfo(ReferralLink(id), |Invited(t.referrals, id)|)
  }

  /**
   * A newcomer arriving through the link of a known user credits that user:
   * its invited count rises by one and its balance by the bonus.
   */
  lemma StartThroughLink(t: Tables, id: int, profile: Profile, member: bool, referrer: int)
    requires referrer in t.users && id !in t.users && IsSqlInteger(referrer)
    ensures var h := OnStart(t, id, profile, ReferralLink(referrer)[|LINK_BASE|..], member);
      && h.reply.Joined? && h.reply.referral == Credited(referrer)
      && ReferralStats(h.tables, referrer).invited == ReferralStats(t, referrer).invited + 1
      && h.tables.users[referrer].balance == t.users[referrer].balance + REFERRAL_CREDIT
  {
    var token := ReferralLink(referrer)[|LINK_BASE|..];
    StartCreditsReferrer(t, id, profile, token, member, referrer);
  }

  /** In consistent tables the invited count shown is what the balance has been credited for. */
  lemma InvitedMatchesBalance(t: Tables, id: int)
    requires Consistent(t) && id in t.users
    ensures t.users[id].balance == INITIAL_BALANCE + REFERRAL_CREDIT * ReferralStats(t, id).invited
  {
  }

  /** The reply of the subscription check: an alert for a non-member, else the welcome screen. */
  datatype SubscriptionReply = NotSubscribedAlert | Shown(intro: Intro)

  /**
   * The "check subscription" button (bot.py lines 227-237). Membership is
   * asked twice of Telegram, once here and once more by the welcome screen;
   * `memberNow` and `memberAtIntro` are the two answers.
   */
  function OnCheckSubscription(t: Tables, id: int, memberNow: bool, memberAtIntro: bool): (h: Handled<SubscriptionReply>)
    ensures !memberNow ==> h == Handled(t, NotSubscribedAlert)
    ensures memberNow ==> h.tables == MarkSubscribed(t, id) && h.reply.Shown?
    ensures memberNow ==> h.reply.intro == IntroFor(h.tables.users, id, memberAtIntro)
    ensures memberNow && memberAtIntro && id in t.users ==>
      h.reply.intro == Welcome(t.users[id].balance, t.users[id].wallet == "")
  {
    if memberNow then
      var t' := MarkSubscribed(t, id);
      Handled(t', Shown(IntroFor(t'.users, id, memberAtIntro)))
    else Handled(t, NotSubscribedAlert)
  }
}
