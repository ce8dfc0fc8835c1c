/**
 * The handlers of bot.py as they run against the database: each one reads
 * and rewrites the two tables step by step, and is proved to leave exactly
 * the tables (and give exactly the reply) its function in `Ledger` or
 * `Pairing` describes.
 */
module Bot {
  import opened Wrappers
  import opened Numerals
  import opened Ledger
  import opened Pairing

  /** The SQLite database: the users table keyed by id, and the referrals table in insertion order. */
  class Database {
    var users: map<int, User>
    var referrals: seq<Edge>

    function Contents(): Tables
      reads this
    {
      Tables(users, referrals)
    }

    ghost predicate Valid()
      reads this
    {
      Consistent(Contents())
    }

    /**
     * A fresh database file: `CREATE TABLE IF NOT EXISTS` creates both tables
     * empty (bot.py lines 17-30). A file reopened from an earlier run keeps its
     * rows; if only these handlers wrote them, they are consistent as well.
     */
    constructor ()
      ensures Valid() && Contents() == Tables(map[], [])
    {
      users := map[];
      referrals := [];
    }

    /** `cmd_start` (bot.py lines 39-67); `member` is Telegram's answer to the membership check. */
    method Start(userId: int, profile: Profile, token: string, member: bool) returns (reply: StartReply)
      requires Valid()
      modifies this
      ensures Valid()
      ensures Handled(Contents(), reply) == OnStart(old(Contents()), userId, profile, token, member)
    {
      ghost var before := Contents();
      if userId in users {
        reply := Returning(IntroFor(users, userId, member));
        assert OnStart(before, userId, profile, token, member) == Handled(before, reply);
        StartKeepsConsistent(before, userId, profile, token, member);
        return;
      }
      users := users[userId := NewUser(profile)];
      ghost var joined := Contents();
      var referral := NoToken;
      if |token| > 0 {
        var parsed := ParseInt(token);
        if parsed.None? || !IsSqlInteger(parsed.value) {
          assert OnStart(before, userId, profile, token, member) == Handled(joined, TokenRejected);
          StartKeepsConsistent(before, userId, profile, token, member);
          return TokenRejected;
        }
        var referrer := parsed.value;
        if referrer in users {
          referrals := referrals + [Edge(referrer, userId)];
          users := users[referrer := users[referrer].(balance := users[referrer].balance + REFERRAL_CREDIT)];
          referral := Credited(referrer);
          assert Contents() == Credit(joined, referrer, userId);
          reply := Joined(referral, IntroFor(users, userId, member));
          assert OnStart(before, userId, profile, token, member) == Handled(Contents(), reply);
          StartKeepsConsistent(before, userId, profile, token, member);
          return;
        }
        referral := UnknownReferrer(referrer);
      }
      reply := Joined(referral, IntroFor(users, userId, member));
      assert OnStart(before, userId, profile, token, member) == Handled(joined, reply);
      StartKeepsConsistent(before, userId, profile, token, member);
    }

    /** `handle_manual_wallet_input` (bot.py lines 102-109): the text is stored as the address, unchecked. */
    method SaveManualWallet(chatId: int, text: string)
      requires Valid()
      modifies this
      ensures Valid()
      ensures Contents() == SaveWallet(old(Contents()), chatId, text)
    {
      if chatId in users {
        users := users[chatId := users[chatId].(wallet := text)];
      }
    }

    /**
     * `connect_wallet` (bot.py lines 112-148). The provider's wallet list,
     * one observation per tick and the address conversion are given.
     */
    method ConnectWallet(chatId: int, wallets: seq<Wallet>, name: string,
                         observations: seq<Observation>, toUserFriendly: string -> Option<string>)
      returns (reply: ConnectReply)
      requires Valid() && POLL_TICKS <= |observations|
      modifies this
      ensures Valid()
      ensures Handled(Contents(), reply) == OnConnect(old(Contents()), chatId, wallets, name, observations, toUserFriendly)
    {
      var wallet := FindWallet(wallets, name);
      if wallet.None? {
        return UnknownWallet(name);
      }
      ghost var before := Contents();
      ghost var outcome := Poll(observations, toUserFriendly);
      var k := 0;
      while k < POLL_TICKS
        invariant 0 <= k <= POLL_TICKS
        invariant Contents() == before
        invariant PollFrom(observations, toUserFriendly, k) == outcome
      {
        var observation := observations[k];
        if observation.connected {
          if observation.address == "" {
            assert outcome == ConnectedWithoutAddress(k);
            return Finished(wallet.value, ConnectedWithoutAddress(k));
          }
          var address := toUserFriendly(observation.address);
          if address.None? {
            assert outcome == AddressRejected(k);
            return Finished(wallet.value, AddressRejected(k));
          }
          assert outcome == Paired(k, address.value);
          if chatId in users {
            users := users[chatId := users[chatId].(wallet := address.value)];
          }
          assert Contents() == SaveWallet(before, chatId, address.value);
          return Finished(wallet.value, Paired(k, address.value));
        }
        k := k + 1;
      }
      assert outcome == TimedOut;
      reply := Finished(wallet.value, TimedOut);
    }

    /** `process_check_subscription` (bot.py lines 227-237). */
    method CheckSubscription(userId: int, memberNow: bool, memberAtIntro: bool) returns (reply: SubscriptionReply)
      requires Valid()
      modifies this
      ensures Valid()
      ensures Handled(Contents(), reply) == OnCheckSubscription(old(Contents()), userId, memberNow, memberAtIntro)
    {
      if !memberNow {
        return NotSubscribedAlert;
      }
      if userId in users {
        users := users[userId := users[userId].(subscribed := true)];
      }
      reply := Shown(IntroFor(users, userId, memberAtIntro));
    }
  }
}
