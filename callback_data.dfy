/**
 * Callback data of the wallet menu. Each wallet button carries
 * `connect:<wallet name>`; the callback handler reads the name back with
 * Python's `data.split(':')[1]`.
 */
module CallbackData {
  import opened Wrappers

  const CONNECT_PREFIX := "connect:"
  const MANUAL_ENTRY := "manual_wallet_input"

  /** `s.split(sep)`: the fields between separators, in order; there is always at least one. */
  function Split(s: string, sep: char): (fields: seq<string>)
    ensures |fields| > 0
    decreases |s|
  {
    if s == [] then [""]
    else
      var rest := Split(s[1..], sep);
      if s[0] == sep then [""] + rest
      else [[s[0]] + rest[0]] + rest[1..]
  }

  /** `sep.join(fields)`. */
  function Join(fields: seq<string>, sep: char): string
    requires |fields| > 0
    decreases |fields|
  {
    if |fields| == 1 then fields[0] else fields[0] + [sep] + Join(fields[1..], sep)
  }

  /** Splitting loses nothing: joining the fields with the separator gives the text back. */
  lemma {:induction false} JoinSplit(s: string, sep: char)
    ensures Join(Split(s, sep), sep) == s
    decreases |s|
  {
    if s != [] {
      var rest := Split(s[1..], sep);
      JoinSplit(s[1..], sep);
      if s[0] == sep {
        assert ([""] + rest)[1..] == rest;
      } else {
        var fields := Split(s, sep);
        assert fields[0] == [s[0]] + rest[0];
        if |rest| == 1 {
          assert Join(fields, sep) == [s[0]] + rest[0];
        } else {
          assert fields[1..] == rest[1..];
          assert Join(fields, sep) == [s[0]] + (rest[0] + [sep] + Join(rest[1..], sep));
        }
      }
    }
  }

  /** `split` yields one field more than there are separators. */
  lemma {:induction false} SplitFieldCount(s: string, sep: char)
    ensures |Split(s, sep)| == multiset(s)[sep] + 1
    decreases |s|
  {
    if s != [] {
      SplitFieldCount(s[1..], sep);
      assert s == [s[0]] + s[1..];
    }
  }

  /** No field holds the separator: `split` cuts at every occurrence. */
  lemma {:induction false} SplitFieldsOmitSeparator(s: string, sep: char)
    ensures forall i :: 0 <= i < |Split(s, sep)| ==> sep !in Split(s, sep)[i]
    decreases |s|
  {
    if s != [] {
      SplitFieldsOmitSeparator(s[1..], sep);
      var rest := Split(s[1..], sep);
      var fields := Split(s, sep);
      if s[0] != sep {
        assert fields[0] == [s[0]] + rest[0];
        assert forall i :: 1 <= i < |fields| ==> fields[i] == rest[i];
      } else {
        assert forall i :: 1 <= i < |fields| ==> fields[i] == rest[i - 1];
      }
    }
  }

  /** Text without the separator is a single field. */
  lemma {:induction false} SplitWithoutSeparator(s: string, sep: char)
    requires sep !in s
    ensures Split(s, sep) == [s]
    decreases |s|
  {
    if s != [] {
      SplitWithoutSeparator(s[1..], sep);
      assert [s[0]] + s[1..] == s;
    }
  }

  /** The text before the first separator is the first field; the rest is split on its own. */
  lemma {:induction false} SplitFirstField(p: string, q: string, sep: char)
    requires sep !in p
    ensures Split(p + [sep] + q, sep) == [p] + Split(q, sep)
    decreases |p|
  {
    var s := p + [sep] + q;
    if p == [] {
      assert s[1..] == q;
    } else {
      assert s[1..] == p[1..] + [sep] + q;
      SplitFirstField(p[1..], q, sep);
      assert [p[0]] + p[1..] == p;
    }
  }

  /** The first field is a prefix of the text without a separator, and a strict one when the text holds one. */
  lemma {:induction false} SplitHead(s: string, sep: char)
    ensures Split(s, sep)[0] <= s
    ensures sep !in Split(s, sep)[0]
    ensures sep in s ==> |Split(s, sep)[0]| < |s| && s[|Split(s, sep)[0]|] == sep
    decreases |s|
  {
    if s != [] {
      SplitHead(s[1..], sep);
      var rest := Split(s[1..], sep);
      if s[0] != sep {
        assert s == [s[0]] + s[1..];
        assert sep in s ==> sep in s[1..];
      }
    }
  }

  /** The data of the button for one wallet (bot.py line 78): the prefix, then the name verbatim. */
  function ConnectData(walletName: string): (data: string)
    ensures CONNECT_PREFIX <= data && |data| == |CONNECT_PREFIX| + |walletName|
    ensures data[|CONNECT_PREFIX|..] == walletName
  {
    CONNECT_PREFIX + walletName
  }

  /**
   * The wallet name the `connect:` callback handler reads, or `None` when the
   * data does not start with `connect:` and the handler is not dispatched.
   */
  function WalletNameOf(data: string): (name: Option<string>)
    ensures name.Some? <==> CONNECT_PREFIX <= data
  {
    if CONNECT_PREFIX <= data then
      var rest := data[|CONNECT_PREFIX|..];
      assert data == "connect" + [':'] + rest;
      SplitFirstField("connect", rest, ':');
      Some(Split(data, ':')[1])
    else None
  }

  /**
   * A wallet button's data reads back as the wallet's name exactly when the
   * name holds no ':'; otherwise the handler sees only the part before the
   * first ':'.
   */
  lemma ConnectDataRoundTrip(walletName: string)
    ensures WalletNameOf(ConnectData(walletName)).Some?
    ensures WalletNameOf(ConnectData(walletName)).value <= walletName
    ensures ':' !in WalletNameOf(ConnectData(walletName)).value
    ensures ':' in walletName ==> walletName[|WalletNameOf(ConnectData(walletName)).value|] == ':'
    ensures WalletNameOf(ConnectData(walletName)).value == walletName <==> ':' !in walletName
  {
    var data := ConnectData(walletName);
    assert data == "connect" + [':'] + walletName;
    SplitFirstField("connect", walletName, ':');
    var head := Split(walletName, ':')[0];
    assert Split(data, ':')[1] == head;
    assert WalletNameOf(data) == Some(head);
    SplitHead(walletName, ':');
    if ':' !in walletName {
      SplitWithoutSeparator(walletName, ':');
    }
  }

  /** The manual-entry button is never taken for a wallet button. */
  lemma ManualEntryIsNotConnect()
    ensures WalletNameOf(MANUAL_ENTRY).None?
  {
    assert MANUAL_ENTRY[1] != CONNECT_PREFIX[1];
  }
}
