// Shared connection helpers: channel-name normalisation, the two JOIN line
// formats, and the target set of an ACCOUNT notification.

module Helpers {
  import opened Common
  import opened Server

  /** `normalize_channel`: channel names are compared lower-cased. */
  function NormalizeChannel(name: string): (r: string)
    ensures IsLowerStr(r) && |r| == |name|
  {
    LowerStr(name)
  }

  lemma NormalizeIdempotent(name: string)
    ensures NormalizeChannel(NormalizeChannel(name)) == NormalizeChannel(name)
  {
    LowerStrIdempotent(name);
  }

  /** Names differing only in ASCII case denote the same channel. */
  lemma NormalizeCaseInsensitive(a: string, b: string)
    requires NickEq(a, b)
    ensures NormalizeChannel(a) == NormalizeChannel(b)
  {
  }

  /** `make_standard_join`: `:{hostmask} JOIN {channel}` and CRLF. */
  function StandardJoin(hostmask: string, channel: string): string
  {
    ":" + hostmask + " JOIN " + channel + "\r\n"
  }

  /** `make_extended_join`: the account is the DID, or `*` for a guest, then the realname as trailing parameter. */
  function ExtendedJoin(hostmask: string, channel: string, did: Option<string>, realname: string): string
  {
    ":" + hostmask + " JOIN " + channel + " " + did.UnwrapOr("*") + " :" + realname + "\r\n"
  }

  /** Splitting fields joined by a separator none of them contains gives the fields back. */
  lemma {:induction false} SplitOfJoin(parts: seq<string>, c: char)
    requires |parts| >= 1
    requires forall i | 0 <= i < |parts| :: c !in parts[i]
    ensures Split(Join(parts, [c]), c) == parts
  {
    if |parts| > 1 {
      var rest := parts[1..];
      assert Join(parts, [c]) == parts[0] + [c] + Join(rest, [c]);
      FindCharAfter(parts[0], c, Join(rest, [c]));
      var s := Join(parts, [c]);
      assert s[..|parts[0]|] == parts[0];
      assert s[|parts[0]| + 1..] == Join(rest, [c]);
      SplitOfJoin(rest, c);
      assert parts == [parts[0]] + rest;
    } else {
      assert FindChar(parts[0], c).None?;
    }
  }

  /** Both JOIN lines lead with the same three space-separated fields. */
  lemma JoinLineFields(hostmask: string, channel: string, did: Option<string>, realname: string)
    requires ' ' !in hostmask && ' ' !in channel && ' ' !in did.UnwrapOr("*")
    ensures var s := StandardJoin(hostmask, channel);
      Split(s[..|s| - 2], ' ') == [":" + hostmask, "JOIN", channel]
    ensures var e := ExtendedJoin(hostmask, channel, did, realname);
      e[..|e| - 2] == StandardJoin(hostmask, channel)[..|StandardJoin(hostmask, channel)| - 2] + " " + did.UnwrapOr("*") + " :" + realname
  {
    var parts := [":" + hostmask, "JOIN", channel];
    assert Join(parts, " ") == ":" + hostmask + " JOIN " + channel by {
      assert parts[1..] == ["JOIN", channel];
      assert parts[1..][1..] == [channel];
      assert Join([channel], " ") == channel;
      assert Join(["JOIN", channel], " ") == "JOIN" + " " + channel;
    }
    SplitOfJoin(parts, ' ');
    var s := StandardJoin(hostmask, channel);
    assert s[..|s| - 2] == ":" + hostmask + " JOIN " + channel;
  }

  // ---------------------------------------------------------------------
  // ACCOUNT notifications.

  /** Sessions sharing some channel with `sid`, other than `sid` itself. */
  ghost predicate CoMember(channels: map<string, ChannelState>, sid: string, m: string)
  {
    m != sid && exists k | k in channels :: sid in channels[k].members && m in channels[k].members
  }

  /**
   * `broadcast_account_notify`: walk every channel the session is in and
   * notify each other member once, if it has account-notify and a live
   * connection. Returns the sessions notified, in sending order.
   */
  method AccountNotifyTargets(channels: map<string, ChannelState>, sid: string, capSet: set<string>,
                              connected: set<string>) returns (sent: seq<string>)
    ensures Distinct(sent)
    ensures forall m :: m in sent <==> CoMember(channels, sid, m) && m in capSet && m in connected
  {
    sent := [];
    var notified: set<string> := {};
    var todo := channels.Keys;
    while todo != {}
      invariant todo <= channels.Keys
      invariant forall m :: m in notified <==>
        m != sid && exists k | k in channels && k !in todo :: sid in channels[k].members && m in channels[k].members
      invariant forall m :: m in sent <==> m in notified && m in capSet && m in connected
      invariant Distinct(sent)
      decreases todo
    {
      var k :| k in todo;
      if sid in channels[k].members {
        var rest := channels[k].members;
        ghost var before := notified;
        while rest != {}
          invariant rest <= channels[k].members
          invariant forall m :: m in notified <==> m in before || (m != sid && m in channels[k].members && m !in rest)
          invariant forall m :: m in sent <==> m in notified && m in capSet && m in connected
          invariant Distinct(sent)
          decreases rest
        {
          var m :| m in rest;
          if m != sid && m !in notified {
            if m in capSet && m in connected {
              sent := sent + [m];
            }
            notified := notified + {m};
          }
          rest := rest - {m};
        }
      }
      todo := todo - {k};
    }
  }
}
