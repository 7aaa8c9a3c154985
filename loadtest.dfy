// The load tester's bookkeeping: the message id carried in each test
// message, the channels each user joins, the sent and received ids it
// records, and the delivery accounting at the end. Connections, timing,
// the barrier and the printed report are not modelled.

module LoadTest {
  import opened Common

  /** The id a user gives its `n`-th message: "{nick}:{n}". */
  function MsgId(nick: string, n: nat): string
  {
    nick + ":" + DecimalString(n)
  }

  /** The text of a test message carrying `id`. */
  function TestText(id: string): string
  {
    "[" + id + "] test message"
  }

  /**
   * `extract_msg_id`: the text strictly between the first '[' and the
   * first ']', when the '[' comes first.
   */
  function ExtractMsgId(text: string): (r: Option<string>)
    ensures r.Some? <==> '[' in text && ']' in text && FindChar(text, '[').value < FindChar(text, ']').value
    ensures r.Some? ==> r.value == text[FindChar(text, '[').value + 1..FindChar(text, ']').value]
    ensures r.Some? ==> ']' !in r.value
  {
    match FindChar(text, '[')
    case None => None
    case Some(start) =>
      match FindChar(text, ']')
      case None => None
      case Some(end) =>
        if start < end then
          assert text[start + 1..end] == text[..end][start + 1..];
          Some(text[start + 1..end])
        else None
  }

  /** An id without brackets is read back from any text that starts "[id]". */
  lemma ExtractAfterBracket(id: string, rest: string)
    requires '[' !in id && ']' !in id
    ensures ExtractMsgId("[" + id + "]" + rest) == Some(id)
  {
    var t := "[" + id + "]" + rest;
    FindCharAfter([], '[', id + "]" + rest);
    assert [] + ['['] + (id + "]" + rest) == t;
    FindCharAfter("[" + id, ']', rest);
    assert "[" + id + [']'] + rest == t;
    assert t[1..|id| + 1] == id;
  }

  /** The id in a test message is read back as it was sent. */
  lemma ExtractRoundTrip(id: string)
    requires '[' !in id && ']' !in id
    ensures ExtractMsgId(TestText(id)) == Some(id)
  {
    ExtractAfterBracket(id, " test message");
    assert TestText(id) == "[" + id + "]" + " test message";
  }

  /** A message id never holds a bracket, so every test message is read back. */
  lemma MsgIdRoundTrip(nick: string, n: nat)
    requires '[' !in nick && ']' !in nick
    ensures ExtractMsgId(TestText(MsgId(nick, n))) == Some(MsgId(nick, n))
  {
    var d := DecimalString(n);
    assert forall i | 0 <= i < |d| :: IsDigit(d[i]);
    assert '[' !in d && ']' !in d;
    ExtractRoundTrip(MsgId(nick, n));
  }

  /** A ']' before the first '[' means no id. */
  lemma CloseBeforeOpen(a: string, b: string)
    requires '[' !in a && ']' !in a
    ensures ExtractMsgId(a + "]" + b) == None
  {
    FindCharAfter(a, ']', b);
    assert a + [']'] + b == a + "]" + b;
  }

  // ---------------------------------------------------------------------
  // Channel assignment.

  /**
   * User `i` joins channels `i mod c` and `(i + 1) mod c`, once each: two
   * channels, or one when there is only one channel.
   */
  function UserChannels(i: nat, c: nat): (r: set<nat>)
    requires c > 0
    ensures forall ch | ch in r :: ch < c
    ensures i % c in r && (i + 1) % c in r
    ensures c == 1 ==> |r| == 1
    ensures c > 1 ==> |r| == 2
  {
    var r := {i % c, (i + 1) % c};
    if c == 1 then
      assert r == {0};
      r
    else
      NextChannelDiffers(i, c);
      r
  }

  lemma NextChannelDiffers(i: nat, c: nat)
    requires c > 1
    ensures (i + 1) % c != i % c
  {
    var q := i / c;
    var r := i % c;
    if r == c - 1 {
      ModUnique(i + 1, c, q + 1, 0);
    } else {
      ModUnique(i + 1, c, q, r + 1);
    }
  }

  /** Division with remainder has one answer. */
  lemma ModUnique(x: int, c: int, q: int, r: int)
    requires c > 0 && 0 <= r < c && x == q * c + r
    ensures x % c == r
  {
    var q0 := x / c;
    var r0 := x % c;
    var d := q - q0;
    assert d * c == q * c - q0 * c;
    assert d * c == r0 - r;
    if d >= 1 {
      assert false;
    } else if d <= -1 {
      assert false;
    }
  }

  /** Every channel gets users: channel k is joined by user k. */
  lemma EveryChannelJoined(k: nat, c: nat)
    requires k < c
    ensures k in UserChannels(k, c)
  {
    assert k % c == k;
  }

  // ---------------------------------------------------------------------
  // Expected deliveries.

  function Get<K>(m: map<K, set<string>>, k: K): set<string>
  {
    if k in m then m[k] else {}
  }

  /** The ids a receiver sent itself: those starting with its nick and ':'. */
  function OwnIds(ids: set<string>, nick: string): (r: set<string>)
    ensures r <= ids
    ensures forall id | id in ids :: id in r <==> StartsWith(id, nick + ":")
  {
    set id | id in ids && StartsWith(id, nick + ":")
  }

  lemma {:induction false} SubsetCard(a: set<string>, b: set<string>)
    requires a <= b
    ensures |a| <= |b|
    decreases |b|
  {
    if a != {} {
      var x :| x in a;
      SubsetCard(a - {x}, b - {x});
    }
  }

  /** What a receiver should get from a channel: every id sent there but its own. */
  function ExpectedFor(ids: set<string>, nick: string): (r: nat)
    ensures r <= |ids|
  {
    SubsetCard(OwnIds(ids, nick), ids);
    |ids| - |OwnIds(ids, nick)|
  }

  /** The count owed is the number of ids the receiver did not send. */
  lemma ExpectedCountsOthers(ids: set<string>, nick: string)
    ensures ExpectedFor(ids, nick) == |ids - OwnIds(ids, nick)|
  {
    assert ids == (ids - OwnIds(ids, nick)) + OwnIds(ids, nick);
  }

  /** For nicks without ':', a message id is counted as a receiver's own exactly when the receiver sent it. */
  lemma OwnIdExactly(sender: string, receiver: string, n: nat)
    requires ':' !in sender && ':' !in receiver
    ensures StartsWith(MsgId(sender, n), receiver + ":") <==> sender == receiver
  {
    var id := MsgId(sender, n);
    FindCharAfter(sender, ':', DecimalString(n));
    assert sender + [':'] + DecimalString(n) == id;
    if StartsWith(id, receiver + ":") {
      var rest := id[|receiver| + 1..];
      assert receiver + [':'] + rest == id;
      FindCharAfter(receiver, ':', rest);
      assert sender == id[..|sender|] == receiver;
    }
    if sender == receiver {
      assert id[..|receiver| + 1] == receiver + ":";
    }
  }

  /** The nicks that received something from channel `ch`. */
  function Receivers(received: map<(string, string), set<string>>, ch: string): (r: set<string>)
    ensures forall n :: n in r <==> (n, ch) in received
  {
    set k | k in received && k.1 == ch :: k.0
  }

  /** A receiver got at least as many ids as it was owed. */
  predicate Served(sent: map<string, set<string>>, received: map<(string, string), set<string>>,
                   ch: string, n: string)
  {
    ch in sent && (n, ch) in received && |received[(n, ch)]| >= ExpectedFor(sent[ch], n)
  }

  /** Every receiver of every channel got at least as many ids as it was owed. */
  predicate AllServed(sent: map<string, set<string>>, received: map<(string, string), set<string>>)
  {
    forall k | k in received && k.1 in sent :: Served(sent, received, k.1, k.0)
  }

  /** The totals of the analysis phase. */
  datatype Totals = Totals(expected: nat, received: nat, missing: nat)

  /** One receiver's contribution to the totals. */
  method AccountReceiver(ids: set<string>, got: set<string>, nick: string) returns (t: Totals)
    ensures t.expected == ExpectedFor(ids, nick)
    ensures t.received == Min(|got|, t.expected)
    ensures t.received + t.missing == t.expected
    ensures t.missing == 0 <==> |got| >= t.expected
  {
    var expected := ExpectedFor(ids, nick);
    var received := if |got| < expected then |got| else expected;
    var missing := if |got| < expected then expected - |got| else 0;
    t := Totals(expected, received, missing);
  }

  /** The sum of `f` over the set `s`. */
  ghost function SetSum(s: set<string>, f: string -> nat): nat
    decreases s
  {
    if s == {} then 0 else var x :| x in s; f(x) + SetSum(s - {x}, f)
  }

  /** Any element may be taken out of the sum first. */
  lemma {:induction false} SetSumRemove(s: set<string>, f: string -> nat, x: string)
    requires x in s
    ensures SetSum(s, f) == f(x) + SetSum(s - {x}, f)
    decreases s
  {
    var y :| y in s && SetSum(s, f) == f(y) + SetSum(s - {y}, f);
    if y != x {
      SetSumRemove(s - {y}, f, x);
      SetSumRemove(s - {x}, f, y);
      assert s - {y} - {x} == s - {x} - {y};
    }
  }

  /** Adding a new element adds its value to the sum. */
  lemma SetSumAdd(s: set<string>, f: string -> nat, x: string)
    requires x !in s
    ensures SetSum(s + {x}, f) == SetSum(s, f) + f(x)
  {
    SetSumRemove(s + {x}, f, x);
    assert s + {x} - {x} == s;
  }

  /** Moving one element from the sets still to visit to the visited ones keeps them a partition. */
  lemma MoveOne(done: set<string>, rest: set<string>, x: string)
    requires x in rest && done !! rest
    ensures (done + {x}) + (rest - {x}) == done + rest && (done + {x}) !! (rest - {x}) && x !in done
    ensures |rest - {x}| < |rest|
  {
  }

  /** What each receiver is owed from a channel whose sent ids are `ids`. */
  function OwedIn(ids: set<string>): string -> nat
  {
    n => ExpectedFor(ids, n)
  }

  /** What each receiver is credited from channel `ch`: what it got, capped at what it was owed. */
  function CreditIn(ids: set<string>, received: map<(string, string), set<string>>, ch: string): string -> nat
  {
    n => if (n, ch) in received then Min(|received[(n, ch)]|, ExpectedFor(ids, n)) else 0
  }

  /** The expected total of a channel: the sum over its receivers. */
  ghost function OwedOn(sent: map<string, set<string>>, received: map<(string, string), set<string>>, ch: string): nat
  {
    if ch in sent then SetSum(Receivers(received, ch), OwedIn(sent[ch])) else 0
  }

  /** The received total of a channel: the sum of its receivers' capped counts. */
  ghost function CreditOn(sent: map<string, set<string>>, received: map<(string, string), set<string>>, ch: string): nat
  {
    if ch in sent then SetSum(Receivers(received, ch), CreditIn(sent[ch], received, ch)) else 0
  }

  /** `OwedOn` as a function of the channel, to be summed over channels. */
  ghost function ChannelOwed(sent: map<string, set<string>>, received: map<(string, string), set<string>>): string -> nat
  {
    ch => OwedOn(sent, received, ch)
  }

  /** `CreditOn` as a function of the channel, to be summed over channels. */
  ghost function ChannelCredit(sent: map<string, set<string>>, received: map<(string, string), set<string>>): string -> nat
  {
    ch => CreditOn(sent, received, ch)
  }

  /** Two tallies added field by field. */
  function Plus(a: Totals, b: Totals): Totals
  {
    Totals(a.expected + b.expected, a.received + b.received, a.missing + b.missing)
  }

  /**
   * The analysis loops: over every channel, over every nick that received
   * something from it. Credit is capped at what was owed, and missing is
   * the shortfall, so received and missing always add up to expected.
   */
  method Account(sent: map<string, set<string>>, received: map<(string, string), set<string>>)
    returns (t: Totals)
    ensures t.expected == SetSum(sent.Keys, ChannelOwed(sent, received))
    ensures t.received == SetSum(sent.Keys, ChannelCredit(sent, received))
    ensures t.received + t.missing == t.expected
    ensures t.received <= t.expected
    ensures t.missing == 0 <==> AllServed(sent, received)
  {
    t := Totals(0, 0, 0);
    var channels := sent.Keys;
    ghost var done: set<string> := {};
    TallyEmpty(sent, received);
    while channels != {}
      invariant done + channels == sent.Keys && done !! channels
      invariant Tally(sent, received, done, t)
      decreases |channels|
    {
      var ch :| ch in channels;
      MoveOne(done, channels, ch);
      t := AddChannel(sent, received, ch, done, t);
      channels := channels - {ch};
      done := done + {ch};
    }
    assert done == sent.Keys;
    TallyDone(sent, received, t);
    assert t.received <= t.expected;
  }

  /** One pass of the outer loop: the channel's totals are added to those of the channels before it. */
  method AddChannel(sent: map<string, set<string>>, received: map<(string, string), set<string>>,
                    ch: string, ghost done: set<string>, acc: Totals) returns (t: Totals)
    requires ch in sent && ch !in done
    requires Tally(sent, received, done, acc)
    ensures Tally(sent, received, done + {ch}, t)
  {
    var one := AccountChannel(sent, received, ch);
    TallyStep(sent, received, done, ch, acc, one);
    t := Plus(acc, one);
  }

  /** A tally over every channel gives the totals `Account` promises. */
  lemma TallyDone(sent: map<string, set<string>>, received: map<(string, string), set<string>>, t: Totals)
    requires Tally(sent, received, sent.Keys, t)
    ensures t.expected == SetSum(sent.Keys, ChannelOwed(sent, received))
    ensures t.received == SetSum(sent.Keys, ChannelCredit(sent, received))
    ensures t.received + t.missing == t.expected
    ensures t.missing == 0 <==> AllServed(sent, received)
  {
    assert AllServed(sent, received) <==> ServedOn(sent, received, sent.Keys);
  }

  /** The totals over the channels in `done`, as the outer loop keeps them. */
  ghost predicate Tally(sent: map<string, set<string>>, received: map<(string, string), set<string>>,
                        done: set<string>, t: Totals)
  {
    t.expected == SetSum(done, ChannelOwed(sent, received))
    && t.received == SetSum(done, ChannelCredit(sent, received))
    && t.received + t.missing == t.expected
    && (t.missing == 0 <==> ServedOn(sent, received, done))
  }

  /** Nothing is tallied before the first channel. */
  lemma TallyEmpty(sent: map<string, set<string>>, received: map<(string, string), set<string>>)
    ensures Tally(sent, received, {}, Totals(0, 0, 0))
  {
    assert SetSum({}, ChannelOwed(sent, received)) == 0;
    assert SetSum({}, ChannelCredit(sent, received)) == 0;
  }

  /** Adding one channel's totals extends the tally by that channel. */
  lemma TallyStep(sent: map<string, set<string>>, received: map<(string, string), set<string>>,
                  done: set<string>, ch: string, acc: Totals, one: Totals)
    requires ch in sent && ch !in done
    requires Tally(sent, received, done, acc)
    requires one.expected == SetSum(Receivers(received, ch), OwedIn(sent[ch]))
    requires one.received == SetSum(Receivers(received, ch), CreditIn(sent[ch], received, ch))
    requires one.received + one.missing == one.expected
    requires one.missing == 0 <==> forall k | k in received && k.1 == ch :: Served(sent, received, k.1, k.0)
    ensures Tally(sent, received, done + {ch}, Plus(acc, one))
  {
    var t := Plus(acc, one);
    assert t.expected == SetSum(done + {ch}, ChannelOwed(sent, received)) by {
      SetSumAdd(done, ChannelOwed(sent, received), ch);
      assert ChannelOwed(sent, received)(ch) == one.expected;
    }
    assert t.received == SetSum(done + {ch}, ChannelCredit(sent, received)) by {
      SetSumAdd(done, ChannelCredit(sent, received), ch);
      assert ChannelCredit(sent, received)(ch) == one.received;
    }
    ServedOnAdd(sent, received, done, ch);
    ZeroSumIff(acc.missing, one.missing, ServedOn(sent, received, done),
               forall k | k in received && k.1 == ch :: Served(sent, received, k.1, k.0),
               ServedOn(sent, received, done + {ch}));
  }

  /** Two counts add up to zero exactly when both are zero. */
  lemma ZeroSumIff(a: nat, b: nat, p: bool, q: bool, r: bool)
    requires (a == 0 <==> p) && (b == 0 <==> q) && (r <==> p && q)
    ensures a + b == 0 <==> r
  {
  }

  /** Every receiver of the channels in `chs` got at least as many ids as it was owed. */
  ghost predicate ServedOn(sent: map<string, set<string>>, received: map<(string, string), set<string>>,
                           chs: set<string>)
  {
    forall k | k in received && k.1 in chs :: Served(sent, received, k.1, k.0)
  }

  lemma ServedOnAdd(sent: map<string, set<string>>, received: map<(string, string), set<string>>,
                    chs: set<string>, ch: string)
    ensures ServedOn(sent, received, chs + {ch}) <==>
      ServedOn(sent, received, chs) && forall k | k in received && k.1 == ch :: Served(sent, received, k.1, k.0)
  {
  }

  /** Every nick in `nicks` got at least as many ids from `ch` as it was owed. */
  ghost predicate ServedAmong(sent: map<string, set<string>>, received: map<(string, string), set<string>>,
                              ch: string, nicks: set<string>)
  {
    forall n | n in nicks :: Served(sent, received, ch, n)
  }

  /** The inner loop of the analysis: every nick that received something from one channel. */
  method AccountChannel(sent: map<string, set<string>>, received: map<(string, string), set<string>>, ch: string)
    returns (t: Totals)
    requires ch in sent
    ensures t.expected == SetSum(Receivers(received, ch), OwedIn(sent[ch]))
    ensures t.received == SetSum(Receivers(received, ch), CreditIn(sent[ch], received, ch))
    ensures t.received + t.missing == t.expected
    ensures t.missing == 0 <==> forall k | k in received && k.1 == ch :: Served(sent, received, k.1, k.0)
  {
    t := Totals(0, 0, 0);
    var receivers := Receivers(received, ch);
    ghost var done: set<string> := {};
    while receivers != {}
      invariant done + receivers == Receivers(received, ch) && done !! receivers
      invariant ChannelTally(sent, received, ch, done, t)
      decreases |receivers|
    {
      var n :| n in receivers;
      var one := AccountReceiver(sent[ch], received[(n, ch)], n);
      ChannelTallyStep(sent, received, ch, done, n, t, one);
      t := Plus(t, one);
      MoveOne(done, receivers, n);
      receivers := receivers - {n};
      done := done + {n};
    }
    assert forall k | k in received && k.1 == ch :: k.0 in done;
  }

  /** The totals over the receivers in `done`, as the inner loop keeps them. */
  ghost predicate ChannelTally(sent: map<string, set<string>>, received: map<(string, string), set<string>>,
                               ch: string, done: set<string>, t: Totals)
    requires ch in sent
  {
    t.expected == SetSum(done, OwedIn(sent[ch]))
    && t.received == SetSum(done, CreditIn(sent[ch], received, ch))
    && t.received + t.missing == t.expected
    && (t.missing == 0 <==> ServedAmong(sent, received, ch, done))
  }

  /** Adding one receiver's totals extends the channel's tally by that receiver. */
  lemma ChannelTallyStep(sent: map<string, set<string>>, received: map<(string, string), set<string>>,
                         ch: string, done: set<string>, n: string, acc: Totals, one: Totals)
    requires ch in sent && (n, ch) in received && n !in done
    requires ChannelTally(sent, received, ch, done, acc)
    requires one.expected == ExpectedFor(sent[ch], n) && one.received == Min(|received[(n, ch)]|, one.expected)
    requires one.received + one.missing == one.expected
    requires one.missing == 0 <==> |received[(n, ch)]| >= one.expected
    ensures ChannelTally(sent, received, ch, done + {n}, Plus(acc, one))
  {
    SetSumAdd(done, OwedIn(sent[ch]), n);
    SetSumAdd(done, CreditIn(sent[ch], received, ch), n);
    assert ServedAmong(sent, received, ch, done + {n}) <==>
      ServedAmong(sent, received, ch, done) && Served(sent, received, ch, n);
  }

  // ---------------------------------------------------------------------
  // The tracker.

  /** The ids of a user's first `n` messages. */
  function FirstIds(nick: string, n: nat): (r: set<string>)
    ensures forall j | 0 <= j < n :: MsgId(nick, j) in r
  {
    set j | 0 <= j < n :: MsgId(nick, j)
  }

  lemma FirstIdsStep(nick: string, n: nat)
    ensures FirstIds(nick, 0) == {}
    ensures FirstIds(nick, n + 1) == FirstIds(nick, n) + {MsgId(nick, n)}
  {
  }

  /** A user's first `n` ids are `n` distinct ids. */
  lemma {:induction false} FirstIdsCount(nick: string, n: nat)
    ensures |FirstIds(nick, n)| == n
  {
    if n > 0 {
      FirstIdsCount(nick, n - 1);
      FirstIdsStep(nick, n - 1);
      if MsgId(nick, n - 1) in FirstIds(nick, n - 1) {
        var j :| 0 <= j < n - 1 && MsgId(nick, j) == MsgId(nick, n - 1);
        assert DecimalString(j) == MsgId(nick, j)[|nick| + 1..];
        DecimalStringInjective(j, n - 1);
        assert false;
      }
    }
  }

  /** The shared record of ids sent per channel and received per (nick, channel). */
  class Tracker {
    var sent: map<string, set<string>>
    var received: map<(string, string), set<string>>

    /** An entry exists only once an id was put in it. */
    ghost predicate Valid()
      reads this
    {
      (forall ch | ch in sent :: sent[ch] != {}) &&
      (forall k | k in received :: received[k] != {})
    }

    constructor ()
      ensures Valid()
      ensures sent == map[] && received == map[]
    {
      sent := map[];
      received := map[];
    }

    /** `sent.entry(ch).or_default().insert(id)`. */
    method RecordSent(ch: string, id: string)
      requires Valid()
      modifies this
      ensures Valid()
      ensures sent == old(sent)[ch := Get(old(sent), ch) + {id}]
      ensures received == old(received)
    {
      sent := sent[ch := Get(sent, ch) + {id}];
    }

    /**
     * A message reaching `nick` on `target`: its id, when it carries one,
     * joins the receiver's set for that target.
     */
    method RecordReceived(nick: string, target: string, text: string) returns (counted: bool)
      requires Valid()
      modifies this
      ensures Valid()
      ensures counted <==> ExtractMsgId(text).Some?
      ensures counted ==>
        received == old(received)[(nick, target) := Get(old(received), (nick, target)) + {ExtractMsgId(text).value}]
      ensures !counted ==> received == old(received)
      ensures sent == old(sent)
    {
      counted := false;
      var id := ExtractMsgId(text);
      if id.Some? {
        received := received[(nick, target) := Get(received, (nick, target)) + {id.value}];
        counted := true;
      }
    }

    /**
     * A user's sending phase: `count` messages to one channel, the `n`-th
     * carrying the id "{nick}:{n}". Returns the texts sent, in order.
     */
    method SendAll(nick: string, ch: string, count: nat) returns (texts: seq<string>)
      requires Valid()
      modifies this
      ensures Valid()
      ensures |texts| == count && forall n | 0 <= n < count :: texts[n] == TestText(MsgId(nick, n))
      ensures count == 0 ==> sent == old(sent)
      ensures count > 0 ==> sent == old(sent)[ch := Get(old(sent), ch) + FirstIds(nick, count)]
      ensures received == old(received)
    {
      texts := [];
      for n := 0 to count
        invariant Valid()
        invariant |texts| == n && forall j | 0 <= j < n :: texts[j] == TestText(MsgId(nick, j))
        invariant n == 0 ==> sent == old(sent)
        invariant n > 0 ==> sent == old(sent)[ch := Get(old(sent), ch) + FirstIds(nick, n)]
        invariant received == old(received)
      {
        var id := MsgId(nick, n);
        texts := texts + [TestText(id)];
        ghost var before := sent;
        RecordSent(ch, id);
        FirstIdsStep(nick, n);
        assert Get(before, ch) + {id} == Get(old(sent), ch) + FirstIds(nick, n + 1) by {
          if n > 0 {
            assert Get(before, ch) == Get(old(sent), ch) + FirstIds(nick, n);
          }
        }
      }
    }
  }

  /** The nicks who received from a channel are exactly those holding an id from it. */
  lemma ReceiversGotSomething(t: Tracker, ch: string, n: string)
    requires t.Valid()
    requires n in Receivers(t.received, ch)
    ensures |t.received[(n, ch)]| > 0
  {
  }
}
