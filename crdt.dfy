// The cluster document's key schema. The replicated document is a flat map
// from string keys to string values; structured values are JSON text, read
// back through a JSON parser that is a parameter. Sync and compaction are
// not part of this model.

module Crdt {
  import opened Common
  import opened Canonical

  type Doc = map<string, string>

  /** JSON text in and out of the document. `parse` returns None on text that is not JSON. */
  datatype Codec = Codec(parse: string -> Option<Json>, render: Json -> string)

  /** Rendered JSON parses back to itself. */
  ghost predicate RoundTrips(c: Codec)
  {
    forall v :: c.parse(c.render(v)) == Some(v)
  }

  // ---------------------------------------------------------------------
  // Keys.

  function TopicKey(channel: string): string { "topic:" + channel }
  function TopicByKey(channel: string): string { "topic_by:" + channel }
  function BanPrefix(channel: string): string { "ban:" + channel + ":" }
  function BanKey(channel: string, mask: string): string { BanPrefix(channel) + mask }
  function NickOwnerKey(nick: string): string { "nick_owner:" + nick }
  function FounderKey(channel: string): string { "founder:" + channel }
  function DidOpPrefix(channel: string): string { "did_op:" + channel + ":" }
  function DidOpKey(channel: string, did: string): string { DidOpPrefix(channel) + did }

  // ---------------------------------------------------------------------
  // JSON access as serde_json does it.

  /** `Value::get` on an object: the value of the last member with that key (later duplicates overwrite). */
  function Get(v: Json, key: string): (r: Option<Json>)
    ensures r.Some? ==> v.JObject? && Member(key, r.value) in v.members
  {
    if v.JObject? then Lookup(v.members, key) else None
  }

  function Lookup(ms: seq<Member>, key: string): (r: Option<Json>)
    ensures r.Some? ==> Member(key, r.value) in ms
    ensures r.None? ==> forall i | 0 <= i < |ms| :: ms[i].key != key
  {
    if ms == [] then None
    else if ms[|ms| - 1].key == key then Some(ms[|ms| - 1].value)
    else Lookup(ms[..|ms| - 1], key)
  }

  /** `as_str`. */
  function AsStr(v: Option<Json>): Option<string>
  {
    if v.Some? && v.value.JString? then Some(v.value.s) else None
  }

  function StrOrNull(s: Option<string>): Json
  {
    if s.Some? then JString(s.value) else JNull
  }

  // ---------------------------------------------------------------------
  // Topics.

  function TopicValue(topic: string, setBy: string, setByDid: Option<string>, originPeer: string): Json
  {
    JObject([Member("text", JString(topic)), Member("set_by", JString(setBy)),
             Member("set_by_did", StrOrNull(setByDid)), Member("origin_peer", JString(originPeer))])
  }

  /** `set_topic`: the provenance JSON under `topic:`, and the setter alone under the legacy `topic_by:` key. */
  function PutTopic(c: Codec, d: Doc, channel: string, topic: string, setBy: string,
                    setByDid: Option<string>, originPeer: string): Doc
  {
    d[TopicKey(channel) := c.render(TopicValue(topic, setBy, setByDid, originPeer))][TopicByKey(channel) := setBy]
  }

  datatype TopicInfo = TopicInfo(text: string, setBy: string)

  /**
   * `channel_topic`: text and setter from the JSON value; a value that is not
   * JSON is a legacy plain-text topic whose setter is under `topic_by:`.
   */
  function ChannelTopic(c: Codec, d: Doc, channel: string): (r: Option<TopicInfo>)
    ensures r.Some? ==> TopicKey(channel) in d
    ensures TopicKey(channel) in d && c.parse(d[TopicKey(channel)]).None? ==>
      r == (if TopicByKey(channel) in d then Some(TopicInfo(d[TopicKey(channel)], d[TopicByKey(channel)])) else None)
  {
    if TopicKey(channel) !in d then None
    else
      var raw := d[TopicKey(channel)];
      match c.parse(raw)
      case Some(p) =>
        var text := AsStr(Get(p, "text"));
        var setBy := AsStr(Get(p, "set_by"));
        if text.Some? && setBy.Some? then Some(TopicInfo(text.value, setBy.value)) else None
      case None =>
        if TopicByKey(channel) in d then Some(TopicInfo(raw, d[TopicByKey(channel)])) else None
  }

  lemma TopicFields(topic: string, setBy: string, setByDid: Option<string>, originPeer: string)
    ensures Get(TopicValue(topic, setBy, setByDid, originPeer), "text") == Some(JString(topic))
    ensures Get(TopicValue(topic, setBy, setByDid, originPeer), "set_by") == Some(JString(setBy))
  {
    var ms := TopicValue(topic, setBy, setByDid, originPeer).members;
    assert ms[3].key[0] == 'o' && ms[2].key[0] == 's' && ms[2].key[6] == '_' && ms[1].key[0] == 's';
    assert ms[..3][..2] == ms[..2] && ms[..2][..1] == ms[..1];
    assert Lookup(ms, "text") == Lookup(ms[..3], "text");
    assert Lookup(ms[..3], "text") == Lookup(ms[..2], "text");
    assert Lookup(ms[..2], "text") == Lookup(ms[..1], "text");
    assert Lookup(ms, "set_by") == Lookup(ms[..3], "set_by");
    assert Lookup(ms[..3], "set_by") == Lookup(ms[..2], "set_by");
  }

  /** Reading a topic back after setting it gives the text and the setter. */
  lemma TopicRoundTrip(c: Codec, d: Doc, channel: string, topic: string, setBy: string,
                       setByDid: Option<string>, originPeer: string)
    requires RoundTrips(c)
    ensures ChannelTopic(c, PutTopic(c, d, channel, topic, setBy, setByDid, originPeer), channel)
            == Some(TopicInfo(topic, setBy))
  {
    var v := TopicValue(topic, setBy, setByDid, originPeer);
    var d' := PutTopic(c, d, channel, topic, setBy, setByDid, originPeer);
    assert TopicKey(channel) != TopicByKey(channel) by { assert TopicKey(channel)[5] != TopicByKey(channel)[5]; }
    assert d'[TopicKey(channel)] == c.render(v);
    assert c.parse(c.render(v)) == Some(v);
    TopicFields(topic, setBy, setByDid, originPeer);
  }

  // ---------------------------------------------------------------------
  // Bans.

  function BanValue(setBy: string, setByDid: Option<string>, originPeer: string): Json
  {
    JObject([Member("set_by", JString(setBy)), Member("set_by_did", StrOrNull(setByDid)), Member("origin_peer", JString(originPeer))])
  }

  datatype BanRecord = BanRecord(mask: string, provenance: string)

  /** `channel_bans`: every key under `ban:{channel}:`, as its mask and stored provenance. */
  function ChannelBans(d: Doc, channel: string): (r: set<BanRecord>)
    ensures forall m, v :: BanRecord(m, v) in r <==> BanKey(channel, m) in d && d[BanKey(channel, m)] == v
  {
    var p := BanPrefix(channel);
    var r := set k | k in d && StartsWith(k, p) :: BanRecord(k[|p|..], d[k]);
    forall m, v ensures BanRecord(m, v) in r <==> BanKey(channel, m) in d && d[BanKey(channel, m)] == v {
      if BanKey(channel, m) in d && d[BanKey(channel, m)] == v {
        var k := BanKey(channel, m);
        assert StartsWith(k, p) && k[|p|..] == m;
      }
      if BanRecord(m, v) in r {
        var k :| k in d && StartsWith(k, p) && BanRecord(k[|p|..], d[k]) == BanRecord(m, v);
        assert k == p + k[|p|..];
      }
    }
    r
  }

  /** `add_ban` then `channel_bans`: the mask is listed with its provenance; other masks keep theirs. */
  lemma AddBanListed(c: Codec, d: Doc, channel: string, mask: string, setBy: string, setByDid: Option<string>, originPeer: string)
    ensures var d' := d[BanKey(channel, mask) := c.render(BanValue(setBy, setByDid, originPeer))];
      (BanRecord(mask, c.render(BanValue(setBy, setByDid, originPeer))) in ChannelBans(d', channel))
      && (forall m, v | m != mask :: BanRecord(m, v) in ChannelBans(d', channel) <==> BanRecord(m, v) in ChannelBans(d, channel))
  {
    forall m | m != mask ensures BanKey(channel, m) != BanKey(channel, mask) {
      PrefixedKeysDiffer(BanPrefix(channel), m, mask);
    }
  }

  /** `remove_ban` drops exactly the records for that mask. */
  lemma RemoveBanOnlyThat(d: Doc, channel: string, mask: string)
    ensures forall m, v :: BanRecord(m, v) in ChannelBans(d - {BanKey(channel, mask)}, channel) <==>
      BanRecord(m, v) in ChannelBans(d, channel) && m != mask
  {
    forall m | m != mask ensures BanKey(channel, m) != BanKey(channel, mask) {
      PrefixedKeysDiffer(BanPrefix(channel), m, mask);
    }
  }

  lemma PrefixedKeysDiffer(p: string, a: string, b: string)
    requires a != b
    ensures p + a != p + b
  {
    assert (p + a)[|p|..] == a && (p + b)[|p|..] == b;
  }

  // ---------------------------------------------------------------------
  // Nick ownership.

  /** `nick_owner` after `set_nick_owner` is the stored DID; other nicks keep theirs. */
  lemma NickOwnerRoundTrip(d: Doc, nick: string, did: string, other: string)
    requires other != nick
    ensures d[NickOwnerKey(nick) := did][NickOwnerKey(nick)] == did
    ensures NickOwnerKey(other) in d[NickOwnerKey(nick) := did] <==> NickOwnerKey(other) in d
  {
    PrefixedKeysDiffer("nick_owner:", other, nick);
  }

  // ---------------------------------------------------------------------
  // Founder: the smallest actor id wins.

  function FounderValue(did: string, actor: string): Json
  {
    JObject([Member("did", JString(did)), Member("actor_id", JString(actor))])
  }

  /** The actor id a stored JSON founder value carries ("" when it has none). */
  function StoredActor(c: Codec, d: Doc, channel: string): Option<string>
  {
    if FounderKey(channel) in d && c.parse(d[FounderKey(channel)]).Some? then
      Some(AsStr(Get(c.parse(d[FounderKey(channel)]).value, "actor_id")).UnwrapOr(""))
    else None
  }

  /**
   * `set_founder`: write `{did, actor_id}` unless a JSON value is stored
   * whose actor id is at most ours (string order). A legacy non-JSON value
   * is overwritten.
   */
  function SetFounderDoc(c: Codec, d: Doc, actor: string, channel: string, did: string): (r: Doc)
    ensures r == d || r == d[FounderKey(channel) := c.render(FounderValue(did, actor))]
    ensures r != d ==> FounderKey(channel) !in d || StoredActor(c, d, channel).None? || LexLess(actor, StoredActor(c, d, channel).value)
    ensures r.Keys == d.Keys + {FounderKey(channel)}
  {
    var s := StoredActor(c, d, channel);
    if s.Some? && !LexLess(actor, s.value) then d
    else d[FounderKey(channel) := c.render(FounderValue(did, actor))]
  }

  /** `founder`: the `did` field of a JSON value, or the raw text of a legacy value. */
  function Founder(c: Codec, d: Doc, channel: string): (r: Option<string>)
    ensures FounderKey(channel) !in d ==> r.None?
    ensures FounderKey(channel) in d && c.parse(d[FounderKey(channel)]).None? ==> r == Some(d[FounderKey(channel)])
    ensures FounderKey(channel) in d && c.parse(d[FounderKey(channel)]).Some? ==>
      r == AsStr(Get(c.parse(d[FounderKey(channel)]).value, "did"))
  {
    if FounderKey(channel) !in d then None
    else match c.parse(d[FounderKey(channel)])
      case Some(p) => AsStr(Get(p, "did"))
      case None => Some(d[FounderKey(channel)])
  }

  /** After `set_founder`, the stored actor id is the smaller of ours and the one stored before. */
  lemma FounderKeepsMinActor(c: Codec, d: Doc, actor: string, channel: string, did: string)
    requires RoundTrips(c)
    ensures var s := StoredActor(c, d, channel);
      StoredActor(c, SetFounderDoc(c, d, actor, channel, did), channel)
        == Some(if s.Some? && !LexLess(actor, s.value) then s.value else actor)
  {
    var v := FounderValue(did, actor);
    assert c.parse(c.render(v)) == Some(v);
    assert Get(v, "actor_id") == Some(JString(actor));
  }

  /** A founder set on a channel with no founder is read back. */
  lemma FounderRoundTrip(c: Codec, d: Doc, actor: string, channel: string, did: string)
    requires RoundTrips(c) && FounderKey(channel) !in d
    ensures Founder(c, SetFounderDoc(c, d, actor, channel, did), channel) == Some(did)
  {
    var v := FounderValue(did, actor);
    assert c.parse(c.render(v)) == Some(v);
    assert v.members[1].key[0] == 'a' && v.members[..1][0].key == "did";
    assert Get(v, "did") == Lookup(v.members[..1], "did");
  }

  /**
   * Two servers with distinct actor ids claiming a fresh channel end with
   * the same founder whichever write comes first: the smaller actor's.
   */
  lemma FounderOrderIndependent(c: Codec, d: Doc, a: string, didA: string, b: string, didB: string, channel: string)
    requires RoundTrips(c) && FounderKey(channel) !in d && LexLess(a, b)
    ensures Founder(c, SetFounderDoc(c, SetFounderDoc(c, d, a, channel, didA), b, channel, didB), channel) == Some(didA)
    ensures Founder(c, SetFounderDoc(c, SetFounderDoc(c, d, b, channel, didB), a, channel, didA), channel) == Some(didA)
  {
    FounderRoundTrip(c, d, a, channel, didA);
    FounderKeepsMinActor(c, SetFounderDoc(c, d, a, channel, didA), b, channel, didB);
    LexLessAsymmetric(a, b);
    var va := FounderValue(didA, a);
    assert c.parse(c.render(va)) == Some(va);
    assert Get(va, "actor_id") == Some(JString(a));
    var d1 := SetFounderDoc(c, d, b, channel, didB);
    FounderKeepsMinActor(c, d, b, channel, didB);
    assert StoredActor(c, d1, channel) == Some(b);
    assert SetFounderDoc(c, d1, a, channel, didA) == d1[FounderKey(channel) := c.render(va)];
    assert Get(va, "did") == Some(JString(didA));
  }

  // ---------------------------------------------------------------------
  // Persistent DID operators.

  function DidOpValue(grantedByDid: Option<string>, originPeer: string): Json
  {
    JObject([Member("granted_by_did", StrOrNull(grantedByDid)), Member("origin_peer", JString(originPeer))])
  }

  /** `channel_did_ops`: the DID suffix of every key under `did_op:{channel}:`. */
  function ChannelDidOps(d: Doc, channel: string): (r: set<string>)
    ensures forall did :: did in r <==> DidOpKey(channel, did) in d
  {
    var p := DidOpPrefix(channel);
    var r := set k | k in d && StartsWith(k, p) :: k[|p|..];
    forall did ensures did in r <==> DidOpKey(channel, did) in d {
      if DidOpKey(channel, did) in d {
        assert DidOpKey(channel, did)[|p|..] == did;
      }
      if did in r {
        var k :| k in d && StartsWith(k, p) && k[|p|..] == did;
        assert k == p + k[|p|..];
      }
    }
    r
  }

  /** `grant_op` adds the DID; `revoke_op` removes just that DID. */
  lemma GrantRevokeOp(c: Codec, d: Doc, channel: string, did: string, grantedByDid: Option<string>, originPeer: string)
    ensures ChannelDidOps(d[DidOpKey(channel, did) := c.render(DidOpValue(grantedByDid, originPeer))], channel)
            == ChannelDidOps(d, channel) + {did}
    ensures ChannelDidOps(d - {DidOpKey(channel, did)}, channel) == ChannelDidOps(d, channel) - {did}
  {
    forall x | x != did ensures DidOpKey(channel, x) != DidOpKey(channel, did) {
      PrefixedKeysDiffer(DidOpPrefix(channel), x, did);
    }
  }

  // ---------------------------------------------------------------------
  // Authority checks.

  /**
   * `validate_topic_authority` and `validate_op_grant_authority` (the two
   * share one body): without a DID the answer is `!require_did`; with one it
   * is whether that DID is the founder or a persistent operator.
   */
  function HasAuthority(c: Codec, d: Doc, channel: string, did: Option<string>, requireDid: bool): (r: bool)
    ensures did.None? ==> r == !requireDid
    ensures did.Some? ==> (r <==> Founder(c, d, channel) == Some(did.value) || DidOpKey(channel, did.value) in d)
  {
    match did
    case None => !requireDid
    case Some(x) => Founder(c, d, channel) == Some(x) || x in ChannelDidOps(d, channel)
  }

  /** The founder and the operators it appoints have authority; anyone else does not. */
  lemma AuthorityAfterGrant(c: Codec, d: Doc, actor: string, channel: string, founder: string, op: string,
                            other: string, originPeer: string)
    requires RoundTrips(c) && FounderKey(channel) !in d && other != founder && other != op
    requires ChannelDidOps(d, channel) == {}
    ensures var d1 := SetFounderDoc(c, d, actor, channel, founder);
      var d2 := d1[DidOpKey(channel, op) := c.render(DidOpValue(Some(founder), originPeer))];
      HasAuthority(c, d2, channel, Some(founder), false) && HasAuthority(c, d2, channel, Some(op), false)
      && !HasAuthority(c, d2, channel, Some(other), false)
      && HasAuthority(c, d2, channel, None, false) && !HasAuthority(c, d2, channel, None, true)
  {
    var d1 := SetFounderDoc(c, d, actor, channel, founder);
    var d2 := d1[DidOpKey(channel, op) := c.render(DidOpValue(Some(founder), originPeer))];
    FounderRoundTrip(c, d, actor, channel, founder);
    assert FounderKey(channel) != DidOpKey(channel, op) by { assert FounderKey(channel)[0] != DidOpKey(channel, op)[0]; }
    assert Founder(c, d2, channel) == Some(founder);
    assert DidOpKey(channel, other) !in d by { assert other !in ChannelDidOps(d, channel); }
    assert DidOpKey(channel, other) != FounderKey(channel) by { assert FounderKey(channel)[0] != DidOpKey(channel, other)[0]; }
    PrefixedKeysDiffer(DidOpPrefix(channel), other, op);
  }

  // ---------------------------------------------------------------------
  // The document object.

  /** `ClusterDoc`: the replicated map, this server's actor id and the change counter. */
  class ClusterDoc {
    const codec: Codec
    var doc: Doc
    var actorId: string
    var changeCount: nat

    constructor (codec: Codec, serverId: string)
      ensures this.codec == codec && doc == map[] && actorId == serverId && changeCount == 0
    {
      this.codec := codec;
      doc := map[];
      actorId := serverId;
      changeCount := 0;
    }

    method SetTopic(channel: string, topic: string, setBy: string, setByDid: Option<string>, originPeer: string)
      modifies this
      ensures doc == PutTopic(codec, old(doc), channel, topic, setBy, setByDid, originPeer)
      ensures actorId == old(actorId) && changeCount == old(changeCount) + 1
    {
      doc := PutTopic(codec, doc, channel, topic, setBy, setByDid, originPeer);
      changeCount := changeCount + 1;
    }

    method AddBan(channel: string, mask: string, setBy: string, setByDid: Option<string>, originPeer: string)
      modifies this
      ensures doc == old(doc)[BanKey(channel, mask) := codec.render(BanValue(setBy, setByDid, originPeer))]
      ensures actorId == old(actorId) && changeCount == old(changeCount) + 1
    {
      doc := doc[BanKey(channel, mask) := codec.render(BanValue(setBy, setByDid, originPeer))];
      changeCount := changeCount + 1;
    }

    method RemoveBan(channel: string, mask: string)
      modifies this
      ensures doc == old(doc) - {BanKey(channel, mask)}
      ensures actorId == old(actorId) && changeCount == old(changeCount) + 1
    {
      doc := doc - {BanKey(channel, mask)};
      changeCount := changeCount + 1;
    }

    method SetNickOwner(nick: string, did: string)
      modifies this
      ensures doc == old(doc)[NickOwnerKey(nick) := did]
      ensures actorId == old(actorId) && changeCount == old(changeCount) + 1
    {
      doc := doc[NickOwnerKey(nick) := did];
      changeCount := changeCount + 1;
    }

    /** `nick_owner`. */
    function NickOwner(nick: string): (r: Option<string>)
      reads this
      ensures r.Some? <==> NickOwnerKey(nick) in doc
      ensures r.Some? ==> r.value == doc[NickOwnerKey(nick)]
    {
      if NickOwnerKey(nick) in doc then Some(doc[NickOwnerKey(nick)]) else None
    }

    /** The change counter moves only when the document is written. */
    method SetFounder(channel: string, did: string)
      modifies this
      ensures doc == SetFounderDoc(codec, old(doc), old(actorId), channel, did)
      ensures actorId == old(actorId)
      ensures changeCount == if doc == old(doc) && StoredActor(codec, old(doc), channel).Some?
                               && !LexLess(actorId, StoredActor(codec, old(doc), channel).value)
                             then old(changeCount) else old(changeCount) + 1
    {
      var s := StoredActor(codec, doc, channel);
      if s.Some? && !LexLess(actorId, s.value) {
        return;
      }
      doc := doc[FounderKey(channel) := codec.render(FounderValue(did, actorId))];
      changeCount := changeCount + 1;
    }

    method GrantOp(channel: string, did: string, grantedByDid: Option<string>, originPeer: string)
      modifies this
      ensures doc == old(doc)[DidOpKey(channel, did) := codec.render(DidOpValue(grantedByDid, originPeer))]
      ensures actorId == old(actorId) && changeCount == old(changeCount) + 1
    {
      doc := doc[DidOpKey(channel, did) := codec.render(DidOpValue(grantedByDid, originPeer))];
      changeCount := changeCount + 1;
    }

    method RevokeOp(channel: string, did: string)
      modifies this
      ensures doc == old(doc) - {DidOpKey(channel, did)}
      ensures actorId == old(actorId) && changeCount == old(changeCount) + 1
    {
      doc := doc - {DidOpKey(channel, did)};
      changeCount := changeCount + 1;
    }

    /** `rekey_actor`: later founder claims compare with the new id; the document is kept. */
    method RekeyActor(newActorId: string)
      modifies this
      ensures actorId == newActorId && doc == old(doc) && changeCount == old(changeCount)
    {
      actorId := newActorId;
    }
  }
}
