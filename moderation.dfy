// The moderation verifier's roster of moderator (halfop) appointments:
// appoint, revoke and the active roster, keyed by lower-cased channel.

module Moderation {
  import opened Common

  const SECONDS_PER_DAY: nat := 86400
  const DEFAULT_DURATION_DAYS: nat := 30
  const CREDENTIAL_DID_CHARS: nat := 20

  /** One appointment; times are seconds since the epoch. */
  datatype Appointment = Appointment(
    subjectDid: string,
    channel: string,
    appointedBy: string,
    appointedAt: nat,
    expiresAt: nat,
    credentialId: string,
    revoked: bool)

  /** `mod-{channel}-{first 20 characters of the DID}`. */
  function CredentialId(channel: string, did: string): (r: string)
    ensures |r| == 5 + |channel| + Min(CREDENTIAL_DID_CHARS, |did|)
    ensures StartsWith(r, "mod-")
    ensures r[4..4 + |channel|] == channel && r[4 + |channel|] == '-'
    ensures r[5 + |channel|..] == did[..Min(CREDENTIAL_DID_CHARS, |did|)]
  {
    "mod-" + channel + "-" + did[..Min(CREDENTIAL_DID_CHARS, |did|)]
  }

  /** Expiry: the duration in days (30 by default) after `now`. */
  function ExpiresAt(now: nat, durationDays: Option<nat>): (r: nat)
    ensures r >= now
    ensures durationDays.None? ==> r == now + 30 * SECONDS_PER_DAY
  {
    now + (if durationDays.Some? then durationDays.value else DEFAULT_DURATION_DAYS) * SECONDS_PER_DAY
  }

  /** An appointment that still counts for `did`. */
  predicate LiveFor(a: Appointment, did: string)
  {
    a.subjectDid == did && !a.revoked
  }

  /** `retain(|a| a.subject_did != did || a.revoked)`. */
  function DropLive(entries: seq<Appointment>, did: string): (r: seq<Appointment>)
    ensures forall a :: a in r <==> a in entries && !LiveFor(a, did)
    ensures |r| <= |entries|
  {
    if entries == [] then []
    else (if LiveFor(entries[0], did) then [] else [entries[0]]) + DropLive(entries[1..], did)
  }

  function CountLive(entries: seq<Appointment>, did: string): nat
  {
    if entries == [] then 0
    else (if LiveFor(entries[0], did) then 1 else 0) + CountLive(entries[1..], did)
  }

  lemma {:induction false} CountLiveDropped(entries: seq<Appointment>, did: string)
    ensures CountLive(DropLive(entries, did), did) == 0
  {
    if entries != [] {
      CountLiveDropped(entries[1..], did);
      var head := if LiveFor(entries[0], did) then [] else [entries[0]];
      CountLiveAppend(head, DropLive(entries[1..], did), did);
    }
  }

  lemma {:induction false} CountLiveAppend(a: seq<Appointment>, b: seq<Appointment>, did: string)
    ensures CountLive(a + b, did) == CountLive(a, did) + CountLive(b, did)
  {
    if a == [] {
      assert a + b == b;
    } else {
      assert (a + b)[1..] == a[1..] + b;
      CountLiveAppend(a[1..], b, did);
    }
  }

  /** The roster filter: not revoked and expiring strictly after `now`. */
  function Active(entries: seq<Appointment>, now: nat): (r: seq<Appointment>)
    ensures forall a :: a in r <==> a in entries && !a.revoked && a.expiresAt > now
  {
    if entries == [] then []
    else (if !entries[0].revoked && entries[0].expiresAt > now then [entries[0]] else []) + Active(entries[1..], now)
  }

  /** The revoke loop's effect on one entry. */
  function Revoked(a: Appointment, did: string): Appointment
  {
    if a.subjectDid == did && !a.revoked then a.(revoked := true) else a
  }

  /** Mark every live appointment of `did` revoked, in place. */
  method RevokeEntries(entries: seq<Appointment>, did: string) returns (r: seq<Appointment>)
    ensures |r| == |entries|
    ensures forall i | 0 <= i < |r| :: r[i] == Revoked(entries[i], did)
  {
    r := entries;
    var i := 0;
    while i < |r|
      invariant 0 <= i <= |r| == |entries|
      invariant forall j | 0 <= j < i :: r[j] == Revoked(entries[j], did)
      invariant forall j | i <= j < |r| :: r[j] == entries[j]
    {
      if r[i].subjectDid == did && !r[i].revoked {
        r := r[i := r[i].(revoked := true)];
      }
      i := i + 1;
    }
  }

  /** After a revoke no appointment of the DID is live; every other entry is as before. */
  lemma RevokeClears(entries: seq<Appointment>, r: seq<Appointment>, did: string)
    requires |r| == |entries| && forall i | 0 <= i < |r| :: r[i] == Revoked(entries[i], did)
    ensures forall i | 0 <= i < |r| :: !LiveFor(r[i], did)
    ensures forall i | 0 <= i < |r| :: entries[i].subjectDid != did ==> r[i] == entries[i]
    ensures forall i | 0 <= i < |r| :: r[i].(revoked := entries[i].revoked) == entries[i]
  {
  }

  /** `ModRoster`: lower-cased channel to its appointments. */
  class ModRoster {
    var channels: map<string, seq<Appointment>>

    constructor ()
      ensures channels == map[]
    {
      channels := map[];
    }

    function EntriesOf(channel: string): seq<Appointment>
      reads this
    {
      if channel in channels then channels[channel] else []
    }

    /**
     * `appoint`: a subject that is not a DID is resolved to one by the
     * caller (`resolved`); when that fails nothing is stored. Otherwise the
     * live appointments of the DID in the lower-cased channel are dropped
     * and the new one is pushed.
     */
    method Appoint(subject: string, resolved: Option<string>, channel: string, appointer: string,
                   now: nat, durationDays: Option<nat>) returns (stored: Option<Appointment>)
      modifies this
      ensures !StartsWith(subject, "did:") && resolved.None? ==> stored.None? && channels == old(channels)
      ensures stored.Some? <==> StartsWith(subject, "did:") || resolved.Some?
      ensures stored.Some? ==>
        var key := LowerStr(channel);
        var did := if StartsWith(subject, "did:") then subject else resolved.value;
        stored.value == Appointment(did, key, appointer, now, ExpiresAt(now, durationDays), CredentialId(key, did), false) &&
        channels == old(channels)[key := DropLive(old(EntriesOf(key)), did) + [stored.value]]
    {
      var did: string;
      if StartsWith(subject, "did:") {
        did := subject;
      } else if resolved.Some? {
        did := resolved.value;
      } else {
        return None;
      }
      var key := LowerStr(channel);
      var a := Appointment(did, key, appointer, now, ExpiresAt(now, durationDays), CredentialId(key, did), false);
      channels := channels[key := DropLive(EntriesOf(key), did) + [a]];
      stored := Some(a);
    }

    /** `revoke`: every live appointment of the DID in the lower-cased channel becomes revoked. */
    method Revoke(did: string, channel: string)
      modifies this
      ensures var key := LowerStr(channel);
        (key !in old(channels) ==> channels == old(channels)) &&
        (key in old(channels) ==>
          channels.Keys == old(channels).Keys &&
          (forall k | k in channels && k != key :: channels[k] == old(channels)[k]) &&
          |channels[key]| == |old(channels)[key]| &&
          forall i | 0 <= i < |channels[key]| :: channels[key][i] == Revoked(old(channels)[key][i], did))
    {
      var key := LowerStr(channel);
      if key in channels {
        var r := RevokeEntries(channels[key], did);
        channels := channels[key := r];
      }
    }

    /** `roster`: the active appointments of the lower-cased channel. */
    function Roster(channel: string, now: nat): (r: seq<Appointment>)
      reads this
      ensures forall a :: a in r <==> a in EntriesOf(LowerStr(channel)) && !a.revoked && a.expiresAt > now
    {
      Active(EntriesOf(LowerStr(channel)), now)
    }
  }

  /** After an appointment the DID holds exactly one live appointment in that channel: the new one. */
  lemma AppointLeavesOneLive(entries: seq<Appointment>, did: string, a: Appointment)
    requires LiveFor(a, did)
    ensures CountLive(DropLive(entries, did) + [a], did) == 1
    ensures forall b | b in DropLive(entries, did) + [a] && LiveFor(b, did) :: b == a
  {
    CountLiveDropped(entries, did);
    CountLiveAppend(DropLive(entries, did), [a], did);
    assert CountLive([a], did) == 1 by { assert [a][1..] == []; }
  }

  /** Appointing keeps every revoked appointment, and every appointment of another DID. */
  lemma AppointKeepsHistory(entries: seq<Appointment>, did: string, a: Appointment)
    ensures forall b | b in entries && (b.revoked || b.subjectDid != did) :: b in DropLive(entries, did) + [a]
  {
  }

  /** The channel name is lower-cased the same way everywhere: an appointment shows in the roster under any casing until it expires. */
  lemma AppointedShowsInRoster(roster: ModRoster, appointedAs: string, queriedAs: string, a: Appointment, now: nat)
    requires LowerStr(appointedAs) == LowerStr(queriedAs)
    requires a in roster.EntriesOf(LowerStr(appointedAs)) && !a.revoked && a.expiresAt > now
    ensures a in roster.Roster(queriedAs, now)
  {
  }

  /** After a revoke the DID is absent from the roster of that channel. */
  lemma RevokedLeavesRoster(entries: seq<Appointment>, r: seq<Appointment>, did: string, now: nat)
    requires |r| == |entries| && forall i | 0 <= i < |r| :: r[i] == Revoked(entries[i], did)
    ensures forall b | b in Active(r, now) :: b.subjectDid != did
  {
    RevokeClears(entries, r, did);
  }
}
