# freeq, modelled in Dafny

freeq is an IRC server whose users can authenticate with an AT Protocol
identity (a DID) instead of a password. Around the server sit a channel
governance engine, server-to-server (S2S) federation, a client SDK with an
end-to-end encrypted Double Ratchet, a terminal client, a Windows core for
the desktop client, a set of LLM-driven bots and a few helper scripts.
This project models the sequential, deterministic logic of those parts.
Time, randomness, cryptography, JSON parsing and the network are passed in
as parameters, and the properties the code promises are proved about the
model.

**Server tables** (`server_core.dfy`, `s2s.dfy`, `crdt.dfy`). These cover:
- IRC wildcard hostmask matching and DID bans;
- the case-insensitive two-way nick <-> session map;
- the case-insensitive remote-member helpers;
- the per-peer S2S rate limiter;
- the SyncResponse merge, which only tightens channel modes when the channel has local members;
- S2S event deduplication: a high-water mark and a bounded FIFO of recent ids per origin;
- generation-checked peer clean-up;
- the key schema of the replicated cluster document, seen as a flat string map. This covers topic, bans, the founder chosen by the smallest actor id, DID ops and the authority checks.

**Channel governance** (`policy_eval.dfy`, `policy_cmd.dfy`,
`policy_engine.dfy`, `credentials.dfy`, `canonical.dfy`, `policy_api.dfy`).
Requirements form a tree of Accept, Present, Prove, All, Any and Not nodes.
The model covers:
- their evaluation, bounded by depth 8 and 64 visited nodes, and their structural validation;
- the `POLICY` IRC command, with its tree queries, the REQUIRE rewrite and the URL checks;
- policy creation and version chaining;
- the join flow, with attestation re-use, role selection and expiry;
- the ordered checks of credential verification;
- JSON canonicalisation in the style of RFC 8785;
- the mapping of a join outcome to an HTTP response.

**Connection rules** (`channel.dfy`, `messaging.dfy`, `connection.dfy`,
`helpers.dfy`, `routing.dfy`, `registration.dfy`, `cap.dfy`,
`queries.dfy`, `web.dfy`, `moderation.dfy`, `msgid.dfy`). These cover:
- JOIN admission, which checks the key, then bans, then invite-only, and invite consumption;
- auto-op, MODE, KICK, INVITE, TOPIC and PART;
- flood control, the +n/+m/+E send gates and the bounded history;
- the authorship rules for edit and delete, and CHATHISTORY limits;
- hostmasks and cloaked hosts, NICK validation, PIN/UNPIN and the line-length cap;
- disconnect clean-up, ISON and USERHOST;
- the JOIN line formats and the three-way private-message routing decision;
- the registration guard, the guest rename and multi-device attach;
- CAP LS/REQ/END and the SASL state machine;
- WHO, LUSERS and AWAY;
- the WebSocket line bridge and the OAuth origin and client id;
- the moderator roster;
- ULID message ids.

**Client side** (`ratchet.dfy`, `client.dfy`, `tui_app.dfy`,
`tui_config.dfy`, `win_event.dfy`). These cover:
- the Double Ratchet header codec, with symbolic keys, and the bookkeeping of the session's chains and skipped keys;
- the SDK's IRC loop: capability negotiation, nick retries, the pending-command queue and numeric handling;
- the terminal client's buffers, unread and mention tracking, buffer switching, input history and image-cache bound;
- its configuration precedence;
- the Windows core's event translation.

**Bots and scripts** (`bots_output.dfy`, `llm.dfy`, `tools.dfy`,
`prototype.dfy`, `chatroom.dfy`, `loadtest.dfy`, `pi_bridge.dfy`,
`pi_inbox.dfy`, `multibase.dfy`). These cover:
- word wrapping by byte length and message content views;
- the agent's workspace tools and the prototype build loop;
- chat-room reply cleaning and the bounded log;
- load-test accounting;
- the IRC/agent bridge's nick-to-DID table and reply cursor;
- one poll cycle of the outbox tailer, with its saved cursor;
- the base58 multibase encoding of an iroh endpoint id, proved against a decoder.

`common.dfy` holds the shared vocabulary: Option and Result, ASCII case
folding, UTF-8 byte lengths and decimal rendering.

Where the code and its comments or documentation disagree, the model follows
the code:
- `msgid.rs` says it has a 48-bit timestamp, but it encodes ten base-32 digits, which is 50 bits.
- `update_channel_policy` validates only the main requirement, not the role requirements, while creation validates both.
- `process_join` never returns `Pending`.
- A +i invite is spent before the policy gate runs.
- The flood timestamp is recorded before the +n/+m/+E gates run.
- Edits and TAGMSG bypass flood control.
- The Windows core's `ChatHistoryTarget` arm matches an event variant that the SDK's event type does not have. It is modelled as a separate notice function.

## Model

A function that only computes a value (for example Server.IsBanned,
Canonical.Canonicalize, PolicyEval.Evaluate, S2s.DedupCheck or
Multibase.B58Decode) has no row of its own: its behaviour is stated by the
lemmas about it, and the rows below name those lemmas (Server.IsBannedIff,
Canonical.CanonicalizeOrdersByUtf16, PolicyEval.EvalSound,
S2s.CheckAndInsertCoherent, Multibase.B58RoundTrip and so on).

| member | source | states |
|---|---|---|
| Credentials.VerifySignature | freeq-server/src/policy/credentials.rs:18-38 | Err exactly for an invalid key, undecodable or non-64-byte signature; otherwise Ok(verify over the canonical form with an empty signature) |
| Credentials.VerifyCredential | freeq-server/src/policy/credentials.rs:45-74 | Ok iff tag is FreeqCredential/v1, not expired, subject matches and signature verifies; each earlier check's error wins over later ones |
| Credentials.SignCredential | freeq-server/src/policy/credentials.rs:78-90 | only the signature field changes, and the signed bytes are those verification rebuilds |
| Credentials.SignThenVerify | freeq-server/src/policy/credentials.rs:134-147 | signing then verifying with the matching public key yields Ok(true) |
| Credentials.SignedCredentialAccepted | freeq-server/src/policy/credentials.rs:182-194 | a signed, unexpired credential for its own subject passes verify_credential |
| Credentials.ExpiredRejected | freeq-server/src/policy/credentials.rs:56-58 | an expired credential is rejected with a message containing "expired" |
| Credentials.WrongSubjectRejected | freeq-server/src/policy/credentials.rs:61-66 | a different claimed DID is rejected although the signature is valid |
| Credentials.WrongKeyFails | freeq-server/src/policy/credentials.rs:167-179 | verifying with another valid key returns Ok(false) |
| Credentials.TamperDetected | freeq-server/src/policy/credentials.rs:150-164 | a credential changed after signing so that its signed bytes differ no longer verifies |
| Credentials.SigningInputIgnoresSignature | freeq-server/src/policy/credentials.rs:84-85 | the signed bytes do not depend on the signature field |
| PolicyApi.NormalizeChannel | freeq-server/src/policy/api.rs:243-250 | the result starts with '#', is lowercase, and is one longer than the input exactly when '#' was missing |
| PolicyApi.NormalizeKeepsPrefixed | freeq-server/src/policy/api.rs:244-249 | a name already starting with '#' is only lowercased |
| PolicyApi.NormalizeIdempotent | freeq-server/src/policy/api.rs:243-250 | normalising twice equals normalising once |
| PolicyApi.JoinReply | freeq-server/src/policy/api.rs:151-199 | Confirmed -> 200 "confirmed" with join id and attestation; NoPolicy -> 200 "open"; Pending -> 202 "pending" with the missing list; Failed -> 403 "failed" with the reason; an engine error -> 500 text |
| PolicyApi.ReplyFieldsMatchStatus | freeq-server/src/policy/api.rs:152-197 | attestation, error and missing are present exactly for Confirmed, Failed and Pending; code 200 exactly for Confirmed and NoPolicy |
| PolicyApi.JoinChannel | freeq-server/src/policy/api.rs:131-151 | the join decision is taken on the normalised channel and the reply reports it in every case: 200 "open" with no policy, 200 "confirmed" with the re-used or newly signed attestation, 403 "failed" with the reason; an admitted join stores the signed attestation under the normalised channel and subject, its receipt and a confirmed join state and touches no policy, and every other decision leaves the engine unchanged |
| Crdt.ChannelTopic | freeq-server/src/crdt.rs:240-255 | a non-JSON value is a legacy topic whose setter comes from topic_by:, and no topic key means None |
| Crdt.TopicRoundTrip | freeq-server/src/crdt.rs:225-256 | set_topic followed by channel_topic returns (text, set_by) |
| Crdt.ClusterDoc.SetTopic | freeq-server/src/crdt.rs:225-237 | writes the provenance JSON under topic: and the setter under topic_by:, and counts one change |
| Crdt.ChannelBans | freeq-server/src/crdt.rs:289-303 | (mask, provenance) is listed exactly when key ban:{channel}:{mask} holds that provenance |
| Crdt.AddBanListed | freeq-server/src/crdt.rs:268-303 | after add_ban the mask is listed with its provenance, and other masks are listed as before |
| Crdt.RemoveBanOnlyThat | freeq-server/src/crdt.rs:281-303 | after remove_ban exactly the records of that mask are gone |
| Crdt.ClusterDoc.AddBan | freeq-server/src/crdt.rs:268-278 | puts the provenance JSON under ban:{channel}:{mask} |
| Crdt.ClusterDoc.RemoveBan | freeq-server/src/crdt.rs:281-286 | deletes only the key ban:{channel}:{mask} |
| Crdt.ClusterDoc.SetNickOwner | freeq-server/src/crdt.rs:308-313 | stores the DID under nick_owner:{nick} |
| Crdt.ClusterDoc.NickOwner | freeq-server/src/crdt.rs:316-320 | Some exactly when the nick has an owner key, with the stored DID |
| Crdt.NickOwnerRoundTrip | freeq-server/src/crdt.rs:308-320 | the owner just set is read back, and other nicks are unaffected |
| Crdt.SetFounderDoc | freeq-server/src/crdt.rs:330-358 | the document changes only by writing {did, actor_id}, and only when the key is absent, its value is not JSON, or our actor id is strictly smaller |
| Crdt.ClusterDoc.SetFounder | freeq-server/src/crdt.rs:330-358 | applies the min-actor rule; the change counter moves only on a write |
| Crdt.Founder | freeq-server/src/crdt.rs:361-372 | the did field of a JSON value, the raw text of a legacy value, None without the key |
| Crdt.FounderKeepsMinActor | freeq-server/src/crdt.rs:340-356 | after set_founder the stored actor id is the smaller of ours and the one stored before |
| Crdt.FounderRoundTrip | freeq-server/src/crdt.rs:330-372 | a founder set on a channel without one is read back |
| Crdt.FounderOrderIndependent | freeq-server/src/crdt.rs:324-358 | two claims by distinct actors give the smaller actor's DID whichever write comes first |
| Crdt.ChannelDidOps | freeq-server/src/crdt.rs:395-407 | a DID is listed exactly when did_op:{channel}:{did} is a key |
| Crdt.GrantRevokeOp | freeq-server/src/crdt.rs:375-407 | grant_op adds the DID to the list; revoke_op removes that DID and nothing else |
| Crdt.ClusterDoc.GrantOp | freeq-server/src/crdt.rs:375-384 | puts the grant provenance under did_op:{channel}:{did} |
| Crdt.ClusterDoc.RevokeOp | freeq-server/src/crdt.rs:387-392 | deletes only did_op:{channel}:{did} |
| Crdt.HasAuthority | freeq-server/src/crdt.rs:431-463 | without a DID: !require_did; with one: true iff it is the founder or a DID op |
| Crdt.AuthorityAfterGrant | freeq-server/src/crdt.rs:732-754 | the founder and the op it granted have authority, another DID does not; no DID passes only in compat mode |
| Crdt.ClusterDoc.RekeyActor | freeq-server/src/crdt.rs:141-157 | only the actor id changes |
| Crdt.ClusterDoc.constructor | freeq-server/src/crdt.rs:100-110 | an empty document with the server id as actor |
| Channel.HasInviteIff | freeq-server/src/connection/channel.rs:68-71 | holding an invite means the invite set meets the session/DID/`nick:` forms |
| Channel.Admission | freeq-server/src/connection/channel.rs:43-80 | 475 exactly on a key mismatch; else 474 exactly when banned; else 473 exactly on +i without any invite form; otherwise admitted |
| Channel.ConsumeInvites | freeq-server/src/connection/channel.rs:84-91 | after consumption no form of the joiner's invitation remains |
| Channel.PolicyGate | freeq-server/src/connection/channel.rs:99-147 | 477 exactly for a gated channel and a guest or a DID without attestation; engine errors fail open; an attested role is passed on |
| Channel.AdmitStage | freeq-server/src/connection/channel.rs:43-91 | Err exactly when an existing channel refuses; otherwise the same channels with only the invites of the joined channel changed |
| Channel.JoinedEntry | freeq-server/src/connection/channel.rs:149-223 | the joiner is added to members; key, bans, +i, invites, remote members and topic are untouched |
| Channel.JoinAdmittedIff | freeq-server/src/connection/channel.rs:27-152 | a join succeeds iff the channel is new or passes key/ban/invite checks, and the policy gate passes; then the joiner is a member |
| Channel.JoinRefusedKeepsChannel | freeq-server/src/connection/channel.rs:43-147 | a refused join leaves every channel as it was except, possibly, the spent invitation |
| Channel.NewChannelFounder | freeq-server/src/connection/channel.rs:156-183 | a new channel makes the joiner op with +n +t and created_at now; an authenticated joiner is founder and DID op |
| Channel.NewEntryFounder | freeq-server/src/connection/channel.rs:156-183 | the new-channel entry has the joiner as op, +n, +t, and the DID as founder and DID op |
| Channel.AloneAfterInsert | freeq-server/src/connection/channel.rs:196-198 | `members.len() == 1` after inserting the joiner means nobody else was a member |
| Channel.AutoOpEntry | freeq-server/src/connection/channel.rs:184-202 | the auto-op rule on an existing channel's entry, stated on the channel before the join |
| Channel.AutoOpIff | freeq-server/src/connection/channel.rs:184-202 | on an existing channel without attested role, the joiner is op iff it was, its DID is founder or a DID op, or it is alone with no remote members and no ops |
| Channel.AttestedOpRole | freeq-server/src/connection/channel.rs:207-223 | an op/admin/owner/moderator attestation makes the joiner op and its DID a persistent op |
| Channel.GuestRefusedByPolicy | freeq-server/src/connection/channel.rs:128-145 | a guest never joins a policy-gated channel |
| Channel.InviteSpentBeforePolicy | freeq-server/src/connection/channel.rs:84-91 | passing +i spends every form of the invitation, even when the policy gate then refuses |
| Channel.InviteSingleUse | freeq-server/src/connection/channel.rs:68-91 | after a +i join the same user is refused with 473 until invited again |
| Channel.SetFlagsFrom | freeq-server/src/connection/channel.rs:491-498 | every letter of the mode string is one of n, t, i, m, k |
| Channel.SetFlagsOrdered | freeq-server/src/connection/channel.rs:491-498 | the letters come out in the fixed order n, t, i, m, k |
| Channel.SetFlagsChosen | freeq-server/src/connection/channel.rs:491-498 | a letter appears exactly when its flag is set |
| Channel.ModeQuery | freeq-server/src/connection/channel.rs:488-509 | the reply is `+` followed by n/t/i/m/k for exactly the set flags, in that order |
| Channel.DidOpsChange | freeq-server/src/connection/channel.rs:570-592 | only the DID op list changes, and the founder's DID op is never removed |
| Channel.TargetChange | freeq-server/src/connection/channel.rs:550-684 | +o/-o/+v/-v leave members, founder and bans alone and never drop the founder's DID op |
| Channel.WithoutMask | freeq-server/src/connection/channel.rs:727-731 | `-b` keeps exactly the entries with another mask, so no entry with the mask is left, and keeps masks distinct |
| Channel.BanList | freeq-server/src/connection/channel.rs:696-710 | one 367 per ban, in list order, with mask, setter and time |
| Channel.BanChange | freeq-server/src/connection/channel.rs:685-740 | only the ban list changes, and distinct masks stay distinct |
| Channel.FlagCharKeeps | freeq-server/src/connection/channel.rs:741-861 | i, t, k, n, m and unknown letters leave members, founder, DID ops and bans alone |
| Channel.InviteCharKeeps | freeq-server/src/connection/channel.rs:741-759 | +i/-i leave members, founder, DID ops and bans alone |
| Channel.KeyCharKeeps | freeq-server/src/connection/channel.rs:776-820 | +k/-k leave members, founder, DID ops and bans alone |
| Channel.OtherCharKeeps | freeq-server/src/connection/channel.rs:760-861 | t, n, m and unknown letters leave members, founder, DID ops and bans alone |
| Channel.SwitchCharKeeps | freeq-server/src/connection/channel.rs:760-852 | t, n, m leave members, founder, DID ops and bans alone |
| Channel.ModeCharKeeps | freeq-server/src/connection/channel.rs:531-862 | any single mode letter keeps members, founder, the founder's DID op and distinct ban masks |
| Channel.ModeRunKeeps | freeq-server/src/connection/channel.rs:531-862 | a whole MODE string never changes membership or founder, never removes the founder's DID op, and keeps ban masks distinct |
| Channel.AddBanNoDuplicate | freeq-server/src/connection/channel.rs:718-726 | after `+b mask` the mask is listed, masks stay distinct, and an existing mask leaves the list unchanged |
| Channel.RemoveBanAll | freeq-server/src/connection/channel.rs:727-731 | after `-b mask` no entry has that mask and every other entry is kept |
| Channel.InviteOnlyOff | freeq-server/src/connection/channel.rs:741-752 | `-i` clears +i and every pending invite; `+i` keeps the invites |
| Channel.FounderDeopIgnored | freeq-server/src/connection/channel.rs:570-571 | `-o` on the founder (local or remote) leaves the DID op list unchanged |
| Channel.KickLocal | freeq-server/src/connection/channel.rs:918-924 | the kicked session leaves members, ops and voiced, and nobody else does |
| Channel.InviteThenJoinLocal | freeq-server/src/connection/channel.rs:1018-1026 | a locally invited session passes the +i check when key and bans allow |
| Channel.InviteThenJoinRemote | freeq-server/src/connection/channel.rs:1042-1053 | a remotely invited nick passes the +i check from any session |
| Channel.TopicQuery | freeq-server/src/connection/channel.rs:1189-1216 | 331 alone exactly when no topic is set, otherwise 332 and 333 |
| Channel.TopicSetThenQuery | freeq-server/src/connection/channel.rs:1107-1216 | a set topic is queried back with its text, setter and time |
| Channel.ChannelTable.Join | freeq-server/src/connection/channel.rs:10-223 | the table and rejection numeric are those of the join specification |
| Channel.ChannelTable.Mode | freeq-server/src/connection/channel.rs:457-864 | 442 for non-members, the mode query without a mode string, 482 for non-ops, otherwise the mode-letter loop's state and replies |
| Channel.ChannelTable.Kick | freeq-server/src/connection/channel.rs:867-964 | 442, then 482; a local target is removed from members/ops/voiced, a remote one from remote members (case-insensitive), an absent one gets 441 |
| Channel.ChannelTable.Invite | freeq-server/src/connection/channel.rs:968-1069 | 442, then 482 on +i for non-ops; otherwise the invite forms are recorded and 341 (or 401 for an unknown nick) is returned |
| Channel.ChannelTable.Topic | freeq-server/src/connection/channel.rs:1074-1218 | 442 for non-members; query replies; on +t only ops may set; a set stores text, setter hostmask and time |
| Channel.ChannelTable.Part | freeq-server/src/connection/channel.rs:1221-1266 | the session leaves the member set; nothing else changes |
| Messaging.Recent | freeq-server/src/connection/messaging.rs:205 | a send time is kept exactly when the saturating difference to now is below 2000 ms; never grows |
| Messaging.PruneTimes | freeq-server/src/connection/messaging.rs:205 | the in-place retain loop leaves exactly the recent send times, in order |
| Messaging.FloodStep | freeq-server/src/connection/messaging.rs:196-219 | accepted iff fewer than 5 recent sends remain; an accepted send is recorded last and the record stays at most 5 |
| Messaging.ReplayInvariant | freeq-server/src/connection/messaging.rs:196-219 | with a clock that never goes back, the stored record is exactly the accepted sends still within 2 s, and holds at most 5 |
| Messaging.FloodBound | freeq-server/src/connection/messaging.rs:196-219 | at most 5 channel messages of a session are accepted in the 2 s window ending at any send |
| Messaging.ModeGate | freeq-server/src/connection/messaging.rs:221-269 | +n refuses non-members, +m refuses members without op, halfop or voice, +E refuses messages without the +encrypted tag, in that order; a target without channel state passes |
| Messaging.VoicedMemberSpeaks | freeq-server/src/connection/messaging.rs:225-267 | a voiced or opped member can only be refused by +E, and not at all with the +encrypted tag |
| Messaging.Bounded | freeq-server/src/connection/messaging.rs:337-339 | the history keeps its newest MAX_HISTORY (100) entries as a suffix |
| Messaging.PushHistory | freeq-server/src/connection/messaging.rs:326-340 | push_back then pop_front while over 100 yields the bounded suffix of the history with the new entry |
| Messaging.PushKeepsNewest | freeq-server/src/connection/messaging.rs:330-339 | the new message is kept as the last entry and the history stays within 100 |
| Messaging.PushDropsOldest | freeq-server/src/connection/messaging.rs:337-339 | on a full history exactly the oldest entry is dropped |
| Messaging.PushBelowBound | freeq-server/src/connection/messaging.rs:330-339 | below the bound nothing is dropped |
| Messaging.Recipients | freeq-server/src/connection/messaging.rs:362-379 | every member except the sender receives the message; the sender only with echo-message; plain line without message-tags, server-time variant with both caps |
| Messaging.TagmsgRecipients | freeq-server/src/connection/messaging.rs:107-139 | tag-capable members get a TAGMSG; plain members only get the fallback for +react; the sender only with echo-message |
| Messaging.ResolveSignature | freeq-server/src/connection/messaging.rs:18-58 | no signature exactly for connections without an authenticated DID |
| Messaging.SignatureVerifies | freeq-server/src/connection/messaging.rs:27-57 | the attached signature decodes to 64 bytes that verify over did, target, text and timestamp under the client's key or the server's |
| Messaging.ClientSignatureKept | freeq-server/src/connection/messaging.rs:30-41 | a client signature that verifies under the session key is passed on unchanged |
| Messaging.SenderNick | freeq-server/src/connection/messaging.rs:733 | the nick of a hostmask is its prefix before the first '!' |
| Messaging.EditCheck | freeq-server/src/connection/messaging.rs:722-761 | an edit is allowed iff the target is a channel, the original exists, its sender nick equals the editor's ignoring ASCII case, and it is not deleted; a mismatch is reported before deletion |
| Messaging.DeleteCheck | freeq-server/src/connection/messaging.rs:886-931 | a delete is allowed iff the target is a channel, the original exists and is not deleted, and the deleter is its author or a channel operator |
| Messaging.EditorMayDelete | freeq-server/src/connection/messaging.rs:730-916 | whoever may edit a message may delete it |
| Messaging.FirstWithMsgid | freeq-server/src/connection/messaging.rs:827-833 | the index of the first history entry with the msgid, or none when no entry has it |
| Messaging.EditHistorySpec | freeq-server/src/connection/messaging.rs:823-835 | the history keeps its length; entries with other msgids are unchanged; msgid and sender are never changed |
| Messaging.EditReplacesText | freeq-server/src/connection/messaging.rs:828-831 | the first matching entry gets the new text and the edit's msgid tag |
| Messaging.EditTwice | freeq-server/src/connection/messaging.rs:826-833 | the entry keeps its original msgid, so a second edit of the same message overrides the first |
| Messaging.EditHistory | freeq-server/src/connection/messaging.rs:823-835 | the loop with break computes the edited history |
| Messaging.WithoutMsgid | freeq-server/src/connection/messaging.rs:938-943 | exactly the entries with another msgid remain |
| Messaging.WithoutMsgidAppend | freeq-server/src/connection/messaging.rs:941 | the retain keeps the order of the remaining entries |
| Messaging.WithoutAbsentMsgid | freeq-server/src/connection/messaging.rs:941 | a history without the msgid is left unchanged |
| Messaging.DeleteIsFinal | freeq-server/src/connection/messaging.rs:938-943 | deleting twice equals deleting once, and a later edit of the deleted msgid changes nothing in history |
| Messaging.DeleteFromHistory | freeq-server/src/connection/messaging.rs:941 | the in-place retain loop computes the history without the msgid |
| Messaging.DeleteRecipients | freeq-server/src/connection/messaging.rs:961-976 | a delete reaches tag-capable members only and never the sender |
| Messaging.HistoryLimit | freeq-server/src/connection/messaging.rs:612 | the CHATHISTORY limit is at most 500 and is 50 when the parameter does not parse |
| Messaging.HistoryLimitOf | freeq-server/src/connection/messaging.rs:612 | a decimal limit is honoured up to 500 |
| Messaging.Chathistory | freeq-server/src/connection/messaging.rs:555-651 | fewer than 3 parameters fail; a query is issued exactly for members of an existing (lower-cased) channel, and every limit is at most 500 |
| Messaging.LatestAnyCase | freeq-server/src/connection/messaging.rs:576-637 | the subcommand is upper-cased, so a lower-case LATEST * is the latest-rows query |
| Messaging.FullTags | freeq-server/src/connection/messaging.rs:289-297 | the stored tags carry the msgid and the signature, and keep every other client tag |
| Messaging.Messenger.CheckFlood | freeq-server/src/connection/messaging.rs:196-219 | the pruned record is stored even on refusal; the verdict is the flood step's |
| Messaging.Messenger.SendChannel | freeq-server/src/connection/messaging.rs:195-379 | flood check, then the mode gates, then the plugin; a delivered PRIVMSG is appended to the bounded history with its full tags, and delivery follows the recipient rule |
| Messaging.Messenger.Edit | freeq-server/src/connection/messaging.rs:712-858 | the edit verdict; an allowed edit rewrites the history entry and is delivered like a message; flood records are untouched |
| Messaging.Messenger.Delete | freeq-server/src/connection/messaging.rs:878-977 | the delete verdict with op status from the channel; an allowed delete removes the msgid from history and goes to tag-capable members except the sender |
| Connection.CloakedHost | freeq-server/src/connection/mod.rs:129-144 | every cloak starts with freeq/; a guest gets freeq/guest |
| Connection.CloakedHostOfDid | freeq-server/src/connection/mod.rs:131-137 | did:{method}:{id} is cloaked as freeq/{method}/{first 8 of id} |
| Connection.CloakedHostNoMethod | freeq-server/src/connection/mod.rs:138-140 | a DID without a second ':' is cloaked as freeq/did |
| Connection.Hostmask | freeq-server/src/connection/mod.rs:119-124 | nick!user@cloak with * and ~u for a missing nick or user |
| Connection.HostmaskNick | freeq-server/src/connection/mod.rs:119-124 | the text before the first '!' of a hostmask is the connection's nick |
| Connection.NickError | freeq-server/src/connection/mod.rs:362-372 | 432 exactly for an empty nick, one over 64 bytes, or one holding a control character or any of space , * ? ! @ # & : |
| Connection.AcceptedNickIsClean | freeq-server/src/connection/mod.rs:362-372 | an accepted nick is non-empty, has no ! @ space or comma and cannot look like a channel |
| Connection.LineCheck | freeq-server/src/connection/mod.rs:287-298 | a line longer than 8192 bytes is dropped with 417 |
| Connection.PinSpec | freeq-server/src/connection/mod.rs:636-650 | a msgid already pinned changes nothing; otherwise the pin goes to the front and the list keeps at most 50 |
| Connection.PinKeepsDistinct | freeq-server/src/connection/mod.rs:636-650 | pinning keeps msgids distinct, the list within 50, and the msgid pinned |
| Connection.WithoutPin | freeq-server/src/connection/mod.rs:658-660 | exactly the pins with another msgid remain |
| Connection.WithoutPinShorter | freeq-server/src/connection/mod.rs:658-671 | the list gets shorter iff the msgid was pinned |
| Connection.WithoutPinAppend | freeq-server/src/connection/mod.rs:660 | the retain keeps the remaining pins in order |
| Connection.Unpin | freeq-server/src/connection/mod.rs:658-671 | the retain loop; "not pinned" exactly when nothing was removed; the msgid is gone afterwards |
| Connection.Pin | freeq-server/src/connection/mod.rs:636-650 | the duplicate scan, insert at the front and truncate to 50 |
| Connection.PinCommand | freeq-server/src/connection/mod.rs:607-673 | 461 without two parameters, 482 unless channel or server operator, nothing for an unknown channel, otherwise only the channel's pins change |
| Connection.Ison | freeq-server/src/connection/mod.rs:876-882 | exactly the given nicks present in the nick map (case-insensitively), in request order |
| Connection.Userhost | freeq-server/src/connection/mod.rs:853-868 | only the first five nicks are considered, one reply per online nick |
| Connection.UserhostReplies | freeq-server/src/connection/mod.rs:856-867 | one nick[*]=+nick@host entry per online nick, in order |
| Connection.UserhostIgnoresExtra | freeq-server/src/connection/mod.rs:856 | nicks after the fifth never change the reply |
| Connection.Strip | freeq-server/src/connection/mod.rs:1049-1054 | the session leaves members, ops, voiced and halfops and nothing else changes |
| Connection.DisconnectRemovesSession | freeq-server/src/connection/mod.rs:1047-1061 | no surviving channel seats the session; a channel is dropped iff it had no other member, no remote members, founder, topic or bans |
| Connection.DisconnectKeepsRest | freeq-server/src/connection/mod.rs:1047-1061 | a surviving channel keeps its topic, bans, history and pins |
| Connection.Disconnect | freeq-server/src/connection/mod.rs:1047-1061 | the loop over the channel table and the retain compute the cleaned table |
| Helpers.NormalizeChannel | freeq-server/src/connection/helpers.rs:8-10 | the normalised name is lower-case and as long as the input |
| Helpers.NormalizeIdempotent | freeq-server/src/connection/helpers.rs:8-10 | normalising twice equals normalising once |
| Helpers.NormalizeCaseInsensitive | freeq-server/src/connection/helpers.rs:8-10 | names equal up to ASCII case normalise to the same channel |
| Helpers.SplitOfJoin | freeq-server/src/connection/helpers.rs:99-107 | space-separated IRC fields without spaces split back into the fields |
| Helpers.JoinLineFields | freeq-server/src/connection/helpers.rs:99-107 | the standard JOIN line splits into prefix, JOIN and channel; the extended line is the standard one followed by the account (DID or *) and the trailing realname |
| Helpers.AccountNotifyTargets | freeq-server/src/connection/helpers.rs:66-95 | each co-member with account-notify and a connection is notified exactly once, never the session itself |
| Routing.RelayToNick | freeq-server/src/connection/routing.rs:53-91 | Local exactly when the nick map resolves the nick (to a session holding that nick up to case), Relayed exactly when it does not and S2S is active, Unreachable otherwise; only a relay broadcasts, with no msgid and no signature |
| Routing.LocalNickNeverRelayed | freeq-server/src/connection/routing.rs:60-68 | a session holding the nick in any case receives it locally, with no broadcast |
| Registration.GuestNick | freeq-server/src/connection/registration.rs:246-247 | the rename target is `Guest` followed by decimal digits whose value is the draw reduced below 100000 |
| Registration.GuestNickAccepted | freeq-server/src/connection/registration.rs:246-247 | a guest nick always passes the NICK syntax check (non-empty, at most 64 bytes, no forbidden character) |
| Registration.GuestNickDeterminesDraw | freeq-server/src/connection/registration.rs:246-247 | two guest nicks coincide only when their draws agree modulo 100000 |
| Registration.TrimUnderscores | freeq-server/src/connection/registration.rs:96-98 | the result is the prefix left after dropping every trailing underscore, and does not itself end in one |
| Registration.FallbackDiffersFromTrimmed | freeq-server/src/connection/registration.rs:96-101 | a nick ending in `_` is never case-insensitively equal to its trimmed form, so the reclaim always asks for a different nick |
| Registration.Rejoined | freeq-server/src/connection/registration.rs:59-65 | after a ghost reclaim the session is a member, op, voiced or halfop of a channel exactly when it already was or some recorded channel naming it (ignoring case) carries that flag; no other session changes |
| Registration.RejoinedIdempotent | freeq-server/src/connection/registration.rs:59-65 | reclaiming the same ghost twice gives the same channel state as once |
| Registration.RejoinStep | freeq-server/src/connection/registration.rs:59-65 | each recorded channel adds the session, with its flags, only to the channel it names |
| Registration.RejoinGhostChannels | freeq-server/src/connection/registration.rs:57-66 | the loop leaves the channel set alone and turns each channel into its reclaimed state |
| Registration.Attached | freeq-server/src/connection/registration.rs:151-159 | a multi-device session becomes a member, and op or voiced exactly when it already was or an existing session of its DID is; no other session changes |
| Registration.AttachedIdempotent | freeq-server/src/connection/registration.rs:151-159 | attaching the same session twice gives the same channel as once |
| Registration.MultiDeviceJoin | freeq-server/src/connection/registration.rs:137-161 | the channels joined are exactly those an existing session is in; each of them is attached and every other channel is untouched |
| Registration.CandidateHeldByOtherSession | freeq-server/src/connection/registration.rs:115-125 | every nick a new device may adopt is held by a different session of the same DID |
| Registration.AsWrittenMayKeepOwnNick | freeq-server/src/connection/registration.rs:115-125 | the lookup as written also offers the new session's own nick, which no other device of the DID holds |
| Registration.PickCanonical | freeq-server/src/connection/registration.rs:115-125 | a canonical nick is found exactly when some other session of the DID holds a nick, and it is one of those nicks |
| Registration.NamesReplay | freeq-server/src/connection/registration.rs:182-199 | each entry is the status prefix and the nick of a member; no two entries share a nick ignoring case; every member with a nick is represented by its nick |
| Registration.Shared.EnforceNickOwnership | freeq-server/src/connection/registration.rs:237-258 | a nick registered to another (or no authenticated) DID is replaced by the guest nick, which the nick map gives to the session, and the old nick is freed; otherwise nothing changes |
| Registration.Shared.ReclaimGhost | freeq-server/src/connection/registration.rs:35-74 | the session takes the ghost's nick (keeping its own spelling when equal ignoring case), the old nick is freed, every channel is in its reclaimed state and the recorded channel names are kept for the replay |
| Registration.Shared.FirstSession | freeq-server/src/connection/registration.rs:85-109 | the session's nick ends up mapped; a fallback nick ending in `_` is traded for its trimmed form when that was free and kept when another session holds it |
| Registration.Shared.MultiDevice | freeq-server/src/connection/registration.rs:111-161 | when another device of the DID holds a nick, the session ends with a nick one of them holds; the channel map is the multi-device join |
| Registration.Shared.AttachSameDid | freeq-server/src/connection/registration.rs:17-161 | without a DID nothing changes; otherwise the session is added to the DID's session set, then the ghost is consumed and reclaimed, or the channels are joined beside the DID's other sessions |
| Registration.Shared.TryCompleteRegistration | freeq-server/src/connection/registration.rs:227-266 | nothing changes when already registered, negotiating CAP, mid-SASL or missing nick or user; otherwise the connection ends registered, so a second call does nothing |
| Cap.ParseCap | freeq-server/src/connection/cap.rs:43-92 | a token is recognised exactly when its ASCII-lower-cased form is the wire name of a capability, and then it is that capability |
| Cap.ParseCapName | freeq-server/src/connection/cap.rs:43-92 | every capability is recognised under its own name written in any ASCII case |
| Cap.AckedNamesOfKnown | freeq-server/src/connection/cap.rs:42-94 | when every token is known, the acknowledged list has one entry per token, in request order, each the capability's wire name |
| Cap.AckEchoesRequest | freeq-server/src/connection/cap.rs:42-97 | an ACK lists each requested token lower-cased, in request order |
| Cap.ReqReply | freeq-server/src/connection/cap.rs:96-111 | the reply is ACK exactly when the whitespace-split list is non-empty and every token is known, carrying the acknowledged names joined by spaces; otherwise NAK echoing the request verbatim |
| Cap.RecordedSpec | freeq-server/src/connection/cap.rs:42-94 | after a REQ the session is in the shared set of a capability exactly when it already was or the capability is tracked and was requested; every other session's membership is unchanged |
| Cap.GrantAll | freeq-server/src/connection/cap.rs:42-94 | the loop enables exactly the known requested capabilities (even when others are unknown), records the session in the tracked ones and collects the acknowledged names in request order |
| Cap.Req | freeq-server/src/connection/cap.rs:37-112 | CAP REQ replies with the ACK/NAK decision and leaves every known requested capability enabled and recorded, whatever the reply |
| Cap.LsLine | freeq-server/src/connection/cap.rs:25-28 | the LS list is the fixed advertised list, followed by ` iroh=` and the id exactly when the server has an iroh id |
| Cap.LsLineInjective | freeq-server/src/connection/cap.rs:25-28 | the LS list determines whether the server has an iroh id and which one |
| Cap.HandleCap | freeq-server/src/connection/cap.rs:20-119 | the subcommand is matched ignoring case; LS starts negotiation and lists the capabilities, REQ with a list replies as above, REQ without one does nothing, END stops negotiation and completes a registration that was only waiting for it, anything else changes nothing |
| Cap.AuthNumeric | freeq-server/src/connection/cap.rs:133-293 | abort, every failure and an unsupported mechanism answer 904; a challenge or a login does not |
| Cap.Authenticate | freeq-server/src/connection/cap.rs:131-293 | `*` aborts, the mechanism name in any case starts an exchange with a fresh challenge, a response inside an exchange ends it with a login or a failure, anything else is unsupported; only a login binds the DID to the session and the current nick to the DID, in both directions |
| Cap.LoginOwnsNick | freeq-server/src/connection/cap.rs:173-176 | once a login has bound the nick to the DID, the nick-ownership check no longer renames the connection |
| Queries.WhoFlags | freeq-server/src/connection/queries.rs:217-221 | the flags are one or two characters: `G` exactly when away, else `H`, with a second character exactly when the member is op or voiced |
| Queries.WhoFlagsRoundTrip | freeq-server/src/connection/queries.rs:217-221 | the away state and the status (op taking precedence over voice) are recovered from the flags |
| Queries.Realname | freeq-server/src/connection/queries.rs:223-228 | the realname starts with `0 ` and is followed by the DID when the session is authenticated |
| Queries.WhoChannel | freeq-server/src/connection/queries.rs:206-237 | WHO on a channel answers, once each, exactly the members that have a nick, each with its nick, flags and realname under the normalised channel name; an unknown channel gives no reply lines |
| Queries.WhoNick | freeq-server/src/connection/queries.rs:244-262 | WHO on a nick answers exactly when some session holds the nick ignoring case, with channel `*`, the nick as typed and that session's away flag alone |
| Queries.RemoteCount | freeq-server/src/connection/queries.rs:286-296 | the remote count is the number of distinct remote nicks over all channels |
| Queries.RemoteCountBounds | freeq-server/src/connection/queries.rs:286-296 | the deduplicated count is never below any one channel's number of remote members |
| Queries.LusersTotal | freeq-server/src/connection/queries.rs:283-298 | the reported total is the local connection count plus the distinct remote nicks |
| Queries.AwayAfter | freeq-server/src/connection/queries.rs:336-361 | a non-empty AWAY message is recorded for the session, an empty or missing one clears it, no other session's entry changes |
| Queries.AwayThenBack | freeq-server/src/connection/queries.rs:336-361 | going away and then back leaves the session with no away entry and every other session as before |
| Queries.AwayShowsInWho | freeq-server/src/connection/queries.rs:217-361 | after AWAY, WHO shows `G` exactly when the message was non-empty |
| Queries.AwayLine | freeq-server/src/connection/queries.rs:378-381 | the line is `:hostmask AWAY`, followed by ` :reason` only when going away, terminated by CRLF |
| Queries.AwayTargets | freeq-server/src/connection/queries.rs:372-394 | no targets when no session has away-notify; otherwise exactly the co-members of any shared channel that have away-notify, never the sender |
| Queries.AwayTable.HandleAway | freeq-server/src/connection/queries.rs:325-403 | the away table is updated as above, the reply is RPL_NOWAWAY exactly for a non-empty message, and the AWAY line goes to the connected away-notify co-members |
| Web.InboundText | freeq-server/src/web.rs:68-73 | a text frame reaches the IRC side as its UTF-8 bytes followed by CRLF |
| Web.InboundBinary | freeq-server/src/web.rs:75-82 | a binary frame always ends in CRLF afterwards, and is extended by exactly CRLF only when it did not already end with it |
| Web.InboundBinaryIdempotent | freeq-server/src/web.rs:75-82 | framing a binary frame twice is framing it once |
| Web.FindCrlf | freeq-server/src/web.rs:121 | the position found is the first CRLF, and there is none exactly when no position is found |
| Web.FramedUnique | freeq-server/src/web.rs:117-126 | lines without CRLF and a remainder without CRLF are determined by their CRLF framing, so the split below is the only one |
| Web.CutLines | freeq-server/src/web.rs:121-126 | the drain loop cuts the buffer into lines without CRLF, in order, followed by a remainder holding no CRLF, and putting the CRLFs back gives the buffer |
| Web.LineBuffer.Feed | freeq-server/src/web.rs:117-126 | the old buffer plus the bytes read equal the emitted lines, each followed by CRLF, plus the new buffer; no emitted line and not the buffer contain CRLF |
| Web.ReplaceAll | freeq-server/src/web.rs:545 | replacing a pattern that does not occur leaves the text unchanged |
| Web.OriginOfHost | freeq-server/src/web.rs:546-552 | the scheme is http exactly for `127.`, `192.168.` and `10.` hosts, https otherwise, and the origin is scheme, `://` and host |
| Web.DeriveWebOrigin | freeq-server/src/web.rs:541-553 | for every Host header the origin is the scheme, `://` and a host with no `localhost` left in it; the scheme is http exactly when that host is private (127., 192.168., 10.); without a header the result is ("http://127.0.0.1:8080", "http"); a header without `localhost` is used as it is |
| Web.ReplaceGone | freeq-server/src/web.rs:545 | `str::replace` of a pattern by a text sharing no character with it leaves no occurrence of the pattern |
| Web.ReplacePrefixFromSource | freeq-server/src/web.rs:545 | the part of a replaced text before the first inserted replacement is copied from the input |
| Web.DefaultOrigin | freeq-server/src/web.rs:542-544 | a missing Host header yields the origin http://127.0.0.1:8080 over http |
| Web.LocalhostOverHttp | freeq-server/src/web.rs:541-553 | a Host header starting with `localhost` is served over http at `127.0.0.1` |
| Web.PercentRoundTrip | freeq-server/src/web.rs:931-934 | percent-encoding every non-alphanumeric byte loses nothing: decoding gives the bytes back |
| Web.BuildClientId | freeq-server/src/web.rs:569-581 | private http origins get the `http://localhost?redirect_uri=…&scope=…` client id, every other origin `{origin}/client-metadata.json` |
| Web.LoopbackClientIdParses | freeq-server/src/web.rs:569-577 | the loopback client id starts with `http://localhost?redirect_uri=`; its redirect parameter runs to the first `&` and decodes to the redirect URI, and its scope parameter decodes to the scope |
| Web.LoopbackIffHttp | freeq-server/src/web.rs:546-570 | a derived origin gets the loopback client id exactly when its scheme is http |
| Web.StripFirstSuffix | freeq-server/src/web.rs:939-945 | the first suffix in order that ends the handle is removed; with none, the handle is unchanged |
| Web.MobileNickStandard | freeq-server/src/web.rs:938-946 | a handle on any of the four standard Bluesky hosts gives back the name before the host |
| Web.HistoryChannel | freeq-server/src/web.rs:346-350 | the channel always starts with `#`, prefixed only when missing |
| Web.HistoryChannelIdempotent | freeq-server/src/web.rs:346-350 | prefixing twice is prefixing once |
| Web.HistoryLimit | freeq-server/src/web.rs:352 | the history limit defaults to 50 and never exceeds 200 |
| Web.OAuthExpiry | freeq-server/src/web.rs:749-753 | with a forward clock a pending OAuth state is rejected exactly when older than 300 seconds; after the clock went back the wrapped `u64` difference rejects it too |
| Web.DecodeEscape | freeq-server/src/web.rs:1124-1134 | the single-pass decoder inverts HTML escaping of `& < > " '` on every text |
| Web.DecodeAsWrittenDoubleDecodes | freeq-server/src/web.rs:1124-1134 | the chained replacements as written turn the escaped text `&lt;` (that is `&amp;lt;`) into `<`, where the single pass gives `&lt;` |
| Moderation.CredentialId | freeq-server/src/verifiers/moderation.rs:168-172 | the credential id is `mod-`, the lower-cased channel, `-`, then the first 20 characters of the DID (all of it when shorter) |
| Moderation.ExpiresAt | freeq-server/src/verifiers/moderation.rs:128-130 | an appointment expires the given number of days after it is made, 30 days by default |
| Moderation.DropLive | freeq-server/src/verifiers/moderation.rs:180 | the retain keeps exactly the entries that are revoked or belong to another DID |
| Moderation.Active | freeq-server/src/verifiers/moderation.rs:272-285 | the roster lists exactly the entries that are not revoked and expire strictly after now |
| Moderation.RevokeEntries | freeq-server/src/verifiers/moderation.rs:249-253 | the loop keeps the list's length and marks revoked exactly the live entries of the DID |
| Moderation.RevokeClears | freeq-server/src/verifiers/moderation.rs:249-253 | after a revoke no entry of the DID is live, entries of other DIDs are unchanged, and only revoked flags differ |
| Moderation.ModRoster.Appoint | freeq-server/src/verifiers/moderation.rs:129-189 | a subject that is neither a DID nor resolvable stores nothing; otherwise the lower-cased channel's live entries for the DID are replaced by one new live appointment with the computed expiry and credential id |
| Moderation.ModRoster.Revoke | freeq-server/src/verifiers/moderation.rs:241-256 | only the lower-cased channel's list changes, keeping its length, with the DID's live entries revoked; an unknown channel changes nothing |
| Moderation.ModRoster.Roster | freeq-server/src/verifiers/moderation.rs:262-290 | the roster of a channel, looked up lower-cased, lists exactly its active appointments |
| Moderation.AppointLeavesOneLive | freeq-server/src/verifiers/moderation.rs:176-189 | after an appointment the DID has exactly one live appointment in the channel, the new one |
| Moderation.AppointKeepsHistory | freeq-server/src/verifiers/moderation.rs:176-189 | appointing keeps every revoked appointment and every appointment of another DID |
| Moderation.AppointedShowsInRoster | freeq-server/src/verifiers/moderation.rs:149-269 | an appointment made under one casing of the channel shows in the roster queried under any other casing until it expires |
| Moderation.RevokedLeavesRoster | freeq-server/src/verifiers/moderation.rs:247-285 | after a revoke the DID is absent from that channel's roster |
| MsgId.CrockfordTable | freeq-server/src/msgid.rs:10 | the 32-entry alphabet table is the digits then A-H, J-K, M-N, P-T, V-Z, in that order |
| MsgId.DigitOf | freeq-server/src/msgid.rs:57-65 | every alphabet character (an ASCII digit or upper-case letter other than I, L, O, U) stands for exactly one digit below 32 |
| MsgId.DigitCharFacts | freeq-server/src/msgid.rs:10 | each digit's character is in the alphabet and reads back as that digit; a larger digit has a larger character |
| MsgId.Encode | freeq-server/src/msgid.rs:25-37 | the k-digit encoding has exactly k characters, all from the alphabet |
| MsgId.DecodeEncode | freeq-server/src/msgid.rs:25-37 | below 32^k, reading the encoding back gives the number: the encoding loses nothing |
| MsgId.EncodeDecode | freeq-server/src/msgid.rs:25-37 | every alphabet string is the encoding of its own value |
| MsgId.EncodeWraps | freeq-server/src/msgid.rs:26-30 | only the low k digits are encoded: adding a multiple of 32^k changes nothing |
| MsgId.EncodeInjective | freeq-server/src/msgid.rs:32-37 | below 32^k distinct numbers have distinct encodings |
| MsgId.EncodeMonotone | freeq-server/src/msgid.rs:25-30 | below 32^k a larger number has a lexicographically larger encoding |
| MsgId.Spans | freeq-server/src/msgid.rs:25-37 | ten characters span 2^50 and sixteen span 2^80, which is 2^16 times the u64 range |
| MsgId.MsgIdOf | freeq-server/src/msgid.rs:23-41 | an id has 26 alphabet characters; the first ten read back as the timestamp's low 50 bits and the last sixteen as `rand_hi + rand_lo * 2^16` |
| MsgId.FillDigits | freeq-server/src/msgid.rs:27-30 | the shift-and-mask loop writes the encoding of the value into its slice of the buffer and touches nothing else |
| MsgId.Generate | freeq-server/src/msgid.rs:13-41 | filling the buffer with the two loops yields exactly the id of the timestamp and the two draws |
| MsgId.MsgIdInjective | freeq-server/src/msgid.rs:32-37 | equal ids come from equal random draws and equal timestamps modulo 2^50 |
| MsgId.MsgIdChronological | freeq-server/src/msgid.rs:67-73 | below 2^50 ms a later timestamp gives a lexicographically larger id whatever the random draws |
| Ratchet.BigEndian32RoundTrip | freeq-sdk/src/ratchet.rs:100-101 | a `u32` written big-endian in four bytes reads back unchanged |
| Ratchet.HeaderBytes | freeq-sdk/src/ratchet.rs:97-103 | the header encoding is 40 bytes: the ratchet key, then the two counters big-endian |
| Ratchet.HeaderFromBytes | freeq-sdk/src/ratchet.rs:106-115 | decoding fails with MalformedHeader exactly when the input is not 40 bytes; otherwise the key is the first 32 bytes |
| Ratchet.HeaderRoundTrip | freeq-sdk/src/ratchet.rs:97-115 | a valid header encodes and decodes back to itself |
| Ratchet.HeaderBytesRoundTrip | freeq-sdk/src/ratchet.rs:97-115 | any 40 bytes decode to a header that encodes back to the same bytes |
| Ratchet.Advance | freeq-sdk/src/ratchet.rs:59-75 | advancing a chain `n` times moves its index by exactly `n` |
| Ratchet.AdvanceInjective | freeq-sdk/src/ratchet.rs:59-75 | different numbers of chain steps give different keys |
| Ratchet.SplitN3 | freeq-sdk/src/ratchet.rs:256-259 | `splitn(3, ':')` into exactly three parts recomposes the input, and the first two parts hold no colon |
| Ratchet.SplitN3Of | freeq-sdk/src/ratchet.rs:256-259 | two colon-free parts and any third part joined by colons split back into themselves |
| Ratchet.ParseWire | freeq-sdk/src/ratchet.rs:252-272 | NotEncrypted exactly without the `ENC3:` prefix; MalformedMessage when the split fails; on success each part is the decoding of its text, the nonce is 12 bytes and the header decodes |
| Ratchet.WireRoundTrip | freeq-sdk/src/ratchet.rs:243-272 | the wire text of a header, a 12-byte nonce and a ciphertext parses back to exactly those, given a base64 that round-trips and never emits ':' |
| Ratchet.AliceState | freeq-sdk/src/ratchet.rs:161-185 | Alice starts valid and in sync, with a sending chain, no receiving chain and Bob's key as the remote key |
| Ratchet.BobState | freeq-sdk/src/ratchet.rs:189-207 | Bob starts valid and in sync with no chains and no remote key |
| Ratchet.EncryptStep | freeq-sdk/src/ratchet.rs:212-248 | NoSendChain and no change exactly when there is no sending chain; otherwise the chain steps once, the counter increments modulo 2^32 and the wire seals with the current message key under the header |
| Ratchet.EncryptKeepsSync | freeq-sdk/src/ratchet.rs:212-225 | encrypting keeps the state valid and the sending counter equal to the chain index modulo 2^32 |
| Ratchet.EncryptWireParses | freeq-sdk/src/ratchet.rs:237-247 | the wire an encrypt produces is ENC3 and parses back to its header, nonce and ciphertext |
| Ratchet.SkipState | freeq-sdk/src/ratchet.rs:342-363 | nothing changes when `until < from`; TooManySkipped and no change exactly when more than 1000 would be skipped; otherwise the keys are stored and the chain moves past them |
| Ratchet.SkipKeysStored | freeq-sdk/src/ratchet.rs:355-359 | each skipped number gets the key that many steps along the chain, every other stored key is kept, and nothing else is added |
| Ratchet.SkipKeysInSync | freeq-sdk/src/ratchet.rs:355-359 | keys stored from a chain in step with `from` are in step with their own message numbers |
| Ratchet.SkipKeepsSync | freeq-sdk/src/ratchet.rs:342-363 | a skip from the receiving counter keeps the stored keys in sync and leaves the chain in step with `until` |
| Ratchet.RatchetKeepsSync | freeq-sdk/src/ratchet.rs:283-322 | the DH ratchet step restarts both chains at zero and keeps the session valid and in sync |
| Ratchet.DecryptNotEncrypted | freeq-sdk/src/ratchet.rs:252-253 | a message without the prefix is refused with NotEncrypted and changes nothing |
| Ratchet.DecryptMalformed | freeq-sdk/src/ratchet.rs:255-272 | every parse failure is returned as is and changes nothing |
| Ratchet.SkippedKeyConsumed | freeq-sdk/src/ratchet.rs:274-277 | a stored skipped key is used for its message and removed, so it cannot be used again |
| Ratchet.DecryptOnChain | freeq-sdk/src/ratchet.rs:279-336 | on an unchanged remote key with no stored key, decrypt is the receive on the current chain |
| Ratchet.ReceiveKey | freeq-sdk/src/ratchet.rs:324-336 | within the skip bound, the message opens with the key as many steps along as its number is past the counter |
| Ratchet.ReceiveReplay | freeq-sdk/src/ratchet.rs:324-336 | as written, a number below the counter still advances the chain, sets the counter back and opens with a key that is not that message's |
| Ratchet.ReplayBreaksSync | freeq-sdk/src/ratchet.rs:323-336 | as written, decrypting a replayed message leaves the receiving counter out of step with its chain |
| Ratchet.ReplayThenNextMisses | freeq-sdk/src/ratchet.rs:323-336 | as written, after a replay the next in-order message is refused or opened with the wrong key |
| Ratchet.ReplayNextKey | freeq-sdk/src/ratchet.rs:324-336 | after the counter was set back, the in-order message's key is off by the replay's distance |
| Ratchet.ReceiveCheckedKeepsSync | freeq-sdk/src/ratchet.rs:323-336 | with the check, receiving keeps the session valid and in sync and opens with the key of the message's own number |
| Ratchet.DecryptCheckedKeepsSync | freeq-sdk/src/ratchet.rs:251-339 | with the check, every decrypt keeps the session valid and in sync, and any key used is the message key for the header's number |
| Ratchet.DecryptCheckedRefusesReplay | freeq-sdk/src/ratchet.rs:543-551 | with the check, a replay is refused with DecryptFailed and changes nothing |
| Ratchet.EncryptThenDecrypt | freeq-sdk/src/ratchet.rs:452-460 | on aligned chains the receiver reads back the plaintext and both chains step together |
| Ratchet.SkipLoop | freeq-sdk/src/ratchet.rs:355-359 | the loop stores exactly the skipped keys and leaves the chain `until - from` steps along |
| Ratchet.Session.InitAlice | freeq-sdk/src/ratchet.rs:161-185 | the new session is Alice's initial state |
| Ratchet.Session.InitBob | freeq-sdk/src/ratchet.rs:189-207 | the new session is Bob's initial state |
| Ratchet.Session.OurPublicKey | freeq-sdk/src/ratchet.rs:376-378 | the current 32-byte ratchet public key |
| Ratchet.Session.Encrypt | freeq-sdk/src/ratchet.rs:212-248 | the fields and the result are those of the encrypt step |
| Ratchet.Session.SkipMessages | freeq-sdk/src/ratchet.rs:342-363 | the fields and the result are those of the skip step, with no change on an error |
| Ratchet.Session.DhRatchet | freeq-sdk/src/ratchet.rs:293-321 | the fields become those of the DH step |
| Ratchet.Session.Ratchet | freeq-sdk/src/ratchet.rs:283-322 | the changed-key branch: no change on TooManySkipped, otherwise the skipped-then-stepped state |
| Ratchet.Session.Receive | freeq-sdk/src/ratchet.rs:324-336 | the fields and the result are those of the receive on the chain |
| Ratchet.Session.Decrypt | freeq-sdk/src/ratchet.rs:251-339 | the fields and the result are those of decrypt as written |
| Client.NickOf | freeq-sdk/src/client.rs:821-828 | the nick is the prefix up to its first `!` (no `!` in it), or the default without a prefix |
| Client.Offered | freeq-sdk/src/client.rs:1154-1158 | a cap is kept exactly when it is in the list and occurs in the LS text |
| Client.CapsRequestedIff | freeq-sdk/src/client.rs:1148-1161 | a cap is requested iff the server lists it and it is message-tags or a wanted cap, or it is sasl with a signer or web token |
| Client.KeepOffered | freeq-sdk/src/client.rs:1154-1158 | the loop keeps exactly the offered caps in order |
| Client.RequestCaps | freeq-sdk/src/client.rs:1149-1161 | the request list equals the LS specification |
| Client.CapLsReply | freeq-sdk/src/client.rs:1162-1169 | CAP END exactly when nothing is requested, else one CAP REQ with the caps space-separated |
| Client.CapResponse | freeq-sdk/src/client.rs:1146-1187 | LS replies with the request; ACK with sasl starts SASL; other ACK and NAK end negotiation; anything else writes nothing |
| Client.NickAttempt | freeq-sdk/src/client.rs:696-701 | the fallback nick extends the configured one |
| Client.NickAttemptsDistinct | freeq-sdk/src/client.rs:696-701 | different try counts give different nicks |
| Client.PieceStart | freeq-sdk/src/client.rs:753 | the last piece of a left-to-right split starts at the beginning or right after a match, and no match starts inside it |
| Client.AfterLastSplits | freeq-sdk/src/client.rs:753 | the last piece holds no separator and is the whole text or follows a separator |
| Client.DidFrom900 | freeq-sdk/src/client.rs:750-759 | an accepted DID starts with `did:` |
| Client.DidHasNoSeparator | freeq-sdk/src/client.rs:753-755 | an accepted DID never contains `as ` |
| Client.AfterLastOf | freeq-sdk/src/client.rs:753 | the text after `as ` is recovered when it holds no further `as ` |
| Client.DidFrom900Of | freeq-sdk/src/client.rs:750-759 | "... as did:..." yields that DID |
| Client.BatchEvent | freeq-sdk/src/client.rs:786-800 | `+id` starts a batch with type and target (default empty), `-id` ends it, nothing else emits |
| Client.ParseU16 | freeq-sdk/src/client.rs:1037 | a parsed numeric is below 65536 |
| Client.MotdText | freeq-sdk/src/client.rs:1047-1054 | MOTD text always starts with `MOTD:` |
| Client.NumericEvent | freeq-sdk/src/client.rs:1033-1061 | 400-699 and 900-999 become notices without our nick; 372 the MOTD body; only numerics emit |
| Client.ChatEvent | freeq-sdk/src/client.rs:998-1016 | fewer than two params emit nothing; a NOTICE without `!` in the prefix is a server notice; otherwise a message from the prefix nick with target, text and tags |
| Client.Translate | freeq-sdk/src/client.rs:786-1061 | unbranched commands go to the numeric fallback; BATCH, PRIVMSG and NOTICE to their handlers |
| Client.CommandLine | freeq-sdk/src/client.rs:1096-1133 | every line ends in CRLF; a PRIVMSG line ends with the plain PRIVMSG and carries the signature tag exactly when signing is on |
| Client.CommandLines | freeq-sdk/src/client.rs:806-808 | one line per command, in order |
| Client.FlushLines | freeq-sdk/src/client.rs:806-808 | the drain loop writes the queue's lines in order |
| Client.Start | freeq-sdk/src/client.rs:652-666 | CAP LS 302, NICK, USER are written; unregistered, running, no tries |
| Client.On433 | freeq-sdk/src/client.rs:691-709 | the try count grows (saturating); up to 5 a NICK retry, beyond a Nick-in-use disconnect that stops |
| Client.OnAuthenticate | freeq-sdk/src/client.rs:713-739 | a web token answers a non-empty challenge; a signer that cannot answer ends the loop; no event, no queue change |
| Client.On903 | freeq-sdk/src/client.rs:760-778 | SASL over, the DID and token consumed, CAP END last |
| Client.On001 | freeq-sdk/src/client.rs:801-809 | registered, queue empty, queued lines appended in order, Registered event |
| Client.OnOther | freeq-sdk/src/client.rs:810-1061 | the state changes at most by the line's event |
| Client.OnCommand | freeq-sdk/src/client.rs:1068-1078 | sent at once when registered or a Quit (a Quit before registration stops), else queued at the end |
| Client.OnEof | freeq-sdk/src/client.rs:678-681 | EOF disconnects and stops |
| Client.OnTimer | freeq-sdk/src/client.rs:1080-1086 | a silent server past the timeout disconnects, else a keepalive PING |
| Client.LinesKeepQueueOk | freeq-sdk/src/client.rs:801-809 | every server line keeps "queued only before registration" |
| Client.CommandsKeepQueueOk | freeq-sdk/src/client.rs:1068-1078 | commands, EOF and the timer keep it too |
| Client.NickRetries | freeq-sdk/src/client.rs:691-709 | the k-th 433 (k up to 5) tries nick+k and keeps running; the sixth disconnects with Nick in use |
| Client.SubmitQueues | freeq-sdk/src/client.rs:1068-1077 | non-Quit commands before registration only extend the queue |
| Client.QueuedThenFlushed | freeq-sdk/src/client.rs:801-809 | queued commands are written on 001 in submission order |
| Client.AckAndNak | freeq-sdk/src/client.rs:1171-1185 | ACK with sasl starts SASL with ATPROTO-CHALLENGE; other ACK and NAK send CAP END |
| Client.SaslNoticeHidden | freeq-sdk/src/client.rs:741-748 | a NOTICE during SASL produces no event |
| Client.IrcClient.constructor | freeq-sdk/src/client.rs:652-666 | the fields are the starting state |
| Client.IrcClient.HandleCap | freeq-sdk/src/client.rs:1139-1189 | the fields become those of the CAP step |
| Client.IrcClient.HandleNickInUse | freeq-sdk/src/client.rs:691-709 | the fields become those of the 433 step |
| Client.IrcClient.HandleAuthenticate | freeq-sdk/src/client.rs:713-739 | the fields become those of the AUTHENTICATE step |
| Client.IrcClient.HandleSaslNotice | freeq-sdk/src/client.rs:741-748 | only the DPoP nonce may change |
| Client.IrcClient.HandleLoggedIn | freeq-sdk/src/client.rs:750-759 | the fields become those of the 900 step |
| Client.IrcClient.HandleSaslSuccess | freeq-sdk/src/client.rs:760-778 | the fields become those of the 903 step |
| Client.IrcClient.HandleSaslFail | freeq-sdk/src/client.rs:779-785 | SASL over, AuthFailed with the reason or Unknown, CAP END |
| Client.IrcClient.HandleWelcome | freeq-sdk/src/client.rs:801-809 | the fields become those of the 001 step |
| Client.IrcClient.HandlePing | freeq-sdk/src/client.rs:817-820 | PONG with the same token |
| Client.IrcClient.HandleOther | freeq-sdk/src/client.rs:810-1061 | the line's event, if any, is appended |
| Client.IrcClient.HandleMessage | freeq-sdk/src/client.rs:689-1062 | the fields become those of the dispatch step |
| Client.IrcClient.HandleLine | freeq-sdk/src/client.rs:684-688 | the raw line is reported, then the parsed message handled |
| Client.IrcClient.HandleCommand | freeq-sdk/src/client.rs:1068-1078 | the fields become those of the command step |
| TuiApp.Push | freeq-tui/src/app.rs:86-93 | appending keeps every other field, scrolls to the bottom, ends with the new line and, for a buffer within the bound, keeps exactly the newest 1000 lines |
| TuiApp.SanitizeText | freeq-tui/src/app.rs:460-467 | the result holds only printable characters (newline, tab, space and above, not DEL), holds exactly the input's printable characters, and equals the input iff the input was already clean |
| TuiApp.SanitizeIdempotent | freeq-tui/src/app.rs:460-467 | sanitising twice equals sanitising once |
| TuiApp.ChatBufferName | freeq-tui/src/app.rs:290-298 | a channel target ('#' or '&') names its own buffer; a private message goes to the target when we sent it, otherwise to the sender |
| TuiApp.WithBuffer | freeq-tui/src/app.rs:275-280 | the lower-cased key is present afterwards, existing buffers are untouched and a missing one is created empty |
| TuiApp.ChatBuffers | freeq-tui/src/app.rs:288-322 | the sanitised line lands in the routed buffer, other buffers are unchanged, unread grows by one exactly when the buffer is inactive and the sender is not us, the mention flag is set exactly when additionally the text contains our nick ignoring case, and the line bound is preserved |
| TuiApp.StatusBuffers | freeq-tui/src/app.rs:283-285 | a sanitised system line is pushed to the status buffer (created if missing), other buffers are unchanged and the bound is preserved |
| TuiApp.StatusKey | freeq-tui/src/app.rs:275-276 | the status buffer's lower-cased key is "status" itself |
| TuiApp.InsertByTime | freeq-tui/src/app.rs:343 | inserting into a time-sorted list keeps it sorted, adds exactly that line, and puts it first or keeps the old first line first |
| TuiApp.SortByTime | freeq-tui/src/app.rs:343 | the batch lines come out sorted by timestamp and are a permutation of the input (stability: SortStable) |
| TuiApp.InsertKeepsTies | freeq-tui/src/app.rs:343 | inserting a line puts it at the front of the lines sharing its timestamp and leaves every other tie group as it was |
| TuiApp.SortStable | freeq-tui/src/app.rs:343 | the sort is stable: for every timestamp, the lines carrying it keep their relative order |
| TuiApp.PrependHistory | freeq-tui/src/app.rs:344-350 | prepending newest-first while dropping from the back leaves the first 1000 of history followed by the existing lines |
| TuiApp.FlushBatch | freeq-tui/src/app.rs:340-352 | the target buffer (created if missing) gets the sorted history in front, truncated to the bound, with its other fields and all other buffers unchanged |
| TuiApp.SortedKeys | freeq-tui/src/app.rs:405-407 | the buffer names are exactly the map's keys, in strictly ascending order |
| TuiApp.SortedKeysDistinct | freeq-tui/src/app.rs:405-407 | the buffer names contain no duplicate |
| TuiApp.IndexOf | freeq-tui/src/app.rs:369-370 | the position found holds the active name and no earlier position does |
| TuiApp.IndexOfDistinct | freeq-tui/src/app.rs:369-370 | in a duplicate-free list the position of the i-th name is i |
| TuiApp.NextPrevInverse | freeq-tui/src/app.rs:368-385 | next then previous, and previous then next, return to the same buffer |
| TuiApp.NeighbourKeys | freeq-tui/src/app.rs:368-385 | away from the ends, next and previous are the neighbours in name order |
| TuiApp.KeysWrap | freeq-tui/src/app.rs:368-385 | after the last buffer comes the first, and before the first the last |
| TuiApp.ClearUnread | freeq-tui/src/app.rs:397-402 | the active buffer's unread count and mention flag are cleared, every other buffer unchanged |
| TuiApp.FallbackBuffer | freeq-tui/src/app.rs:361-365 | with buffers left the fallback is the least remaining name, otherwise "status" |
| TuiApp.HistoryUp | freeq-tui/src/app.rs:420-436 | from the draft the newest entry shows and the draft is saved; from a later entry the previous one shows; at the oldest or with no history nothing changes |
| TuiApp.HistoryDown | freeq-tui/src/app.rs:439-450 | stepping down keeps the history and leaves a valid browsing position |
| TuiApp.HistoryDownUndoesUp | freeq-tui/src/app.rs:420-450 | down after up restores the browsing position, and from the draft restores the draft text |
| TuiApp.UpNShows | freeq-tui/src/app.rs:420-436 | k steps up from the draft show the k-th newest entry and keep the draft saved |
| TuiApp.DownNShows | freeq-tui/src/app.rs:439-450 | each step down shows the next newer entry |
| TuiApp.UpThenDownRestores | freeq-tui/src/app.rs:420-450 | k steps up then k steps down give back the draft and end browsing |
| TuiApp.InputTake | freeq-tui/src/app.rs:410-417 | the editor text is returned, the editor is cleared, browsing stops and the text is appended to the history exactly when non-empty |
| TuiApp.EvictImageCache | freeq-tui/src/app.rs:470-489 | a cache within 50 entries is untouched; a larger one shrinks to exactly 50, survivors keep their values, and a working image is dropped only when no failed one survives |
| TuiApp.DropFailed | freeq-tui/src/app.rs:474-481 | failed entries are removed until the bound is met; only failed entries are removed, and if the bound is still exceeded none is left |
| TuiApp.DropInOrder | freeq-tui/src/app.rs:482-488 | entries are removed in iteration order until exactly 50 remain, survivors unchanged |
| TuiApp.FailedIn | freeq-tui/src/app.rs:474-478 | the failed keys of the iteration order, each once |
| TuiApp.App.constructor | freeq-tui/src/app.rs:228-272 | a single status buffer holding the welcome line for the editing mode, active, with empty history |
| TuiApp.App.StatusMsg | freeq-tui/src/app.rs:283-285 | the buffers become StatusBuffers of the old ones; nothing else changes |
| TuiApp.App.ChatMsg | freeq-tui/src/app.rs:288-322 | the buffers become ChatBuffers of the old ones for the active buffer and nick; nothing else changes |
| TuiApp.App.StartBatch | freeq-tui/src/app.rs:325-330 | an empty batch is stored under the id, replacing any earlier one |
| TuiApp.App.AddBatchLine | freeq-tui/src/app.rs:333-337 | the line is appended to a known batch; for an unknown id nothing changes |
| TuiApp.App.EndBatch | freeq-tui/src/app.rs:340-352 | a known batch is removed and flushed into its buffer by FlushBatch; an unknown id changes nothing |
| TuiApp.App.RemoveBuffer | freeq-tui/src/app.rs:357-366 | the lower-cased key is removed; if it was active the active buffer becomes FallbackBuffer of the rest |
| TuiApp.App.BufferNames | freeq-tui/src/app.rs:405-407 | the names are SortedKeys of the buffer map |
| TuiApp.App.NextBuffer | freeq-tui/src/app.rs:368-375 | Rotation forward: a listed active buffer gives way to NextKey in name order with its unread state cleared; an unlisted one changes nothing; batches and history unchanged |
| TuiApp.App.PrevBuffer | freeq-tui/src/app.rs:378-385 | Rotation backward: a listed active buffer gives way to PrevKey in name order with its unread state cleared; an unlisted one changes nothing; batches and history unchanged |
| TuiApp.Rotated | freeq-tui/src/app.rs:368-385 | the switch computed on values satisfies Rotation and keeps the line bound |
| TuiApp.App.SwitchTo | freeq-tui/src/app.rs:388-394 | an existing buffer becomes active with its unread state cleared; an unknown name changes nothing |
| TuiApp.App.ClearActiveUnread | freeq-tui/src/app.rs:397-402 | the buffers become ClearUnread for the active one |
| TuiApp.App.TakeInput | freeq-tui/src/app.rs:410-417 | result and history state are InputTake of the old history state |
| TuiApp.App.HistoryUpStep | freeq-tui/src/app.rs:420-436 | the history state becomes HistoryUp of the old one |
| TuiApp.App.HistoryDownStep | freeq-tui/src/app.rs:439-450 | the history state becomes HistoryDown of the old one |
| TuiConfig.OrElse | freeq-tui/src/config.rs:139-141 | the first value present wins, the second is used only when the first is absent |
| TuiConfig.WithPort | freeq-tui/src/config.rs:145-149 | an address with a ':' is kept; one without gets ":6697" appended; the result always has a port and starts with the input |
| TuiConfig.HandleNick | freeq-tui/src/config.rs:158-162 | the default nick is the handle's text before its first '.', or the whole handle when it has no '.' |
| TuiConfig.NonEmptyTrimmed | freeq-tui/src/config.rs:173 | every kept piece is non-empty and has no surrounding whitespace |
| TuiConfig.SplitChannels | freeq-tui/src/config.rs:172-174 | every channel from a comma list is non-empty, comma-free and trimmed |
| TuiConfig.NoCommaTrimmed | freeq-tui/src/config.rs:173 | trimming pieces that hold no comma yields pieces that hold no comma |
| TuiConfig.TrimPlain | freeq-tui/src/config.rs:173 | a piece without whitespace is unchanged by trimming |
| TuiConfig.SplitOfJoin | freeq-tui/src/config.rs:173 | splitting a comma-joined list of comma-free pieces gives the pieces back |
| TuiConfig.SplitCons | freeq-tui/src/config.rs:173 | splitting at a first comma gives the prefix followed by the split of the rest |
| TuiConfig.TrimmedPlain | freeq-tui/src/config.rs:173 | a list of plain names passes the trim-and-filter step unchanged |
| TuiConfig.SplitChannelsRoundTrip | freeq-tui/src/config.rs:172-174 | a list of plain channel names written with commas reads back as the same list |
| TuiConfig.Merge | freeq-tui/src/config.rs:138-186 | server, handle, nick and channels follow CLI, then config, then session, then defaults; the server gets a port when it has none; TLS is on iff set explicitly or the server ends with ":6697"; the nick falls back to the handle's first label, then the user name, then "guest" |
| TuiConfig.MergeDefaults | freeq-tui/src/config.rs:139-180 | with nothing set the client uses irc.freeq.at:6697 with TLS and joins #freeq |
| TuiConfig.BareHostUsesTls | freeq-tui/src/config.rs:145-166 | a host given without a port resolves to port 6697 with TLS on |
| TuiConfig.HasExplicitCliArgs | freeq-tui/src/config.rs:191-200 | true iff any of server, nick, handle, DID, app password, key generation, iroh address or channels was given on the command line |
| TuiConfig.HasSavedSession | freeq-tui/src/config.rs:203-205 | true iff the config or the session has a handle, which is exactly when resolution without CLI flags yields a handle |
| WinEvent.Member | freeq-windows-core/src/event.rs:178-194 | a leading '@' marks an operator, '%' a half-operator and '+' a voiced member, each exactly when the entry starts with it, and only that one character is removed from the nick |
| WinEvent.Listed | freeq-windows-core/src/event.rs:178-194 | the listed form ends with the nick and adds at most one prefix character |
| WinEvent.MemberListedRoundTrip | freeq-windows-core/src/event.rs:178-194 | parsing the listed form of a member with at most one rank gives the member back |
| WinEvent.Members | freeq-windows-core/src/event.rs:175-201 | every NAMES entry becomes a member in the same position |
| WinEvent.TrimStartMatches | freeq-windows-core/src/event.rs:147 | every leading repetition of the prefix is removed, and nothing else |
| WinEvent.TrimEndMatches | freeq-windows-core/src/event.rs:148 | every trailing delimiter is removed, and nothing else |
| WinEvent.ActionText | freeq-windows-core/src/event.rs:145-152 | a non-action text is kept; an action text loses its "\x01ACTION " opening and its closing \x01 |
| WinEvent.ActionRoundTrip | freeq-windows-core/src/event.rs:145-152 | wrapping a plain body as an action is recognised as an action and reads back as the body |
| WinEvent.TrimStartOnce | freeq-windows-core/src/event.rs:147 | one prefix in front of text that does not start with it is removed exactly |
| WinEvent.TrimEndOnce | freeq-windows-core/src/event.rs:148 | one delimiter after text that does not end with it is removed exactly |
| WinEvent.NoPrefixWithDelim | freeq-windows-core/src/event.rs:145 | appending the delimiter cannot make a body start with the action prefix |
| WinEvent.TagValue | freeq-windows-core/src/event.rs:141-144 | a tag's value is present exactly when the tag is |
| WinEvent.MessageOf | freeq-windows-core/src/event.rs:140-168 | msgid, reply, edit and batch come from the tags msgid, +reply, +draft/edit and batch; the action flag and cleaned text follow ActionText; the time tag gives the timestamp when it parses, otherwise the current time |
| WinEvent.ChatHistoryNotice | freeq-windows-core/src/event.rs:268-270 | a history target becomes the notice "DM: nick (last: timestamp)" with "?" for a missing timestamp |
| WinEvent.Convert | freeq-windows-core/src/event.rs:118-275 | every SDK event converts; exactly NamesEnd, server notices, invitations, WHOIS replies and raw lines become notices, with the texts the converter formats; messages, NAMES, kicks and topics keep their fields |
| WinEvent.TypeTag | freeq-windows-core/src/event.rs:50 | each domain event has a non-empty JSON type name in snake case |
| WinEvent.TypeTagsDistinguishKinds | freeq-windows-core/src/event.rs:50 | equal type names mean the same kind for the kinds the UI checks |
| BotsOutput.ByteLen | freeq-bots/src/output.rs:136 | a string's length is its UTF-8 byte count, never below its character count |
| BotsOutput.ByteLenAppend | freeq-bots/src/output.rs:141 | byte lengths add up over concatenation |
| BotsOutput.DropCr | freeq-bots/src/output.rs:135 | at most one trailing carriage return is removed from a line |
| BotsOutput.TextLines | freeq-bots/src/output.rs:135 | no line holds a newline, and only empty text has no lines |
| BotsOutput.WrapLines | freeq-bots/src/output.rs:133-159 | the result is the text's lines wrapped one after another: short lines as they are, long ones word by word |
| BotsOutput.WrapWords | freeq-bots/src/output.rs:139-155 | the word loop produces exactly the greedy pieces of the line's words |
| BotsOutput.GreedyNonEmpty | freeq-bots/src/output.rs:153-155 | a line with a pending piece or a first word yields at least one piece |
| BotsOutput.GreedyPiecesNonEmpty | freeq-bots/src/output.rs:142-144 | splitting never emits an empty piece |
| BotsOutput.GreedyJoin | freeq-bots/src/output.rs:140-155 | the pieces joined by single spaces are the words joined by single spaces: every word once, in order |
| BotsOutput.JoinAfterBreak | freeq-bots/src/output.rs:141-145 | closing the current piece keeps the single-space join unchanged |
| BotsOutput.JoinAfterAppend | freeq-bots/src/output.rs:146-151 | appending a word with one space keeps the single-space join unchanged |
| BotsOutput.JoinCons | freeq-bots/src/output.rs:148 | joining a head and a non-empty tail puts one separator between them |
| BotsOutput.GreedyBound | freeq-bots/src/output.rs:140-151 | every piece fits in the width in bytes unless it is a single word (or the carried-in piece) too long to fit |
| BotsOutput.ShortLineUnchanged | freeq-bots/src/output.rs:136-137 | a line within the width is emitted unchanged as one piece |
| BotsOutput.LongLinePieces | freeq-bots/src/output.rs:138-155 | a long line's pieces are non-empty, each within the width or one over-long word, and join back to its words |
| BotsOutput.ShortLinesUnchanged | freeq-bots/src/output.rs:135-137 | text whose lines all fit comes out as exactly its lines, in order |
| BotsOutput.RolePrefix | freeq-bots/src/output.rs:26 | the prefix is the role in square brackets followed by a space |
| BotsOutput.SayMessages | freeq-bots/src/output.rs:18-32 | one message per wrapped line at width 400, each the role prefix followed by that line |
| BotsOutput.Prefixed | freeq-bots/src/output.rs:26 | every line gets the prefix, order and count kept |
| BotsOutput.SayShortLine | freeq-bots/src/output.rs:25-27 | a short one-line text is said as a single prefixed message |
| BotsOutput.StatusMessage | freeq-bots/src/output.rs:35-44 | a status line starts with the role prefix and ends with a space and the text |
| BotsOutput.Capped | freeq-bots/src/output.rs:68-80 | a header, at most the limit of indented items in order, and the note only when items were left out |
| BotsOutput.CodeMessages | freeq-bots/src/output.rs:47-83 | a status line with the line count, at most max_lines indented lines, and a note of how many more lines there were |
| BotsOutput.FileTreeMessages | freeq-bots/src/output.rs:86-110 | a status line with the file count, the first 20 files indented, and how many more there are |
| BotsOutput.DeployMessage | freeq-bots/src/output.rs:113-120 | the deploy status ends with "Deployed → " and the URL |
| BotsOutput.ErrorMessage | freeq-bots/src/output.rs:123-130 | an error is a status line with the role prefix ending in the text |
| BotsLlm.InputStr | freeq-bots/src/tools.rs:153-154 | a field is read as a string exactly when the object has it and it is a JSON string |
| BotsLlm.InputUint | freeq-bots/src/tools.rs:171 | a field is read as a number exactly when the object has it and it is an unsigned integer |
| BotsLlm.TextParts | freeq-bots/src/llm.rs:26-38 | the texts come only from Text blocks, and there are none exactly when no block is a Text block |
| BotsLlm.ToolUsesOf | freeq-bots/src/llm.rs:41-52 | the tool uses come only from ToolUse blocks, and there are none exactly when no block is a ToolUse block |
| BotsLlm.ToolUses | freeq-bots/src/llm.rs:41-52 | plain text has no tool uses; block content has none exactly when no block is a ToolUse block |
| BotsLlm.TextOfAppend | freeq-bots/src/llm.rs:26-38 | the text of concatenated blocks is the concatenation of their texts |
| BotsLlm.TextOfSingle | freeq-bots/src/llm.rs:26-38 | one block contributes its text when it is a Text block and nothing otherwise |
| BotsLlm.TextIgnoresOtherBlocks | freeq-bots/src/llm.rs:26-38 | inserting a non-text block anywhere leaves the text unchanged |
| BotsLlm.ToolUsesOfAppend | freeq-bots/src/llm.rs:41-52 | tool uses of concatenated blocks keep their order |
| BotsLlm.ToolUsesSingle | freeq-bots/src/llm.rs:41-52 | a single tool-use block yields exactly that tool use |
| BotsLlm.NewClient | freeq-bots/src/llm.rs:111-117 | a new client has the given key and the default model |
| BotsLlm.WithModel | freeq-bots/src/llm.rs:119-122 | the model changes and the key does not |
| BotsLlm.ChatRequest | freeq-bots/src/llm.rs:125-145 | the request carries the client's model, the system text, the messages and the token limit, and a tool list exactly when tools are offered |
| BotsLlm.CompleteRequest | freeq-bots/src/llm.rs:166-171 | a completion sends the prompt as a single user message with no tools and 4096 tokens |
| BotsLlm.Complete | freeq-bots/src/llm.rs:166-182 | a completion answers the reply's Text blocks joined, and passes a failed call on |
| BotsTools.SafeName | freeq-bots/src/tools.rs:22-25 | same length; alphanumerics and '-' are kept and every other character becomes '-' |
| BotsTools.SafeNameIdentity | freeq-bots/src/tools.rs:22-25 | a name is unchanged exactly when it has only alphanumerics and '-' |
| BotsTools.SafeNameIdempotent | freeq-bots/src/tools.rs:22-25 | making a name safe twice is the same as once |
| BotsTools.CreateWorkspace | freeq-bots/src/tools.rs:21-32 | the workspace's name is the safe name and its root is that name under the base |
| BotsTools.WriteFile | freeq-bots/src/tools.rs:35-42 | the file holds the content afterwards and the answer reports the path and the content's byte length |
| BotsTools.ReadFile | freeq-bots/src/tools.rs:45-51 | a present file is read back; a missing one fails with "Failed to read" and the path |
| BotsTools.ReadAfterWrite | freeq-bots/src/tools.rs:35-51 | reading a written path gives its content and other paths are unaffected |
| BotsTools.Walk | freeq-bots/src/tools.rs:68-84 | the walk appends the listing of the entries, in order, to what was collected so far |
| BotsTools.ListFiles | freeq-bots/src/tools.rs:66-86 | the listing of the whole tree from an empty prefix |
| BotsTools.SkippedHidden | freeq-bots/src/tools.rs:74-76 | a skipped directory contributes nothing to the listing |
| BotsTools.ListingUnderPrefix | freeq-bots/src/tools.rs:68-84 | every listed path starts with the directory's prefix |
| BotsTools.ListingHasFiles | freeq-bots/src/tools.rs:77-81 | every file directly in a directory is listed under the prefix |
| BotsTools.Capped | freeq-bots/src/tools.rs:121-125 | output within 8000 bytes is unchanged; longer output is a prefix of it followed by the truncation mark |
| BotsTools.CappedBound | freeq-bots/src/tools.rs:121-125 | the kept prefix of long output is at most 8000 bytes and ends on a character boundary |
| BotsTools.Shell | freeq-bots/src/tools.rs:89-128 | corrected (see ## Findings): a timeout or a failed spawn is an error; a finished command answers its capped combined output |
| BotsTools.CombineOutput | freeq-bots/src/tools.rs:106-119 | the combined output as stdout, the stderr part and the exit-code note |
| BotsTools.CapOutput | freeq-bots/src/tools.rs:121-125 | corrected (see ## Findings): the output capped at 8000 bytes |
| BotsTools.StdoutFirst | freeq-bots/src/tools.rs:106-109 | the combined output starts with stdout |
| BotsTools.StderrShown | freeq-bots/src/tools.rs:110-115 | non-empty stderr appears marked "[stderr] " in the combined output |
| BotsTools.ExitCodeLast | freeq-bots/src/tools.rs:116-119 | a failed command's output ends with its exit code, -1 when it has none |
| BotsTools.QuietSuccess | freeq-bots/src/tools.rs:106-119 | a silent successful command answers the empty string |
| BotsTools.CappedAsWritten | freeq-bots/src/tools.rs:122-125 | as written, long output is cut at exactly byte 8000, which exists only on a character boundary |
| BotsTools.CappedAgreesOnBoundary | freeq-bots/src/tools.rs:122-125 | when byte 8000 is a character boundary the corrected cap agrees with the code as written |
| BotsTools.CappedPanics | freeq-bots/src/tools.rs:122-125 | "a" and 4000 'é' has no boundary at byte 8000: the code as written panics, the corrected cap keeps 4000 characters |
| BotsTools.Dispatch | freeq-bots/src/tools.rs:146-179 | the five tool names are accepted with their defaults for missing fields, and any other name fails with "Unknown tool: " |
| BotsTools.CodeTools | freeq-bots/src/tools.rs:182-252 | five tools are offered |
| BotsTools.OfferedToolsDispatch | freeq-bots/src/tools.rs:146-252 | the offered tools are exactly the names execution accepts, each once |
| BotsTools.DeployCommands | freeq-bots/src/tools.rs:131-143 | deploy runs "miren deploy 2>&1", preceded by "miren init -n" and the project name when not initialised |
| BotsTools.ExecuteTool | freeq-bots/src/tools.rs:146-179 | each tool's output as its operation defines it; only write_file changes the files; an unknown name fails |
| BotsTools.MirenDeploy | freeq-bots/src/tools.rs:131-143 | the deploy's result as the commands' outcomes define it |
| BotsTools.ShellResult | freeq-bots/src/tools.rs:89-104 | a command fails exactly when it did not finish |
| BotsTools.DeployResult | freeq-bots/src/tools.rs:131-143 | a failed init stops the deploy; otherwise the deploy command's result is the answer |
| Prototype.LowerChar | freeq-bots/src/prototype/mod.rs:302 | the result is never upper-case, other characters are kept, and safe characters stay safe |
| Prototype.LowerAll | freeq-bots/src/prototype/mod.rs:302 | every character lower-cased, in place |
| Prototype.KeepSafe | freeq-bots/src/prototype/mod.rs:303-305 | only safe characters of the input are kept, and nothing is left exactly when none was safe |
| Prototype.CleanName | freeq-bots/src/prototype/mod.rs:300-305 | the cleaned answer has only lower-case alphanumerics and '-' |
| Prototype.RemTrunc | freeq-bots/src/prototype/mod.rs:307 | the remainder takes the dividend's sign and is smaller than the divisor in magnitude |
| Prototype.ChooseName | freeq-bots/src/prototype/mod.rs:306-312 | empty falls back to the clock name; otherwise a non-empty prefix of at most 20 bytes, unchanged when already short |
| Prototype.ProjectName | freeq-bots/src/prototype/mod.rs:293-313 | corrected (see ## Findings): a failed completion is passed on; an answer becomes the name chosen from its cleaned form |
| Prototype.ProjectNameShape | freeq-bots/src/prototype/mod.rs:300-312 | a name from a usable answer is non-empty, lower-case, alphanumerics and '-' only, at most 20 bytes |
| Prototype.BlankAnswerFallsBack | freeq-bots/src/prototype/mod.rs:306-307 | an answer with no usable character falls back to "proto-" and the clock |
| Prototype.CleanNameOfClean | freeq-bots/src/prototype/mod.rs:300-305 | an answer that is already a clean name is kept as it is |
| Prototype.ChooseNameAsWritten | freeq-bots/src/prototype/mod.rs:308-309 | as written, a long name is cut at exactly byte 20, which exists only on a character boundary |
| Prototype.ChooseNamePanics | freeq-bots/src/prototype/mod.rs:308-309 | "a" and ten or more 'é' has no boundary at byte 20: the code as written panics, the corrected choice keeps "a" and nine 'é' |
| Prototype.FirstUrlLine | freeq-bots/src/prototype/mod.rs:319-325 | the first trimmed line from k on that starts with "https://", and none exactly when no such line exists |
| Prototype.FirstUrl | freeq-bots/src/prototype/mod.rs:319-325 | the first line starting with "https://", and none exactly when no line does |
| Prototype.ExtractDeployUrl | freeq-bots/src/prototype/mod.rs:317-326 | a found URL starts with "https://" |
| Prototype.DeployUrlTrimmed | freeq-bots/src/prototype/mod.rs:320-322 | a found URL is a trimmed line of the output |
| Prototype.UrlOnFirstLine | freeq-bots/src/prototype/mod.rs:317-326 | a URL on the first line is the one found |
| Prototype.ByteCut | freeq-bots/src/prototype/mod.rs:143-147 | short text is unchanged; long text is a prefix of it followed by "..." |
| Prototype.ByteCutFits | freeq-bots/src/prototype/mod.rs:143-147 | the shortened text is within the limit |
| Prototype.ByteCutAsWritten | freeq-bots/src/prototype/mod.rs:143-147 | as written, the cut is at exactly the kept byte count, which exists only on a character boundary |
| Prototype.ShortCommentary | freeq-bots/src/prototype/mod.rs:140-147 | corrected (see ## Findings): commentary is at most 300 bytes and unchanged when it already is |
| Prototype.ShortCommand | freeq-bots/src/prototype/mod.rs:189-194 | corrected (see ## Findings): a command shown is at most 80 bytes and unchanged when it already is |
| Prototype.CommentaryPanics | freeq-bots/src/prototype/mod.rs:143-145 | "ab" and 150 'é' has no boundary at byte 297: the code as written panics |
| Prototype.ToolStatus | freeq-bots/src/prototype/mod.rs:176-212 | a status line exactly for write_file, shell, deploy and list_files, naming the path or the shortened command |
| Prototype.ResultText | freeq-bots/src/prototype/mod.rs:214-246 | a tool's output is passed on as it is and an error as "Error: " and its text |
| Prototype.RunTool | freeq-bots/src/prototype/mod.rs:174-253 | the result block carries the call's id and text; only a deploy may record a URL, always an https one |
| Prototype.RunTools | freeq-bots/src/prototype/mod.rs:172-253 | one result block per call, in order; the recorded URL stays https and changes only by a deploy |
| Prototype.AssistantKeepsToolUses | freeq-bots/src/prototype/mod.rs:156-169 | the reply kept in the conversation has the reply's tool uses, in order |
| Prototype.AssistantKeepsText | freeq-bots/src/prototype/mod.rs:156-169 | the reply kept in the conversation has the reply's non-blank texts, in order |
| Prototype.Round | freeq-bots/src/prototype/mod.rs:119-259 | a failed chat ends the round; a reply without tool calls ends the build; otherwise the kept reply and a user message of results join the conversation |
| Prototype.Build | freeq-bots/src/prototype/mod.rs:94-285 | at most 20 replies; every reply but the last called tools; the conversation is the opening message and, per tool round, the kept reply and its results; a failed chat is passed on; stopping after 20 rounds posts the error; a recorded URL is https and the final status is posted |
| ChatRoom.StripPrefix | freeq-bots/src/bin/chatroom.rs:454-456 | a present prefix is removed, giving back the rest; otherwise the text is kept |
| ChatRoom.StripEach | freeq-bots/src/bin/chatroom.rs:448-457 | the result is a suffix of the text |
| ChatRoom.Unquote | freeq-bots/src/bin/chatroom.rs:460-466 | one pair of matching quotes is removed exactly when the text is longer than 2 bytes and quoted; otherwise it is kept |
| ChatRoom.CapReply | freeq-bots/src/bin/chatroom.rs:468-473 | the reply is a prefix of at most 400 bytes, unchanged when already that short |
| ChatRoom.CleanResponse | freeq-bots/src/bin/chatroom.rs:445-476 | corrected (see ## Findings): the loop over the three self-prefixes computes the cleaned reply, which is at most 400 bytes |
| ChatRoom.StripEachNone | freeq-bots/src/bin/chatroom.rs:448-457 | a text starting with none of the prefixes is left as it is |
| ChatRoom.StripOnce | freeq-bots/src/bin/chatroom.rs:454-456 | a prefix is removed once: a doubled prefix leaves one copy |
| ChatRoom.AnglePrefixStripped | freeq-bots/src/bin/chatroom.rs:448-457 | a reply starting "<nick> " loses exactly that prefix |
| ChatRoom.UnquoteOnePair | freeq-bots/src/bin/chatroom.rs:460-466 | a quoted non-empty text loses exactly one pair of quotes |
| ChatRoom.EmptyQuotesKept | freeq-bots/src/bin/chatroom.rs:460 | two quotes alone are kept, being only 2 bytes |
| ChatRoom.CapReplyAtSpace | freeq-bots/src/bin/chatroom.rs:468-473 | a long reply with a space in its first 400 bytes is cut just before a space |
| ChatRoom.PlainReplyKept | freeq-bots/src/bin/chatroom.rs:445-476 | a trimmed, unprefixed, unquoted reply within 400 bytes is sent as it is |
| ChatRoom.CapReplyAsWritten | freeq-bots/src/bin/chatroom.rs:468-473 | as written, a reply over 400 bytes whose byte 400 is inside a character panics |
| ChatRoom.CapReplyAgrees | freeq-bots/src/bin/chatroom.rs:468-473 | where byte 400 is a character boundary, the corrected cap does what the code as written does |
| ChatRoom.CleanResponsePanics | freeq-bots/src/bin/chatroom.rs:468-469 | "a" and 200 or more 'é' makes the code as written panic; the corrected cap keeps "a" and 199 'é' |
| ChatRoom.AppendedBounded | freeq-bots/src/bin/chatroom.rs:365-368 | the log stays within 60 lines, ends with the new line, and loses only its oldest line when full |
| ChatRoom.DrainedBounded | freeq-bots/src/bin/chatroom.rs:489-509 | taking in events keeps the log within 60 lines |
| ChatRoom.DrainedAddsOnlyOthers | freeq-bots/src/bin/chatroom.rs:500 | taking in events adds no line under the bot's own nick |
| ChatRoom.DrainedIgnoresOwn | freeq-bots/src/bin/chatroom.rs:495-500 | events that are not channel messages from others leave the log unchanged |
| ChatRoom.ActionForms | freeq-bots/src/bin/chatroom.rs:359-363 | a "/me" message is sent as a CTCP ACTION and logged as "* nick action" |
| ChatRoom.PlainForms | freeq-bots/src/bin/chatroom.rs:478-486 | any other message is sent and logged exactly as it is |
| ChatRoom.ChatLog.Push | freeq-bots/src/bin/chatroom.rs:365-368 | the log becomes the appended log and stays within 60 lines |
| ChatRoom.ChatLog.Drain | freeq-bots/src/bin/chatroom.rs:489-509 | the log becomes the drained log of the events, in order |
| ChatRoom.ChatLog.Speak | freeq-bots/src/bin/chatroom.rs:352-375 | a failed call or an empty cleaned reply sends and logs nothing; otherwise the cleaned reply is sent and logged under the bot's nick |
| ChatRoom.PromptLine | freeq-bots/src/bin/chatroom.rs:429-435 | the line shows nick and text, and carries the "[you]" tag exactly when the nick is the bot's |
| ChatRoom.PromptLines | freeq-bots/src/bin/chatroom.rs:428-437 | one prompt line per log entry, in order |
| ChatRoom.QuietPrompt | freeq-bots/src/bin/chatroom.rs:425-427 | an empty log gives the fixed quiet-channel prompt |
| ChatRoom.PromptShowsLog | freeq-bots/src/bin/chatroom.rs:428-442 | every line of the log appears in the prompt |
| ChatRoom.PromptFrame | freeq-bots/src/bin/chatroom.rs:438-442 | the prompt opens with "Recent chat:" and ends asking for the bot's next message |
| ChatRoom.JoinContains | freeq-bots/src/bin/chatroom.rs:438-441 | every part appears in the joined text |
| LoadTest.ExtractMsgId | freeq-bots/src/bin/loadtest.rs:340-349 | an id exactly when both brackets occur and the first '[' precedes the first ']'; it is the text strictly between them |
| LoadTest.ExtractAfterBracket | freeq-bots/src/bin/loadtest.rs:340-349 | a bracket-free id is read back from any text starting "[id]" |
| LoadTest.ExtractRoundTrip | freeq-bots/src/bin/loadtest.rs:234-235 | the id in "[id] test message" is read back as it was sent |
| LoadTest.MsgIdRoundTrip | freeq-bots/src/bin/loadtest.rs:233-235 | every "{nick}:{n}" id of a bracket-free nick survives the round trip through its test message |
| LoadTest.CloseBeforeOpen | freeq-bots/src/bin/loadtest.rs:342-348 | a ']' before the first '[' gives no id |
| LoadTest.UserChannels | freeq-bots/src/bin/loadtest.rs:109-114 | user i joins i mod c and (i+1) mod c: two channels, or one when c is 1 |
| LoadTest.NextChannelDiffers | freeq-bots/src/bin/loadtest.rs:110-113 | with more than one channel the two assigned channels differ |
| LoadTest.EveryChannelJoined | freeq-bots/src/bin/loadtest.rs:109-114 | channel k is joined by user k |
| LoadTest.OwnIds | freeq-bots/src/bin/loadtest.rs:300 | a receiver's own ids are exactly the sent ids starting with its nick and ':' |
| LoadTest.ExpectedFor | freeq-bots/src/bin/loadtest.rs:300-301 | what is owed never exceeds what was sent, so the subtraction cannot underflow |
| LoadTest.ExpectedCountsOthers | freeq-bots/src/bin/loadtest.rs:299-301 | what is owed is the number of ids the receiver did not send |
| LoadTest.OwnIdExactly | freeq-bots/src/bin/loadtest.rs:300 | for nicks without ':', an id counts as a receiver's own exactly when that receiver sent it |
| LoadTest.FirstIdsCount | freeq-bots/src/bin/loadtest.rs:232-239 | a user's first n ids are n distinct ids |
| LoadTest.Receivers | freeq-bots/src/bin/loadtest.rs:285-288 | the receivers of a channel are exactly the nicks with a received entry for it |
| LoadTest.AccountReceiver | freeq-bots/src/bin/loadtest.rs:290-309 | credit is the smaller of received and owed, missing is the shortfall, and nothing is missing exactly when enough arrived |
| LoadTest.AccountChannel | freeq-bots/src/bin/loadtest.rs:283-310 | over one channel's receivers, expected is the sum of what each was owed, received the sum of each one's count capped at what it was owed, received and missing add up to expected, and nothing is missing exactly when every receiver was served |
| LoadTest.Account | freeq-bots/src/bin/loadtest.rs:276-311 | expected is the sum over channels of each channel's owed total, received the sum of the channels' capped counts; received and missing add up to expected, received never exceeds expected, and nothing is missing exactly when every receiver of every channel was served |
| LoadTest.SetSumRemove | freeq-bots/src/bin/loadtest.rs:276-311 | a sum over a set of receivers or channels does not depend on the order the loop visits them in |
| LoadTest.Tracker.constructor | freeq-bots/src/bin/loadtest.rs:65-71 | both records start empty |
| LoadTest.Tracker.RecordSent | freeq-bots/src/bin/loadtest.rs:237-238 | the id joins the channel's sent set; nothing else changes |
| LoadTest.Tracker.RecordReceived | freeq-bots/src/bin/loadtest.rs:207-214 | a message carrying an id adds it to the (nick, target) set; any other message changes nothing |
| LoadTest.Tracker.SendAll | freeq-bots/src/bin/loadtest.rs:230-244 | n messages "[nick:i] test message" are sent and their ids recorded under the channel |
| PiBridge.PrefixNick | freeq-bots/src/bin/pi_bridge.rs:233 | the nick of a prefix never holds '!' |
| PiBridge.ParseAccountNotify | freeq-bots/src/bin/pi_bridge.rs:221-235 | a recognised ACCOUNT line contains " ACCOUNT " and names a nick without '!' |
| PiBridge.AccountNotifyRoundTrip | freeq-bots/src/bin/pi_bridge.rs:221-235 | ":nick!user@host ACCOUNT did" gives back the nick and the trimmed DID |
| PiBridge.AccountLineSplit | freeq-bots/src/bin/pi_bridge.rs:226-234 | after a prefix without spaces, " ACCOUNT " and the rest give the prefix's nick and the trimmed rest |
| PiBridge.PrefixNickOf | freeq-bots/src/bin/pi_bridge.rs:233 | the nick of ":nick!user@host" is nick, when nick holds no '!' and does not start with ':' |
| PiBridge.OtherCommandIgnored | freeq-bots/src/bin/pi_bridge.rs:226-231 | a line whose second token is not ACCOUNT teaches nothing, even when " ACCOUNT " appears later |
| PiBridge.ParseWhoisDid | freeq-bots/src/bin/pi_bridge.rs:237-243 | a DID is found exactly when the text holds "did:" |
| PiBridge.WhoisDidFound | freeq-bots/src/bin/pi_bridge.rs:237-243 | text before the first "did:" is dropped and the DID is returned trimmed |
| PiBridge.WhoisDidShape | freeq-bots/src/bin/pi_bridge.rs:239-240 | a found DID always starts with "did:" |
| PiBridge.Payload | freeq-bots/src/bin/pi_bridge.rs:153-157 | a payload exists exactly when the trimmed text starts with the prefix, and it is the trimmed remainder |
| PiBridge.GateMessage | freeq-bots/src/bin/pi_bridge.rs:142-176 | a message is queued exactly when it is not a batch message, is addressed to the control channel or the bot, carries a non-empty command after the prefix and comes from the allowed DID; a WHOIS is asked exactly when the sender's DID is unknown; a known other DID is denied |
| PiBridge.BatchIgnored | freeq-bots/src/bin/pi_bridge.rs:143 | a message carrying a batch tag is ignored |
| PiBridge.BarePrefixIgnored | freeq-bots/src/bin/pi_bridge.rs:158-160 | the prefix with no command is ignored |
| PiBridge.Learned | freeq-bots/src/bin/pi_bridge.rs:131-141 | learning a pair sets the lower-cased nick's DID and keeps every other entry; no pair changes nothing |
| PiBridge.LearnedIsFound | freeq-bots/src/bin/pi_bridge.rs:162 | a learned DID is found for the sender under any ASCII casing of the nick |
| PiBridge.Answer | freeq-bots/src/bin/pi_bridge.rs:165-184 | an ignored message gets no reply; an unknown sender gets a WHOIS and "Auth pending"; a wrong DID gets "Access denied."; a queued command gets "✅ queued" |
| PiBridge.Enqueued | freeq-bots/src/bin/pi_bridge.rs:176-182 | the outbox grows by one entry, holding the sender, DID, target and payload, exactly when the message is queued |
| PiBridge.QueuedOnlyAllowed | freeq-bots/src/bin/pi_bridge.rs:171-182 | if every outbox entry came from the allowed DID, this still holds after any message |
| PiBridge.Bridge.constructor | freeq-bots/src/bin/pi_bridge.rs:84 | the DID table starts empty |
| PiBridge.Bridge.OnRawLine | freeq-bots/src/bin/pi_bridge.rs:131-136 | an ACCOUNT line updates the DID table; nothing else changes |
| PiBridge.Bridge.OnWhois | freeq-bots/src/bin/pi_bridge.rs:137-141 | a WHOIS reply naming a DID updates the table; nothing else changes |
| PiBridge.Bridge.OnMessage | freeq-bots/src/bin/pi_bridge.rs:142-185 | the replies and the new outbox follow the gate, the table is unchanged, and the outbox keeps holding only commands from the allowed DID |
| PiBridge.EntryOf | freeq-bots/src/bin/pi_bridge.rs:284-291 | a line gives at most one entry, and none when it is blank |
| PiBridge.Entries | freeq-bots/src/bin/pi_bridge.rs:283-292 | there are never more entries than lines |
| PiBridge.ReadReplies | freeq-bots/src/bin/pi_bridge.rs:265-295 | a missing file gives nothing and keeps the offset; an open or read error is passed on with the offset kept; a successful read moves the offset to the end of the file; a failed read keeps the offset |
| PiBridge.EntriesAppend | freeq-bots/src/bin/pi_bridge.rs:283-292 | the entries of two runs of lines are those of each run, in order |
| PiBridge.BlankLinesSkipped | freeq-bots/src/bin/pi_bridge.rs:284-287 | blank lines give no entries |
| PiBridge.ShrunkFileRereadFromStart | freeq-bots/src/bin/pi_bridge.rs:273-276 | a file shorter than the offset is read from its start |
| PiBridge.RereadGivesNothing | freeq-bots/src/bin/pi_bridge.rs:277-280 | reading an unchanged file again gives nothing and keeps the offset |
| PiBridge.AppendedTextIsRead | freeq-bots/src/bin/pi_bridge.rs:277-283 | text appended after a read is exactly what the next read parses |
| PiBridge.MidCharacterOffsetFails | freeq-bots/src/bin/pi_bridge.rs:277-279 | an offset inside a character fails the read as invalid UTF-8 and keeps the offset |
| PiBridge.ReplyReader.constructor | freeq-bots/src/bin/pi_bridge.rs:246 | the offset starts at 0 |
| PiBridge.ReplyReader.Read | freeq-bots/src/bin/pi_bridge.rs:265-295 | the result and the new offset are those of ReadReplies from the old offset |
| PiBridge.ParseLines | freeq-bots/src/bin/pi_bridge.rs:282-292 | the loop collects exactly the entries of the lines |
| PiBridge.Deliveries | freeq-bots/src/bin/pi_bridge.rs:251-256 | every delivery is a PRIVMSG; with a control channel every entry is delivered; never more deliveries than entries |
| PiBridge.TargetedReplyFirst | freeq-bots/src/bin/pi_bridge.rs:252 | an entry that names its target goes there |
| S2s.EmptyIdAlwaysNew | freeq-server/src/s2s.rs:285-287 | an empty event id is accepted and changes nothing |
| S2s.HighWaterNeverDecreases | freeq-server/src/s2s.rs:290-296 | no origin's high-water mark is ever lowered or dropped by a check |
| S2s.CounterGatesAcceptance | freeq-server/src/s2s.rs:290-296 | an id whose counter is at or below the origin's mark is rejected; an accepted id raises the mark to its counter |
| S2s.DuplicateRejected | freeq-server/src/s2s.rs:306-308 | an id already in the origin's ring is rejected |
| S2s.AcceptedIsRecorded | freeq-server/src/s2s.rs:316-318 | an accepted id is in the origin's set and last in its queue |
| S2s.EvictsOldestAtCapacity | freeq-server/src/s2s.rs:310-318 | at capacity the oldest id leaves both the queue and the set and the new id is appended |
| S2s.CheckAndInsertCoherent | freeq-server/src/s2s.rs:284-319 | every check keeps each ring's set equal to its queue's elements, without repeats and within 10,000 |
| S2s.RingStepCoherent | freeq-server/src/s2s.rs:300-319 | the ring layer alone keeps the rings coherent |
| S2s.CoherentUpdate | freeq-server/src/s2s.rs:303-304 | replacing one origin's ring by a coherent one keeps the tables coherent |
| S2s.RingPush | freeq-server/src/s2s.rs:310-318 | one push, with eviction of the head at capacity, keeps a ring coherent |
| S2s.RemovePeerFacts | freeq-server/src/s2s.rs:323-333 | removing a peer drops its set, queue and mark, and leaves every other origin's state as it was |
| S2s.EventIdCounter | freeq-server/src/s2s.rs:278-280 | the counter of an id "server:n" parses back as n |
| S2s.ConsecutiveIdsAccepted | freeq-server/src/s2s.rs:371-374 | an id from the server's counter above the receiver's mark, not yet seen, is accepted |
| S2s.DedupSet.constructor | freeq-server/src/s2s.rs:269-275 | the three tables start empty |
| S2s.DedupSet.CheckAndInsert | freeq-server/src/s2s.rs:284-319 | the new tables and the answer are those of the two-layer check |
| S2s.DedupSet.CheckHighWater | freeq-server/src/s2s.rs:289-296 | the mark is created at 0 if missing and raised by a newer counter; a stale counter is reported |
| S2s.DedupSet.InsertInRing | freeq-server/src/s2s.rs:299-318 | exact-match rejection, then eviction of the oldest id at capacity and the push |
| S2s.DedupSet.RemovePeer | freeq-server/src/s2s.rs:323-333 | the origin's set, queue and mark are removed |
| S2s.S2sManager.constructor | freeq-server/src/s2s.rs:427-448 | no peers, the counter at its start value, generation 0, an empty dedup set |
| S2s.S2sManager.NextEventId | freeq-server/src/s2s.rs:371-374 | the id is "server:counter" and the counter is bumped by one |
| S2s.S2sManager.Register | freeq-server/src/s2s.rs:621-631 | the link takes the next generation and replaces any entry for the peer |
| S2s.S2sManager.Teardown | freeq-server/src/s2s.rs:769-791 | the peer's entry, name and dedup state go exactly when the entry still has this link's generation |
| S2s.ReplacementSurvivesTeardown | freeq-server/src/s2s.rs:769-791 | a replacement registered after a link survives that link's teardown |
| S2s.OwnTeardownRemoves | freeq-server/src/s2s.rs:773-776 | the current link's teardown removes exactly its own entry |
| PolicyEval.LeafSemantics | freeq-server/src/policy/eval.rs:103-137 | Accept, Prove and Present are satisfied exactly when the evidence holds the hash, the proof, or a credential of the type from the required issuer (any issuer when none is named) |
| PolicyEval.NotFlips | freeq-server/src/policy/eval.rs:163-172 | Not turns Satisfied into Failed and Failed into Satisfied, passes an Error through, and counts the same nodes as its child |
| PolicyEval.CountGrows | freeq-server/src/policy/eval.rs:97 | the shared node counter never goes down during an evaluation |
| PolicyEval.CountGrowsAll | freeq-server/src/policy/eval.rs:140-148 | evaluating the children of All never lowers the counter |
| PolicyEval.CountGrowsAny | freeq-server/src/policy/eval.rs:150-161 | evaluating the children of Any never lowers the counter |
| PolicyEval.EvalSound | freeq-server/src/policy/eval.rs:88-174 | unless a limit is hit, the evaluator answers Satisfied exactly when the tree holds logically |
| PolicyEval.EvalSoundAll | freeq-server/src/policy/eval.rs:140-148 | unless a limit is hit, All is satisfied exactly when every child holds |
| PolicyEval.EvalSoundAny | freeq-server/src/policy/eval.rs:150-161 | unless a limit is hit, Any is satisfied exactly when some child holds |
| PolicyEval.EvalWithinLimits | freeq-server/src/policy/eval.rs:94-100 | a tree within the depth and node limits evaluates without error and visits at most its own nodes |
| PolicyEval.EvalAllWithinLimits | freeq-server/src/policy/eval.rs:140-148 | children of All within the limits evaluate without error |
| PolicyEval.EvalAnyWithinLimits | freeq-server/src/policy/eval.rs:150-161 | children of Any within the limits evaluate without error |
| PolicyEval.ValidateIff | freeq-server/src/policy/eval.rs:62-86 | validation succeeds exactly for trees within depth 8 and 64 nodes with no empty All or Any, and then counts every node |
| PolicyEval.ValidateListIff | freeq-server/src/policy/eval.rs:79-82 | a list of children validates exactly when all of them fit the remaining limits and have no empty group |
| PolicyEval.ValidateFailsLater | freeq-server/src/policy/eval.rs:80 | a failing first child makes the whole list fail |
| PolicyEval.SizePositive | freeq-server/src/policy/eval.rs:66 | every node counts at least one |
| PolicyEval.ValidatedEvaluatesToMeaning | freeq-server/src/policy/eval.rs:51-60 | a tree that passes validation evaluates without error, to its logical meaning |
| PolicyEval.TooDeepRejected | freeq-server/src/policy/eval.rs:63-65 | a tree nested deeper than 8 is refused by the validator |
| PolicyEval.TooLargeRejected | freeq-server/src/policy/eval.rs:66-69 | a tree of more than 64 nodes is refused by the validator |
| PolicyEval.EmptyGroupRejected | freeq-server/src/policy/eval.rs:76-78 | an All or Any without children is refused |
| PolicyEval.DepthNineIsError | freeq-server/src/policy/eval.rs:94-96 | nine nested Nots over a leaf make the evaluator report an Error |
| Canonical.Utf16RoundTrip | freeq-server/src/policy/canonical.rs:32-34 | the UTF-16 code units that RFC 8785 sorts by decode back to the key, so no two keys share a sort key |
| Canonical.SortKeyInjective | freeq-server/src/policy/canonical.rs:34 | under either key order, equal sort keys mean equal keys |
| Canonical.KeyLessEqTotal | freeq-server/src/policy/canonical.rs:34 | any two keys are comparable |
| Canonical.KeyLessEqTransitive | freeq-server/src/policy/canonical.rs:34 | the key order is transitive |
| Canonical.Insert | freeq-server/src/policy/canonical.rs:34 | inserting an entry adds exactly that entry |
| Canonical.InsertSorted | freeq-server/src/policy/canonical.rs:34 | inserting into a key-sorted sequence keeps it sorted |
| Canonical.SortEntries | freeq-server/src/policy/canonical.rs:33-34 | the sorted pairs are a permutation of the object's pairs, in ascending key order |
| Canonical.SortedUnique | freeq-server/src/policy/canonical.rs:33-34 | two key-sorted arrangements of the same pairs with distinct keys are identical, so the output does not depend on the sort |
| Canonical.Entries | freeq-server/src/policy/canonical.rs:33 | one rendered pair per member, with the member's key |
| Canonical.EntriesPermutation | freeq-server/src/policy/canonical.rs:33 | permuting the members permutes the rendered pairs |
| Canonical.EntriesIdentifiedByKey | freeq-server/src/policy/canonical.rs:33 | with distinct member keys, a pair's key identifies it |
| Canonical.InsertionOrderIrrelevant | freeq-server/src/policy/canonical.rs:29-48 | two objects with the same members in different insertion orders canonicalise to the same text |
| Canonical.ArrayOrderKept | freeq-server/src/policy/canonical.rs:49-58 | arrays keep their element order: [3,1,2] renders as written |
| Canonical.RenderNoWhitespace | freeq-server/src/policy/canonical.rs:36-57 | no whitespace is added outside strings: only commas, colons, braces and brackets separate |
| Canonical.ItemsNoWhitespace | freeq-server/src/policy/canonical.rs:50-57 | array items add no whitespace |
| Canonical.EntriesNoWhitespace | freeq-server/src/policy/canonical.rs:37-45 | each rendered pair adds no whitespace |
| Canonical.SortedObjectNoWhitespace | freeq-server/src/policy/canonical.rs:36-46 | a sorted object adds no whitespace |
| Canonical.KeyOrdersDisagree | freeq-server/src/policy/canonical.rs:34 | U+E000 sorts before U+10000 by code point but after it by UTF-16 code units |
| Canonical.SortTwoInOrder | freeq-server/src/policy/canonical.rs:34 | two pairs already in key order stay put |
| Canonical.SortTwoSwapped | freeq-server/src/policy/canonical.rs:34 | two pairs out of key order are swapped |
| Canonical.AsWrittenDiffersFromRfc | freeq-server/src/policy/canonical.rs:34 | an object with keys U+E000 and U+10000 canonicalises differently as written and under RFC 8785 |
| Canonical.CanonicalizeOrdersByUtf16 | freeq-server/src/policy/canonical.rs:34 | corrected (see ## Findings): for any two keys and values, RFC 8785 canonicalisation emits the key with the smaller UTF-16 code units first, whatever the insertion order |
| Canonical.HexEncode | freeq-server/src/policy/canonical.rs:75 | two lower-case hex digits per byte |
| Canonical.HexEncodeInjective | freeq-server/src/policy/canonical.rs:75 | distinct byte strings give distinct hex strings |
| Canonical.Sha256Hex | freeq-server/src/policy/canonical.rs:72-76 | a 32-byte digest gives 64 hex digits |
| Canonical.HashCanonical | freeq-server/src/policy/canonical.rs:66-69 | the hash of the canonical form as written (code-point key order) is 64 characters long |
| Canonical.HashCanonicalInjective | freeq-server/src/policy/canonical.rs:66-69 | for a collision-free 32-byte digest, two documents hash alike exactly when their canonical forms as written agree |
| Canonical.HashIgnoresInsertionOrder | freeq-server/src/policy/canonical.rs:66-69 | objects that differ only in insertion order hash alike |
| PolicyEngine.Latest | freeq-server/src/policy/store.rs:163-186 | the current policy is absent only for an empty chain, and otherwise is a stored document of the highest version |
| PolicyEngine.LatestAfterNewerVersion | freeq-server/src/policy/store.rs:133-161 | a document whose version exceeds every stored one becomes the current policy |
| PolicyEngine.EvaluateRoleIsGreatestSatisfied | freeq-server/src/policy/engine.rs:295-309 | the role is the greatest role name whose requirement is satisfied, or "member" when none is |
| PolicyEngine.FirstInvalidRole | freeq-server/src/policy/engine.rs:78-81 | a reported role is one whose requirement fails validation; none is reported only when every role requirement validates |
| PolicyEngine.CreateValidationIff | freeq-server/src/policy/engine.rs:75-81 | creation is refused exactly when the main requirement or some role requirement fails validation |
| PolicyEngine.ExpiryFor | freeq-server/src/policy/engine.rs:321-327 | only the continuous model sets an expiry, and it lies after the issue time |
| PolicyEngine.RepeatJoinReusesAttestation | freeq-server/src/policy/engine.rs:208-232 | joining again under the same policy before the attestation lapses returns the same attestation without re-evaluating |
| PolicyEngine.PolicyChangeForcesReevaluation | freeq-server/src/policy/engine.rs:209-234 | an attestation issued under another policy id is never reused |
| PolicyEngine.UnsatisfiedIsRejected | freeq-server/src/policy/engine.rs:236-291 | with no live attestation, an unsatisfied requirement rejects the join |
| PolicyEngine.Engine.constructor | freeq-server/src/policy/engine.rs:42-59 | an engine starts with empty stores and the given authority and signer |
| PolicyEngine.Engine.StorePolicy | freeq-server/src/policy/store.rs:133-161 | the id is the hash of the document without an id, and the document joins its channel's chain; nothing else changes |
| PolicyEngine.Engine.CreateChannelPolicy | freeq-server/src/policy/engine.rs:69-123 | a validation failure changes nothing; otherwise a fresh authority set with a one-hour refresh and a version-1 join-time policy are stored; a failure leaves the engine unchanged and attestations, receipts and join states are never touched |
| PolicyEngine.Engine.UpdateChannelPolicy | freeq-server/src/policy/engine.rs:126-190 | the main requirement is validated, a missing current policy is refused, and the next version chained to the current one is stored; a failure leaves the engine unchanged and only the channel's chain ever changes |
| PolicyEngine.Engine.IssueAttestation | freeq-server/src/policy/engine.rs:312-354 | the attestation carries the channel the join named, is signed over its unsigned form and stored under that channel and the subject |
| PolicyEngine.Engine.ProcessJoin | freeq-server/src/policy/engine.rs:197-292 | no policy admits; a live attestation for the current policy is reused; otherwise a satisfied requirement stores a receipt, a role attestation and a confirmed join state, and anything else fails with the reason |
| PolicyEngine.Engine.RemovePolicy | freeq-server/src/policy/store.rs:504-515 | every policy, attestation and receipt of the channel goes, and the answer says whether anything did |
| PolicyEngine.Engine.MemberRole | freeq-server/src/policy/engine.rs:386-394 | the role of the stored attestation, and none exactly when there is no attestation |
| PolicyEngine.IssuedAttestationVerifies | freeq-server/src/policy/engine.rs:371-377 | every attestation the engine issues verifies under its own key |
| PolicyEngine.TamperedRoleFails | freeq-server/src/policy/engine.rs:371-377 | with an injective signer, changing a signed attestation's role breaks verification |
| PolicyEngine.UpdateChains | freeq-server/src/policy/engine.rs:139-155 | after an update the current policy is the new version, one above the old, chained to the old id, under the same authority set |
| PolicyCmd.Dispatch | freeq-server/src/connection/policy_cmd.rs:30-69 | a subcommand runs only with the engine enabled, two parameters and a '#' target, and it is the upper-cased second parameter; without the engine the answer is the not-enabled notice |
| PolicyCmd.DispatchIgnoresCase | freeq-server/src/connection/policy_cmd.rs:57 | subcommands are matched without regard to case |
| PolicyCmd.LowerCaseRequireDispatches | freeq-server/src/connection/policy_cmd.rs:57-69 | "require" on a channel target reaches REQUIRE |
| PolicyCmd.NonChannelRejected | freeq-server/src/connection/policy_cmd.rs:59-67 | a target without '#' is refused whatever the subcommand |
| PolicyCmd.FounderIsChannelOp | freeq-server/src/connection/policy_cmd.rs:902-915 | the founder's DID counts as operator from any session, and nobody is operator of a missing channel |
| PolicyCmd.GuestNeedsPlusO | freeq-server/src/connection/policy_cmd.rs:902-915 | without an authenticated DID only the session's +o counts |
| PolicyCmd.OccursInCons | freeq-server/src/connection/policy_cmd.rs:950-954 | a node occurs in a list of children exactly when it occurs in the first or in the rest |
| PolicyCmd.AcceptHashesExact | freeq-server/src/connection/policy_cmd.rs:944-961 | the collected hashes are exactly those of the Accept nodes anywhere in the tree, under Not included |
| PolicyCmd.AcceptHashesInExact | freeq-server/src/connection/policy_cmd.rs:950-954 | the hashes collected from a list of children are those of their Accept nodes |
| PolicyCmd.RequiresWitness | freeq-server/src/connection/policy_cmd.rs:928-942 | a tree requires a credential type only through a Present node of that type |
| PolicyCmd.SomeRequiresWitness | freeq-server/src/connection/policy_cmd.rs:933-935 | a list requires a type only through a Present node in some child |
| PolicyCmd.PresentMeansRequired | freeq-server/src/connection/policy_cmd.rs:928-942 | a Present node of the type, with any issuer, makes the tree require it |
| PolicyCmd.PresentInMeansRequired | freeq-server/src/connection/policy_cmd.rs:933-935 | a Present node in some child makes the list require the type |
| PolicyCmd.SomeRequiresAppend | freeq-server/src/connection/policy_cmd.rs:833-837 | appending a child requires a type exactly when either part does |
| PolicyCmd.AllHoldAppend | freeq-server/src/connection/policy_cmd.rs:833-837 | appended children all hold exactly when both parts all hold |
| PolicyCmd.AcceptHashesInAppend | freeq-server/src/connection/policy_cmd.rs:833-837 | appending children unites their Accept hashes |
| PolicyCmd.RewriteRequires | freeq-server/src/connection/policy_cmd.rs:827-842 | after REQUIRE the tree always requires the credential type |
| PolicyCmd.RewriteMeaning | freeq-server/src/connection/policy_cmd.rs:827-842 | when the type was not yet required, the new tree holds exactly when the old one does and the user shows that credential from that issuer |
| PolicyCmd.RewriteKeepsAcceptHashes | freeq-server/src/connection/policy_cmd.rs:827-842 | REQUIRE never adds or removes an ACCEPT hash |
| PolicyCmd.LastValue | freeq-server/src/connection/policy_cmd.rs:743-751 | a found value is what follows the key in one of the words |
| PolicyCmd.LastValueIsLast | freeq-server/src/connection/policy_cmd.rs:743-751 | a value is found exactly when some word starts with the key, and it is the last such word's |
| PolicyCmd.ReplaceChar | freeq-server/src/connection/policy_cmd.rs:749 | every occurrence of one character is replaced and the length is kept |
| PolicyCmd.LastValueStep | freeq-server/src/connection/policy_cmd.rs:743 | one more word changes the value only when it carries the key |
| PolicyCmd.KeysExclusive | freeq-server/src/connection/policy_cmd.rs:744-750 | no word starts with two of the three keys |
| PolicyCmd.ParseRequireArgs | freeq-server/src/connection/policy_cmd.rs:739-751 | the argument loop computes the arguments read from the words |
| PolicyCmd.LaterIssuerWins | freeq-server/src/connection/policy_cmd.rs:744-745 | a later issuer= word overrides an earlier one, and words without a key change nothing |
| PolicyCmd.LabelDefaults | freeq-server/src/connection/policy_cmd.rs:741-749 | a missing label reads "Verify <type>"; a given one has its underscores turned into spaces |
| PolicyCmd.CheckRequireUrl | freeq-server/src/connection/policy_cmd.rs:764-786 | a URL passes exactly when its decoded form has no forbidden content and the raw URL is a path or https; the content error comes first |
| PolicyCmd.JavascriptUrlRejected | freeq-server/src/connection/policy_cmd.rs:764-776 | a javascript: URL is refused, percent-encoded or not |
| PolicyCmd.PlainHttpRejected | freeq-server/src/connection/policy_cmd.rs:778-786 | a plain http URL is refused |
| PolicyCmd.AcceptedHashesExact | freeq-server/src/connection/policy_cmd.rs:591-595 | ACCEPT offers exactly the hashes of the Accept nodes of the main tree and of every role tree |
| PolicyCmd.AcceptPrefixAsWritten | freeq-server/src/connection/policy_cmd.rs:966 | the byte slice, when it does not panic, is a prefix of at most 12 bytes |
| PolicyCmd.AcceptPrefix | freeq-server/src/connection/policy_cmd.rs:966 | the first 12 characters of the hash, a prefix that never fails |
| PolicyCmd.AsWrittenAgreesOnAscii | freeq-server/src/connection/policy_cmd.rs:966 | on ASCII hashes the byte slice is the character prefix |
| PolicyCmd.AcceptPrefixPanics | freeq-server/src/connection/policy_cmd.rs:966 | the hash "a" followed by seven 'é' makes the byte slice panic |
| PolicyCmd.Describe | freeq-server/src/connection/policy_cmd.rs:964-985 | every description is non-empty and closes with a parenthesis |
| PolicyCmd.DescribeShowsTwelve | freeq-server/src/connection/policy_cmd.rs:966 | hashes that agree on their first 12 characters are described alike |
| PolicyCmd.DescribeShortHash | freeq-server/src/connection/policy_cmd.rs:966 | a hash of at most 12 characters is shown whole |
| PolicyCmd.DescribeAllContains | freeq-server/src/connection/policy_cmd.rs:975-982 | a group's description contains each child's description |
| PolicyCmd.HandleSet | freeq-server/src/connection/policy_cmd.rs:70-187 | only operators may SET, the rules text is required, and the stored policy requires exactly the acceptance of the text's hash, with no roles; every failure leaves the engine unchanged and success only appends the new version to this channel's chain (a new authority set only for a first policy); an authenticated setter then holds an attestation for the new policy, newly issued with receipt and confirmed state unless a still-valid one is kept, and a guest setter adds no attestation, receipt or join state |
| PolicyCmd.AutoAttest | freeq-server/src/connection/policy_cmd.rs:149-157 | the setter, joining with evidence that accepts the rules hash, is either still attested (nothing changes) or admitted under the current policy, with the signed attestation, receipt and confirmed join state stored and no policy or authority set changed; either way it ends attested for the current policy |
| PolicyCmd.HandleSetRole | freeq-server/src/connection/policy_cmd.rs:189-305 | only operators may SET-ROLE; with a role, valid JSON and an existing policy, the role's entry is replaced and the main tree kept; bad JSON, a missing policy or any other failure leaves the engine unchanged; success only appends to this channel's chain and never touches authority sets, attestations, receipts or join states |
| PolicyCmd.RequireRequest | freeq-server/src/connection/policy_cmd.rs:736-786 | a REQUIRE request passes with a lower-cased type, a non-empty issuer and URL, and an accepted URL |
| PolicyCmd.HandleRequire | freeq-server/src/connection/policy_cmd.rs:704-880 | only operators may REQUIRE; bad arguments change nothing; otherwise the endpoint is recorded and the main tree requires the credential; any failure leaves the engine unchanged and success only appends to this channel's chain |
| PolicyCmd.StoreRequire | freeq-server/src/connection/policy_cmd.rs:814-852 | the next version holds the rewritten tree, the same roles and the endpoints with the new one, appended to this channel's chain alone; a failed update leaves the engine unchanged |
| Server.MatchLiteral | freeq-server/src/server.rs:239-252 | without wildcard bytes a pattern matches exactly the equal byte string |
| Server.NoWildcardBytes | freeq-server/src/server.rs:233-237 | a string without '*' or '?' has no wildcard byte in its UTF-8 form |
| Server.WildcardLiteral | freeq-server/src/server.rs:233-237 | a mask without '*' or '?' matches exactly the text equal to it ignoring case |
| Server.StarAbsorbs | freeq-server/src/server.rs:242-246 | '*' absorbs any run of bytes, the empty run included |
| Server.StarMatchesEverything | freeq-server/src/server.rs:242-246 | the mask '*' matches every hostmask |
| Server.MatchEmptyPattern | freeq-server/src/server.rs:241 | the empty pattern matches the empty text |
| Server.QuestionNeedsOneByte | freeq-server/src/server.rs:248 | '?' consumes exactly one byte and never matches empty text |
| Server.QuestionIsOneByte | freeq-server/src/server.rs:233-249 | because matching is bytewise, '?' does not match the two-byte 'é' |
| Server.DidBanExact | freeq-server/src/server.rs:221-230 | a DID ban matches only the exact authenticated DID, never a hostmask and never a guest |
| Server.IsBannedIff | freeq-server/src/server.rs:255-257 | a user is banned exactly when some entry matches |
| Server.GuestEscapesDidBans | freeq-server/src/server.rs:221-257 | a user without a DID is never caught by DID bans |
| Server.RemoteMemberKey | freeq-server/src/server.rs:115-122 | the found key matches the nick ignoring case, and none is found only when no key does |
| Server.LookupRemoteMember | freeq-server/src/server.rs:89-95 | the member under some key matching the nick ignoring case, and none only when no key matches |
| Server.RemoveRemoteMember | freeq-server/src/server.rs:115-122 | removal takes out exactly one matching key and returns its member, or changes nothing when none matches |
| Server.RemoveOnlyMatch | freeq-server/src/server.rs:115-122 | removing the only matching key leaves no match |
| Server.InsertPairFacts | freeq-server/src/server.rs:303-316 | inserting keeps nicks unique, maps the session to the nick, and drops exactly the session's old pair and the nick's old holder |
| Server.InverseUnique | freeq-server/src/server.rs:290-296 | when the two tables are inverse, nicks are unique ignoring case |
| Server.RemoveBySid | freeq-server/src/server.rs:347-354 | removing a session's pair from both tables keeps them inverse |
| Server.RemoveByLower | freeq-server/src/server.rs:336-345 | removing a nick's pair from both tables keeps them inverse |
| Server.AddFreshPair | freeq-server/src/server.rs:314-315 | adding a fresh nick and session keeps the tables inverse |
| Server.FilterHolder | freeq-server/src/server.rs:306-313 | the two removals in insert drop the session's old pair and the nick's holder |
| Server.NickMap.constructor | freeq-server/src/server.rs:298-300 | both tables start empty |
| Server.NickMap.GetSession | freeq-server/src/server.rs:319-323 | the session whose nick equals the given one ignoring case, and none when no nick does |
| Server.NickMap.GetNick | freeq-server/src/server.rs:326-328 | the session's display nick, which looks the session up again, and none for an unknown session |
| Server.NickMap.ContainsNick | freeq-server/src/server.rs:331-333 | a nick is in use exactly when some session holds it ignoring case |
| Server.NickMap.Len | freeq-server/src/server.rs:364-366 | the count of lower-case nicks equals the number of sessions |
| Server.NickMap.Insert | freeq-server/src/server.rs:303-316 | the tables stay inverse, every case variant of the nick finds the session, and the session shows the display nick |
| Server.NickMap.RemoveByNick | freeq-server/src/server.rs:336-345 | the holder of the nick is removed and returned, or nothing changes when nobody holds it |
| Server.NickMap.RemoveBySession | freeq-server/src/server.rs:347-354 | the session's pair is removed and its nick returned |
| Server.NickMap.NickBelongsTo | freeq-server/src/server.rs:374-378 | a nick belongs to a session exactly when that session holds it ignoring case |
| Server.S2sRateLimiter.constructor | freeq-server/src/server.rs:1412-1413 | the table starts empty |
| Server.S2sRateLimiter.Admit | freeq-server/src/server.rs:1424-1448 | one event updates the peer's second and count as the rate step does and reports whether it passes |
| Server.PassedAtNoneLater | freeq-server/src/server.rs:1432-1447 | no event at a second means none passes there |
| Server.RateLimitBound | freeq-server/src/server.rs:1414-1448 | with monotone clocks at most 100 events pass per peer per second, counting what the table already holds |
| Server.RateLimitFromEmpty | freeq-server/src/server.rs:1414-1448 | from an empty table, never more than 100 events pass per peer per second |
| Server.NewSecondResets | freeq-server/src/server.rs:1446-1447 | a new second resets the peer's count to 1 and lets the event through |
| Server.MergeModesOnlyTightens | freeq-server/src/server.rs:2331-2346 | with local members the modes only tighten: every remote protection is turned on and a key is taken only when none is set |
| Server.MergeModesCopiesWithoutMembers | freeq-server/src/server.rs:2318-2326 | without local members the remote modes are copied, and a remote key replaces the local one |
| Server.MergeDidOps | freeq-server/src/server.rs:2257-2277 | the DID-op loop computes the synced DID ops |
| Server.InsertPlainNicksFacts | freeq-server/src/server.rs:2292-2302 | plain nicks are added as non-op members from the peer and other members are kept |
| Server.InsertRemoteNicks | freeq-server/src/server.rs:2279-2303 | the presence loop computes the synced remote members |
| Server.PrefixMasks | freeq-server/src/server.rs:2348-2349 | extending a ban list keeps every mask it had |
| Server.MergedBansExtends | freeq-server/src/server.rs:2348-2361 | the merged list extends the local one and holds every remote mask |
| Server.MergedBansOnlyNew | freeq-server/src/server.rs:2348-2361 | every appended entry is a remote mask not banned before, set by "s2s:" and the peer |
| Server.MergedBansDistinct | freeq-server/src/server.rs:2348-2361 | merging never introduces a duplicate mask |
| Server.MergeBans | freeq-server/src/server.rs:2348-2361 | the ban loop computes the merged bans |
| Server.GrantAuthorized | freeq-server/src/server.rs:2364-2374 | every member whose DID is the founder or a DID op gains op, and the flag says whether any did |
| Server.StripUnauthorized | freeq-server/src/server.rs:2380-2389 | every member without DID authority loses op |
| Server.ReconcileOps | freeq-server/src/server.rs:2364-2390 | the two passes compute the reconciled ops |
| Server.DropPeerMembers | freeq-server/src/server.rs:2221-2228 | the peer's remote members go and nothing else changes |
| Server.AdoptFounder | freeq-server/src/server.rs:2233-2255 | a new channel starts +nt, an existing founder stays, and otherwise only a did: founder is adopted |
| Server.AdoptTopic | freeq-server/src/server.rs:2305-2312 | an existing topic stays; otherwise the remote one is adopted |
| Server.WithSyncedDidOps | freeq-server/src/server.rs:2257-2277 | the DID-op step changes only the DID ops |
| Server.WithSyncedNicks | freeq-server/src/server.rs:2279-2303 | the presence step changes only the remote members |
| Server.WithSyncedModes | freeq-server/src/server.rs:2318-2346 | the mode step changes only the modes, as the mode merge says |
| Server.WithSyncedBans | freeq-server/src/server.rs:2348-2361 | the ban step changes only the bans |
| Server.WithReconciledOps | freeq-server/src/server.rs:2364-2390 | the op step changes only the ops |
| Server.MergeSyncedMetadata | freeq-server/src/server.rs:2233-2346 | the in-place steps before the ban merge compute founder, DID ops, nicks, topic and modes |
| Server.MergeSyncedFounder | freeq-server/src/server.rs:2233-2255 | the in-place founder step computes the adopted founder |
| Server.MergeSyncedTopic | freeq-server/src/server.rs:2305-2312 | the in-place topic step computes the adopted topic |
| Server.MergeSyncedChannel | freeq-server/src/server.rs:2230-2390 | the in-place merge of one synced channel computes the synced channel |
| Server.SyncedChannelModes | freeq-server/src/server.rs:2318-2346 | modes are copied when nobody is here locally, and otherwise only tighten |
| Server.SyncedChannelFounder | freeq-server/src/server.rs:2241-2255 | an existing founder is never replaced; otherwise only a did: founder is adopted |
| Server.SyncedChannelDidOps | freeq-server/src/server.rs:2257-2277 | DID ops only grow, only by well-formed DIDs the peer sent, and not at all without authority when that is required |
| Server.SyncedChannelKeeps | freeq-server/src/server.rs:2230-2390 | local members, an existing topic and existing bans survive, and every remote ban is present |
| Server.CappedInfos | freeq-server/src/server.rs:2194-2206 | at most the first 500 synced channels are kept, all of them when there are fewer |
| Server.MergeInfosDomain | freeq-server/src/server.rs:2230-2234 | channels are only added, and only those the peer named |
| Server.NamedInSnoc | freeq-server/src/server.rs:2230 | a name is in the list exactly when it is in the front or is the last channel's |
| Server.MergeInfosUntouched | freeq-server/src/server.rs:2230-2395 | a channel the peer did not name is left as it was |
| Server.MergeInfosProtectsLocal | freeq-server/src/server.rs:2230-2395 | a channel with local members keeps them and its founder, and its modes only tighten |
| Server.SyncedChannelsFacts | freeq-server/src/server.rs:2189-2396 | every local channel survives, new channels only for names the peer sent, an unnamed channel only loses the peer's remote members, and local members, founder and modes are protected |
| Server.MergeSyncedChannels | freeq-server/src/server.rs:2230-2395 | the merge loop computes the merge of the capped channels |
| Server.MergeSyncedInfo | freeq-server/src/server.rs:2230-2234 | one synced channel is looked up, or created from the default, then merged |
| Server.SharedState.constructor | freeq-server/src/server.rs:834-845 | no channels, no nicks and no DIDs, with the require-DID-for-ops setting |
| Server.SharedState.ApplySyncResponse | freeq-server/src/server.rs:2189-2396 | the peer's remote members are dropped everywhere, then at most 500 channels are merged; nicks and DIDs are kept |
| PiInbox.Ungrouped | scripts/pi-inbox.py:14 | dropping the single underscores of an integer literal leaves only digits, and plain digits are kept as they are |
| PiInbox.ParsePyInt | scripts/pi-inbox.py:14 | a string that parses as an integer ends in a digit |
| PiInbox.PyStr | scripts/pi-inbox.py:24 | the decimal form of an integer ends in a digit and is the plain decimal string for a non-negative one |
| PiInbox.LoadOffset | scripts/pi-inbox.py:11-18 | a non-zero offset comes only from a readable state file whose stripped text parses as that integer; a missing or unreadable file gives 0 |
| PiInbox.PyStrStripped | scripts/pi-inbox.py:14-24 | stripping the saved text changes nothing |
| PiInbox.PyStrParses | scripts/pi-inbox.py:14-24 | the saved decimal form parses back to the integer |
| PiInbox.ParseUnsigned | scripts/pi-inbox.py:14 | a grouped literal with no sign parses as its value |
| PiInbox.ParseNegative | scripts/pi-inbox.py:14 | a minus sign before a grouped literal negates its value |
| PiInbox.DigitsGrouped | scripts/pi-inbox.py:14 | a plain run of digits is a well-formed literal whose digits are itself |
| PiInbox.SavedOffsetReloads | scripts/pi-inbox.py:11-25 | an offset the script saved is the offset it loads after a restart |
| PiInbox.GarbageReadsZero | scripts/pi-inbox.py:14-18 | contents that are not an integer read as offset 0 |
| PiInbox.FindBreak | scripts/pi-inbox.py:40 | the first line boundary in the text, or none when it has no boundary |
| PiInbox.SplitLines | scripts/pi-inbox.py:40 | every piece is free of boundaries, nothing comes only from empty text, and text without a boundary is one line |
| PiInbox.Terminated | scripts/pi-inbox.py:40 | writing lines each ended by a newline gives at least one character per line |
| PiInbox.SplitTerminated | scripts/pi-inbox.py:40 | splitting lines written each with a newline gives the lines back |
| PiInbox.FindBreakAfter | scripts/pi-inbox.py:40 | the first boundary after a line is the one that ends it |
| PiInbox.Field | scripts/pi-inbox.py:47-50 | a present key shows its value and a missing key shows "None" |
| PiInbox.Render | scripts/pi-inbox.py:51 | the printed line starts with the target tag and ends with the timestamp |
| PiInbox.PrintAsWritten | scripts/pi-inbox.py:40-51 | the loop as written prints at most one line per input line |
| PiInbox.PrintOne | scripts/pi-inbox.py:40-51 | a line prints at most once, blank lines print nothing, and what prints is the rendering of a JSON object |
| PiInbox.Print | scripts/pi-inbox.py:40-51 | the corrected loop prints at most one line per input line |
| PiInbox.PrintAgrees | scripts/pi-inbox.py:40-51 | where no line is a non-object JSON value, the loop as written prints the same and does not crash |
| PiInbox.PrintAppend | scripts/pi-inbox.py:40-51 | the commands of two runs of lines are printed in file order |
| PiInbox.PrintSnoc | scripts/pi-inbox.py:40 | one more line adds exactly that line's printout |
| PiInbox.EveryObjectPrinted | scripts/pi-inbox.py:40-51 | commands written one per line are each printed, in order |
| PiInbox.ReadFrom | scripts/pi-inbox.py:32-38 | only a missing directory stops the file being opened, and a successful read ends at the file's byte length |
| PiInbox.PollAsWritten | scripts/pi-inbox.py:31-55 | a cycle is skipped exactly when the outbox cannot be opened |
| PiInbox.Poll | scripts/pi-inbox.py:31-55 | the corrected cycle is skipped exactly when the outbox cannot be opened |
| PiInbox.NonObjectLineCrashes | scripts/pi-inbox.py:47-50 | a line holding a JSON value that is not an object stops the script as written, while the corrected cycle skips it |
| PiInbox.PollAgrees | scripts/pi-inbox.py:31-55 | where no line is a non-object JSON value both cycles agree |
| PiInbox.AppendedCommandsPrinted | scripts/pi-inbox.py:32-53 | text appended after a cycle is exactly what the next cycle prints, and it never fails |
| PiInbox.UnchangedFilePrintsNothing | scripts/pi-inbox.py:37-53 | a cycle over an unchanged file prints nothing and keeps the offset |
| PiInbox.ShrunkFileFromStart | scripts/pi-inbox.py:35-36 | a file shorter than the offset is printed from its start |
| PiInbox.NegativeOffsetFails | scripts/pi-inbox.py:37 | a negative offset fails the seek |
| PiInbox.After | scripts/pi-inbox.py:28-56 | a crash keeps the offset and the state file, and a completed cycle saves the new offset |
| PiInbox.RestartResumes | scripts/pi-inbox.py:11-53 | after a completed cycle a restart loads the offset the cycle reached |
| PiInbox.Tailer.constructor | scripts/pi-inbox.py:29 | the offset starts as the one the state file holds |
| PiInbox.Tailer.SaveOffset | scripts/pi-inbox.py:21-25 | the state file is replaced by the offset's decimal form |
| PiInbox.Tailer.PollOnce | scripts/pi-inbox.py:31-55 | corrected (see ## Findings): one cycle moves the state as the cycle says, and returns an error exactly when the cycle crashes |
| PiInbox.PrintLines | scripts/pi-inbox.py:40-51 | the loop prints what the corrected printout of the lines says |
| Multibase.Run | scripts/iroh-id-to-multibase.py:20 | a run of consecutive characters of the given length |
| Multibase.AlphabetIsRuns | scripts/iroh-id-to-multibase.py:20 | the base58 alphabet is its six runs of consecutive characters |
| Multibase.AlphabetRuns | scripts/iroh-id-to-multibase.py:20 | the alphabet's character at each position is that digit's character |
| Multibase.Digit58Of | scripts/iroh-id-to-multibase.py:20 | a character's digit, when it has one, is below 58 and spells that character |
| Multibase.Digit58Inverse | scripts/iroh-id-to-multibase.py:20 | every digit's character reads back as the digit |
| Multibase.OnlyZeroIsOne | scripts/iroh-id-to-multibase.py:20 | only digit zero is written '1' |
| Multibase.Digits58 | scripts/iroh-id-to-multibase.py:24-28 | the digits of a number are below 58, empty only for zero, and never start with zero |
| Multibase.Value58Digits | scripts/iroh-id-to-multibase.py:24-28 | the digits read back as the number |
| Multibase.LeadingZeros | scripts/iroh-id-to-multibase.py:29-34 | the count of leading zero bytes, which stops at the first non-zero byte |
| Multibase.Chars | scripts/iroh-id-to-multibase.py:27 | each digit becomes its alphabet character |
| Multibase.CharsAppend | scripts/iroh-id-to-multibase.py:27 | characters of concatenated digits are concatenated |
| Multibase.B58 | scripts/iroh-id-to-multibase.py:22-35 | one '1' per leading zero byte, then the base58 digits of the input as a big-endian number |
| Multibase.B58Alphabet | scripts/iroh-id-to-multibase.py:22-35 | every character of an encoding is in the alphabet |
| Multibase.B58Empty | scripts/iroh-id-to-multibase.py:22-35 | empty input encodes to the empty string |
| Multibase.ReverseAppend | scripts/iroh-id-to-multibase.py:35 | reversing a concatenation reverses and swaps the parts |
| Multibase.ReverseOnes | scripts/iroh-id-to-multibase.py:35 | reversing '1's changes nothing |
| Multibase.DigitStep | scripts/iroh-id-to-multibase.py:24-28 | one divmod step appends the lowest digit and leaves the rest to produce |
| Multibase.B58Encode | scripts/iroh-id-to-multibase.py:22-35 | the divmod loop, the '1' loop and the reversal compute the encoding |
| Multibase.FinishEncoding | scripts/iroh-id-to-multibase.py:29-35 | reversing the digits and the '1's gives the encoding |
| Multibase.OnesSnoc | scripts/iroh-id-to-multibase.py:33 | one more '1' is appended at the end |
| Multibase.LeadingOnes | scripts/iroh-id-to-multibase.py:22-35 | the leading '1's are within the text |
| Multibase.DigitsOf | scripts/iroh-id-to-multibase.py:20 | decoded digits are below 58, one per character |
| Multibase.BytesOf | scripts/iroh-id-to-multibase.py:23 | the minimal bytes of a number are empty only for zero |
| Multibase.LeadingOnesOf | scripts/iroh-id-to-multibase.py:29-34 | '1's before a text that does not start with '1' are counted exactly |
| Multibase.DigitsOfChars | scripts/iroh-id-to-multibase.py:20-27 | characters of digits decode to the digits |
| Multibase.BigEndianDropZeros | scripts/iroh-id-to-multibase.py:23 | leading zero bytes do not change the big-endian value |
| Multibase.BigEndianZeros | scripts/iroh-id-to-multibase.py:23 | zero bytes have value zero |
| Multibase.BigEndianPositive | scripts/iroh-id-to-multibase.py:23 | bytes not starting with zero have a positive value |
| Multibase.BytesOfBigEndian | scripts/iroh-id-to-multibase.py:23 | bytes without a leading zero are the minimal bytes of their value |
| Multibase.B58RoundTrip | scripts/iroh-id-to-multibase.py:22-35 | decoding an encoding gives the bytes back |
| Multibase.DecodeDigits | scripts/iroh-id-to-multibase.py:22-35 | '1's then digits not starting with zero decode to zero bytes then the digits' value |
| Multibase.B58LeadingOnes | scripts/iroh-id-to-multibase.py:29-34 | each leading zero byte gives exactly one leading '1' |
| Multibase.B58DigitsValue | scripts/iroh-id-to-multibase.py:24-28 | after the leading '1's the digits spell the input's big-endian value |
| Multibase.MultibaseOf | scripts/iroh-id-to-multibase.py:72-73 | the multibase value starts with 'z' |
| Multibase.MultibaseHasNoOnes | scripts/iroh-id-to-multibase.py:17-73 | the key's multibase value has no leading '1', because the prefix byte 0xed is not zero |
| Multibase.MultibaseRoundTrip | scripts/iroh-id-to-multibase.py:17-73 | a 32-byte key is recovered from its multibase value |
| Multibase.HexDigit | scripts/iroh-id-to-multibase.py:62 | a hex digit's value is below 16 |
| Multibase.FromHex | scripts/iroh-id-to-multibase.py:62 | decoded hex gives at most one byte per two characters |
| Multibase.FromHexLength | scripts/iroh-id-to-multibase.py:62 | hex without white space has exactly two digits per byte |
| Multibase.HexChar | scripts/iroh-id-to-multibase.py:62 | each hex digit character reads as its value and is not white space |
| Multibase.ToHex | scripts/iroh-id-to-multibase.py:62 | two hex digits per byte and no white space |
| Multibase.FromHexToHex | scripts/iroh-id-to-multibase.py:62 | hex encoding reads back as the bytes |
| Multibase.Convert | scripts/iroh-id-to-multibase.py:37-79 | a value is produced exactly when there is an argument, it names an ID that is not refused, and the ID is hex of 32 bytes; a wrong length is reported with the size found |
| Multibase.ConvertedReadsBack | scripts/iroh-id-to-multibase.py:61-73 | a converted value reads back as the key the ID names |
| Multibase.HexArgumentConverts | scripts/iroh-id-to-multibase.py:58-73 | a key given in hex on the command line converts |
| Multibase.PlainHexFileRefused | scripts/iroh-id-to-multibase.py:45-56 | a file holding a key as plain hex, without inner white space, is always taken for a secret key |
| Cap.FindName | freeq-server/src/connection/cap.rs:43-92 | the capability found has the requested lower-case name, and none is found only when no capability has it |
| Cap.ParseAll | freeq-server/src/connection/cap.rs:38-43 | one parsed token per whitespace-separated word, in order |
| Cap.AckedNames | freeq-server/src/connection/cap.rs:39-92 | no more names are acknowledged than tokens were requested |
| Cap.StepFacts | freeq-server/src/connection/cap.rs:42-93 | one more token keeps "all known" only if it is known, and acknowledges and enables exactly it when it is |
| Cap.Grant | freeq-server/src/connection/cap.rs:44-91 | the connection's flag for the capability is set, and a tracked capability records the session |
| Cap.GrantParsed | freeq-server/src/connection/cap.rs:42-93 | one step of the request loop grants the parsed token when it is known, keeping the flags and sessions equal to those of the tokens so far |
| Channel.InviteForms | freeq-server/src/connection/channel.rs:69-71 | an invitation for a user is the session id, the DID when authenticated, or "nick:" and the nick, and nothing else |
| Channel.ApplyRole | freeq-server/src/connection/channel.rs:205-222 | the role mapping changes only ops, DID ops and voice |
| Channel.NewChannelSetup | freeq-server/src/connection/channel.rs:155-182 | setting up a new channel changes only its creation time, founder, DID ops, ops and the +n and +t modes |
| Channel.AutoOp | freeq-server/src/connection/channel.rs:183-201 | auto-op on an existing channel changes only the ops |
| Crdt.Get | freeq-server/src/crdt.rs:246-247 | a value read from an object is the value of one of its members under that key |
| Crdt.TopicFields | freeq-server/src/crdt.rs:225-247 | the stored topic value reads back its text and setter |
| Credentials.ToJson | freeq-server/src/policy/credentials.rs:18-38 | the serialised credential is an object holding its signature and its claims |
| Ratchet.RatchetState | freeq-sdk/src/ratchet.rs:283-292 | on a changed remote key the only error is skipping too many messages of the old chain |
| TuiApp.NewBuffer | freeq-tui/src/app.rs:73-84 | a new buffer has no messages, no unread count, no mention and no scroll |
| TuiApp.NextKey | freeq-tui/src/app.rs:368-376 | the next buffer is one of the buffers |
| TuiApp.PrevKey | freeq-tui/src/app.rs:378-386 | the previous buffer is one of the buffers |
| TuiApp.FailedKeys | freeq-tui/src/app.rs:473-477 | the failed entries are listed once each, and exactly the failed entries |
| Web.DecodeEntities | freeq-server/src/web.rs:1124-1134 | the single decoding pass never lengthens the text |
| Web.EscapedEntityDecodes | freeq-server/src/web.rs:1124-1134 | "&lt;" escapes to "&amp;lt;", which the single pass decodes back to "&lt;" |
| Web.QuerySplits | freeq-server/src/web.rs:573-576 | the loopback client id's query splits at its first '&' back into the redirect and the scope |
| Web.PercentEncodeNoAmp | freeq-server/src/web.rs:573-576 | a percent-encoded value holds no '&' |
| WinEvent.TagFirstChars | freeq-windows-core/src/event.rs:50 | each event kind has its own snake-case type name |
| Messaging.RecentTwice | freeq-server/src/connection/messaging.rs:205 | pruning at one time and then at a later one is pruning at the later one |

## Left out

- Server.S2sRateLimiter.Admit: the per-peer count is an unbounded integer, not a `u32`. At 100 events a second the count never comes near wrap-around.
- S2s.S2sManager.NextEventId: the event counter is an unbounded integer, not a `u64` that could wrap.
- S2s.S2sManager.Register: the connection generation is an unbounded integer, not a `u64` that could wrap.
- Server.SharedState.constructor: the channels the server restores from its database at start-up are not modelled. The model starts with no channels.
- Case folding: the server's nick and channel comparisons use Rust's Unicode `to_lowercase`, which the model writes as ASCII lower-casing, so non-ASCII letters compare case-sensitively there. The bots' `is_alphanumeric` (`Common.IsAlphanumeric`) and the prototype bot's `to_lowercase` (`Prototype.LowerChar`) are exact below U+0100 only.
- BotsTools.SafeName: `is_alphanumeric` is exact below U+0100 only; letters and digits above U+00FF are turned into '-' by the model but kept by the program.
- BotsTools.SafeNameIdentity: holds for the model's `is_alphanumeric`, which agrees with the program's below U+0100 only.
- Prototype.LowerChar: lower-cases Latin-1 upper-case letters only; Unicode upper-case letters above U+00FF, and letters whose lower case is several characters, are kept as they are.
- Prototype.KeepSafe: keeps the characters that are alphanumeric below U+0100 and '-'; alphanumerics above U+00FF are dropped by the model but kept by the program.
- Prototype.CleanName: inherits the Latin-1 limit of `Prototype.LowerChar` and `Prototype.KeepSafe`.
- Prototype.ProjectName: inherits the Latin-1 limit of `Prototype.CleanName`.
- Connection.CloakedHost: the program cuts the id to its first 8 bytes, which panics when byte 8 falls inside a character; the model takes the first 8 characters, which agree for the ASCII ids DID methods use.
- Connection.CloakedHostOfDid: states the character cut of `Connection.CloakedHost`, not the program's byte cut.
- Moderation.CredentialId: the program cuts the DID to its first 20 bytes, which panics when byte 20 falls inside a character; the model takes the first 20 characters, which agree for ASCII DIDs.
- Moderation.ExpiresAt: the program casts the `u64` day count to `i64` and adds `Duration::days`, which wraps or panics for huge durations; the model adds unbounded integers.
- Web.LineBuffer.Feed: lines are emitted as bytes; the `String::from_utf8_lossy` decoding that turns invalid UTF-8 into U+FFFD before a line is sent is not modelled.
- BotsTools.ReadAfterWrite: paths are map keys compared as strings; the program joins them onto the workspace root, so two different strings that name the same file (`a/../b` and `b`) alias there but not in the model.
- Credentials.VerifySignature: the error texts are abbreviated: the decoder's detail that the program appends (`: {e}`) is dropped, and canonicalisation, which cannot fail on the model's JSON values, has no error path.
- Cryptography: Ed25519, HMAC, SHA-256, AES-256-GCM, X25519 and HKDF are function parameters or symbolic keys, with the properties the proofs need stated as predicates on those parameters. At-rest database encryption and `x3dh.rs` are not part of this model.
- JSON: parsing is a parameter. Serialising is modelled only where a property depends on it: canonical JSON, credentials and the web token. Floating-point JSON numbers are not modelled.
- Floating point is not modelled: the token-bucket rate limiter in `connection/mod.rs`, the client's reconnect backoff and jitter, and the load tester's delivery-rate percentage.
- Clocks, random numbers, generated ids and DID resolution are parameters of the operations that use them.
- Persistence: the SQLite store behind the server and the policy engine (`db.rs`, `policy/store.rs`) is a set of maps. Database errors and the bots' memory store are not modelled.
- Automerge: the sync protocol and compaction of the cluster document are not modelled. Only its key schema over a string map is.
- Channel handlers: broadcasts, S2S relays, database writes and CRDT updates are not modelled. Channel.ChannelTable.Join models the state change and the rejection numeric only; its success replies to the joining session (the JOIN echo, 332/333 topic, 353 names and 366 end of names) are not modelled. The other handlers model the state change and the replies to the acting session.
- Network: async transport, the accept loops, the per-connection read and write tasks, S2S connection handling and iroh are not modelled. The same holds for TLS and iroh setup in the client.
- Web: the OAuth, PAR and upload handlers are not modelled, nor is the auth broker. Its `build_client_id` is the same as the web gateway's, which is modelled.
- Other verifiers: the credential issuer and the GitHub and Bluesky verifiers are not part of this model. The moderation roster is.
- FFI: the Windows core's ABI, callback, envelope, core, error and library glue, and the SDK's FFI crate, are not modelled. The FFI crate's event conversion duplicates the Windows core's, which is modelled.
- Terminal client:
  - `ui.rs` rendering, `interactive_setup`, and loading and saving the config and session files are not modelled;
  - the image cache keeps entry names, not image bytes;
  - a buffer lives by value in the buffer map;
  - the unread count is unbounded, not a `usize`.
- Orchestration: the bots' `main.rs`, the factory orchestrator and the auditor are not modelled. The orchestrator's `extract_url` is the same as the prototype bot's, which is modelled.
- Chat room: timing, randomness, the model call and the IRC connection are not modelled.
- Load tester: connections, timing, the start barrier and the printed report are not modelled. Counts are unbounded, not `usize`.
- Agent bridge (`pi_bridge.rs`):
  - file writes and their errors, growth of the reply file during a read, invalid UTF-8 and the broker session are not modelled;
  - JSON encoding of the queued messages is a parameter.
- Outbox tailer (`scripts/pi-inbox.py`):
  - the endless polling loop and its sleep: one cycle and the state carried between cycles are modelled;
  - errors while saving the offset, and the file creation done by opening in `"a+"` mode;
  - invalid UTF-8 in the outbox;
  - Unicode digits accepted by `int()`;
  - Python's `str()` of non-string JSON values, which is a parameter.
- Multibase script (`scripts/iroh-id-to-multibase.py`): printing, exit codes, `os.path.exists` and file-read errors are not modelled. The script's result is returned as a value.
- `scripts/pi-merge-input.py` is not part of this model. It is readiness multiplexing over a non-blocking FIFO and stdin.
- `freeq-site/app.py` is not part of this model. It is a thin wrapper around a markdown library and Flask templates.
- Declaration-only files (`policy/types.rs`, `freeq-sdk/src/event.rs`, `policy/mod.rs`, `freeq-bots/src/lib.rs`, `factory/mod.rs`) appear only as the datatypes the model uses.
- Integration tests need live servers or databases. They are not modelled; some of their expectations are stated as lemmas.

## Findings

| source | as written | input that shows it | evidently intended | confidence | as-written member | corrected member |
|---|---|---|---|---|---|---|
| freeq-server/src/policy/canonical.rs:34 | object keys are sorted by Rust `String` order, which is code-point order | keys "\u{E000}" and "\u{10000}": code-point order puts U+E000 first; UTF-16 order puts U+10000 first (its high surrogate 0xD800 is below 0xE000) | keys sorted by UTF-16 code units, as section 3.2.3 of RFC 8785 requires | not executed; high | Canonical.AsWrittenDiffersFromRfc | Canonical.CanonicalizeOrdersByUtf16 |
| scripts/pi-inbox.py:47-50 | each line is parsed as JSON and `entry.get` is called; only `json.JSONDecodeError` is caught | an outbox line `5`: valid JSON but not an object, so `.get` raises AttributeError and the tailer ends; the offset was not saved, so it fails again on restart | lines that are not objects are skipped like undecodable ones | not executed; high | PiInbox.NonObjectLineCrashes | PiInbox.PollAgrees |
| freeq-server/src/connection/policy_cmd.rs:966 | an Accept hash longer than 12 bytes is shown as the byte slice `hash[..12]` | hash "a" followed by seven 'é': byte 12 falls inside a two-byte character and the slice panics | the first 12 characters are shown | not executed; high | PolicyCmd.AcceptPrefixPanics | PolicyCmd.AcceptPrefix |
| freeq-server/src/connection/registration.rs:115-125 | the canonical nick of a DID is looked up among all sessions of that DID, including the new session | sessions s1 as "alice" and the new s2 as "alice2" on the same DID: the lookup may pick s2's own nick, so s2 keeps "alice2" | the lookup considers only the other sessions of the DID | not executed; medium (depends on hash-map iteration order) | Registration.AsWrittenMayKeepOwnNick | Registration.PickCanonical |
| freeq-server/src/web.rs:1124-1134 | HTML entities are decoded by chained string replaces, with `&amp;` first | "&amp;lt;" decodes to "<" | one left-to-right pass, so "&amp;lt;" decodes to "&lt;" | not executed; high | Web.DecodeAsWrittenDoubleDecodes | Web.DecodeEscape |
| freeq-sdk/src/ratchet.rs:323-336 | a message with `msg_num` below `recv_msg_num` whose key is not stored is still decrypted on the current chain, and the counter is set back | message 0 replayed after messages 0 and 1 were received: the receiving chain advances and the counter goes back to 1, so the next genuine message (number 2) is opened with a key that is not its own | a message below the counter whose key is not stored is refused and the state is left unchanged | not executed; high | Ratchet.ReplayThenNextMisses | Ratchet.DecryptCheckedRefusesReplay |
| freeq-bots/src/tools.rs:122-125 | shell output longer than 8000 bytes is cut with `String::truncate(8000)`, which panics off a character boundary | output "a" followed by 4000 'é': byte 8000 falls inside a character and the truncation panics | the cut goes back to the nearest character boundary | not executed; high | BotsTools.CappedPanics | BotsTools.Capped |
| freeq-bots/src/prototype/mod.rs:143-147 | commentary longer than 300 bytes is cut with the byte slice `[..297]` | text "ab" followed by 150 'é': byte 297 falls inside a character and the slice panics | the cut goes back to the nearest character boundary | not executed; high | Prototype.CommentaryPanics | Prototype.ShortCommentary |
| freeq-bots/src/prototype/mod.rs:308-309 | a project name longer than 20 bytes is cut with the byte slice `[..20]` | name "a" followed by ten 'é' (a name containing non-ASCII letters kept by `is_alphanumeric`): byte 20 falls inside a character and the slice panics | the cut goes back to the nearest character boundary | not executed; high | Prototype.ChooseNamePanics | Prototype.ProjectNameShape |
| freeq-bots/src/bin/chatroom.rs:468-473 | a reply longer than 400 bytes is cut with `String::truncate(400)`, which panics off a character boundary | reply "a" followed by 200 'é': byte 400 falls inside a character and the truncation panics | the cut goes back to the nearest character boundary | not executed; high | ChatRoom.CleanResponsePanics | ChatRoom.CapReply |

Credential signing (`Credentials.SigningInput`) and `Canonical.HashCanonical` use the canonical form as written, with keys in code-point order, as the program does. Signing and verification share it, so the signatures of this program check against each other; only a signer or verifier that follows RFC 8785 exactly would disagree on objects whose keys order differently under the two rules.
