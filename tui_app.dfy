// The terminal client's application state: bounded message buffers, chat
// routing with unread and mention tracking, CHATHISTORY batches, buffer
// switching, input history and the image-cache bound.

module TuiApp {
  import opened Common

  /** Lines kept per buffer. */
  const MAX_MESSAGES: nat := 1000
  /** Entries kept in the image cache. */
  const MAX_IMAGE_CACHE: nat := 50

  datatype BufferLine = BufferLine(timestamp: string, sender: string, text: string, isSystem: bool, imageUrl: Option<string>)

  /** A named message buffer (channel, private chat or status). */
  datatype Buffer = Buffer(name: string, messages: seq<BufferLine>, nicks: seq<string>, topic: Option<string>,
                           scroll: nat, unread: nat, hasMention: bool, nickScroll: nat)

  /** Lines gathered for a CHATHISTORY batch, with their millisecond timestamps. */
  datatype BatchBuffer = BatchBuffer(target: string, lines: seq<(int, BufferLine)>)

  /** A cached image; the decoded picture itself is not modelled. */
  datatype ImageState = Loading | Ready | Failed(reason: string)

  function NewBuffer(name: string): (b: Buffer)
    ensures b.messages == [] && b.unread == 0 && !b.hasMention && b.scroll == 0
  {
    Buffer(name, [], [], None, 0, 0, false, 0)
  }

  /** The last `n` elements of `s` (all of them when there are fewer). */
  function Newest<T>(s: seq<T>, n: nat): (r: seq<T>)
    ensures |r| == Min(|s|, n) && r == s[|s| - |r|..]
  {
    if |s| <= n then s else s[|s| - n..]
  }

  /** The first `n` elements of `s` (all of them when there are fewer). */
  function Oldest<T>(s: seq<T>, n: nat): (r: seq<T>)
    ensures |r| == Min(|s|, n) && r == s[..|r|]
  {
    if |s| <= n then s else s[..n]
  }

  /**
   * `Buffer::push`: append, drop the oldest line when over the bound, and
   * scroll back to the bottom. A buffer within the bound keeps exactly its
   * newest `MAX_MESSAGES` lines.
   */
  function Push(b: Buffer, line: BufferLine): (r: Buffer)
    ensures r == b.(messages := r.messages, scroll := 0)
    ensures |b.messages| <= MAX_MESSAGES ==>
      (r.messages == Newest(b.messages + [line], MAX_MESSAGES) && |r.messages| <= MAX_MESSAGES &&
       r.messages[|r.messages| - 1] == line)
  {
    var m := b.messages + [line];
    b.(messages := if |m| > MAX_MESSAGES then m[1..] else m, scroll := 0)
  }

  // ---------------------------------------------------------------------
  // Sanitising.

  /** Newline, tab, and everything from space up except DEL. */
  predicate Printable(c: char)
  {
    c == '\n' || c == '\t' || (c >= ' ' && c != '\U{7F}')
  }

  /** `sanitize_text`: drop every control character except newline and tab. */
  function SanitizeText(s: string): (r: string)
    ensures forall i | 0 <= i < |r| :: Printable(r[i])
    ensures forall c :: c in r <==> c in s && Printable(c)
    ensures (forall i | 0 <= i < |s| :: Printable(s[i])) <==> r == s
    ensures |r| <= |s|
  {
    if s == [] then []
    else
      var rest := SanitizeText(s[1..]);
      assert forall c :: c in s <==> c == s[0] || c in s[1..];
      if Printable(s[0]) then [s[0]] + rest else rest
  }

  /** Sanitising twice is sanitising once. */
  lemma SanitizeIdempotent(s: string)
    ensures SanitizeText(SanitizeText(s)) == SanitizeText(s)
  {
  }

  // ---------------------------------------------------------------------
  // Where a chat line goes.

  predicate IsChannel(target: string)
  {
    StartsWith(target, "#") || StartsWith(target, "&")
  }

  /** The buffer a chat line belongs to: the channel, or for a private message the other party. */
  function ChatBufferName(target: string, sender: string, nick: string): (r: string)
    ensures IsChannel(target) ==> r == target
    ensures !IsChannel(target) && sender == nick ==> r == target
    ensures !IsChannel(target) && sender != nick ==> r == sender
  {
    if !IsChannel(target) then (if sender == nick then target else sender) else target
  }

  /** `buffer_mut`: the buffer under the lower-cased name, created when missing. */
  function WithBuffer(bs: map<string, Buffer>, name: string): (r: map<string, Buffer>)
    ensures LowerStr(name) in r && r.Keys == bs.Keys + {LowerStr(name)}
    ensures forall k | k in bs :: r[k] == bs[k]
    ensures LowerStr(name) !in bs ==> r[LowerStr(name)] == NewBuffer(name)
  {
    if LowerStr(name) in bs then bs else bs[LowerStr(name) := NewBuffer(name)]
  }

  /** Every buffer is within the line bound. */
  predicate Bounded(bs: map<string, Buffer>)
  {
    forall k | k in bs :: |bs[k].messages| <= MAX_MESSAGES
  }

  /**
   * `chat_msg` on the buffers: the sanitised line is pushed to its buffer;
   * an inactive buffer counts it as unread unless we sent it, and is marked
   * as mentioning us when the text contains our nick, ignoring case.
   */
  function ChatBuffers(bs: map<string, Buffer>, active: string, nick: string, target: string, sender: string,
                       text: string, now: string): (r: map<string, Buffer>)
    ensures var key := LowerStr(ChatBufferName(target, sender, nick));
      var before := WithBuffer(bs, ChatBufferName(target, sender, nick))[key];
      var counted := key != active && sender != nick;
      r.Keys == bs.Keys + {key} &&
      (forall k | k in bs && k != key :: r[k] == bs[k]) &&
      r[key].messages == Push(before, BufferLine(now, SanitizeText(sender), SanitizeText(text), false, None)).messages &&
      r[key].scroll == 0 &&
      r[key].unread == before.unread + (if counted then 1 else 0) &&
      (r[key].hasMention <==>
        before.hasMention || (counted && Contains(LowerStr(SanitizeText(text)), LowerStr(nick))))
    ensures Bounded(bs) ==> Bounded(r)
  {
    var name := ChatBufferName(target, sender, nick);
    var key := LowerStr(name);
    var cleanText := SanitizeText(text);
    var bs1 := WithBuffer(bs, name);
    var b := Push(bs1[key], BufferLine(now, SanitizeText(sender), cleanText, false, None));
    var b2 := if key != active && sender != nick then
      b.(unread := b.unread + 1, hasMention := b.hasMention || Contains(LowerStr(cleanText), LowerStr(nick)))
      else b;
    bs1[key := b2]
  }

  const STATUS: string := "status"

  lemma StatusKey()
    ensures LowerStr(STATUS) == STATUS
  {
    LowerStrOfLower(STATUS);
  }

  /**
   * `status_msg` on the buffers: a sanitised system line at the end of the
   * status buffer (`buffer_mut` on "status", whose lower-cased key is itself).
   */
  function StatusBuffers(bs: map<string, Buffer>, text: string, now: string): (r: map<string, Buffer>)
    ensures STATUS in r && r.Keys == bs.Keys + {STATUS} && (forall k | k in bs && k != STATUS :: r[k] == bs[k])
    ensures r[STATUS] == Push(if STATUS in bs then bs[STATUS] else NewBuffer(STATUS),
                              BufferLine(now, "", SanitizeText(text), true, None))
    ensures Bounded(bs) ==> Bounded(r)
  {
    var b := if STATUS in bs then bs[STATUS] else NewBuffer(STATUS);
    bs[STATUS := Push(b, BufferLine(now, "", SanitizeText(text), true, None))]
  }

  // ---------------------------------------------------------------------
  // Batches.

  predicate SortedByTime(s: seq<(int, BufferLine)>)
  {
    forall i, j | 0 <= i < j < |s| :: s[i].0 <= s[j].0
  }

  /** Insert before the first line with an equal or later timestamp. */
  function InsertByTime(x: (int, BufferLine), s: seq<(int, BufferLine)>): (r: seq<(int, BufferLine)>)
    requires SortedByTime(s)
    ensures SortedByTime(r) && multiset(r) == multiset(s) + multiset{x}
    ensures r[0] == x || (s != [] && r[0] == s[0])
  {
    if s == [] || x.0 <= s[0].0 then [x] + s
    else
      SortedTail(s);
      var t := InsertByTime(x, s[1..]);
      InsertStep(x, s, t);
      [s[0]] + t
  }

  lemma SortedTail(s: seq<(int, BufferLine)>)
    requires SortedByTime(s) && s != []
    ensures SortedByTime(s[1..])
  {
    forall i, j | 0 <= i < j < |s| - 1 ensures s[1..][i].0 <= s[1..][j].0 {
      assert s[1..][i] == s[i + 1] && s[1..][j] == s[j + 1];
    }
  }

  /** The step of the insertion: the head stays in front of the insertion into the tail. */
  lemma InsertStep(x: (int, BufferLine), s: seq<(int, BufferLine)>, t: seq<(int, BufferLine)>)
    requires SortedByTime(s) && s != [] && s[0].0 <= x.0
    requires SortedByTime(t) && t != [] && multiset(t) == multiset(s[1..]) + multiset{x}
    requires t[0] == x || (|s| > 1 && t[0] == s[1])
    ensures SortedByTime([s[0]] + t) && multiset([s[0]] + t) == multiset(s) + multiset{x}
  {
    assert s == [s[0]] + s[1..];
    assert s[0].0 <= t[0].0 by {
      if t[0] != x {
        assert s[0].0 <= s[1].0;
      }
    }
    ConsSorted(s[0], t);
  }

  lemma ConsSorted(h: (int, BufferLine), t: seq<(int, BufferLine)>)
    requires SortedByTime(t) && (t == [] || h.0 <= t[0].0)
    ensures SortedByTime([h] + t)
  {
    var r := [h] + t;
    forall i, j | 0 <= i < j < |r| ensures r[i].0 <= r[j].0 {
      if i == 0 && j > 1 {
        assert r[1].0 <= r[j].0;
      }
    }
  }

  /** The sort by timestamp that `sort_by` performs (stable: see SortStable). */
  function SortByTime(s: seq<(int, BufferLine)>): (r: seq<(int, BufferLine)>)
    ensures SortedByTime(r) && multiset(r) == multiset(s)
  {
    if s == [] then []
    else
      assert s == [s[0]] + s[1..];
      InsertByTime(s[0], SortByTime(s[1..]))
  }

  /** The lines stamped `t`, in their order. */
  function WithTime(s: seq<(int, BufferLine)>, t: int): seq<(int, BufferLine)>
  {
    if s == [] then [] else (if s[0].0 == t then [s[0]] else []) + WithTime(s[1..], t)
  }

  /** Inserting a line puts it in front of the lines that share its timestamp, and disturbs no other tie. */
  lemma {:induction false} InsertKeepsTies(x: (int, BufferLine), s: seq<(int, BufferLine)>, t: int)
    requires SortedByTime(s)
    ensures WithTime(InsertByTime(x, s), t) == (if x.0 == t then [x] else []) + WithTime(s, t)
  {
    if s == [] || x.0 <= s[0].0 {
      WithTimeCons(x, s, t);
    } else {
      SortedTail(s);
      var u := InsertByTime(x, s[1..]);
      assert InsertByTime(x, s) == [s[0]] + u;
      WithTimeCons(s[0], u, t);
      WithTimeCons(s[0], s[1..], t);
      assert [s[0]] + s[1..] == s;
      InsertKeepsTies(x, s[1..], t);
      var w := WithTime(s[1..], t);
      if x.0 == t {
        assert WithTime(s, t) == w;
        assert WithTime(u, t) == [x] + w;
      } else {
        assert WithTime(u, t) == w;
      }
    }
  }

  lemma WithTimeCons(h: (int, BufferLine), rest: seq<(int, BufferLine)>, t: int)
    ensures WithTime([h] + rest, t) == (if h.0 == t then [h] else []) + WithTime(rest, t)
  {
    assert ([h] + rest)[1..] == rest;
  }

  /** `sort_by` is stable: lines with equal timestamps keep their relative order. */
  lemma {:induction false} SortStable(s: seq<(int, BufferLine)>, t: int)
    ensures WithTime(SortByTime(s), t) == WithTime(s, t)
  {
    if s != [] {
      SortStable(s[1..], t);
      InsertKeepsTies(s[0], SortByTime(s[1..]), t);
    }
  }

  function LinesOf(s: seq<(int, BufferLine)>): (r: seq<BufferLine>)
    ensures |r| == |s| && forall i | 0 <= i < |s| :: r[i] == s[i].1
  {
    if s == [] then [] else [s[0].1] + LinesOf(s[1..])
  }

  /**
   * The prepend loop of `end_batch`: lines are pushed at the front from the
   * newest back, dropping from the back above the bound. The buffer ends up
   * with the first `MAX_MESSAGES` of the history followed by what it held.
   */
  method PrependHistory(lines: seq<BufferLine>, messages: seq<BufferLine>) returns (r: seq<BufferLine>)
    requires |messages| <= MAX_MESSAGES
    ensures r == Oldest(lines + messages, MAX_MESSAGES)
  {
    r := messages;
    var i := |lines|;
    while i > 0
      invariant 0 <= i <= |lines|
      invariant r == Oldest(lines[i..] + messages, MAX_MESSAGES)
      decreases i
    {
      i := i - 1;
      assert lines[i..] + messages == [lines[i]] + (lines[i + 1..] + messages);
      r := [lines[i]] + r;
      if |r| > MAX_MESSAGES {
        r := r[..|r| - 1];
      }
    }
  }

  /** `end_batch` on the buffers: the target buffer gets the sorted history in front, within the bound. */
  function FlushBatch(bs: map<string, Buffer>, batch: BatchBuffer): (r: map<string, Buffer>)
    ensures var key := LowerStr(batch.target);
      r.Keys == bs.Keys + {key} && (forall k | k in bs && k != key :: r[k] == bs[k]) &&
      r[key] == WithBuffer(bs, batch.target)[key].(messages := r[key].messages) &&
      r[key].messages == Oldest(LinesOf(SortByTime(batch.lines)) + WithBuffer(bs, batch.target)[key].messages, MAX_MESSAGES)
    ensures Bounded(bs) ==> Bounded(r)
  {
    var bs1 := WithBuffer(bs, batch.target);
    var key := LowerStr(batch.target);
    var b := bs1[key];
    bs1[key := b.(messages := Oldest(LinesOf(SortByTime(batch.lines)) + b.messages, MAX_MESSAGES))]
  }

  // ---------------------------------------------------------------------
  // Buffer order and switching.

  /** The keys of a `BTreeMap` in iteration order: ascending, each once. */
  function SortedKeys(s: set<string>): (r: seq<string>)
    ensures |r| == |s| && forall x :: x in r <==> x in s
    ensures forall i, j | 0 <= i < j < |r| :: LexLess(r[i], r[j])
    decreases |s|
  {
    if s == {} then []
    else
      var m := MinString(s);
      var rest := SortedKeys(s - {m});
      assert forall j | 0 <= j < |rest| :: LexLess(m, rest[j]) by {
        forall j | 0 <= j < |rest| ensures LexLess(m, rest[j]) {
          assert rest[j] in rest;
        }
      }
      [m] + rest
  }

  lemma SortedKeysDistinct(s: set<string>)
    ensures Distinct(SortedKeys(s))
  {
    var r := SortedKeys(s);
    forall i, j | 0 <= i < j < |r| ensures r[i] != r[j] {
      LexLessIrreflexive(r[i]);
    }
  }

  function IndexOf(keys: seq<string>, x: string): (r: nat)
    requires x in keys
    ensures r < |keys| && keys[r] == x && forall k | 0 <= k < r :: keys[k] != x
  {
    if keys[0] == x then 0 else 1 + IndexOf(keys[1..], x)
  }

  lemma IndexOfDistinct(keys: seq<string>, i: nat)
    requires Distinct(keys) && i < |keys|
    ensures IndexOf(keys, keys[i]) == i
  {
  }

  /** `next_buffer`: the key after the active one, wrapping to the first. */
  function NextKey(keys: seq<string>, active: string): (r: string)
    requires active in keys
    ensures r in keys
  {
    var pos := IndexOf(keys, active);
    keys[if pos + 1 == |keys| then 0 else pos + 1]
  }

  /** `prev_buffer`: the key before the active one, wrapping to the last. */
  function PrevKey(keys: seq<string>, active: string): (r: string)
    requires active in keys
    ensures r in keys
  {
    var pos := IndexOf(keys, active);
    keys[if pos == 0 then |keys| - 1 else pos - 1]
  }

  /** Moving forward then back, or back then forward, returns to the same buffer. */
  lemma NextPrevInverse(keys: seq<string>, active: string)
    requires Distinct(keys) && active in keys
    ensures PrevKey(keys, NextKey(keys, active)) == active
    ensures NextKey(keys, PrevKey(keys, active)) == active
  {
    var pos := IndexOf(keys, active);
    var n := if pos + 1 == |keys| then 0 else pos + 1;
    var p := if pos == 0 then |keys| - 1 else pos - 1;
    IndexOfDistinct(keys, n);
    IndexOfDistinct(keys, p);
  }

  /** Away from the ends, next and previous are the neighbours in key order. */
  lemma NeighbourKeys(keys: seq<string>, i: nat)
    requires Distinct(keys) && 0 < i && i + 1 < |keys|
    ensures NextKey(keys, keys[i]) == keys[i + 1] && PrevKey(keys, keys[i]) == keys[i - 1]
  {
    IndexOfDistinct(keys, i);
  }

  /** At the ends the cycle wraps: after the last comes the first, before the first the last. */
  lemma KeysWrap(keys: seq<string>)
    requires Distinct(keys) && |keys| > 0
    ensures NextKey(keys, keys[|keys| - 1]) == keys[0] && PrevKey(keys, keys[0]) == keys[|keys| - 1]
  {
    IndexOfDistinct(keys, |keys| - 1);
    IndexOfDistinct(keys, 0);
  }

  /** The unread state of a buffer is cleared when it becomes active. */
  function ClearUnread(bs: map<string, Buffer>, key: string): (r: map<string, Buffer>)
    ensures r.Keys == bs.Keys && forall k | k in bs && k != key :: r[k] == bs[k]
    ensures key in bs ==> r[key] == bs[key].(unread := 0, hasMention := false)
    ensures Bounded(bs) ==> Bounded(r)
  {
    if key in bs then bs[key := bs[key].(unread := 0, hasMention := false)] else bs
  }

  /** After removing the active buffer: the first remaining key, or "status" when none remain. */
  function FallbackBuffer(bs: map<string, Buffer>): (r: string)
    ensures bs == map[] ==> r == "status"
    ensures bs != map[] ==> r in bs && forall k | k in bs :: LexLessEq(r, k)
  {
    if bs.Keys == {} then
      assert bs == map[];
      "status"
    else MinString(bs.Keys)
  }

  // ---------------------------------------------------------------------
  // Input history.

  /** The history list, the browsing position, the saved draft and the editor's text. */
  datatype History = History(entries: seq<string>, pos: Option<nat>, saved: string, input: string)
  {
    predicate Valid() { pos.Some? ==> pos.value < |entries| }
  }

  /** `history_up`: start browsing at the newest entry (saving the draft) or step to an older one. */
  function HistoryUp(h: History): (r: History)
    requires h.Valid()
    ensures r.Valid() && r.entries == h.entries
    ensures h.entries != [] && h.pos.None? ==>
      r.pos == Some(|h.entries| - 1) && r.input == h.entries[|h.entries| - 1] && r.saved == h.input
    ensures h.pos.Some? && h.pos.value > 0 ==> r.pos == Some(h.pos.value - 1) && r.input == h.entries[h.pos.value - 1]
    ensures h.entries == [] || h.pos == Some(0) ==> r == h
  {
    if h.entries == [] then h
    else match h.pos
      case None => h.(saved := h.input, pos := Some(|h.entries| - 1), input := h.entries[|h.entries| - 1])
      case Some(p) => if p > 0 then h.(pos := Some(p - 1), input := h.entries[p - 1]) else h
  }

  /** `history_down`: step to a newer entry, or past the newest back to the saved draft. */
  function HistoryDown(h: History): (r: History)
    requires h.Valid()
    ensures r.Valid() && r.entries == h.entries
  {
    match h.pos
    case None => h
    case Some(p) =>
      if p + 1 < |h.entries| then h.(pos := Some(p + 1), input := h.entries[p + 1])
      else h.(pos := None, input := h.saved, saved := "")
  }

  /**
   * Down undoes a move up: from a draft, up then down gives the draft back
   * and ends browsing; from an older position it returns to that entry.
   */
  lemma HistoryDownUndoesUp(h: History)
    requires h.Valid() && h.entries != [] && (h.pos.None? || h.pos.value > 0)
    ensures var r := HistoryDown(HistoryUp(h));
      r.pos == h.pos &&
      (h.pos.None? ==> r.input == h.input && r.saved == "") &&
      (h.pos.Some? ==> r.input == h.entries[h.pos.value])
  {
  }

  function UpN(h: History, n: nat): (r: History)
    requires h.Valid()
    ensures r.Valid()
  {
    if n == 0 then h else HistoryUp(UpN(h, n - 1))
  }

  function DownN(h: History, n: nat): (r: History)
    requires h.Valid()
    ensures r.Valid()
  {
    if n == 0 then h else HistoryDown(DownN(h, n - 1))
  }

  /** Going up k entries from the draft shows the k-th newest entry. */
  lemma {:induction false} UpNShows(h: History, k: nat)
    requires h.Valid() && h.pos.None? && 1 <= k <= |h.entries|
    ensures var r := UpN(h, k);
      r.pos == Some(|h.entries| - k) && r.input == h.entries[|h.entries| - k] && r.saved == h.input && r.entries == h.entries
  {
    if k > 1 {
      UpNShows(h, k - 1);
    }
  }

  /** Going down from the j-th newest entry: after j-1 steps the newest shows, one more restores the draft. */
  lemma {:induction false} DownNShows(h: History, j: nat, m: nat)
    requires h.Valid() && h.pos == Some(|h.entries| - j) && 1 <= j <= |h.entries| && m < j
    ensures var r := DownN(h, m);
      r.pos == Some(|h.entries| - j + m) && r.input == (if m == 0 then h.input else h.entries[|h.entries| - j + m]) &&
      r.saved == h.saved && r.entries == h.entries
  {
    if m > 0 {
      DownNShows(h, j, m - 1);
    }
  }

  /** Browsing k entries up and k entries down restores the draft and ends browsing. */
  lemma UpThenDownRestores(h: History, k: nat)
    requires h.Valid() && h.pos.None? && 1 <= k <= |h.entries|
    ensures var r := HistoryDown(DownN(UpN(h, k), k - 1));
      r.pos.None? && r.input == h.input && r.entries == h.entries
  {
    UpNShows(h, k);
    DownNShows(UpN(h, k), k, k - 1);
  }

  /** `input_take`: the editor's text, remembered in the history when non-empty; browsing stops. */
  function InputTake(h: History): (r: (string, History))
    ensures r.0 == h.input && r.1.input == "" && r.1.pos.None? && r.1.saved == h.saved && r.1.Valid()
    ensures r.1.entries == h.entries + (if h.input == "" then [] else [h.input])
  {
    (h.input, h.(pos := None, input := "", entries := h.entries + (if h.input == "" then [] else [h.input])))
  }

  // ---------------------------------------------------------------------
  // Image cache.

  /**
   * `evict_image_cache`: above the bound, drop failed entries first, then
   * others in iteration order `order`, until the bound is met. A cache within
   * the bound is untouched; an oversized one shrinks to exactly the bound,
   * keeping its surviving entries as they were, and a working entry is only
   * dropped once no failed entry is left.
   */
  method EvictImageCache(cache: map<string, ImageState>, order: seq<string>) returns (r: map<string, ImageState>)
    requires Distinct(order) && forall k :: k in cache <==> k in order
    ensures |cache| <= MAX_IMAGE_CACHE ==> r == cache
    ensures |cache| > MAX_IMAGE_CACHE ==> |r| == MAX_IMAGE_CACHE
    ensures forall k | k in r :: k in cache && r[k] == cache[k]
    ensures (exists k | k in cache && k !in r :: !cache[k].Failed?) ==> forall k | k in r :: !r[k].Failed?
  {
    r := cache;
    if |cache| <= MAX_IMAGE_CACHE {
      return;
    }
    r := DropFailed(cache, FailedKeys(cache, order));
    if |r| > MAX_IMAGE_CACHE {
      r := DropInOrder(r, order);
    }
  }

  /** The first pass: failed entries go, in order, until the bound is met. */
  method DropFailed(cache: map<string, ImageState>, failed: seq<string>) returns (r: map<string, ImageState>)
    requires |cache| > MAX_IMAGE_CACHE && Distinct(failed) && forall k :: k in failed <==> k in cache && cache[k].Failed?
    ensures |r| >= MAX_IMAGE_CACHE
    ensures forall k | k in r :: k in cache && r[k] == cache[k]
    ensures forall k | k in cache && k !in r :: cache[k].Failed?
    ensures |r| > MAX_IMAGE_CACHE ==> forall k | k in r :: !r[k].Failed?
  {
    r := cache;
    for i := 0 to |failed|
      invariant |r| > MAX_IMAGE_CACHE
      invariant forall k | k in r :: k in cache && r[k] == cache[k]
      invariant forall k | k in cache && k !in r :: cache[k].Failed?
      invariant forall j | i <= j < |failed| :: failed[j] in r
      invariant forall k | k in r && r[k].Failed? :: k in failed[i..]
    {
      RemoveOne(r, failed[i]);
      r := r - {failed[i]};
      if |r| <= MAX_IMAGE_CACHE {
        return;
      }
      assert forall k | k in failed[i + 1..] :: k in failed[i..];
    }
  }

  /** The second pass: any entries go, in iteration order, until the bound is met. */
  method DropInOrder(cache: map<string, ImageState>, order: seq<string>) returns (r: map<string, ImageState>)
    requires |cache| > MAX_IMAGE_CACHE && forall k | k in cache :: k in order
    ensures |r| == MAX_IMAGE_CACHE
    ensures forall k | k in r :: k in cache && r[k] == cache[k]
  {
    r := cache;
    for i := 0 to |order|
      invariant |r| >= MAX_IMAGE_CACHE
      invariant forall k | k in r :: k in cache && r[k] == cache[k]
      invariant |r| > MAX_IMAGE_CACHE ==> forall j | 0 <= j < i :: order[j] !in r
    {
      if |r| <= MAX_IMAGE_CACHE {
        break;
      }
      if order[i] in r {
        RemoveOne(r, order[i]);
        r := r - {order[i]};
      }
    }
    NonEmptyHasKey(r);
  }

  lemma NonEmptyHasKey(m: map<string, ImageState>)
    requires |m| > 0
    ensures exists k :: k in m
  {
    var k :| k in m.Keys;
  }

  /** The failed entries' keys, in iteration order. */
  function FailedKeys(cache: map<string, ImageState>, order: seq<string>): (r: seq<string>)
    requires Distinct(order) && forall k :: k in cache <==> k in order
    ensures Distinct(r) && forall k :: k in r <==> k in cache && cache[k].Failed?
  {
    FailedIn(cache, order)
  }

  function FailedIn(cache: map<string, ImageState>, order: seq<string>): (r: seq<string>)
    requires Distinct(order) && forall k | k in order :: k in cache
    ensures Distinct(r) && forall k :: k in r <==> k in order && cache[k].Failed?
  {
    if order == [] then []
    else
      var rest := FailedIn(cache, order[1..]);
      assert forall k | k in order[1..] :: k != order[0];
      if cache[order[0]].Failed? then [order[0]] + rest else rest
  }

  lemma RemoveOne(m: map<string, ImageState>, k: string)
    requires k in m
    ensures |m - {k}| == |m| - 1
  {
    assert (m - {k}).Keys == m.Keys - {k};
  }

  // ---------------------------------------------------------------------
  // The application object.

  /**
   * Switching buffers forward (`next_buffer`) or back (`prev_buffer`): when the
   * active buffer is listed, the neighbour in name order becomes active and its
   * unread state is cleared; otherwise nothing changes.
   */
  ghost predicate Rotation(bs: map<string, Buffer>, active: string, forward: bool, key: string, r: map<string, Buffer>)
  {
    var keys := SortedKeys(bs.Keys);
    (active in keys ==> key == (if forward then NextKey(keys, active) else PrevKey(keys, active)) && r == ClearUnread(bs, key)) &&
    (active !in keys ==> key == active && r == bs)
  }

  method Rotated(bs: map<string, Buffer>, active: string, forward: bool) returns (key: string, r: map<string, Buffer>)
    ensures Rotation(bs, active, forward, key, r)
    ensures Bounded(bs) ==> Bounded(r)
  {
    var keys := SortedKeys(bs.Keys);
    if active in keys {
      key := if forward then NextKey(keys, active) else PrevKey(keys, active);
      r := ClearUnread(bs, key);
    } else {
      key, r := active, bs;
    }
  }

  class App {
    var buffers: map<string, Buffer>
    var batches: map<string, BatchBuffer>
    var activeBuffer: string
    var nick: string
    var input: string
    var history: seq<string>
    var historyPos: Option<nat>
    var historySaved: string

    ghost predicate Valid()
      reads this
    {
      Bounded(buffers) && HistoryOf().Valid()
    }

    function HistoryOf(): History
      reads this
    {
      History(history, historyPos, historySaved, input)
    }

    /** A status buffer with the welcome line, active; nothing else. */
    constructor (nickname: string, viMode: bool, now: string)
      ensures Valid() && activeBuffer == "status" && nick == nickname && batches == map[]
      ensures buffers.Keys == {"status"} &&
        buffers["status"] == Push(NewBuffer("status"), BufferLine(now, "", SanitizeText(
          "Welcome to freeq (" + (if viMode then "vi" else "emacs") + " mode). Type /help for commands."), true, None))
      ensures HistoryOf() == History([], None, "", "")
    {
      var mode := if viMode then "vi" else "emacs";
      var status := Push(NewBuffer("status"), BufferLine(now, "", SanitizeText(
        "Welcome to freeq (" + mode + " mode). Type /help for commands."), true, None));
      buffers := map["status" := status];
      batches := map[];
      activeBuffer := "status";
      nick := nickname;
      input, history, historyPos, historySaved := "", [], None, "";
    }

    /** `status_msg`: a sanitised system line in the status buffer. */
    method StatusMsg(text: string, now: string)
      requires Valid()
      modifies this
      ensures Valid()
      ensures buffers == StatusBuffers(old(buffers), text, now)
      ensures batches == old(batches) && activeBuffer == old(activeBuffer) && HistoryOf() == old(HistoryOf())
    {
      buffers := StatusBuffers(buffers, text, now);
    }

    method ChatMsg(target: string, sender: string, text: string, now: string)
      requires Valid()
      modifies this
      ensures Valid()
      ensures buffers == ChatBuffers(old(buffers), activeBuffer, nick, target, sender, text, now)
      ensures batches == old(batches) && activeBuffer == old(activeBuffer) && HistoryOf() == old(HistoryOf())
    {
      buffers := ChatBuffers(buffers, activeBuffer, nick, target, sender, text, now);
    }

    /** `start_batch`: a fresh, empty batch under the id (replacing any with that id). */
    method StartBatch(id: string, target: string)
      modifies this
      ensures batches == old(batches)[id := BatchBuffer(target, [])]
      ensures buffers == old(buffers) && activeBuffer == old(activeBuffer) && HistoryOf() == old(HistoryOf())
    {
      batches := batches[id := BatchBuffer(target, [])];
    }

    /** `add_batch_line`: lines for unknown batches are dropped. */
    method AddBatchLine(id: string, timestampMs: int, line: BufferLine)
      modifies this
      ensures id in old(batches) ==>
        batches == old(batches)[id := old(batches)[id].(lines := old(batches)[id].lines + [(timestampMs, line)])]
      ensures id !in old(batches) ==> batches == old(batches)
      ensures buffers == old(buffers) && activeBuffer == old(activeBuffer) && HistoryOf() == old(HistoryOf())
    {
      if id in batches {
        var b := batches[id];
        batches := batches[id := b.(lines := b.lines + [(timestampMs, line)])];
      }
    }

    /** `end_batch`: the batch is removed and its lines, sorted by time, go in front of the target buffer. */
    method EndBatch(id: string)
      requires Valid()
      modifies this
      ensures Valid()
      ensures id in old(batches) ==> batches == old(batches) - {id} && buffers == FlushBatch(old(buffers), old(batches)[id])
      ensures id !in old(batches) ==> batches == old(batches) && buffers == old(buffers)
      ensures activeBuffer == old(activeBuffer) && HistoryOf() == old(HistoryOf())
    {
      if id in batches {
        var batch := batches[id];
        batches := batches - {id};
        var bs := WithBuffer(buffers, batch.target);
        var key := LowerStr(batch.target);
        var b := bs[key];
        var sorted := SortByTime(batch.lines);
        var merged := PrependHistory(LinesOf(sorted), b.messages);
        buffers := bs[key := b.(messages := merged)];
      }
    }

    /** `remove_buffer`: drop the buffer; if it was active, fall back to the first remaining one or "status". */
    method RemoveBuffer(name: string)
      requires Valid()
      modifies this
      ensures Valid()
      ensures buffers == old(buffers) - {LowerStr(name)}
      ensures old(activeBuffer) == LowerStr(name) ==> activeBuffer == FallbackBuffer(buffers)
      ensures old(activeBuffer) != LowerStr(name) ==> activeBuffer == old(activeBuffer)
      ensures batches == old(batches) && HistoryOf() == old(HistoryOf())
    {
      var key := LowerStr(name);
      buffers := buffers - {key};
      if activeBuffer == key {
        activeBuffer := FallbackBuffer(buffers);
      }
    }

    /** `buffer_names`: the tab bar order. */
    function BufferNames(): (r: seq<string>)
      reads this
      ensures r == SortedKeys(buffers.Keys)
    {
      SortedKeys(buffers.Keys)
    }

    method NextBuffer()
      requires Valid()
      modifies this
      ensures Valid()
      ensures Rotation(old(buffers), old(activeBuffer), true, activeBuffer, buffers)
      ensures batches == old(batches) && HistoryOf() == old(HistoryOf())
    {
      var key, bs := Rotated(buffers, activeBuffer, true);
      buffers, activeBuffer := bs, key;
    }

    method PrevBuffer()
      requires Valid()
      modifies this
      ensures Valid()
      ensures Rotation(old(buffers), old(activeBuffer), false, activeBuffer, buffers)
      ensures batches == old(batches) && HistoryOf() == old(HistoryOf())
    {
      var key, bs := Rotated(buffers, activeBuffer, false);
      buffers, activeBuffer := bs, key;
    }

    /** `switch_to`: only an existing buffer can become active. */
    method SwitchTo(name: string)
      requires Valid()
      modifies this
      ensures Valid()
      ensures LowerStr(name) in old(buffers) ==>
        activeBuffer == LowerStr(name) && buffers == ClearUnread(old(buffers), activeBuffer)
      ensures LowerStr(name) !in old(buffers) ==> activeBuffer == old(activeBuffer) && buffers == old(buffers)
      ensures batches == old(batches) && HistoryOf() == old(HistoryOf())
    {
      var key := LowerStr(name);
      if key in buffers {
        activeBuffer := key;
        ClearActiveUnread();
      }
    }

    method ClearActiveUnread()
      requires Valid()
      modifies this
      ensures Valid()
      ensures buffers == ClearUnread(old(buffers), activeBuffer)
      ensures activeBuffer == old(activeBuffer) && batches == old(batches) && HistoryOf() == old(HistoryOf())
    {
      buffers := ClearUnread(buffers, activeBuffer);
    }

    method TakeInput() returns (line: string)
      requires Valid()
      modifies this
      ensures Valid()
      ensures (line, HistoryOf()) == InputTake(old(HistoryOf()))
      ensures buffers == old(buffers) && batches == old(batches) && activeBuffer == old(activeBuffer)
    {
      historyPos := None;
      line := input;
      input := "";
      if line != "" {
        history := history + [line];
      }
      assert history == old(history) + (if old(input) == "" then [] else [old(input)]);
    }

    method HistoryUpStep()
      requires Valid()
      modifies this
      ensures Valid()
      ensures HistoryOf() == HistoryUp(old(HistoryOf()))
      ensures buffers == old(buffers) && batches == old(batches) && activeBuffer == old(activeBuffer)
    {
      assert old(HistoryOf()) == History(history, historyPos, historySaved, input);
      if history == [] {
        return;
      }
      match historyPos {
        case None =>
          historySaved := input;
          historyPos := Some(|history| - 1);
        case Some(pos) =>
          if pos > 0 {
            historyPos := Some(pos - 1);
          } else {
            return;
          }
      }
      input := history[historyPos.value];
    }

    method HistoryDownStep()
      requires Valid()
      modifies this
      ensures Valid()
      ensures HistoryOf() == HistoryDown(old(HistoryOf()))
      ensures buffers == old(buffers) && batches == old(batches) && activeBuffer == old(activeBuffer)
    {
      if historyPos.Some? {
        var pos := historyPos.value;
        if pos + 1 < |history| {
          historyPos := Some(pos + 1);
          input := history[pos + 1];
        } else {
          historyPos := None;
          var saved := historySaved;
          historySaved := "";
          input := saved;
        }
      }
    }
  }
}
