// How the bots format what they post to a channel: long text is wrapped
// on word boundaries into lines of bounded byte length, and every line
// carries the agent's role.

module BotsOutput {
  import opened Common

  /** The wrap width `say` uses. */
  const SAY_WIDTH: nat := 400
  /** Files listed by `file_tree` before the rest is summarised. */
  const TREE_LIMIT: nat := 20

  /** Rust's `str::len`: the UTF-8 byte length. */
  function ByteLen(s: string): (n: nat)
    ensures n >= |s|
  {
    |Utf8(s)|
  }

  lemma ByteLenAppend(a: string, b: string)
    ensures ByteLen(a + b) == ByteLen(a) + ByteLen(b)
  {
    Utf8Append(a, b);
  }

  lemma ByteLenSpace()
    ensures ByteLen(" ") == 1
  {
    assert " "[1..] == [];
  }

  // ---------------------------------------------------------------------
  // Rust's `str::lines`.

  /** A line's "\r" is dropped when it was part of a "\r\n" ending. */
  function DropCr(line: string): (r: string)
    ensures r <= line && |line| - 1 <= |r|
  {
    if line != [] && line[|line| - 1] == '\r' then line[..|line| - 1] else line
  }

  /**
   * The lines of a text: split at '\n', a "\r\n" ending counts as one, and
   * a final line ending does not start an empty line.
   */
  function TextLines(s: string): (r: seq<string>)
    ensures forall i | 0 <= i < |r| :: '\n' !in r[i]
    ensures s == [] <==> r == []
    decreases |s|
  {
    if s == [] then []
    else match FindChar(s, '\n')
      case None => [s]
      case Some(i) => [DropCr(s[..i])] + TextLines(s[i + 1..])
  }

  /** A line with no newline and no trailing CR, then a newline, is read back as the first line. */
  lemma FirstTextLine(line: string, rest: string)
    requires '\n' !in line && (line == [] || line[|line| - 1] != '\r')
    ensures var ls := TextLines(line + "\n" + rest); ls != [] && ls[0] == line
  {
    var s := line + "\n" + rest;
    FindAfter(line, '\n', rest);
    assert s[..|line|] == line;
  }

  // ---------------------------------------------------------------------
  // Greedy word wrapping.

  /**
   * The inner loop of `wrap_lines` as a function: `current` is the line
   * being filled. A word that would push it past `maxLen` bytes (counting
   * the joining space) closes it and starts the next one.
   */
  function Greedy(ws: seq<string>, current: string, maxLen: nat): (r: seq<string>)
    decreases |ws|
  {
    if ws == [] then (if current == [] then [] else [current])
    else
      var w := ws[0];
      if ByteLen(current) + ByteLen(w) + 1 > maxLen then
        (if current == [] then [] else [current]) + Greedy(ws[1..], w, maxLen)
      else
        Greedy(ws[1..], if current == [] then w else current + " " + w, maxLen)
  }

  /** One line's pieces: a short line as it is, a long one wrapped word by word. */
  function WrapLine(line: string, maxLen: nat): (r: seq<string>)
  {
    if ByteLen(line) <= maxLen then [line] else Greedy(Words(line), "", maxLen)
  }

  /** The pieces of all lines, in order. */
  function WrapAll(lines: seq<string>, maxLen: nat): (r: seq<string>)
    ensures lines == [] ==> r == []
  {
    if lines == [] then []
    else WrapAll(lines[..|lines| - 1], maxLen) + WrapLine(lines[|lines| - 1], maxLen)
  }

  /** `wrap_lines`: the text's lines, wrapped one after another. */
  method WrapLines(text: string, maxLen: nat) returns (result: seq<string>)
    ensures result == WrapAll(TextLines(text), maxLen)
  {
    var lines := TextLines(text);
    result := [];
    for i := 0 to |lines|
      invariant result == WrapAll(lines[..i], maxLen)
    {
      var line := lines[i];
      assert lines[..i + 1][..i] == lines[..i];
      if ByteLen(line) <= maxLen {
        result := result + [line];
      } else {
        var pieces := WrapWords(Words(line), maxLen);
        result := result + pieces;
      }
    }
    assert lines[..|lines|] == lines;
  }

  /** The word loop of `wrap_lines` for one over-long line. */
  method WrapWords(words: seq<string>, maxLen: nat) returns (result: seq<string>)
    ensures result == Greedy(words, "", maxLen)
  {
    result := [];
    var current := "";
    for j := 0 to |words|
      invariant result + Greedy(words[j..], current, maxLen) == Greedy(words, "", maxLen)
    {
      var word := words[j];
      assert words[j..][1..] == words[j + 1..];
      assert words[j..][0] == word;
      if ByteLen(current) + ByteLen(word) + 1 > maxLen {
        assert Greedy(words[j..], current, maxLen) ==
          (if current == [] then [] else [current]) + Greedy(words[j + 1..], word, maxLen);
        ghost var g := Greedy(words[j + 1..], word, maxLen);
        if current != "" {
          result := result + [current];
        }
        current := word;
        assert result + g == Greedy(words, "", maxLen);
      } else {
        assert Greedy(words[j..], current, maxLen) ==
          Greedy(words[j + 1..], if current == [] then word else current + " " + word, maxLen);
        ghost var next := if current == [] then word else current + " " + word;
        if current != "" {
          current := current + " ";
        }
        current := current + word;
        assert current == next;
      }
    }
    if current != "" {
      result := result + [current];
    }
  }

  // ---------------------------------------------------------------------
  // What wrapping guarantees.

  predicate AllNonEmpty(ws: seq<string>)
  {
    forall i | 0 <= i < |ws| :: ws[i] != []
  }

  /** The non-empty `current` followed by the remaining words. */
  function Pending(current: string, ws: seq<string>): seq<string>
  {
    if current == [] then ws else [current] + ws
  }

  lemma JoinCons(a: string, xs: seq<string>, sep: string)
    requires xs != []
    ensures Join([a] + xs, sep) == a + sep + Join(xs, sep)
  {
    assert ([a] + xs)[1..] == xs;
  }

  lemma {:induction false} GreedyNonEmpty(ws: seq<string>, current: string, maxLen: nat)
    requires current != [] || (ws != [] && ws[0] != [])
    ensures Greedy(ws, current, maxLen) != []
    decreases |ws|
  {
    if ws != [] {
      var w := ws[0];
      if ByteLen(current) + ByteLen(w) + 1 > maxLen {
        if current == [] {
          GreedyNonEmpty(ws[1..], w, maxLen);
        }
      } else {
        var next := if current == [] then w else current + " " + w;
        GreedyNonEmpty(ws[1..], next, maxLen);
      }
    }
  }

  /** No piece is empty. */
  lemma {:induction false} GreedyPiecesNonEmpty(ws: seq<string>, current: string, maxLen: nat)
    requires AllNonEmpty(ws)
    ensures forall p | p in Greedy(ws, current, maxLen) :: p != []
    decreases |ws|
  {
    if ws != [] {
      var w := ws[0];
      if ByteLen(current) + ByteLen(w) + 1 > maxLen {
        GreedyPiecesNonEmpty(ws[1..], w, maxLen);
      } else {
        GreedyPiecesNonEmpty(ws[1..], if current == [] then w else current + " " + w, maxLen);
      }
    }
  }

  /** Joining the pieces with single spaces gives the words joined with single spaces: nothing lost, repeated or reordered. */
  lemma {:induction false} GreedyJoin(ws: seq<string>, current: string, maxLen: nat)
    requires AllNonEmpty(ws)
    ensures Join(Greedy(ws, current, maxLen), " ") == Join(Pending(current, ws), " ")
    decreases |ws|
  {
    if ws != [] {
      var w := ws[0];
      var rest := ws[1..];
      if ByteLen(current) + ByteLen(w) + 1 > maxLen {
        GreedyJoin(rest, w, maxLen);
        JoinAfterBreak(ws, current, maxLen);
      } else {
        var next := if current == [] then w else current + " " + w;
        GreedyJoin(rest, next, maxLen);
        JoinAfterAppend(ws, current, maxLen);
      }
    }
  }

  /** The step of GreedyJoin where the next word starts a new piece. */
  lemma JoinAfterBreak(ws: seq<string>, current: string, maxLen: nat)
    requires AllNonEmpty(ws) && ws != [] && ByteLen(current) + ByteLen(ws[0]) + 1 > maxLen
    requires Join(Greedy(ws[1..], ws[0], maxLen), " ") == Join(Pending(ws[0], ws[1..]), " ")
    ensures Join(Greedy(ws, current, maxLen), " ") == Join(Pending(current, ws), " ")
  {
    var w := ws[0];
    var rest := ws[1..];
    assert ws == [w] + rest;
    assert Pending(w, rest) == ws;
    var g := Greedy(rest, w, maxLen);
    if current != [] {
      assert Greedy(ws, current, maxLen) == [current] + g;
      GreedyNonEmpty(rest, w, maxLen);
      JoinCons(current, g, " ");
      JoinCons(current, ws, " ");
      assert Pending(current, ws) == [current] + ws;
    } else {
      assert Greedy(ws, current, maxLen) == g;
    }
  }

  /** The step of GreedyJoin where the next word joins the current piece. */
  lemma JoinAfterAppend(ws: seq<string>, current: string, maxLen: nat)
    requires AllNonEmpty(ws) && ws != [] && ByteLen(current) + ByteLen(ws[0]) + 1 <= maxLen
    requires var next := if current == [] then ws[0] else current + " " + ws[0];
      Join(Greedy(ws[1..], next, maxLen), " ") == Join(Pending(next, ws[1..]), " ")
    ensures Join(Greedy(ws, current, maxLen), " ") == Join(Pending(current, ws), " ")
  {
    var w := ws[0];
    var rest := ws[1..];
    assert ws == [w] + rest;
    var next := if current == [] then w else current + " " + w;
    assert Greedy(ws, current, maxLen) == Greedy(rest, next, maxLen);
    if current != [] {
      assert Pending(next, rest) == [next] + rest;
      assert Pending(current, ws) == [current] + ws;
      JoinCons(current, ws, " ");
      if rest != [] {
        JoinCons(next, rest, " ");
        JoinCons(w, rest, " ");
      } else {
        assert Join([next], " ") == next;
        assert Join(ws, " ") == w;
      }
    }
  }

  /** Every piece fits in `maxLen` bytes, except one that is a single word (or the line carried in) too long to fit. */
  lemma {:induction false} GreedyBound(ws: seq<string>, current: string, maxLen: nat)
    ensures forall p | p in Greedy(ws, current, maxLen) :: ByteLen(p) <= maxLen || p == current || p in ws
    decreases |ws|
  {
    if ws != [] {
      var w := ws[0];
      var rest := ws[1..];
      assert ws == [w] + rest;
      if ByteLen(current) + ByteLen(w) + 1 > maxLen {
        GreedyBound(rest, w, maxLen);
      } else {
        var next := if current == [] then w else current + " " + w;
        if current != [] {
          ByteLenAppend(current + " ", w);
          ByteLenAppend(current, " ");
          ByteLenSpace();
        }
        assert ByteLen(next) <= maxLen;
        GreedyBound(rest, next, maxLen);
      }
    }
  }

  /** A line that fits is emitted unchanged, as one piece. */
  lemma ShortLineUnchanged(line: string, maxLen: nat)
    requires ByteLen(line) <= maxLen
    ensures WrapLine(line, maxLen) == [line]
  {
  }

  /**
   * A long line becomes non-empty pieces, each within the width unless it is
   * one over-long word, whose single-space join is the line's words joined by
   * single spaces.
   */
  lemma LongLinePieces(line: string, maxLen: nat)
    requires ByteLen(line) > maxLen
    ensures var ps := WrapLine(line, maxLen);
      (forall p | p in ps :: p != [] && (ByteLen(p) <= maxLen || p in Words(line))) &&
      Join(ps, " ") == Join(Words(line), " ")
  {
    var ws := Words(line);
    GreedyPiecesNonEmpty(ws, "", maxLen);
    GreedyJoin(ws, "", maxLen);
    GreedyBound(ws, "", maxLen);
  }

  /** Text whose lines all fit comes out as exactly its lines, in order. */
  lemma {:induction false} ShortLinesUnchanged(lines: seq<string>, maxLen: nat)
    requires forall i | 0 <= i < |lines| :: ByteLen(lines[i]) <= maxLen
    ensures WrapAll(lines, maxLen) == lines
  {
    if lines != [] {
      ShortLinesUnchanged(lines[..|lines| - 1], maxLen);
      assert lines == lines[..|lines| - 1] + [lines[|lines| - 1]];
    }
  }

  // ---------------------------------------------------------------------
  // Messages.

  function RolePrefix(role: string): (r: string)
    ensures |r| == |role| + 3 && r[0] == '[' && r[..|role| + 1] == "[" + role
  {
    "[" + role + "] "
  }

  /** `say`: one message per wrapped line, each carrying the role. */
  function SayMessages(role: string, text: string): (r: seq<string>)
    ensures var ls := WrapAll(TextLines(text), SAY_WIDTH);
      |r| == |ls| && forall i | 0 <= i < |r| :: StartsWith(r[i], RolePrefix(role)) && r[i][|role| + 3..] == ls[i]
  {
    Prefixed(RolePrefix(role), WrapAll(TextLines(text), SAY_WIDTH))
  }

  function Prefixed(prefix: string, ls: seq<string>): (r: seq<string>)
    ensures |r| == |ls| && forall i | 0 <= i < |r| :: r[i] == prefix + ls[i]
  {
    if ls == [] then [] else [prefix + ls[0]] + Prefixed(prefix, ls[1..])
  }

  /** A short one-line text is said as a single message. */
  lemma SayShortLine(role: string, line: string)
    requires line != [] && '\n' !in line && ByteLen(line) <= SAY_WIDTH
    ensures SayMessages(role, line) == [RolePrefix(role) + line]
  {
    assert FindChar(line, '\n').None?;
    assert TextLines(line) == [line];
    ShortLinesUnchanged([line], SAY_WIDTH);
  }

  /** `status`: one line "[role] emoji text". */
  function StatusMessage(role: string, emoji: string, text: string): (r: string)
    ensures StartsWith(r, RolePrefix(role)) && EndsWith(r, " " + text)
  {
    var r := RolePrefix(role) + emoji + " " + text;
    assert r[..|RolePrefix(role)|] == RolePrefix(role);
    assert r[|r| - |" " + text|..] == " " + text;
    r
  }

  /** A header, then at most `limit` indented items, then `note` when items were left out. */
  function Capped(header: string, items: seq<string>, limit: nat, note: string): (r: seq<string>)
    ensures var shown := Min(|items|, limit);
      |r| == 1 + shown + (if |items| > limit then 1 else 0) && r[0] == header &&
      (forall i | 0 <= i < shown :: r[1 + i] == "  " + items[i]) &&
      (|items| > limit ==> r[|r| - 1] == note)
  {
    var shown := if |items| > limit then limit else |items|;
    [header] + Prefixed("  ", items[..shown]) + (if |items| > limit then [note] else [])
  }

  /** `code`: a status line with the line count, at most `maxLines` indented lines, and a note of how many were cut. */
  function CodeMessages(role: string, filename: string, content: string, maxLines: nat): (r: seq<string>)
    ensures var ls := TextLines(content);
      var shown := Min(|ls|, maxLines);
      |r| == 1 + shown + (if |ls| > maxLines then 1 else 0) &&
      r[0] == StatusMessage(role, "📄", filename + " (" + DecimalString(|ls|) + " lines)") &&
      (forall i | 0 <= i < shown :: r[1 + i] == "  " + ls[i]) &&
      (|ls| > maxLines ==> r[|r| - 1] == "  ... (" + DecimalString(|ls| - maxLines) + " more lines)")
  {
    var ls := TextLines(content);
    var note := if |ls| > maxLines then "  ... (" + DecimalString(|ls| - maxLines) + " more lines)" else "";
    Capped(StatusMessage(role, "📄", filename + " (" + DecimalString(|ls|) + " lines)"), ls, maxLines, note)
  }

  /** `file_tree`: a status line with the count, the first 20 files, and how many more there are. */
  function FileTreeMessages(role: string, files: seq<string>): (r: seq<string>)
    ensures var shown := Min(|files|, TREE_LIMIT);
      |r| == 1 + shown + (if |files| > TREE_LIMIT then 1 else 0) &&
      r[0] == StatusMessage(role, "📁", "Project files (" + DecimalString(|files|) + ")") &&
      (forall i | 0 <= i < shown :: r[1 + i] == "  " + files[i]) &&
      (|files| > TREE_LIMIT ==> r[|r| - 1] == "  ... and " + DecimalString(|files| - TREE_LIMIT) + " more")
  {
    var note := if |files| > TREE_LIMIT then "  ... and " + DecimalString(|files| - TREE_LIMIT) + " more" else "";
    Capped(StatusMessage(role, "📁", "Project files (" + DecimalString(|files|) + ")"), files, TREE_LIMIT, note)
  }

  /** `deploy_result` and `error` are status lines. */
  function DeployMessage(role: string, url: string): (r: string)
    ensures EndsWith(r, "Deployed → " + url)
  {
    StatusMessage(role, "🚀", "Deployed → " + url)
  }

  function ErrorMessage(role: string, text: string): (r: string)
    ensures StartsWith(r, RolePrefix(role)) && EndsWith(r, " " + text)
  {
    StatusMessage(role, "❌", text)
  }
}
