/** The codec for a JSON payload inside a language-tagged code fence of a comment body. */
module FencedPayload {
  import opened Wrappers
  import opened JsonText
  import opened TextSearch

  /** The characters a tag may be continued with, which the negative lookahead refuses. */
  predicate IsTagChar(c: char) {
    'A' <= c <= 'Z' || 'a' <= c <= 'z' || '0' <= c <= '9' || c == '_' || c == '-'
  }

  predicate IsTag(tag: string) { tag != "" && forall c | c in tag :: IsTagChar(c) }

  predicate TagAt(text: string, tag: string, i: nat) {
    i + |tag| <= |text| && forall k | 0 <= k < |tag| :: text[i + k] == tag[k]
  }

  /** The fence and exactly this tag begin at `i`. */
  predicate OpenerAt(text: string, tag: string, i: nat) {
    FenceAt(text, i) && TagAt(text, tag, i + 3)
    && (i + 3 + |tag| < |text| ==> !IsTagChar(text[i + 3 + |tag|]))
  }

  predicate HasFencedPayload(text: string, tag: string) {
    exists i | 0 <= i < |text| :: OpenerAt(text, tag, i)
  }

  function NextNewline(text: string, from: nat): (r: Option<nat>)
    requires from <= |text|
    ensures r.Some? ==> from <= r.value < |text|
    decreases |text| - from
  {
    if from == |text| then None
    else if text[from] == '\n' then Some(from)
    else NextNewline(text, from + 1)
  }

  /** The payload of an opener: from the end of its line to the next fence. */
  function PayloadAt(text: string, tag: string, i: nat): Option<string>
    requires OpenerAt(text, tag, i)
  {
    var line := NextNewline(text, i + 3 + |tag|);
    if line.None? then None
    else
      var close := NextFence(text, line.value + 1);
      if close.None? then None else Some(text[line.value + 1..close.value])
  }

  /** The leftmost match from `from` on. */
  function ExtractFrom(text: string, tag: string, from: nat): Option<string>
    requires from <= |text|
    decreases |text| - from
  {
    if OpenerAt(text, tag, from) && PayloadAt(text, tag, from).Some? then PayloadAt(text, tag, from)
    else if from == |text| then None
    else ExtractFrom(text, tag, from + 1)
  }

  function Extract(text: string, tag: string): Option<string> { ExtractFrom(text, tag, 0) }

  /** The opening line, the printed JSON on lines of its own, and the closing fence. */
  function Render(tag: string, json: string): string { FENCE + tag + "\n" + (json + "\n" + FENCE) }

  // ---------------------------------------------------------------- the first opener decides

  lemma {:induction false} SkipToOpener(text: string, tag: string, from: nat, i: nat)
    requires from <= i <= |text| && forall j | from <= j < i :: !OpenerAt(text, tag, j)
    ensures ExtractFrom(text, tag, from) == ExtractFrom(text, tag, i)
    decreases i - from
  {
    if from < i {
      SkipToOpener(text, tag, from + 1, i);
    }
  }

  lemma {:induction false} NextNewlineMonotone(text: string, a: nat, b: nat)
    requires a <= b <= |text| && NextNewline(text, b).Some?
    ensures NextNewline(text, a).Some? && NextNewline(text, a).value <= NextNewline(text, b).value
    decreases b - a
  {
    if a < b && text[a] != '\n' {
      NextNewlineMonotone(text, a + 1, b);
    }
  }

  /** When an opener has no payload, neither has any later one. */
  lemma LaterOpenersFail(text: string, tag: string, i: nat, j: nat)
    requires i <= j && OpenerAt(text, tag, i) && OpenerAt(text, tag, j)
    requires PayloadAt(text, tag, i).None?
    ensures PayloadAt(text, tag, j).None?
  {
    var a, b := i + 3 + |tag|, j + 3 + |tag|;
    if NextNewline(text, b).Some? {
      NextNewlineMonotone(text, a, b);
      NextFenceFacts(text, NextNewline(text, a).value + 1);
      NextFenceFacts(text, NextNewline(text, b).value + 1);
    }
  }

  lemma {:induction false} NothingLeft(text: string, tag: string, from: nat)
    requires from <= |text|
    requires forall j: nat | from <= j && OpenerAt(text, tag, j) :: PayloadAt(text, tag, j).None?
    ensures ExtractFrom(text, tag, from) == None
    decreases |text| - from
  {
    if from < |text| {
      NothingLeft(text, tag, from + 1);
    }
  }

  /** The search for a match never goes past the first opener: that one's payload is the answer. */
  lemma FirstOpenerDecides(text: string, tag: string, i: nat)
    requires OpenerAt(text, tag, i) && forall j | 0 <= j < i :: !OpenerAt(text, tag, j)
    ensures Extract(text, tag) == PayloadAt(text, tag, i)
  {
    SkipToOpener(text, tag, 0, i);
    if PayloadAt(text, tag, i).None? {
      forall j: nat | i <= j && OpenerAt(text, tag, j)
        ensures PayloadAt(text, tag, j).None?
      {
        LaterOpenersFail(text, tag, i, j);
      }
      NothingLeft(text, tag, i);
    }
  }

  lemma NoOpenerNoPayload(text: string, tag: string)
    requires !HasFencedPayload(text, tag)
    ensures Extract(text, tag) == None
  {
    NothingLeft(text, tag, 0);
  }

  // ---------------------------------------------------------------- round trip

  /** No opener straddles the end of the prose when a fence follows it. */
  lemma NoStraddlingOpener(prose: string, rest: string, tag: string, i: nat)
    requires tag != "" && '`' !in tag && FenceAt(rest, 0)
    requires i < |prose| && !OpenerAt(prose, tag, i)
    ensures !OpenerAt(prose + rest, tag, i)
  {
    var text := prose + rest;
    if |prose| < i + 3 {
      assert text[i + 3] == '`' && tag[0] in tag;
    } else if |prose| < i + 3 + |tag| {
      assert text[|prose|] == '`' && tag[|prose| - (i + 3)] in tag;
    } else {
      assert text[i..|prose|] == prose[i..];
      assert |prose| == i + 3 + |tag| ==> text[|prose|] == '`';
    }
  }

  lemma NoOpenerInProse(prose: string, rest: string, tag: string)
    requires tag != "" && '`' !in tag && !HasFencedPayload(prose, tag) && FenceAt(rest, 0)
    ensures forall j | 0 <= j < |prose| :: !OpenerAt(prose + rest, tag, j)
  {
    forall j | 0 <= j < |prose|
      ensures !OpenerAt(prose + rest, tag, j)
    {
      NoStraddlingOpener(prose, rest, tag, j);
    }
  }

  /** A payload that starts on the line after its opener. */
  lemma PayloadIs(text: string, tag: string, i: nat, start: nat)
    requires OpenerAt(text, tag, i) && start == i + 4 + |tag| && start <= |text| && text[start - 1] == '\n'
    ensures PayloadAt(text, tag, i) ==
            match NextFence(text, start) case None => None case Some(c) => Some(text[start..c])
  {
  }

  /** Up to the fence that follows it, a payload is read back whole exactly when it holds no fence itself. */
  lemma ReadBack(front: string, json: string, close: string, suffix: string)
    requires IsFence(close)
    ensures var text, start := front + (json + "\n") + close + suffix, |front|;
            var c := NextFence(text, start);
            c.Some? && (text[start..c.value] == json + "\n" <==> !HasFence(json))
  {
    var text, body := front + (json + "\n") + close + suffix, json + "\n";
    var end := |front + body|;
    assert text[end..end + 3] == close;
    NextFenceFacts(text, |front|);
    if HasFence(json) {
      var k :| 0 <= k < |json| && FenceAt(json, k);
      assert text[|front| + k..|front| + k + 3] == json[k..k + 3];
      assert FenceAt(text, |front| + k);
    } else {
      BodyEndsBeforeFence(json);
      FenceAfter(front, body, close, suffix);
      assert text[|front|..end] == body;
    }
  }

  lemma BodyEndsBeforeFence(json: string)
    requires !HasFence(json)
    ensures EndsBeforeFence(json + "\n")
  {
    var body := json + "\n";
    forall k | 0 <= k < |body|
      ensures !FenceAt(body, k)
    {
      assert k < |json| ==> !FenceAt(json, k);
    }
  }

  /** What an opening line puts in the text. */
  lemma OpeningLine(pre: string, open: string, tag: string, post: string)
    requires IsFence(open)
    ensures var text, i := pre + (open + tag + "\n") + post, |pre|;
            && i + 4 + |tag| <= |text| && text[i + 3 + |tag|] == '\n'
            && FenceAt(text, i) && TagAt(text, tag, i + 3) && OpenerAt(text, tag, i)
  {
    var text, line := pre + (open + tag + "\n") + post, open + tag + "\n";
    assert forall k | 0 <= k < |line| :: text[|pre| + k] == line[k];
    assert line[3 + |tag|] == '\n' && forall k | 0 <= k < |tag| :: line[3 + k] == tag[k];
  }

  /** The same text, its parts grouped as the opener search meets them. */
  lemma TailOf(a: string, b: string, c: string, d: string, e: string)
    ensures a + b + c + d + e == a + (b + c + d + e)
  {
  }

  /** The rendered block, seen as an opener followed by its payload. */
  lemma ExtractsRendered(prose: string, open: string, tag: string, json: string, close: string, suffix: string)
    requires tag != "" && '`' !in tag && !HasFencedPayload(prose, tag) && IsFence(open) && IsFence(close)
    ensures var text := prose + (open + tag + "\n") + (json + "\n") + close + suffix;
            Extract(text, tag) == Some(json + "\n") <==> !HasFence(json)
  {
    var line, body := open + tag + "\n", json + "\n";
    var text, start := prose + line + body + close + suffix, |prose| + 4 + |tag|;
    TailOf(prose, line, body, close, suffix);
    assert FenceAt(line + body + close + suffix, 0);
    NoOpenerInProse(prose, line + body + close + suffix, tag);
    assert text == prose + line + (body + close + suffix);
    OpeningLine(prose, open, tag, body + close + suffix);
    FirstOpenerDecides(text, tag, |prose|);
    PayloadIs(text, tag, |prose|, start);
    ReadBack(prose + line, json, close, suffix);
  }

  /**
   * A rendered payload is read back, with its newline, exactly when the JSON text holds no fence:
   * for any prose without an opener for the tag, and whatever follows the block.
   */
  lemma RoundTrip(prose: string, tag: string, json: string, suffix: string)
    requires tag != "" && '`' !in tag && !HasFencedPayload(prose, tag)
    ensures Extract(prose + Render(tag, json) + suffix, tag) == Some(json + "\n") <==> !HasFence(json)
  {
    ExtractsRendered(prose, FENCE, tag, json, FENCE, suffix);
    Regrouped(prose, FENCE + tag + "\n", json + "\n", FENCE, suffix);
  }

  lemma Regrouped(a: string, b: string, c: string, d: string, e: string)
    ensures a + (b + (c + d)) + e == a + b + c + d + e
  {
    assert b + (c + d) == b + c + d;
    assert a + (b + c + d) == a + b + c + d;
  }

  // ---------------------------------------------------------------- other tags

  /** A tag's opener is not an opener of another tag, even of one it extends or is extended by. */
  lemma OnlyItsOwnOpener(text: string, tag: string, other: string, i: nat)
    requires IsTag(tag) && IsTag(other) && tag != other
    requires FenceAt(text, i) && TagAt(text, tag, i + 3) && i + 3 + |tag| < |text| && text[i + 3 + |tag|] == '\n'
    ensures !OpenerAt(text, other, i)
  {
    if |other| < |tag| {
      assert text[i + 3 + |other|] == tag[|other|];
    } else if |other| == |tag| {
      var k :| 0 <= k < |tag| && tag[k] != other[k];
      assert text[i + 3 + k] == tag[k];
    } else {
      assert other[|tag|] in other && text[i + 3 + |tag|] == '\n';
    }
  }

  /** Past its first character, an opening line holds no fence. */
  lemma NoFenceInOpeningLine(pre: string, open: string, tag: string, post: string, i: nat)
    requires IsFence(open) && IsTag(tag) && 0 < i < 4 + |tag|
    ensures !FenceAt(pre + (open + tag + "\n") + post, |pre| + i)
  {
    var text, line := pre + (open + tag + "\n") + post, open + tag + "\n";
    assert forall k | 0 <= k < |line| :: text[|pre| + k] == line[k];
    if i < 3 {
      assert line[3] == tag[0] && tag[0] in tag;
    } else if i < 3 + |tag| {
      assert line[i] == tag[i - 3] && tag[i - 3] in tag;
    } else {
      assert line[i] == '\n';
    }
  }

  lemma OpenerInTail(pre: string, tail: string, tag: string, i: nat)
    requires !OpenerAt(tail, tag, i)
    ensures !OpenerAt(pre + tail, tag, |pre| + i)
  {
    assert forall k | 0 <= k < |tail| :: (pre + tail)[|pre| + k] == tail[k];
  }

  lemma NotAtOpeningLine(prose: string, open: string, tag: string, post: string, other: string)
    requires IsFence(open) && IsTag(tag) && IsTag(other) && tag != other
    ensures !OpenerAt(prose + (open + tag + "\n") + post, other, |prose|)
  {
    OpeningLine(prose, open, tag, post);
    OnlyItsOwnOpener(prose + (open + tag + "\n") + post, tag, other, |prose|);
  }

  lemma NoOtherOpener(prose: string, open: string, tag: string, json: string, close: string, suffix: string, other: string, j: nat)
    requires IsFence(open) && IsFence(close) && IsTag(tag) && IsTag(other) && tag != other && !HasFence(json)
    requires !HasFencedPayload(prose, other) && !HasFencedPayload(close + suffix, other)
    ensures !OpenerAt(prose + (open + tag + "\n") + (json + "\n") + (close + suffix), other, j)
  {
    var line, body, rest := open + tag + "\n", json + "\n", close + suffix;
    var text := prose + line + body + rest;
    if j < |prose| {
      assert text == prose + (line + body + rest);
      assert line[..3] == open;
      NoOpenerInProse(prose, line + body + rest, other);
    } else if j < |prose + line| {
      assert text == prose + line + (body + rest);
      if j == |prose| {
        NotAtOpeningLine(prose, open, tag, body + rest, other);
      } else {
        NoFenceInOpeningLine(prose, open, tag, body + rest, j - |prose|);
      }
    } else if j < |prose + line + body| {
      BodyEndsBeforeFence(json);
      NoneBefore(prose + line, body, rest, j - |prose + line|);
    } else if j < |text| {
      OpenerInTail(prose + line + body, rest, other, j - |prose + line + body|);
    }
  }

  /** A rendered block is invisible under any other tag, one that merely prefixes it included. */
  lemma OtherTagsSeeNothing(prose: string, tag: string, json: string, suffix: string, other: string)
    requires IsTag(tag) && IsTag(other) && tag != other && !HasFence(json)
    requires !HasFencedPayload(prose, other) && !HasFencedPayload(FENCE + suffix, other)
    ensures var text := prose + Render(tag, json) + suffix;
            !HasFencedPayload(text, other) && Extract(text, other) == None
  {
    var text := prose + Render(tag, json) + suffix;
    Regrouped(prose, FENCE + tag + "\n", json + "\n", FENCE, suffix);
    forall j: nat
      ensures !OpenerAt(text, other, j)
    {
      NoOtherOpener(prose, FENCE, tag, json, FENCE, suffix, other, j);
      assert prose + (FENCE + tag + "\n") + (json + "\n") + (FENCE + suffix) == text;
    }
    NoOpenerNoPayload(text, other);
  }

  /** The tag probe sees the rendered block. */
  lemma RenderedIsSeen(prose: string, tag: string, json: string, suffix: string)
    ensures HasFencedPayload(prose + Render(tag, json) + suffix, tag)
  {
    var text := prose + Render(tag, json) + suffix;
    var line := FENCE + tag + "\n";
    assert text[|prose|..|prose| + |line|] == line;
    assert forall k | 0 <= k < |line| :: text[|prose| + k] == line[k];
    assert OpenerAt(text, tag, |prose|);
  }

  ghost predicate FirstOpener(text: string, tag: string, i: nat) {
    OpenerAt(text, tag, i) && forall j | 0 <= j < i :: !OpenerAt(text, tag, j)
  }

  predicate NewlineAt(text: string, n: nat) { n < |text| && text[n] == '\n' }

  /** A fence lies somewhere past a newline that lies past `from`. */
  ghost predicate ClosedAfter(text: string, from: nat) {
    exists n: nat, k: nat | NewlineAt(text, n) && FenceAt(text, k) :: from <= n < k
  }

  lemma {:induction false} NextNewlineFacts(text: string, from: nat)
    requires from <= |text|
    ensures match NextNewline(text, from)
            case Some(i) => NewlineAt(text, i) && forall n: nat | from <= n < i :: !NewlineAt(text, n)
            case None => forall n: nat | from <= n :: !NewlineAt(text, n)
    decreases |text| - from
  {
    if from < |text| && text[from] != '\n' {
      NextNewlineFacts(text, from + 1);
    }
  }

  /** An opener has a payload exactly when a fence lies past a newline past it. */
  lemma PayloadExactly(text: string, tag: string, i: nat)
    requires OpenerAt(text, tag, i)
    ensures PayloadAt(text, tag, i).Some? <==> ClosedAfter(text, i + 3 + |tag|)
  {
    var line := NextNewline(text, i + 3 + |tag|);
    NextNewlineFacts(text, i + 3 + |tag|);
    if line.Some? {
      NextFenceFacts(text, line.value + 1);
    }
  }

  lemma {:induction false} SomeOpenerIsFirst(text: string, tag: string, i: nat) returns (first: nat)
    requires OpenerAt(text, tag, i)
    ensures FirstOpener(text, tag, first)
    decreases i
  {
    first := i;
    if j :| 0 <= j < i && OpenerAt(text, tag, j) {
      first := SomeOpenerIsFirst(text, tag, j);
    }
  }

  /**
   * The probe and the extraction differ exactly on the texts whose first opener is left open: no
   * fence lies past the end of its line, whatever openers follow it.
   */
  lemma SeenButUnreadExactly(text: string, tag: string)
    ensures HasFencedPayload(text, tag) && Extract(text, tag).None?
            <==> exists i: nat :: FirstOpener(text, tag, i) && !ClosedAfter(text, i + 3 + |tag|)
    ensures Extract(text, tag).Some? ==> HasFencedPayload(text, tag)
  {
    if i :| 0 <= i < |text| && OpenerAt(text, tag, i) {
      var first := SomeOpenerIsFirst(text, tag, i);
      FirstOpenerDecides(text, tag, first);
      PayloadExactly(text, tag, first);
      assert forall k: nat :: FirstOpener(text, tag, k) ==> k == first;
    } else {
      NoOpenerNoPayload(text, tag);
    }
  }

  lemma NoFenceInTail(pre: string, tail: string, k: nat)
    requires !HasFence(tail) && |pre| <= k
    ensures !FenceAt(pre + tail, k)
  {
    if k + 3 <= |pre + tail| {
      assert !FenceAt(tail, k - |pre|);
    }
  }

  /** Such texts exist: a bare opening line, and a block that is never closed. */
  lemma UnclosedIsSeenButUnread(tag: string, json: string)
    requires IsTag(tag) && !HasFence(json)
    ensures HasFencedPayload(FENCE + tag, tag) && Extract(FENCE + tag, tag) == None
    ensures HasFencedPayload(FENCE + tag + "\n" + json, tag) && Extract(FENCE + tag + "\n" + json, tag) == None
  {
    var bare := FENCE + tag;
    assert OpenerAt(bare, tag, 0);
    FirstOpenerDecides(bare, tag, 0);
    var unclosed := FENCE + tag + "\n" + json;
    assert OpenerAt(unclosed, tag, 0);
    forall k: nat | 3 + |tag| < k
      ensures !FenceAt(unclosed, k)
    {
      NoFenceInTail(FENCE + tag + "\n", json, k);
    }
    PayloadExactly(unclosed, tag, 0);
    FirstOpenerDecides(unclosed, tag, 0);
  }

  // ---------------------------------------------------------------- sanitised details

  /** Every backtick becomes an acute accent. */
  function Sanitize(s: string): (r: string)
    ensures |r| == |s| && '`' !in r
    ensures forall i | 0 <= i < |s| :: r[i] == if s[i] == '`' then '\U{00B4}' else s[i]
  {
    if s == "" then ""
    else [if s[0] == '`' then '\U{00B4}' else s[0]] + Sanitize(s[1..])
  }

  /** How the printer writes one character of a string value. */
  function PieceOf(c: char): Piece {
    if c == '"' || c == '\\' then Escape(c)
    else if c == '\n' then Escape('n')
    else if c == '\r' then Escape('r')
    else if c == '\t' then Escape('t')
    else if c == '\U{0008}' then Escape('b')
    else if c == '\U{000C}' then Escape('f')
    else if IsControl(c) then CleanPiece(Control(c))
    else Plain(c)
  }

  function PiecesOf(s: string): (r: seq<Piece>)
    ensures |r| == |s| && forall i | 0 <= i < |s| :: r[i] == PieceOf(s[i])
  {
    seq(|s|, i requires 0 <= i < |s| => PieceOf(s[i]))
  }

  predicate NoBacktick(ps: seq<Piece>) { Plain('`') !in ps }

  /** No string and no key of the tree spells a backtick. */
  predicate BacktickFree(v: Json) {
    match v
    case Token(_) => true
    case Text(pieces) => NoBacktick(pieces)
    case Array(items, _, _) => BacktickFreeItems(items)
    case Object(members, _, _) => BacktickFreeMembers(members)
  }

  predicate BacktickFreeItems(items: Items) {
    items.NoItems? || (BacktickFree(items.value) && BacktickFreeItems(items.rest))
  }

  predicate BacktickFreeMembers(members: Members) {
    members.NoMembers? || (NoBacktick(members.key) && BacktickFree(members.value) && BacktickFreeMembers(members.rest))
  }

  /** The printer spells every character with a legal unit that a reader takes for that very character. */
  lemma PieceReadsBack(c: char)
    ensures WellFormedPiece(PieceOf(c)) && Spelled(PieceOf(c)) == c as nat
  {
    if IsControl(c) {
      CleanPieceSaysTheSame(Control(c));
    }
  }

  lemma StringReadsBack(s: string)
    ensures forall p | p in PiecesOf(s) :: WellFormedPiece(p)
    ensures SpelledAll(PiecesOf(s)) == seq(|s|, i requires 0 <= i < |s| => s[i] as nat)
  {
    forall i | 0 <= i < |s|
      ensures WellFormedPiece(PieceOf(s[i])) && Spelled(PieceOf(s[i])) == s[i] as nat
    {
      PieceReadsBack(s[i]);
    }
  }

  /** A sanitised string is printed as legal pieces without a backtick. */
  lemma SanitisedPieces(s: string)
    ensures NoBacktick(PiecesOf(Sanitize(s)))
    ensures forall p | p in PiecesOf(Sanitize(s)) :: WellFormedPiece(p)
  {
    forall i | 0 <= i < |s|
      ensures WellFormedPiece(PieceOf(Sanitize(s)[i])) && PieceOf(Sanitize(s)[i]) != Plain('`')
    {
      var c := Sanitize(s)[i];
      assert c in Sanitize(s);
      if IsControl(c) {
        CleanPieceIsLegal(Control(c));
      }
    }
  }

  lemma {:induction false} PiecesWithoutBacktick(ps: seq<Piece>)
    requires NoBacktick(ps) && forall p | p in ps :: WellFormedPiece(p)
    ensures '`' !in PrintPieces(ps)
  {
    if ps != [] {
      assert ps[0] in ps;
      PiecesWithoutBacktick(ps[1..]);
      assert forall c | c in PrintPiece(ps[0]) :: c != '`';
    }
  }

  lemma {:induction false} TreeWithoutBacktick(v: Json)
    requires WellFormed(v) && BacktickFree(v)
    ensures '`' !in Print(v)
  {
    match v
    case Token(text) =>
    case Text(pieces) => PiecesWithoutBacktick(pieces);
    case Array(items, _, _) => ItemsWithoutBacktick(items);
    case Object(members, _, _) => MembersWithoutBacktick(members);
  }

  lemma {:induction false} ItemsWithoutBacktick(items: Items)
    requires WellFormedItems(items) && BacktickFreeItems(items)
    ensures '`' !in PrintItems(items)
  {
    if items.Item? {
      TreeWithoutBacktick(items.value);
      ItemsWithoutBacktick(items.rest);
    }
  }

  lemma {:induction false} MembersWithoutBacktick(members: Members)
    requires WellFormedMembers(members) && BacktickFreeMembers(members)
    ensures '`' !in PrintMembers(members)
  {
    if members.Member? {
      PiecesWithoutBacktick(members.key);
      TreeWithoutBacktick(members.value);
      MembersWithoutBacktick(members.rest);
    }
  }

  /** A value whose strings are sanitised always survives the codec, whatever surrounds the block. */
  lemma SanitisedRoundTrip(prose: string, tag: string, v: Json, suffix: string)
    requires tag != "" && '`' !in tag && !HasFencedPayload(prose, tag)
    requires WellFormed(v) && BacktickFree(v)
    ensures Extract(prose + Render(tag, Print(v)) + suffix, tag) == Some(Print(v) + "\n")
  {
    TreeWithoutBacktick(v);
    assert forall i | 0 <= i < |Print(v)| :: Print(v)[i] in Print(v);
    RoundTrip(prose, tag, Print(v), suffix);
  }
}
