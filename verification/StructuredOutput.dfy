/** Extracting the last parseable JSON object from an agent's final message. */
module StructuredOutput {
  import opened Wrappers
  import opened JsonText
  import opened JsonRepair
  import opened ObjectScanner
  import opened TextSearch
  import opened Concat

  /** What a strict parser makes of a text: an object, or some other JSON value. */
  datatype Parsed<V> = ObjectValue(value: V) | OtherValue

  /** A strict parser, `None` where it throws. */
  type Parser<V> = string -> Option<Parsed<V>>

  /** Strict first, then one repaired retry. */
  function ParseLeniently<V>(parse: Parser<V>, candidate: string): Option<Parsed<V>> {
    if parse(candidate).Some? then parse(candidate) else parse(Repair(candidate, Outside))
  }

  // ---------------------------------------------------------------- fenced blocks

  function TrimStart(s: string): string
    decreases s
  {
    if s != "" && IsSpace(s[0]) then TrimStart(s[1..]) else s
  }

  function TrimEnd(s: string): string
    decreases s
  {
    if s != "" && IsSpace(s[|s| - 1]) then TrimEnd(s[..|s| - 1]) else s
  }

  function Trim(s: string): string { TrimEnd(TrimStart(s)) }

  function Lower(c: char): char {
    if 'A' <= c <= 'Z' then c + ' ' else c
  }

  predicate IsJsonTag(s: string) {
    |s| == 4 && Lower(s[0]) == 'j' && Lower(s[1]) == 's' && Lower(s[2]) == 'o' && Lower(s[3]) == 'n'
  }

  /** The optional language tag is `json` in any mixture of cases, and nothing else. */
  lemma TagLetters(s: string)
    ensures IsJsonTag(s) <==> |s| == 4 && s[0] in "jJ" && s[1] in "sS" && s[2] in "oO" && s[3] in "nN"
  {
    forall i | 0 <= i < |s|
      ensures Lower(s[i]) != s[i] ==> s[i] as int + 32 == Lower(s[i]) as int
    {
    }
  }

  /** A fenced block's payload: without the optional language tag and the blanks around it. */
  function Payload(block: string): string {
    Trim(if |block| >= 4 && IsJsonTag(block[..4]) then block[4..] else block)
  }

  /** The blocks fences delimit pairwise from `from` on. */
  function FencedBlocks(text: string, from: nat): seq<string>
    requires from <= |text|
    decreases |text| - from
  {
    var open := NextFence(text, from);
    if open.None? then []
    else
      var close := NextFence(text, open.value + 3);
      if close.None? then []
      else [Payload(text[open.value + 3..close.value])] + FencedBlocks(text, close.value + 3)
  }

  // ---------------------------------------------------------------- choosing a candidate

  function ObjectIn<V>(parse: Parser<V>, candidate: string): Option<V> {
    match ParseLeniently(parse, candidate)
    case Some(ObjectValue(value)) => Some(value)
    case _ => None
  }

  /** The object the latest object-bearing candidate holds. */
  function Newest<V>(parse: Parser<V>, candidates: seq<string>): Option<V>
    decreases candidates
  {
    if candidates == [] then None
    else
      var last := ObjectIn(parse, candidates[|candidates| - 1]);
      if last.Some? then last else Newest(parse, candidates[..|candidates| - 1])
  }

  /** Bare spans in order, then fenced blocks in order: oldest preference first. */
  function Candidates(text: string): seq<string> {
    TextsOf(text, ObjectSpans(text, 0)) + FencedBlocks(text, 0)
  }

  function Reversed<T>(s: seq<T>): (r: seq<T>)
    ensures |r| == |s| && forall i | 0 <= i < |s| :: r[i] == s[|s| - 1 - i]
  {
    if s == [] then [] else Reversed(s[1..]) + [s[0]]
  }

  lemma NextBlock(text: string, from: nat, open: nat, close: nat)
    requires from <= |text| && NextFence(text, from) == Some(open)
    requires open + 3 <= |text| && NextFence(text, open + 3) == Some(close)
    ensures FencedBlocks(text, from) == [Payload(text[open + 3..close])] + FencedBlocks(text, close + 3)
  {
  }

  lemma NoMoreBlocks(text: string, from: nat)
    requires from <= |text|
    requires NextFence(text, from) == None || NextFence(text, NextFence(text, from).value + 3) == None
    ensures FencedBlocks(text, from) == []
  {
  }

  /** One global match: the next block's payload and where the search resumes. */
  method Exec(text: string, lastIndex: nat) returns (m: Option<(string, nat)>)
    requires lastIndex <= |text|
    ensures m.None? ==> FencedBlocks(text, lastIndex) == []
    ensures m.Some? ==> lastIndex < m.value.1 <= |text|
    ensures m.Some? ==> FencedBlocks(text, lastIndex) == [m.value.0] + FencedBlocks(text, m.value.1)
  {
    m := None;
    var open := NextFence(text, lastIndex);
    var close := if open.None? then None else NextFence(text, open.value + 3);
    if close.None? {
      NoMoreBlocks(text, lastIndex);
    } else {
      var payload, next := Payload(text[open.value + 3..close.value]), close.value + 3;
      NextBlock(text, lastIndex, open.value, close.value);
      m := Some((payload, next));
    }
  }

  /** The repeated global match collects every fenced block. */
  method CollectFenced(text: string) returns (fenced: seq<string>)
    ensures fenced == FencedBlocks(text, 0)
  {
    fenced := [];
    ghost var all, left := FencedBlocks(text, 0), FencedBlocks(text, 0);
    var m := Exec(text, 0);
    while m.Some?
      invariant m.Some? ==> m.value.1 <= |text| && left == [m.value.0] + FencedBlocks(text, m.value.1)
      invariant m.None? ==> left == []
      invariant all == fenced + left
      decreases if m.Some? then 1 + |text| - m.value.1 else 0
    {
      left := FencedBlocks(text, m.value.1);
      Grouped(fenced, [m.value.0], left);
      fenced := fenced + [m.value.0];
      m := Exec(text, m.value.1);
    }
  }

  lemma {:induction false} ReversedConcat(a: seq<string>, b: seq<string>)
    ensures Reversed(a + b) == Reversed(b) + Reversed(a)
  {
    if a == [] {
      assert a + b == b;
    } else {
      assert (a + b)[1..] == a[1..] + b;
      ReversedConcat(a[1..], b);
    }
  }

  /** Trying candidates newest first finds the newest object. */
  method FirstObject<V>(parse: Parser<V>, candidates: seq<string>, ghost all: seq<string>) returns (r: Option<V>)
    requires candidates == Reversed(all)
    ensures r == Newest(parse, all)
  {
    ghost var left := all;
    for i := 0 to |candidates|
      invariant left == all[..|all| - i] && Newest(parse, all) == Newest(parse, left)
    {
      var value := ParseLeniently(parse, candidates[i]);
      if value.Some? && value.value.ObjectValue? {
        return Some(value.value.value);
      }
      left := left[..|left| - 1];
    }
    r := None;
  }

  method ExtractJsonObject<V>(parse: Parser<V>, text: string) returns (r: Result<V, string>)
    ensures r == (match Newest(parse, Candidates(text))
                  case Some(value) => Ok(value)
                  case None => Err("no parseable JSON object found in agent output"))
  {
    var fenced := CollectFenced(text);
    var spans := BalancedObjectSpans(text);
    ReversedConcat(spans, fenced);
    var value := FirstObject(parse, Reversed(fenced) + Reversed(spans), Candidates(text));
    if value.Some? {
      return Ok(value.value);
    }
    r := Err("no parseable JSON object found in agent output");
  }

  // ---------------------------------------------------------------- what is extracted

  /** Later candidates win, and one that yields no object falls through to the earlier ones. */
  lemma {:induction false} NewestConcat<V>(parse: Parser<V>, a: seq<string>, b: seq<string>)
    ensures Newest(parse, a + b) == (if Newest(parse, b).Some? then Newest(parse, b) else Newest(parse, a))
    decreases b
  {
    if b == [] {
      assert a + b == a;
    } else {
      assert (a + b)[..|a + b| - 1] == a + b[..|b| - 1];
      NewestConcat(parse, a, b[..|b| - 1]);
    }
  }

  /** The parser reads legal text of `v` as the object `value`, and rejects malformed text of it. */
  predicate Reads<V(==)>(parse: Parser<V>, v: Json, value: V) {
    && parse(Print(Clean(v))) == Some(ObjectValue(value))
    && (!Strict(v) ==> parse(Print(v)) == None)
  }

  lemma LenientReads<V>(parse: Parser<V>, v: Json, value: V)
    requires WellFormed(v) && Reads(parse, v, value)
    ensures ObjectIn(parse, Print(v)) == Some(value)
  {
    RepairMends(v);
    CleanIsLegal(v);
  }

  lemma NoFencedBlocks(text: string)
    requires !HasFence(text)
    ensures FencedBlocks(text, 0) == []
  {
    NoFenceInTail("", text);
    assert "" + text == text;
  }

  /** With no fenced block the last span is the candidate that is tried first. */
  lemma LastCandidate<V>(parse: Parser<V>, text: string, spans: seq<string>, value: V)
    requires TextsOf(text, ObjectSpans(text, 0)) == spans && spans != [] && FencedBlocks(text, 0) == []
    requires ObjectIn(parse, spans[|spans| - 1]) == Some(value)
    ensures Newest(parse, Candidates(text)) == Some(value)
  {
  }

  /**
   * Objects set in brace-free prose, with no fence anywhere: the last one is extracted, even when
   * it carries bare control characters in strings or trailing commas.
   */
  lemma LastObjectIsExtracted<V>(parse: Parser<V>, prose: seq<string>, objects: seq<Json>, value: V)
    requires |prose| == |objects| + 1 && objects != [] && Objects(objects)
    requires forall p | p in prose :: '{' !in p
    requires !HasFence(Interleave(prose, objects))
    requires Reads(parse, objects[|objects| - 1], value)
    ensures Newest(parse, Candidates(Interleave(prose, objects))) == Some(value)
  {
    var text := Interleave(prose, objects);
    ScannerFindsObjects("", prose, objects);
    assert "" + text == text;
    NoFencedBlocks(text);
    LenientReads(parse, objects[|objects| - 1], value);
    LastCandidate(parse, text, PrintAll(objects), value);
  }

  /** Unmatched openers in front of the object do not hide it. */
  lemma ObjectAfterStrayOpenersIsExtracted<V>(parse: Parser<V>, stray: string, v: Json, after: string, value: V)
    requires v.Object? && WellFormed(v) && Reads(parse, v, value)
    requires '"' !in stray && '}' !in stray && '"' !in after && '{' !in after && '}' !in after
    requires !HasFence(stray + Print(v) + after)
    ensures Newest(parse, Candidates(stray + Print(v) + after)) == Some(value)
  {
    var text := stray + Print(v) + after;
    StrayIsSkipped(stray, v, after);
    NoFencedBlocks(text);
    LenientReads(parse, v, value);
    LastCandidate(parse, text, [Print(v)], value);
  }

  lemma StrayIsSkipped(stray: string, v: Json, after: string)
    requires v.Object? && WellFormed(v)
    requires '"' !in stray && '}' !in stray && '"' !in after && '{' !in after && '}' !in after
    ensures TextsOf(stray + Print(v) + after, ObjectSpans(stray + Print(v) + after, 0)) == [Print(v)]
  {
    ScannerSkipsStrayOpeners("", stray, v, after);
    assert "" + stray == stray;
  }

  // ---------------------------------------------------------------- fenced objects

  lemma {:induction false} TrimStartOf(lead: string, t: string)
    requires Blank(lead) && t != "" && !IsSpace(t[0])
    ensures TrimStart(lead + t) == t
    decreases lead
  {
    if lead == "" {
      assert lead + t == t;
    } else {
      assert lead[0] in lead;
      assert (lead + t)[1..] == lead[1..] + t;
      TrimStartOf(lead[1..], t);
    }
  }

  lemma {:induction false} TrimEndOf(t: string, tail: string)
    requires Blank(tail) && t != "" && !IsSpace(t[|t| - 1])
    ensures TrimEnd(t + tail) == t
    decreases tail
  {
    if tail == "" {
      assert t + tail == t;
    } else {
      assert tail[|tail| - 1] in tail;
      assert (t + tail)[..|t + tail| - 1] == t + tail[..|tail| - 1];
      TrimEndOf(t, tail[..|tail| - 1]);
    }
  }

  lemma TrimOf(lead: string, t: string, tail: string)
    requires Blank(lead) && Blank(tail)
    requires t != "" && !IsSpace(t[0]) && !IsSpace(t[|t| - 1])
    ensures Trim(lead + t + tail) == t
  {
    assert lead + t + tail == lead + (t + tail);
    TrimStartOf(lead, t + tail);
    TrimEndOf(t, tail);
  }

  /** The payload of a block, tagged in any letter case or untagged. */
  lemma PayloadOf(tag: string, lead: string, t: string, tail: string)
    requires (tag == "" || IsJsonTag(tag)) && Blank(lead) && Blank(tail)
    requires t != "" && t[0] == '{' && t[|t| - 1] == '}'
    ensures Payload(tag + (lead + t + tail)) == t
  {
    var block := tag + (lead + t + tail);
    TrimOf(lead, t, tail);
    if tag == "" {
      assert block == lead + t + tail;
      assert block[0] == if lead == "" then '{' else lead[0];
      assert lead != "" ==> lead[0] in lead;
    } else {
      assert block[..4] == tag && block[4..] == lead + t + tail;
    }
  }

  /** The first fence of a text whose front part has none. */
  lemma FirstFence(text: string, pre: string, open: string, more: string)
    requires text == pre + open + more && EndsBeforeFence(pre) && IsFence(open)
    ensures NextFence(text, 0) == Some(|pre|)
  {
    FenceAfter("", pre, open, more);
    assert "" + pre == pre;
  }

  lemma OnlyBlock(text: string, open: nat, close: nat)
    requires NextFence(text, 0) == Some(open)
    requires open + 3 <= |text| && NextFence(text, open + 3) == Some(close)
    requires close + 3 <= |text| && NextFence(text, close + 3) == None
    ensures open + 3 <= close && FencedBlocks(text, 0) == [Payload(text[open + 3..close])]
  {
    var rest := FencedBlocks(text, close + 3);
    NextBlock(text, 0, open, close);
    assert rest == [] by {
      NoMoreBlocks(text, close + 3);
    }
    assert [Payload(text[open + 3..close])] + rest == [Payload(text[open + 3..close])];
  }

  lemma BlockBetween(pre: string, open: string, block: string, close: string, post: string)
    requires EndsBeforeFence(pre) && EndsBeforeFence(block) && !HasFence(post) && IsFence(open) && IsFence(close)
    ensures FencedBlocks(pre + open + block + close + post, 0) == [Payload(block)]
  {
    var text := pre + open + block + close + post;
    Grouped(pre + open, block + close, post);
    Grouped(pre + open, block, close);
    FirstFence(text, pre, open, block + close + post);
    FenceAfter(pre + open, block, close, post);
    Grouped(pre + open + block, close, post);
    Middle(pre + open, block, close + post);
    NoFenceInTail(pre + open + block + close, post);
    OnlyBlock(text, |pre|, |pre| + 3 + |block|);
  }

  /** A single fenced block is the only fenced candidate. */
  lemma OneBlock(pre: string, block: string, post: string)
    requires EndsBeforeFence(pre) && EndsBeforeFence(block) && !HasFence(post)
    ensures FencedBlocks(pre + FENCE + block + FENCE + post, 0) == [Payload(block)]
  {
    BlockBetween(pre, FENCE, block, FENCE, post);
  }

  lemma ObjectEnds(v: Json)
    requires v.Object?
    ensures var t := Print(v); |t| >= 2 && t[0] == '{' && t[|t| - 1] == '}'
  {
    PrintAroundBody(v);
  }

  /** An object in a fenced block is extracted whatever bare objects the rest of the message holds. */
  lemma FencedObjectWins<V>(parse: Parser<V>, pre: string, tag: string, lead: string, v: Json, tail: string, post: string, value: V)
    requires v.Object? && WellFormed(v) && Reads(parse, v, value)
    requires (tag == "" || IsJsonTag(tag)) && Blank(lead) && Blank(tail)
    requires EndsBeforeFence(pre) && !HasFence(post) && !HasFence(tag + (lead + Print(v) + tail))
    ensures Newest(parse, Candidates(pre + FENCE + (tag + (lead + Print(v) + tail)) + FENCE + post)) == Some(value)
  {
    var t := Print(v);
    var block := tag + (lead + t + tail);
    ObjectEnds(v);
    assert block[|block| - 1] == if tail == "" then '}' else tail[|tail| - 1];
    assert tail != "" ==> tail[|tail| - 1] in tail;
    OneBlock(pre, block, post);
    PayloadOf(tag, lead, t, tail);
    LenientReads(parse, v, value);
    var text := pre + FENCE + block + FENCE + post;
    NewestConcat(parse, TextsOf(text, ObjectSpans(text, 0)), FencedBlocks(text, 0));
  }

  /** A fenced block that holds no object, such as a code snippet, does not shadow a bare one. */
  lemma FencedSnippetFallsThrough<V>(parse: Parser<V>, pre: string, block: string, post: string)
    requires EndsBeforeFence(pre) && EndsBeforeFence(block) && !HasFence(post)
    requires ObjectIn(parse, Payload(block)) == None
    ensures var text := pre + FENCE + block + FENCE + post;
            Newest(parse, Candidates(text)) == Newest(parse, TextsOf(text, ObjectSpans(text, 0)))
  {
    var text := pre + FENCE + block + FENCE + post;
    OneBlock(pre, block, post);
    NewestConcat(parse, TextsOf(text, ObjectSpans(text, 0)), FencedBlocks(text, 0));
  }
}
