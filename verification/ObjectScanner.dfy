/** The string-aware, restarting scan for top-level balanced `{…}` spans in free text. */
module ObjectScanner {
  import opened Wrappers
  import opened JsonText
  import opened Concat

  /** Where the scan stands inside an open span. */
  datatype Scan = Scan(depth: nat, inString: bool, escaped: bool)

  const OPENED := Scan(1, false, false)

  /** A half-open range of text positions. */
  datatype Span = Span(lo: nat, hi: nat)

  function Step(st: Scan, ch: char): Scan
    requires st.depth > 0
  {
    if st.inString then
      if st.escaped then st.(escaped := false)
      else if ch == '\\' then st.(escaped := true)
      else if ch == '"' then st.(inString := false)
      else st
    else if ch == '"' then st.(inString := true)
    else if ch == '{' then st.(depth := st.depth + 1)
    else if ch == '}' then st.(depth := st.depth - 1)
    else st
  }

  /** The position of the brace that closes the span open at `i`, if the text reaches one. */
  function CloseAt(text: string, i: nat, st: Scan): (r: Option<nat>)
    requires i <= |text| && st.depth > 0
    ensures r.Some? ==> i <= r.value < |text|
    decreases |text| - i
  {
    if i == |text| then None
    else var st' := Step(st, text[i]); if st'.depth == 0 then Some(i) else CloseAt(text, i + 1, st')
  }

  /** The brace matching the opener at `open`. */
  function Matching(text: string, open: nat): (r: Option<nat>)
    requires open < |text|
    ensures r.Some? ==> open < r.value < |text|
  {
    CloseAt(text, open + 1, OPENED)
  }

  /** Take the next opener; emit its span and go on after it, or pass over an opener nothing matches. */
  function ObjectSpans(text: string, from: nat): seq<Span>
    requires from <= |text|
    decreases |text| - from
  {
    if from == |text| then []
    else if text[from] != '{' then ObjectSpans(text, from + 1)
    else
      var close := Matching(text, from);
      if close.None? then ObjectSpans(text, from + 1)
      else [Span(from, close.value + 1)] + ObjectSpans(text, close.value + 1)
  }

  predicate InText(span: Span, text: string) { span.lo <= span.hi <= |text| }

  function TextOf(text: string, span: Span): string {
    if InText(span, text) then text[span.lo..span.hi] else ""
  }

  function TextsOf(text: string, spans: seq<Span>): (r: seq<string>)
    ensures |r| == |spans| && forall i | 0 <= i < |r| :: r[i] == TextOf(text, spans[i])
  {
    seq(|spans|, i requires 0 <= i < |spans| => TextOf(text, spans[i]))
  }

  lemma SpansFromMatch(text: string, open: nat, close: nat)
    requires open < |text| && text[open] == '{' && Matching(text, open) == Some(close)
    ensures ObjectSpans(text, open) == [Span(open, close + 1)] + ObjectSpans(text, close + 1)
  {
  }

  lemma TextsOfCons(text: string, span: Span, spans: seq<Span>)
    ensures TextsOf(text, [span] + spans) == [TextOf(text, span)] + TextsOf(text, spans)
  {
  }

  /** The texts of the spans from `from` on. */
  function Texts(text: string, from: nat): seq<string>
    requires from <= |text|
  {
    TextsOf(text, ObjectSpans(text, from))
  }

  lemma NoOpenerHere(text: string, i: nat)
    requires i < |text| && (text[i] == '{' ==> Matching(text, i) == None)
    ensures Texts(text, i) == Texts(text, i + 1)
  {
  }

  /** Emitting the span that closes at `close` leaves the texts after it to find. */
  lemma SpanEmitted(text: string, all: seq<string>, spans: seq<string>, open: nat, close: nat)
    requires open < |text| && text[open] == '{' && Matching(text, open) == Some(close)
    requires all == spans + Texts(text, open)
    ensures all == spans + [text[open..close + 1]] + Texts(text, close + 1)
  {
    SpansFromMatch(text, open, close);
    TextsOfCons(text, Span(open, close + 1), ObjectSpans(text, close + 1));
    Grouped(spans, [text[open..close + 1]], Texts(text, close + 1));
  }

  /** One character inside a string literal. */
  method InsideString(ch: char, escaped: bool) returns (inString: bool, escaped': bool)
    ensures forall d: nat | d > 0 :: Step(Scan(d, true, escaped), ch) == Scan(d, inString, escaped')
    ensures escaped' ==> inString
  {
    inString, escaped' := true, escaped;
    if escaped {
      escaped' := false;
    } else if ch == '\\' {
      escaped' := true;
    } else if ch == '"' {
      inString := false;
    }
  }

  /**
   * One left-to-right pass. It ends either outside any span or inside one that never closes,
   * whose opener it reports.
   */
  method Pass(text: string, from: nat) returns (spans: seq<string>, start: int)
    requires from <= |text|
    ensures start == -1 || from <= start < |text|
    ensures start == -1 ==> Texts(text, from) == spans
    ensures start != -1 ==> Texts(text, from) == spans + Texts(text, start + 1)
  {
    spans, start := [], -1;
    ghost var all := Texts(text, from);
    var depth: nat, inString, escaped := 0, false, false;
    for i := from to |text|
      invariant depth == 0 <==> start == -1
      invariant (escaped ==> inString) && (inString ==> depth > 0)
      invariant depth == 0 ==> all == spans + Texts(text, i)
      invariant depth > 0 ==> from <= start < i && text[start] == '{' && all == spans + Texts(text, start)
      invariant depth > 0 ==> Matching(text, start) == CloseAt(text, i, Scan(depth, inString, escaped))
    {
      var ch := text[i];
      if inString {
        inString, escaped := InsideString(ch, escaped);
        continue;
      }
      if ch == '"' && depth > 0 {
        inString := true;
      } else if ch == '{' {
        if depth == 0 {
          start := i;
        }
        depth := depth + 1;
      } else if ch == '}' && depth > 0 {
        depth := depth - 1;
        if depth == 0 && start != -1 {
          SpanEmitted(text, all, spans, start, i);
          spans := spans + [text[start..i + 1]];
          start := -1;
        }
      } else if depth == 0 {
        NoOpenerHere(text, i);
      }
    }
    if start == -1 {
      NothingAtEnd(text);
    } else {
      NoOpenerHere(text, start);
    }
  }

  /** The restarting passes of the source compute the recursive reading, and terminate. */
  method BalancedObjectSpans(text: string) returns (spans: seq<string>)
    ensures spans == TextsOf(text, ObjectSpans(text, 0))
  {
    spans := [];
    ghost var all, left := Texts(text, 0), Texts(text, 0);
    var from := 0;
    while from < |text|
      invariant from <= |text| && left == Texts(text, from) && all == spans + left
    {
      var found, start := Pass(text, from);
      if start == -1 {
        return spans + found;
      }
      ghost var rest := Texts(text, start + 1);
      Grouped(spans, found, rest);
      spans := spans + found;
      from, left := start + 1, rest;
    }
    NothingAtEnd(text);
  }

  lemma NothingAtEnd(text: string)
    ensures Texts(text, |text|) == []
  {
  }

  // ---------------------------------------------------------------- what the spans are

  /** The state after scanning all of `a`, or `None` once the span has closed within it. */
  function Over(a: string, st: Scan): Option<Scan>
    requires st.depth > 0
    decreases a
  {
    if a == "" then Some(st)
    else var st' := Step(st, a[0]); if st'.depth == 0 then None else Over(a[1..], st')
  }

  /** A span runs from an opener to the first position where braces outside strings balance. */
  ghost predicate IsBalanced(s: string) {
    |s| >= 2 && s[0] == '{' && s[|s| - 1] == '}' && Over(s[1..|s| - 1], OPENED) == Some(OPENED)
  }

  lemma {:induction false} CloseIsBalanced(text: string, i: nat, st: Scan)
    requires i <= |text| && st.depth > 0 && (st.escaped ==> st.inString)
    ensures var r := CloseAt(text, i, st);
            r.Some? ==> text[r.value] == '}' && Over(text[i..r.value], st) == Some(OPENED)
    decreases |text| - i
  {
    var r := CloseAt(text, i, st);
    if r.Some? {
      var st' := Step(st, text[i]);
      if st'.depth == 0 {
        assert text[i..i] == "";
      } else {
        CloseIsBalanced(text, i + 1, st');
        assert text[i..r.value][1..] == text[i + 1..r.value];
      }
    }
  }

  lemma MatchedSpanIsBalanced(text: string, open: nat)
    requires open < |text| && text[open] == '{' && Matching(text, open).Some?
    ensures IsBalanced(text[open..Matching(text, open).value + 1])
  {
    var close := Matching(text, open).value;
    CloseIsBalanced(text, open + 1, OPENED);
    var s := text[open..close + 1];
    Inner(text, open, close);
  }

  lemma Inner(text: string, open: nat, close: nat)
    requires open < close < |text|
    ensures var s := text[open..close + 1];
            |s| == close + 1 - open && s[0] == text[open] && s[|s| - 1] == text[close] && s[1..|s| - 1] == text[open + 1..close]
  {
    var s := text[open..close + 1];
    assert forall k | 0 <= k < |s| :: s[k] == text[open + k];
    assert s[1..|s| - 1] == text[open + 1..close];
  }

  ghost predicate Ordered(spans: seq<Span>) {
    forall i, j | 0 <= i < j < |spans| :: spans[i].hi <= spans[j].lo
  }

  lemma OrderedCons(first: Span, rest: seq<Span>)
    requires Ordered(rest) && forall s | s in rest :: first.hi <= s.lo
    ensures Ordered([first] + rest)
  {
  }

  ghost predicate BalancedFrom(text: string, from: nat, s: Span) {
    from <= s.lo < s.hi <= |text| && IsBalanced(text[s.lo..s.hi])
  }

  lemma AllCons(text: string, from: nat, first: Span, rest: seq<Span>)
    requires BalancedFrom(text, from, first) && forall s | s in rest :: BalancedFrom(text, first.hi, s)
    ensures forall s | s in [first] + rest :: BalancedFrom(text, from, s)
  {
  }

  /** Spans are balanced ranges of the text, in order and disjoint. */
  lemma {:induction false} SpansAreOrderedAndBalanced(text: string, from: nat)
    requires from <= |text|
    ensures forall s | s in ObjectSpans(text, from) :: BalancedFrom(text, from, s)
    ensures Ordered(ObjectSpans(text, from))
    decreases |text| - from
  {
    if from < |text| {
      var close := Matching(text, from);
      if text[from] == '{' && close.Some? {
        MatchedSpanIsBalanced(text, from);
        SpansAreOrderedAndBalanced(text, close.value + 1);
        SpansFromMatch(text, from, close.value);
        AllCons(text, from, Span(from, close.value + 1), ObjectSpans(text, close.value + 1));
        OrderedCons(Span(from, close.value + 1), ObjectSpans(text, close.value + 1));
      } else {
        SpansAreOrderedAndBalanced(text, from + 1);
      }
    }
  }

  /** Every opener the spans leave out is one that nothing in the text matches. */
  lemma {:induction false} SpansAreComplete(text: string, from: nat, k: nat)
    requires from <= k < |text| && text[k] == '{' && Matching(text, k).Some?
    ensures exists s | s in ObjectSpans(text, from) :: s.lo <= k < s.hi
    decreases |text| - from
  {
    var close := Matching(text, from);
    if text[from] == '{' && close.Some? {
      SpansFromMatch(text, from, close.value);
      if k > close.value {
        SpansAreComplete(text, close.value + 1, k);
        var s :| s in ObjectSpans(text, close.value + 1) && s.lo <= k < s.hi;
        assert s in ObjectSpans(text, from);
      } else {
        assert Span(from, close.value + 1) in ObjectSpans(text, from);
      }
    } else {
      SpansAreComplete(text, from + 1, k);
    }
  }

  // ---------------------------------------------------------------- scanning printed trees

  lemma {:induction false} OverConcat(a: string, b: string, st: Scan)
    requires st.depth > 0 && Over(a, st).Some?
    ensures Over(a, st).value.depth > 0
    ensures Over(a + b, st) == Over(b, Over(a, st).value)
    decreases a
  {
    if a == "" {
      assert a + b == b;
    } else {
      assert (a + b)[1..] == a[1..] + b;
      OverConcat(a[1..], b, Step(st, a[0]));
    }
  }

  /** The scan passes over `a` and comes out as it went in. */
  ghost predicate Neutral(a: string) {
    forall d: nat | d > 0 :: Over(a, Scan(d, false, false)) == Some(Scan(d, false, false))
  }

  /** Likewise inside a string literal. */
  ghost predicate NeutralInString(a: string) {
    forall d: nat | d > 0 :: Over(a, Scan(d, true, false)) == Some(Scan(d, true, false))
  }

  lemma NeutralConcat(a: string, b: string)
    requires Neutral(a) && Neutral(b)
    ensures Neutral(a + b)
  {
    forall d: nat | d > 0
      ensures Over(a + b, Scan(d, false, false)) == Some(Scan(d, false, false))
    {
      OverConcat(a, b, Scan(d, false, false));
    }
  }

  lemma {:induction false} PlainIsNeutral(a: string)
    requires '"' !in a && '{' !in a && '}' !in a
    ensures Neutral(a)
  {
    if a != "" {
      PlainIsNeutral(a[1..]);
      forall d: nat | d > 0
        ensures Over(a, Scan(d, false, false)) == Some(Scan(d, false, false))
      {
        assert Step(Scan(d, false, false), a[0]) == Scan(d, false, false);
      }
    }
  }

  lemma PieceIsNeutral(p: Piece, d: nat)
    requires WellFormedPiece(p) && d > 0
    ensures Over(PrintPiece(p), Scan(d, true, false)) == Some(Scan(d, true, false))
  {
    var st := Scan(d, true, false);
    match p
    case Plain(c) => assert [c][1..] == "";
    case Control(c) => assert [c][1..] == "";
    case Escape(c) =>
      assert Over([c], st.(escaped := true)) == Some(st) by {
        assert [c][1..] == "";
      }
      assert ['\\', c][1..] == [c];
    case Unicode(hex) =>
      var t := PrintPiece(p);
      assert t[1..] == "u" + hex && t[1..][1..] == hex;
      HexIsNeutral(hex, st);
  }

  lemma {:induction false} HexIsNeutral(hex: string, st: Scan)
    requires st.depth > 0 && st.inString && !st.escaped && forall c | c in hex :: IsHexDigit(c)
    ensures Over(hex, st) == Some(st)
  {
    if hex != "" {
      assert hex[0] in hex;
      HexIsNeutral(hex[1..], st);
    }
  }

  lemma {:induction false} PiecesAreNeutral(ps: seq<Piece>)
    requires forall p | p in ps :: WellFormedPiece(p)
    ensures NeutralInString(PrintPieces(ps))
  {
    if ps != [] {
      PiecesAreNeutral(ps[1..]);
      forall d: nat | d > 0
        ensures Over(PrintPieces(ps), Scan(d, true, false)) == Some(Scan(d, true, false))
      {
        PieceIsNeutral(ps[0], d);
        OverConcat(PrintPiece(ps[0]), PrintPieces(ps[1..]), Scan(d, true, false));
      }
    }
  }

  lemma TextIsNeutral(ps: seq<Piece>)
    requires forall p | p in ps :: WellFormedPiece(p)
    ensures Neutral(PrintText(ps))
  {
    PiecesAreNeutral(ps);
    forall d: nat | d > 0
      ensures Over(PrintText(ps), Scan(d, false, false)) == Some(Scan(d, false, false))
    {
      var inner := PrintPieces(ps);
      Grouped("\"", inner, "\"");
      OverCons('"', inner + "\"", Scan(d, false, false));
      OverConcat(inner, "\"", Scan(d, true, false));
      OverCons('"', "", Scan(d, true, false));
      assert "\"" == ['"'] + "";
    }
  }

  lemma OverCons(c: char, t: string, st: Scan)
    requires st.depth > 0 && Step(st, c).depth > 0
    ensures Over([c] + t, st) == Over(t, Step(st, c))
  {
    assert ([c] + t)[1..] == t;
  }

  lemma ClosesOne(d: nat)
    requires d > 0
    ensures Over("}", Scan(d + 1, false, false)) == Some(Scan(d, false, false))
  {
    OverCons('}', "", Scan(d + 1, false, false));
    assert "}" == ['}'] + "";
  }

  lemma BracesAt(a: string, close: string, d: nat)
    requires d > 0 && Over(a, Scan(d + 1, false, false)) == Some(Scan(d + 1, false, false))
    requires Over(close, Scan(d + 1, false, false)) == Some(Scan(d, false, false))
    ensures Over(['{'] + (a + close), Scan(d, false, false)) == Some(Scan(d, false, false))
  {
    OverCons('{', a + close, Scan(d, false, false));
    OverConcat(a, close, Scan(d + 1, false, false));
  }

  lemma BracesAroundNeutral(a: string)
    requires Neutral(a)
    ensures Neutral("{" + a + "}")
  {
    var text := "{" + a + "}";
    Grouped("{", a, "}");
    forall d: nat | d > 0
      ensures Over(text, Scan(d, false, false)) == Some(Scan(d, false, false))
    {
      ClosesOne(d);
      BracesAt(a, "}", d);
    }
  }

  /** Every printed tree, malformed or not, is neutral to the scan. */
  lemma {:induction false} PrintIsNeutral(v: Json)
    requires WellFormed(v)
    ensures Neutral(Print(v))
  {
    match v
    case Token(text) => PlainIsNeutral(text);
    case Text(pieces) => TextIsNeutral(pieces);
    case Array(items, trailing, tail) =>
      ItemsAreNeutral(items);
      PlainIsNeutral("[");
      PlainIsNeutral(Ending(trailing, tail, ']'));
      NeutralConcat(PrintItems(items), Ending(trailing, tail, ']'));
      NeutralConcat("[", PrintItems(items) + Ending(trailing, tail, ']'));
    case Object(members, trailing, tail) =>
      BodyIsNeutral(v);
      BracesAroundNeutral(Body(v));
      PrintAroundBody(v);
  }

  /** What stands between an object's braces. */
  function Body(v: Json): string
    requires v.Object?
  {
    PrintMembers(v.members) + ((if v.trailing then "," else "") + v.tail)
  }

  lemma PrintAroundBody(v: Json)
    requires v.Object?
    ensures Print(v) == "{" + Body(v) + "}"
  {
  }

  lemma {:induction false} BodyIsNeutral(v: Json)
    requires v.Object? && WellFormed(v)
    ensures Neutral(Body(v))
    decreases v, 0
  {
    var end := (if v.trailing then "," else "") + v.tail;
    MembersAreNeutral(v.members);
    PlainIsNeutral(end);
    NeutralConcat(PrintMembers(v.members), end);
  }

  lemma {:induction false} ItemsAreNeutral(items: Items)
    requires WellFormedItems(items)
    ensures Neutral(PrintItems(items))
  {
    match items
    case NoItems => PlainIsNeutral("");
    case Item(lead, value, after, rest) =>
      var end := Separator(after, rest.Item?);
      PrintIsNeutral(value);
      ItemsAreNeutral(rest);
      PlainIsNeutral(lead);
      PlainIsNeutral(end);
      NeutralConcat(end, PrintItems(rest));
      NeutralConcat(Print(value), end + PrintItems(rest));
      NeutralConcat(lead, Print(value) + (end + PrintItems(rest)));
  }

  lemma {:induction false} MembersAreNeutral(members: Members)
    requires WellFormedMembers(members)
    ensures Neutral(PrintMembers(members))
  {
    match members
    case NoMembers => PlainIsNeutral("");
    case Member(lead, key, beforeColon, afterColon, value, after, rest) =>
      var end, colon := Separator(after, rest.Member?), Colon(beforeColon, afterColon);
      var tail := end + PrintMembers(rest);
      TextIsNeutral(key);
      PrintIsNeutral(value);
      MembersAreNeutral(rest);
      PlainIsNeutral(lead);
      PlainIsNeutral(colon);
      PlainIsNeutral(end);
      NeutralConcat(end, PrintMembers(rest));
      NeutralConcat(Print(value), tail);
      NeutralConcat(colon, Print(value) + tail);
      NeutralConcat(PrintText(key), colon + (Print(value) + tail));
      NeutralConcat(lead, PrintText(key) + (colon + (Print(value) + tail)));
  }

  // ---------------------------------------------------------------- objects in prose

  /** Scanning past a stretch that does not close the span. */
  lemma {:induction false} CloseSkips(pre: string, a: string, rest: string, st: Scan)
    requires st.depth > 0 && Over(a, st).Some?
    ensures Over(a, st).value.depth > 0
    ensures CloseAt(pre + a + rest, |pre|, st) == CloseAt(pre + a + rest, |pre| + |a|, Over(a, st).value)
    decreases a
  {
    if a != "" {
      var text := pre + a + rest;
      assert text[|pre|] == a[0];
      CloseSkips(pre + [a[0]], a[1..], rest, Step(st, a[0]));
      assert pre + [a[0]] + a[1..] + rest == text;
    }
  }

  lemma CloserMatches(text: string, i: nat, j: nat)
    requires i < j < |text| && text[j] == '}' && CloseAt(text, i + 1, OPENED) == CloseAt(text, j, OPENED)
    ensures Matching(text, i) == Some(j)
  {
  }

  /** The characters of a braced text's braces. */
  lemma BracesStand(pre: string, open: string, body: string, close: string, rest: string)
    requires |open| == 1 && |close| == 1
    ensures var text := pre + open + body + (close + rest);
            |pre| + 1 + |body| < |text| && text[|pre|] == open[0] && text[|pre| + 1 + |body|] == close[0]
  {
  }

  /** An opener is matched by the closer past a text that leaves the scan as it was. */
  lemma BracedCloses(pre: string, open: string, body: string, close: string, rest: string)
    requires |open| == 1 && open[0] == '{' && |close| == 1 && close[0] == '}' && Over(body, OPENED) == Some(OPENED)
    ensures var text := pre + open + body + (close + rest);
            |pre| < |text| && text[|pre|] == '{' && Matching(text, |pre|) == Some(|pre| + 1 + |body|)
  {
    BracesStand(pre, open, body, close, rest);
    CloseSkips(pre + open, body, close + rest, OPENED);
    CloserMatches(pre + open + body + (close + rest), |pre|, |pre| + 1 + |body|);
  }

  lemma Regrouped(pre: string, open: string, body: string, close: string, rest: string)
    ensures pre + (open + body + close) + rest == pre + open + body + (close + rest)
  {
  }

  /** An object's opener is matched by its own closer, whatever surrounds it. */
  lemma ObjectCloses(pre: string, v: Json, rest: string)
    requires v.Object? && WellFormed(v)
    ensures var text := pre + Print(v) + rest;
            |pre| < |text| && text[|pre|] == '{' && Matching(text, |pre|) == Some(|pre| + |Print(v)| - 1)
  {
    PrintAroundBody(v);
    BodyIsNeutral(v);
    BracedCloses(pre, "{", Body(v), "}", rest);
    Regrouped(pre, "{", Body(v), "}", rest);
  }

  lemma {:induction false} ProseHasNoSpans(pre: string, prose: string, rest: string)
    requires '{' !in prose
    ensures ObjectSpans(pre + prose + rest, |pre|) == ObjectSpans(pre + prose + rest, |pre| + |prose|)
    decreases prose
  {
    if prose != "" {
      assert (pre + prose + rest)[|pre|] == prose[0];
      assert pre + [prose[0]] + prose[1..] + rest == pre + prose + rest;
      ProseHasNoSpans(pre + [prose[0]], prose[1..], rest);
    }
  }

  /** Prose and objects by turns, beginning and ending with prose. */
  function Interleave(prose: seq<string>, objects: seq<Json>): string
    requires |prose| == |objects| + 1
    decreases objects
  {
    if objects == [] then prose[0]
    else prose[0] + Print(objects[0]) + Interleave(prose[1..], objects[1..])
  }

  function PrintAll(vs: seq<Json>): (r: seq<string>)
    ensures |r| == |vs| && forall i | 0 <= i < |r| :: r[i] == Print(vs[i])
  {
    seq(|vs|, i requires 0 <= i < |vs| => Print(vs[i]))
  }

  ghost predicate Objects(vs: seq<Json>) {
    forall v | v in vs :: v.Object? && WellFormed(v)
  }

  /** A matched opener contributes its span's text and the scan goes on after it. */
  lemma SpanFromMatch(text: string, at: nat, o: string)
    requires o != "" && at + |o| <= |text| && text[at..at + |o|] == o
    requires text[at] == '{' && Matching(text, at) == Some(at + |o| - 1)
    ensures TextsOf(text, ObjectSpans(text, at)) == [o] + TextsOf(text, ObjectSpans(text, at + |o|))
  {
    SpansFromMatch(text, at, at + |o| - 1);
    TextsOfCons(text, Span(at, at + |o|), ObjectSpans(text, at + |o|));
  }

  lemma SpanAfterProse(pre: string, prose: string, o: string, rest: string)
    requires '{' !in prose && o != "" && o[0] == '{'
    requires Matching(pre + prose + o + rest, |pre + prose|) == Some(|pre + prose| + |o| - 1)
    ensures var text := pre + prose + o + rest;
            Texts(text, |pre|) == [o] + Texts(text, |pre + prose + o|)
  {
    var text := pre + prose + o + rest;
    assert ObjectSpans(text, |pre|) == ObjectSpans(text, |pre + prose|) by {
      ProseHasNoSpans(pre, prose, o + rest);
      Grouped(pre + prose, o, rest);
    }
    Middle(pre + prose, o, rest);
    SpanFromMatch(text, |pre + prose|, o);
  }

  /** One object after a stretch of brace-free prose is the next span. */
  lemma NextObjectIsFound(pre: string, prose: string, v: Json, rest: string)
    requires v.Object? && WellFormed(v) && '{' !in prose
    ensures var text, after := pre + prose + Print(v) + rest, pre + prose + Print(v);
            TextsOf(text, ObjectSpans(text, |pre|)) == [Print(v)] + TextsOf(text, ObjectSpans(text, |after|))
  {
    ObjectCloses(pre + prose, v, rest);
    SpanAfterProse(pre, prose, Print(v), rest);
  }

  /** Objects set in brace-free prose are found exactly, each as one span and in order. */
  lemma {:induction false} ScannerFindsObjects(pre: string, prose: seq<string>, objects: seq<Json>)
    requires |prose| == |objects| + 1 && Objects(objects)
    requires forall p | p in prose :: '{' !in p
    ensures var text := pre + Interleave(prose, objects);
            TextsOf(text, ObjectSpans(text, |pre|)) == PrintAll(objects)
    decreases objects
  {
    var text := pre + Interleave(prose, objects);
    if objects == [] {
      ProseHasNoSpans(pre, prose[0], "");
      assert text == pre + prose[0] + "";
    } else {
      var v, rest := objects[0], Interleave(prose[1..], objects[1..]);
      assert v in objects && prose[0] in prose;
      var after := pre + prose[0] + Print(v);
      assert text == after + rest;
      NextObjectIsFound(pre, prose[0], v, rest);
      ScannerFindsObjects(after, prose[1..], objects[1..]);
      assert PrintAll(objects) == [Print(v)] + PrintAll(objects[1..]);
    }
  }

  lemma {:induction false} OpenersDeepen(a: string, d: nat)
    requires d > 0 && '"' !in a && '}' !in a
    ensures Over(a, Scan(d, false, false)).Some?
    ensures var st := Over(a, Scan(d, false, false)).value; st.depth >= d && !st.inString && !st.escaped
    decreases a
  {
    if a != "" {
      OpenersDeepen(a[1..], if a[0] == '{' then d + 1 else d);
    }
  }

  /** Stray openers before an object never hide it, when no quote or closer outside it could match them. */
  lemma {:induction false} ScannerSkipsStrayOpeners(pre: string, stray: string, v: Json, after: string)
    requires v.Object? && WellFormed(v)
    requires '"' !in stray && '}' !in stray && '"' !in after && '{' !in after && '}' !in after
    ensures var text := pre + stray + Print(v) + after;
            TextsOf(text, ObjectSpans(text, |pre|)) == [Print(v)]
    decreases stray
  {
    var text := pre + stray + Print(v) + after;
    if stray == "" {
      assert pre + stray == pre;
      ObjectCloses(pre, v, after);
      ProseHasNoSpans(pre + Print(v), after, "");
      assert text == pre + Print(v) + after + "";
      var span := Span(|pre|, |pre + Print(v)|);
      assert ObjectSpans(text, |pre|) == [span];
      assert TextOf(text, span) == Print(v);
    } else {
      var next := pre + [stray[0]];
      assert text == next + stray[1..] + Print(v) + after;
      ScannerSkipsStrayOpeners(next, stray[1..], v, after);
      assert text[|pre|] == stray[0];
      if stray[0] == '{' {
        PrintIsNeutral(v);
        PlainIsNeutral(after);
        StrayIsUnmatched(next, stray[1..], Print(v), after);
      }
    }
  }

  lemma StrayIsUnmatched(pre: string, stray: string, o: string, after: string)
    requires '"' !in stray && '}' !in stray && Neutral(o) && Neutral(after)
    ensures CloseAt(pre + stray + o + after, |pre|, OPENED) == None
  {
    NeutralConcat(o, after);
    StayOpen(stray, o + after);
    NeverCloses(pre, stray + (o + after));
    Grouped(pre + stray, o, after);
    Grouped(pre, stray, o + after);
  }

  lemma StayOpen(stray: string, tail: string)
    requires '"' !in stray && '}' !in stray && Neutral(tail)
    ensures Over(stray + tail, OPENED).Some?
  {
    OpenersDeepen(stray, 1);
    OverConcat(stray, tail, OPENED);
    var st := Over(stray, OPENED).value;
    assert Over(tail, Scan(st.depth, false, false)).Some?;
  }

  lemma NeverCloses(pre: string, a: string)
    requires Over(a, OPENED).Some?
    ensures CloseAt(pre + a, |pre|, OPENED) == None
  {
    CloseSkips(pre, a, "", OPENED);
    assert pre + a + "" == pre + a;
  }
}
