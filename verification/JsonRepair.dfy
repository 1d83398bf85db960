/** The rewriter that mends model-emitted JSON: bare control characters and trailing commas. */
module JsonRepair {
  import opened JsonText
  import opened Concat

  /** Where the rewriter stands with respect to string literals. */
  datatype Quote = Outside | Inside | Escaped

  function Next(q: Quote, ch: char): Quote {
    match q
    case Outside => if ch == '"' then Inside else Outside
    case Inside => if ch == '\\' then Escaped else if ch == '"' then Outside else Inside
    case Escaped => Inside
  }

  /** The rewriter's state after all of `t`. */
  function After(t: string, q: Quote): Quote
    decreases t
  {
    if t == "" then q else After(t[1..], Next(q, t[0]))
  }

  /** What `\s` matches. */
  predicate IsSpace(c: char) {
    c == ' ' || c == '\t' || c == '\n' || c == '\r' || c == '\U{000B}' || c == '\U{000C}' || c == '\U{00A0}' || c == '\U{1680}'
    || '\U{2000}' <= c <= '\U{200A}' || c == '\U{2028}' || c == '\U{2029}' || c == '\U{202F}'
    || c == '\U{205F}' || c == '\U{3000}' || c == '\U{FEFF}'
  }

  /** The next character that is not whitespace is a closing bracket. */
  predicate Closes(t: string)
    decreases t
  {
    t != "" && (t[0] == '}' || t[0] == ']' || (IsSpace(t[0]) && Closes(t[1..])))
  }

  /** What the first character of `t` becomes. */
  function Mended(t: string, q: Quote): string
    requires t != ""
  {
    if q == Outside && t[0] == ',' && Closes(t[1..]) then ""
    else if q == Inside && IsControl(t[0]) then ControlEscape(t[0])
    else [t[0]]
  }

  /** The escape written for a control character. */
  function ControlEscape(c: char): string
    requires IsControl(c)
  {
    if c == '\n' then "\\n"
    else if c == '\r' then "\\r"
    else if c == '\t' then "\\t"
    else "\\u" + HexOf(c)
  }

  /** A control character's code in hexadecimal, padded to four digits. */
  function HexOf(c: char): string
    requires IsControl(c)
  {
    "00" + [HexDigit(c as nat / 16), HexDigit(c as nat % 16)]
  }

  function Repair(t: string, q: Quote): string
    decreases t
  {
    if t == "" then "" else Mended(t, q) + Repair(t[1..], Next(q, t[0]))
  }

  /** The source's two flags. */
  function Flags(inString: bool, escaped: bool): Quote {
    if !inString then Outside else if escaped then Escaped else Inside
  }

  lemma RepairStep(t: string, i: nat, q: Quote)
    requires i < |t|
    ensures t[i..] != "" && Repair(t[i..], q) == Mended(t[i..], q) + Repair(t[i + 1..], Next(q, t[i]))
    ensures t[i..][1..] == t[i + 1..]
  {
  }

  /** The source's loop with its two flags and growing output computes `Repair`. */
  method RepairJson(candidate: string) returns (out: string)
    ensures out == Repair(candidate, Outside)
  {
    out := "";
    var inString, escaped := false, false;
    for i := 0 to |candidate|
      invariant escaped ==> inString
      invariant Repair(candidate, Outside) == out + Repair(candidate[i..], Flags(inString, escaped))
    {
      var ch := candidate[i];
      ghost var q, rest := Flags(inString, escaped), candidate[i + 1..];
      RepairStep(candidate, i, q);
      var piece := [ch];
      if inString {
        if escaped {
          escaped := false;
        } else if ch == '\\' {
          escaped := true;
        } else if ch == '"' {
          inString := false;
        } else if ch == '\n' {
          piece := "\\n";
        } else if ch == '\r' {
          piece := "\\r";
        } else if ch == '\t' {
          piece := "\\t";
        } else if ch < ' ' {
          piece := "\\u" + HexOf(ch);
        }
      } else if ch == '"' {
        inString := true;
      } else if ch == ',' && Closes(candidate[i + 1..]) {
        piece := "";
      }
      assert piece == Mended(candidate[i..], q) && Flags(inString, escaped) == Next(q, ch);
      Grouped(out, piece, Repair(rest, Next(q, ch)));
      out := out + piece;
    }
    assert candidate[|candidate|..] == "";
  }

  // ---------------------------------------------------------------- what a repair keeps

  lemma {:induction false} AfterConcat(a: string, b: string, q: Quote)
    ensures After(a + b, q) == After(b, After(a, q))
    decreases a
  {
    if a == "" {
      assert a + b == b;
    } else {
      assert (a + b)[1..] == a[1..] + b;
      AfterConcat(a[1..], b, Next(q, a[0]));
    }
  }

  lemma MendedSimulates(t: string, q: Quote)
    requires t != ""
    ensures After(Mended(t, q), q) == Next(q, t[0])
  {
    var m := Mended(t, q);
    if q == Inside && IsControl(t[0]) {
      EscapeStaysInside(t[0]);
    } else if m != "" {
      assert m[1..] == "";
    }
  }

  /** Plain string content neither leaves the string nor is bare control text. */
  lemma {:induction false} ContentStaysInside(t: string)
    requires forall c | c in t :: !IsControl(c) && c != '"' && c != '\\'
    ensures After(t, Inside) == Inside && NoBareControls(t, Inside)
    decreases t
  {
    if t != "" {
      assert t[0] in t && forall c | c in t[1..] :: c in t;
      ContentStaysInside(t[1..]);
    }
  }

  /** The escape written for a control character is read as string content. */
  lemma EscapeStaysInside(c: char)
    requires IsControl(c)
    ensures var m := ControlEscape(c);
            |m| > 1 && After(m, Inside) == Inside && NoBareControls(m, Inside)
  {
    var m := ControlEscape(c);
    assert m[0] == '\\';
    assert !IsControl(m[1]);
    forall d | d in m[2..]
      ensures !IsControl(d) && d != '"' && d != '\\'
    {
      assert |m| > 2 ==> m[2..] == HexOf(c);
    }
    ContentStaysInside(m[2..]);
    assert m[1..][1..] == m[2..];
  }

  /** Reading the output leaves the reader where reading the input would. */
  lemma {:induction false} RepairSimulates(t: string, q: Quote)
    ensures After(Repair(t, q), q) == After(t, q)
    decreases t
  {
    if t != "" {
      MendedSimulates(t, q);
      RepairSimulates(t[1..], Next(q, t[0]));
      AfterConcat(Mended(t, q), Repair(t[1..], Next(q, t[0])), q);
    }
  }

  /** No bare control character stands in a string, save right after an escaping backslash. */
  predicate NoBareControls(t: string, q: Quote)
    decreases t
  {
    t == "" || (!(q == Inside && IsControl(t[0])) && NoBareControls(t[1..], Next(q, t[0])))
  }

  /** No comma outside strings has a closing bracket as its next non-blank character. */
  predicate NoTrailingCommas(t: string, q: Quote)
    decreases t
  {
    t == "" || (!(q == Outside && t[0] == ',' && Closes(t[1..])) && NoTrailingCommas(t[1..], Next(q, t[0])))
  }

  lemma {:induction false} NoBareControlsConcat(a: string, b: string, q: Quote)
    ensures NoBareControls(a + b, q) <==> NoBareControls(a, q) && NoBareControls(b, After(a, q))
    decreases a
  {
    if a == "" {
      assert a + b == b;
    } else {
      assert (a + b)[1..] == a[1..] + b;
      NoBareControlsConcat(a[1..], b, Next(q, a[0]));
    }
  }

  lemma MendedHasNoBareControls(t: string, q: Quote)
    requires t != ""
    ensures NoBareControls(Mended(t, q), q)
  {
    var m := Mended(t, q);
    if q == Inside && IsControl(t[0]) {
      EscapeStaysInside(t[0]);
    } else if m != "" {
      assert m[1..] == "";
    }
  }

  lemma {:induction false} RepairRemovesBareControls(t: string, q: Quote)
    ensures NoBareControls(Repair(t, q), q)
    decreases t
  {
    if t != "" {
      var rest := Repair(t[1..], Next(q, t[0]));
      RepairRemovesBareControls(t[1..], Next(q, t[0]));
      MendedSimulates(t, q);
      MendedHasNoBareControls(t, q);
      NoBareControlsConcat(Mended(t, q), rest, q);
    }
  }

  lemma {:induction false} RepairKeepsCloses(t: string)
    requires Closes(t)
    ensures Closes(Repair(t, Outside)) && Repair(t, Outside)[0] == t[0]
    decreases t
  {
    var r := Repair(t, Outside);
    assert Mended(t, Outside) == [t[0]];
    assert r[1..] == Repair(t[1..], Outside);
    if t[0] != '}' && t[0] != ']' {
      RepairKeepsCloses(t[1..]);
    }
  }

  /** A repair is the identity exactly on texts with neither malformation. */
  lemma {:induction false} RepairFixesExactly(t: string, q: Quote)
    ensures Repair(t, q) == t <==> NoBareControls(t, q) && NoTrailingCommas(t, q)
    decreases t
  {
    if t != "" {
      var m, rest := Mended(t, q), Repair(t[1..], Next(q, t[0]));
      RepairFixesExactly(t[1..], Next(q, t[0]));
      if m == "" {
        RepairKeepsCloses(t[1..]);
        assert Repair(t, q)[0] != t[0];
      } else if m == [t[0]] {
        assert t == m + t[1..];
        if Repair(t, q) == t {
          assert rest == (m + rest)[1..] == t[1..];
        }
      } else {
        assert Repair(t, q)[0] == '\\' != t[0];
      }
    }
  }

  // ---------------------------------------------------------------- repairing twice

  /** After optional whitespace comes a comma that itself has a closing bracket next. */
  predicate CommaThenCloses(t: string)
    decreases t
  {
    t != "" && ((t[0] == ',' && Closes(t[1..])) || (IsSpace(t[0]) && CommaThenCloses(t[1..])))
  }

  /** No comma outside strings precedes a trailing comma with only whitespace between. */
  predicate NoDoubledCommas(t: string, q: Quote)
    decreases t
  {
    t == "" || (!(q == Outside && t[0] == ',' && CommaThenCloses(t[1..])) && NoDoubledCommas(t[1..], Next(q, t[0])))
  }

  lemma ClosesCons(c: char, t: string)
    ensures Closes([c] + t) <==> c == '}' || c == ']' || (IsSpace(c) && Closes(t))
  {
    assert ([c] + t)[1..] == t;
  }

  /** A first character that is kept decides with the repaired rest. */
  lemma KeptHead(t: string)
    requires t != "" && Mended(t, Outside) != ""
    ensures Closes(Repair(t, Outside)) <==>
            t[0] == '}' || t[0] == ']' || (IsSpace(t[0]) && Closes(Repair(t[1..], Outside)))
  {
    ClosesCons(t[0], Repair(t[1..], Next(Outside, t[0])));
  }

  lemma DroppedHead(t: string)
    requires t != "" && Mended(t, Outside) == ""
    ensures Closes(Repair(t, Outside)) && CommaThenCloses(t)
  {
    RepairKeepsCloses(t[1..]);
    assert Repair(t, Outside) == Repair(t[1..], Outside);
  }

  lemma {:induction false} ClosesAfterRepair(t: string)
    ensures Closes(Repair(t, Outside)) <==> Closes(t) || CommaThenCloses(t)
    decreases t
  {
    if t != "" {
      if Mended(t, Outside) == "" {
        DroppedHead(t);
      } else {
        KeptHead(t);
        if t[0] != '"' {
          ClosesAfterRepair(t[1..]);
        }
      }
    }
  }

  lemma {:induction false} StringContentHasNoCommas(a: string, b: string, q: Quote)
    requires q != Outside && '"' !in a
    ensures NoTrailingCommas(a + b, q) <==> NoTrailingCommas(b, After(a, q))
    decreases a
  {
    if a == "" {
      assert a + b == b;
    } else {
      assert (a + b)[1..] == a[1..] + b;
      StringContentHasNoCommas(a[1..], b, Next(q, a[0]));
    }
  }

  lemma EscapeHasNoQuote(c: char)
    requires IsControl(c)
    ensures '"' !in ControlEscape(c)
  {
    if c != '\n' && c != '\r' && c != '\t' {
      var hex := HexOf(c);
      assert hex[0] == '0' && hex[1] == '0' && hex[2] == HexDigit(c as nat / 16) && hex[3] == HexDigit(c as nat % 16);
      assert forall i | 0 <= i < 4 :: hex[i] != '"';
    }
  }

  lemma {:induction false} TrailingAfterRepair(t: string, q: Quote)
    ensures NoTrailingCommas(Repair(t, q), q) <==> NoDoubledCommas(t, q)
    decreases t
  {
    if t != "" {
      var m, rest, q' := Mended(t, q), Repair(t[1..], Next(q, t[0])), Next(q, t[0]);
      TrailingAfterRepair(t[1..], q');
      if q == Inside && IsControl(t[0]) {
        MendedSimulates(t, q);
        EscapeHasNoQuote(t[0]);
        StringContentHasNoCommas(m, rest, q);
      } else if m == "" {
        NoDoubleWhenCloses(t[1..]);
        assert Repair(t, q) == rest;
      } else {
        assert Repair(t, q)[1..] == rest;
        if q == Outside && t[0] == ',' {
          ClosesAfterRepair(t[1..]);
        }
      }
    }
  }

  lemma NoDoubleWhenCloses(t: string)
    requires Closes(t)
    ensures !CommaThenCloses(t)
    decreases t
  {
    if IsSpace(t[0]) {
      NoDoubleWhenCloses(t[1..]);
    }
  }

  /** One repair is enough exactly when no comma precedes a trailing comma. */
  lemma RepairTwice(t: string)
    ensures Repair(Repair(t, Outside), Outside) == Repair(t, Outside) <==> NoDoubledCommas(t, Outside)
  {
    RepairFixesExactly(Repair(t, Outside), Outside);
    RepairRemovesBareControls(t, Outside);
    TrailingAfterRepair(t, Outside);
  }

  // ---------------------------------------------------------------- repairing printed trees

  /** Outside strings `a` becomes `b` in front of `rest`. */
  predicate Becomes(a: string, b: string, rest: string) {
    Repair(a + rest, Outside) == b + Repair(rest, Outside)
  }

  lemma BecomesConcat(a: string, b: string, a': string, b': string, rest: string)
    requires Becomes(a, a', b + rest) && Becomes(b, b', rest)
    ensures Becomes(a + b, a' + b', rest)
  {
    assert a + b + rest == a + (b + rest);
  }

  /** A character the rewriter has no reason to touch is copied. */
  lemma Copied(c: char, rest: string, q: Quote)
    requires q == Outside ==> c != ','
    requires q == Inside ==> !IsControl(c)
    ensures Repair([c] + rest, q) == [c] + Repair(rest, Next(q, c))
  {
    assert ([c] + rest)[1..] == rest;
  }

  lemma {:induction false} PlainStays(a: string, rest: string)
    requires '"' !in a && ',' !in a
    ensures Becomes(a, a, rest)
    decreases a
  {
    if a == "" {
      assert a + rest == rest;
    } else {
      var more := a[1..] + rest;
      PlainStays(a[1..], rest);
      Copied(a[0], more, Outside);
      assert a + rest == [a[0]] + more;
      assert a + Repair(rest, Outside) == [a[0]] + (a[1..] + Repair(rest, Outside));
    }
  }

  lemma PieceRepaired(p: Piece, rest: string)
    requires WellFormedPiece(p)
    ensures Repair(PrintPiece(p) + rest, Inside) == PrintPiece(CleanPiece(p)) + Repair(rest, Inside)
  {
    match p
    case Plain(c) => Copied(c, rest, Inside);
    case Control(c) => ControlRepaired(c, rest);
    case Escape(c) => LoneEscapeRepaired(c, rest);
    case Unicode(hex) => UnicodeRepaired(hex, rest);
  }

  lemma ControlRepaired(c: char, rest: string)
    requires IsControl(c)
    ensures Repair([c] + rest, Inside) == PrintPiece(CleanPiece(Control(c))) + Repair(rest, Inside)
  {
    assert ([c] + rest)[1..] == rest;
    assert ControlEscape(c) == PrintPiece(CleanPiece(Control(c)));
  }

  /** An escape, and the plain content after it, is copied. */
  lemma EscapeRepaired(c: char, a: string, rest: string)
    requires Repair(a + rest, Inside) == a + Repair(rest, Inside)
    ensures Repair(['\\', c] + a + rest, Inside) == ['\\', c] + a + Repair(rest, Inside)
  {
    Copied('\\', [c] + (a + rest), Inside);
    Copied(c, a + rest, Escaped);
    TwoThen('\\', c, a, rest);
    TwoThen('\\', c, a, Repair(rest, Inside));
  }

  lemma LoneEscapeRepaired(c: char, rest: string)
    ensures Repair(['\\', c] + rest, Inside) == ['\\', c] + Repair(rest, Inside)
  {
    assert "" + rest == rest && ['\\', c] + "" == ['\\', c] && "" + Repair(rest, Inside) == Repair(rest, Inside);
    EscapeRepaired(c, "", rest);
  }

  lemma TwoThen(c: char, d: char, a: string, b: string)
    ensures [c, d] + a + b == [c] + ([d] + (a + b))
  {
  }

  lemma UnicodeRepaired(hex: string, rest: string)
    requires forall c | c in hex :: IsHexDigit(c)
    ensures Repair("\\u" + hex + rest, Inside) == "\\u" + hex + Repair(rest, Inside)
  {
    HexRepaired(hex, rest);
    EscapeRepaired('u', hex, rest);
  }

  /** One more character of plain string content in front of content that is kept. */
  lemma ContentStays(c: char, a: string, rest: string)
    requires !IsControl(c) && c != '"' && c != '\\'
    requires Repair(a + rest, Inside) == a + Repair(rest, Inside)
    ensures Repair([c] + a + rest, Inside) == [c] + a + Repair(rest, Inside)
  {
    assert [c] + a + rest == [c] + (a + rest);
    Copied(c, a + rest, Inside);
    Grouped([c], a, Repair(rest, Inside));
  }

  lemma {:induction false} HexRepaired(hex: string, rest: string)
    requires forall c | c in hex :: IsHexDigit(c)
    ensures Repair(hex + rest, Inside) == hex + Repair(rest, Inside)
    decreases hex
  {
    if hex == "" {
      assert hex + rest == rest;
    } else {
      assert IsHexDigit(hex[0]);
      HexRepaired(hex[1..], rest);
      ContentStays(hex[0], hex[1..], rest);
      assert hex == [hex[0]] + hex[1..];
    }
  }

  lemma {:induction false} PiecesRepaired(ps: seq<Piece>, rest: string)
    requires forall p | p in ps :: WellFormedPiece(p)
    ensures Repair(PrintPieces(ps) + rest, Inside) == PrintPieces(CleanPieces(ps)) + Repair(rest, Inside)
    decreases ps
  {
    if ps == [] {
      assert PrintPieces(ps) + rest == rest;
    } else {
      var more := PrintPieces(ps[1..]);
      PiecesRepaired(ps[1..], rest);
      PieceRepaired(ps[0], more + rest);
      Grouped(PrintPiece(ps[0]), more, rest);
      Grouped(PrintPiece(CleanPiece(ps[0])), PrintPieces(CleanPieces(ps[1..])), Repair(rest, Inside));
      assert CleanPieces(ps)[1..] == CleanPieces(ps[1..]);
    }
  }

  lemma TextRepaired(ps: seq<Piece>, rest: string)
    requires forall p | p in ps :: WellFormedPiece(p)
    ensures Becomes(PrintText(ps), PrintText(CleanPieces(ps)), rest)
  {
    PiecesRepaired(ps, "\"" + rest);
    QuotedRepaired("\"", PrintPieces(ps), PrintPieces(CleanPieces(ps)), rest);
  }

  /** A literal's delimiters are copied and switch the state. */
  lemma QuotedRepaired(quote: string, body: string, body': string, rest: string)
    requires quote == ['"']
    requires Repair(body + (quote + rest), Inside) == body' + Repair(quote + rest, Inside)
    ensures Becomes(quote + body + quote, quote + body' + quote, rest)
  {
    Copied('"', body + (quote + rest), Outside);
    Copied('"', rest, Inside);
    Sandwich(quote, body, rest);
    Sandwich(quote, body', Repair(rest, Outside));
  }

  lemma Sandwich(q: string, body: string, rest: string)
    ensures q + body + q + rest == q + (body + (q + rest))
  {
    Grouped(q, body, q + rest);
    Grouped(q + body, q, rest);
  }

  lemma {:induction false} BlankThenElement(lead: string, t: string)
    requires Blank(lead) && t != "" && !IsSpace(t[0]) && t[0] != '}' && t[0] != ']'
    ensures !Closes(lead + t)
    decreases lead
  {
    if lead == "" {
      assert lead + t == t;
    } else {
      assert lead[0] in lead;
      assert (lead + t)[1..] == lead[1..] + t;
      BlankThenElement(lead[1..], t);
    }
  }

  lemma {:induction false} BlankThenCloser(lead: string, t: string)
    requires Blank(lead) && t != "" && (t[0] == '}' || t[0] == ']')
    ensures Closes(lead + t)
    decreases lead
  {
    if lead == "" {
      assert lead + t == t;
    } else {
      assert lead[0] in lead;
      assert (lead + t)[1..] == lead[1..] + t;
      BlankThenCloser(lead[1..], t);
    }
  }

  /** No printed value begins with whitespace or a closing bracket. */
  lemma PrintStartsElement(v: Json)
    requires WellFormed(v)
    ensures Print(v) != "" && !IsSpace(Print(v)[0]) && Print(v)[0] != '}' && Print(v)[0] != ']'
  {
    if v.Token? {
      assert v.text[0] in v.text;
    }
  }

  /** A comma before the next element is kept. */
  lemma SeparatorStays(after: string, lead: string, element: string, tail: string, rest: string)
    requires Blank(after) && Blank(lead)
    requires element != "" && !IsSpace(element[0]) && element[0] != '}' && element[0] != ']'
    ensures Becomes(Separator(after, true), Separator(after, true), lead + (element + tail) + rest)
  {
    var next := lead + (element + tail) + rest;
    assert next == lead + (element + tail + rest);
    BlankThenElement(lead, element + tail + rest);
    assert ("," + next)[1..] == next;
    assert Becomes(",", ",", next);
    PlainStays(after, "," + next);
    BecomesConcat(after, ",", after, ",", next);
  }

  lemma NoSeparatorStays(after: string, rest: string)
    requires Blank(after)
    ensures Becomes(Separator(after, false), Separator(after, false), rest)
  {
    PlainStays(Separator(after, false), rest);
  }

  lemma Dropped(t: string)
    requires Closes(t)
    ensures Repair([','] + t, Outside) == Repair(t, Outside)
  {
    assert ([','] + t)[1..] == t;
  }

  lemma KeptComma(t: string)
    requires !Closes(t)
    ensures Repair([','] + t, Outside) == [','] + Repair(t, Outside)
  {
    assert ([','] + t)[1..] == t;
  }

  lemma CommasBeforeBracket()
    ensures Repair("]", Outside) == "]" && Repair(",]", Outside) == "]" && Repair(",,]", Outside) == ",]"
  {
    assert "]" == [']'] + "" && Repair("", Outside) == "";
    Copied(']', "", Outside);
    assert ",]" == [','] + "]";
    Dropped("]");
    assert ",,]" == [','] + ",]";
    KeptComma(",]");
  }

  /** So the rewriter is not idempotent: it drops one of two trailing commas per run. */
  lemma RepairIsNotIdempotent()
    ensures Repair("[1,,]", Outside) == "[1,]" && Repair("[1,]", Outside) == "[1]"
  {
    CommasBeforeBracket();
    OneListed(",,]", ",]");
    OneListed(",]", "]");
    assert "[1,,]" == ['[', '1'] + ",,]" && "[1,]" == ['[', '1'] + ",]" && "[1]" == ['[', '1'] + "]";
  }

  lemma OneListed(end: string, repaired: string)
    requires Repair(end, Outside) == repaired
    ensures Repair(['[', '1'] + end, Outside) == ['[', '1'] + repaired
  {
    Copied('1', end, Outside);
    Copied('[', ['1'] + end, Outside);
    assert ['[', '1'] + end == ['['] + (['1'] + end) && ['[', '1'] + repaired == ['['] + (['1'] + repaired);
  }

  lemma DroppedComma(end: string, rest: string)
    requires Closes(end + rest) && Becomes(end, end, rest)
    ensures Becomes([','] + end, end, rest)
  {
    Dropped(end + rest);
    Grouped([','], end, rest);
  }

  /** A comma before the closing bracket is dropped, and the bracket kept. */
  lemma EndingRepaired(trailing: bool, tail: string, close: char, rest: string)
    requires Blank(tail) && (close == '}' || close == ']')
    ensures Becomes(Ending(trailing, tail, close), Ending(false, tail, close), rest)
  {
    var end := tail + [close];
    PlainStays(end, rest);
    assert "" + end == end;
    if trailing {
      Grouped(tail, [close], rest);
      BlankThenCloser(tail, [close] + rest);
      DroppedComma(end, rest);
    }
  }

  /** Repair mends a printed tree into the legal text of the same tree, wherever it stands. */
  lemma {:induction false} PrintRepaired(v: Json, rest: string)
    requires WellFormed(v)
    ensures Becomes(Print(v), Print(Clean(v)), rest)
    decreases v, 0
  {
    match v
    case Token(text) => PlainStays(text, rest);
    case Text(pieces) => TextRepaired(pieces, rest);
    case Array(items, trailing, tail) =>
      var end := Ending(trailing, tail, ']');
      ItemsRepaired(items, end + rest);
      EndingRepaired(trailing, tail, ']', rest);
      Bracketed("[", PrintItems(items), end, PrintItems(CleanItems(items)), Ending(false, tail, ']'), rest);
    case Object(members, trailing, tail) =>
      var end := Ending(trailing, tail, '}');
      MembersRepaired(members, end + rest);
      EndingRepaired(trailing, tail, '}', rest);
      Bracketed("{", PrintMembers(members), end, PrintMembers(CleanMembers(members)), Ending(false, tail, '}'), rest);
  }

  lemma Bracketed(open: string, body: string, end: string, body': string, end': string, rest: string)
    requires '"' !in open && ',' !in open
    requires Becomes(body, body', end + rest) && Becomes(end, end', rest)
    ensures Becomes(open + (body + end), open + (body' + end'), rest)
  {
    BecomesConcat(body, end, body', end', rest);
    PlainStays(open, body + end + rest);
    BecomesConcat(open, body + end, open, body' + end', rest);
  }

  /** One element: its lead, its text, the separator after it and what comes next. */
  lemma ElementRepaired(lead: string, value: string, sep: string, next: string, value': string, next': string, rest: string)
    requires '"' !in lead && ',' !in lead
    requires Becomes(value, value', sep + next + rest) && Becomes(sep, sep, next + rest) && Becomes(next, next', rest)
    ensures Becomes(lead + (value + (sep + next)), lead + (value' + (sep + next')), rest)
  {
    BecomesConcat(sep, next, sep, next', rest);
    BecomesConcat(value, sep + next, value', sep + next', rest);
    PlainStays(lead, value + (sep + next) + rest);
    BecomesConcat(lead, value + (sep + next), lead, value' + (sep + next'), rest);
  }

  lemma {:induction false} ItemsRepaired(items: Items, rest: string)
    requires WellFormedItems(items)
    ensures Becomes(PrintItems(items), PrintItems(CleanItems(items)), rest)
    decreases items, 1
  {
    match items
    case NoItems => PlainStays("", rest);
    case Item(lead, value, after, more) =>
      var sep, next := Separator(after, more.Item?), PrintItems(more);
      ItemsRepaired(more, rest);
      ItemSeparator(after, more, rest);
      PrintRepaired(value, sep + next + rest);
      ElementRepaired(lead, Print(value), sep, next, Print(Clean(value)), PrintItems(CleanItems(more)), rest);
  }

  lemma ItemSeparator(after: string, more: Items, rest: string)
    requires Blank(after) && WellFormedItems(more)
    ensures Becomes(Separator(after, more.Item?), Separator(after, more.Item?), PrintItems(more) + rest)
  {
    if more.Item? {
      PrintStartsElement(more.value);
      SeparatorStays(after, more.lead, Print(more.value), Separator(more.after, more.rest.Item?) + PrintItems(more.rest), rest);
    } else {
      NoSeparatorStays(after, PrintItems(more) + rest);
    }
  }

  lemma MemberSeparator(after: string, more: Members, rest: string)
    requires Blank(after) && WellFormedMembers(more)
    ensures Becomes(Separator(after, more.Member?), Separator(after, more.Member?), PrintMembers(more) + rest)
  {
    if more.Member? {
      var tail := Colon(more.beforeColon, more.afterColon)
        + (Print(more.value) + (Separator(more.after, more.rest.Member?) + PrintMembers(more.rest)));
      SeparatorStays(after, more.lead, PrintText(more.key), tail, rest);
    } else {
      NoSeparatorStays(after, PrintMembers(more) + rest);
    }
  }

  lemma {:induction false} MembersRepaired(members: Members, rest: string)
    requires WellFormedMembers(members)
    ensures Becomes(PrintMembers(members), PrintMembers(CleanMembers(members)), rest)
    decreases members, 1
  {
    match members
    case NoMembers => PlainStays("", rest);
    case Member(lead, key, beforeColon, afterColon, value, after, more) =>
      var colon, sep, next := Colon(beforeColon, afterColon), Separator(after, more.Member?), PrintMembers(more);
      MembersRepaired(more, rest);
      MemberSeparator(after, more, rest);
      PrintRepaired(value, sep + next + rest);
      ElementRepaired(colon, Print(value), sep, next, Print(Clean(value)), PrintMembers(CleanMembers(more)), rest);
      TextRepaired(key, colon + (Print(value) + (sep + next)) + rest);
      Keyed(lead, PrintText(key), colon + (Print(value) + (sep + next)), PrintText(CleanPieces(key)),
            colon + (Print(Clean(value)) + (sep + PrintMembers(CleanMembers(more)))), rest);
  }

  lemma Keyed(lead: string, key: string, tail: string, key': string, tail': string, rest: string)
    requires '"' !in lead && ',' !in lead
    requires Becomes(key, key', tail + rest) && Becomes(tail, tail', rest)
    ensures Becomes(lead + (key + tail), lead + (key' + tail'), rest)
  {
    Bracketed(lead, key, tail, key', tail', rest);
  }

  /** Repair undoes both malformations and alters no legal JSON text. */
  lemma RepairMends(v: Json)
    requires WellFormed(v)
    ensures Repair(Print(v), Outside) == Print(Clean(v))
    ensures WellFormed(Clean(v)) && Strict(Clean(v)) && ValueOf(Clean(v)) == ValueOf(v)
    ensures Strict(v) ==> Repair(Print(v), Outside) == Print(v)
  {
    PrintRepaired(v, "");
    assert Print(v) + "" == Print(v);
    CleanIsLegal(v);
    CleanSaysTheSame(v);
  }
}
