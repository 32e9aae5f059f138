/**
 * Exactly which node lists parsing can produce, and a printer that writes a body
 * for each of them.
 */
module TemplateImage {
  import opened Wrappers
  import opened Templates

  /** A node without its place in the body. */
  datatype Item = TextItem(value: string) | VariableItem(name: string)

  function Strip(nodes: seq<Node>): seq<Item> {
    if nodes == [] then []
    else [match nodes[0] case Text(value) => TextItem(value) case Variable(name, _, _) => VariableItem(name)]
         + Strip(nodes[1..])
  }

  function TrailingBraces(t: string): nat {
    if t != "" && t[|t| - 1] == '{' then 1 + TrailingBraces(t[..|t| - 1]) else 0
  }

  function LeadingBraces(t: string): (k: nat)
    ensures k <= |t| && (k < |t| ==> t[k] != '{') && forall i :: 0 <= i < k ==> t[i] == '{'
  {
    if t != "" && t[0] == '{' then 1 + LeadingBraces(t[1..]) else 0
  }

  /** Nothing at the end of this text would change how a placeholder right after it reads. */
  predicate MayPrecedeSlot(t: string) {
    t == "" || (t[|t| - 1] != '\\' && TrailingBraces(t) != 1)
  }

  /** No empty or adjacent texts, valid names, and no text that would spoil the placeholder after it. */
  predicate Canonical(items: seq<Item>) {
    items == [] ||
    (Canonical(items[1..]) &&
     match items[0]
     case TextItem(value) =>
       value != "" && (|items| > 1 ==> items[1].VariableItem? && MayPrecedeSlot(value))
     case VariableItem(name) => IsVariableName(name))
  }

  lemma Opening(s: string)
    ensures StartsWith(s, OPEN) <==> |s| >= 2 && s[0] == '{' && s[1] == '{'
    ensures StartsWith(s, ESCAPED_OPEN) <==> |s| >= 3 && s[0] == '\\' && s[1] == '{' && s[2] == '{'
  {
    if |s| >= 2 { assert s[..2] == [s[0], s[1]]; }
    if |s| >= 3 { assert s[..3] == [s[0], s[1], s[2]]; }
  }

  // ----- the parser one token at a time -----

  /** The nodes read from `s`, `offset` characters into the body, with `buffer` pending. */
  function Nodes(s: string, offset: nat, buffer: string): Option<seq<Node>> {
    match Lex(s, offset)
    case Tokens(tokens) => Some(Group(buffer, tokens))
    case LexError(_, _) => None
  }

  lemma NodesLiteral(s: string, offset: nat, buffer: string, text: string, rest: string, next: nat)
    requires Lex(s, offset) == Lex(rest, next).After(Literal(text))
    ensures Nodes(s, offset, buffer) == Nodes(rest, next, buffer + text)
  {
    var later := Lex(rest, next);
    if later.Tokens? {
      assert ([Literal(text)] + later.tokens)[1..] == later.tokens;
    }
  }

  lemma NodesEscape(rest: string, offset: nat, buffer: string)
    ensures Nodes(ESCAPED_OPEN + rest, offset, buffer) == Nodes(rest, offset + 3, buffer + OPEN)
  {
    assert (ESCAPED_OPEN + rest)[3..] == rest && (ESCAPED_OPEN + rest)[..3] == ESCAPED_OPEN;
    NodesLiteral(ESCAPED_OPEN + rest, offset, buffer, OPEN, rest, offset + 3);
  }

  lemma NodesPlain(c: char, rest: string, offset: nat, buffer: string)
    requires c == '{' ==> rest == "" || rest[0] != '{'
    requires c == '\\' ==> !StartsWith(rest, OPEN)
    ensures Nodes([c] + rest, offset, buffer) == Nodes(rest, offset + 1, buffer + [c])
  {
    var s := [c] + rest;
    assert s[1..] == rest && s[..1] == [c];
    Opening(s);
    Opening(rest);
    NodesLiteral(s, offset, buffer, [c], rest, offset + 1);
  }

  lemma NodesSlot(s: string, offset: nat, buffer: string, length: nat)
    requires !StartsWith(s, ESCAPED_OPEN) && StartsWith(s, OPEN)
    requires FindClose(s[2..]) == Some(length) && IsVariableName(Trim(s[2..2 + length]))
    ensures var name := Trim(s[2..2 + length]);
            var rest := Nodes(s[length + 4..], offset + length + 4, "");
            Nodes(s, offset, buffer) ==
            if rest.Some? then Some(Flush(buffer) + [Variable(name, offset, offset + length + 4)] + rest.value)
              else None
  {
    var name := Trim(s[2..2 + length]);
    var later := Lex(s[length + 4..], offset + length + 4);
    assert Lex(s, offset) == later.After(Slot(name, offset, offset + length + 4));
    if later.Tokens? {
      GroupSlot(buffer, [], name, offset, offset + length + 4, later.tokens);
    }
  }

  lemma {:induction false} StripAppend(xs: seq<Node>, ys: seq<Node>)
    ensures Strip(xs + ys) == Strip(xs) + Strip(ys)
  {
    if xs == [] {
      assert xs + ys == ys;
    } else {
      assert (xs + ys)[1..] == xs[1..] + ys;
      StripAppend(xs[1..], ys);
    }
  }

  // ----- whatever parses is canonical -----

  lemma EscapeMayPrecede(t: string)
    ensures MayPrecedeSlot(t + OPEN)
  {
    var s := t + OPEN;
    assert s[..|s| - 1] == t + ['{'];
    assert (t + ['{'])[|t|] == '{';
  }

  /** An invariant of the scan: the text held may precede a placeholder, or none opens here. */
  lemma {:induction false} ScanIsCanonical(s: string, offset: nat, buffer: string)
    requires Nodes(s, offset, buffer).Some?
    requires MayPrecedeSlot(buffer) || !StartsWith(s, OPEN)
    ensures Canonical(Strip(Nodes(s, offset, buffer).value))
    decreases |s|
  {
    if s == "" {
    } else if StartsWith(s, ESCAPED_OPEN) {
      assert s == ESCAPED_OPEN + s[3..];
      NodesEscape(s[3..], offset, buffer);
      EscapeMayPrecede(buffer);
      ScanIsCanonical(s[3..], offset + 3, buffer + OPEN);
    } else if !StartsWith(s, OPEN) {
      PlainIsCanonical(s, buffer);
      assert s == [s[0]] + s[1..];
      NodesPlain(s[0], s[1..], offset, buffer);
      ScanIsCanonical(s[1..], offset + 1, buffer + [s[0]]);
    } else {
      var length := FindClose(s[2..]).value;
      NodesSlot(s, offset, buffer, length);
      var rest := Nodes(s[length + 4..], offset + length + 4, "");
      ScanIsCanonical(s[length + 4..], offset + length + 4, "");
      SlotIsCanonical(buffer, Trim(s[2..2 + length]), offset, offset + length + 4, rest.value);
    }
  }

  lemma PlainIsCanonical(s: string, buffer: string)
    requires s != "" && !StartsWith(s, ESCAPED_OPEN) && !StartsWith(s, OPEN)
    ensures MayPrecedeSlot(buffer + [s[0]]) || !StartsWith(s[1..], OPEN)
    ensures s[0] == '{' ==> s[1..] == "" || s[1] != '{'
    ensures s[0] == '\\' ==> !StartsWith(s[1..], OPEN)
  {
    Opening(s);
    Opening(s[1..]);
  }

  lemma SlotIsCanonical(buffer: string, name: string, start: nat, end: nat, rest: seq<Node>)
    requires MayPrecedeSlot(buffer) && IsVariableName(name) && Canonical(Strip(rest))
    ensures Canonical(Strip(Flush(buffer) + [Variable(name, start, end)] + rest))
  {
    var slot := [Variable(name, start, end)] + rest;
    assert slot[1..] == rest;
    assert Strip(slot) == [VariableItem(name)] + Strip(rest);
    assert Strip(slot)[1..] == Strip(rest);
    if buffer == "" {
      assert Flush(buffer) + [Variable(name, start, end)] + rest == slot;
    } else {
      assert Flush(buffer) + [Variable(name, start, end)] + rest == [Text(buffer)] + slot;
      assert ([Text(buffer)] + slot)[1..] == slot;
      var all := [TextItem(buffer)] + Strip(slot);
      assert Strip([Text(buffer)] + slot) == all && all[1..] == Strip(slot);
    }
  }

  // ----- whatever is canonical can be printed -----

  function Escapes(n: nat): string {
    if n == 0 then "" else ESCAPED_OPEN + Escapes(n - 1)
  }

  /** An odd run of braces is one plain brace and then escapes; an even run is escapes alone. */
  function PrintRun(run: nat): string {
    (if run % 2 == 1 then "{" else "") + Escapes(run / 2)
  }

  function PrintText(t: string): string
    decreases |t|
  {
    if t == "" then ""
    else if t[0] != '{' then [t[0]] + PrintText(t[1..])
    else PrintRun(LeadingBraces(t)) + PrintText(t[LeadingBraces(t)..])
  }

  function Print(items: seq<Item>): string {
    if items == [] then ""
    else (match items[0] case TextItem(value) => PrintText(value) case VariableItem(name) => OPEN + name + CLOSE)
         + Print(items[1..])
  }

  /** Standing before `rest`, the source `s` is scanned as the text `text`, wherever and after whatever. */
  ghost predicate ReadsAs(s: string, rest: string, text: string) {
    forall offset: nat, buffer: string :: Nodes(s + rest, offset, buffer) == Nodes(rest, offset + |s|, buffer + text)
  }

  lemma ReadsNothing(rest: string)
    ensures ReadsAs("", rest, "")
  {
    assert "" + rest == rest;
    forall offset: nat, buffer: string
      ensures Nodes("" + rest, offset, buffer) == Nodes(rest, offset + 0, buffer + "")
    {
      assert buffer + "" == buffer;
    }
  }

  lemma ReadsEscape(rest: string)
    ensures ReadsAs(ESCAPED_OPEN, rest, OPEN)
  {
    forall offset: nat, buffer: string
      ensures Nodes(ESCAPED_OPEN + rest, offset, buffer) == Nodes(rest, offset + 3, buffer + OPEN)
    {
      NodesEscape(rest, offset, buffer);
    }
  }

  lemma ReadsPlain(c: char, rest: string)
    requires c == '{' ==> rest == "" || rest[0] != '{'
    requires c == '\\' ==> !StartsWith(rest, OPEN)
    ensures ReadsAs([c], rest, [c])
  {
    forall offset: nat, buffer: string
      ensures Nodes([c] + rest, offset, buffer) == Nodes(rest, offset + 1, buffer + [c])
    {
      NodesPlain(c, rest, offset, buffer);
    }
  }

  lemma ReadsJoin(s1: string, s2: string, rest: string, text1: string, text2: string)
    requires ReadsAs(s1, s2 + rest, text1) && ReadsAs(s2, rest, text2)
    ensures ReadsAs(s1 + s2, rest, text1 + text2)
  {
    assert (s1 + s2) + rest == s1 + (s2 + rest);
    forall offset: nat, buffer: string
      ensures Nodes((s1 + s2) + rest, offset, buffer) == Nodes(rest, offset + |s1 + s2|, buffer + (text1 + text2))
    {
      assert Nodes(s1 + (s2 + rest), offset, buffer) == Nodes(s2 + rest, offset + |s1|, buffer + text1);
      assert (buffer + text1) + text2 == buffer + (text1 + text2);
    }
  }

  function Braces(n: nat): string {
    seq(n, _ => '{')
  }

  lemma {:induction false} PrintedEscapes(n: nat, rest: string)
    ensures ReadsAs(Escapes(n), rest, Braces(2 * n))
  {
    if n == 0 {
      ReadsNothing(rest);
    } else {
      PrintedEscapes(n - 1, rest);
      ReadsEscape(Escapes(n - 1) + rest);
      ReadsJoin(ESCAPED_OPEN, Escapes(n - 1), rest, OPEN, Braces(2 * (n - 1)));
      assert OPEN + Braces(2 * (n - 1)) == Braces(2 * n);
    }
  }

  /** Printed text never begins with two braces, and begins with one only for a run of odd length. */
  lemma PrintedStart(t: string)
    requires t != ""
    ensures PrintText(t) != ""
    ensures PrintText(t)[0] == '{' ==> t[0] == '{' && LeadingBraces(t) % 2 == 1
    ensures |PrintText(t)| == 1 && PrintText(t)[0] == '{' ==> t == "{"
    ensures |PrintText(t)| > 1 && PrintText(t)[0] == '{' ==> PrintText(t)[1] != '{'
  {
    if t[0] == '{' {
      var run := LeadingBraces(t);
      var rest := t[run..];
      if run / 2 > 0 { assert Escapes(run / 2) == ESCAPED_OPEN + Escapes(run / 2 - 1); }
      if run == 1 && rest != "" { assert rest[0] != '{' && PrintText(rest)[0] == rest[0]; }
    }
  }

  /** What may stand after a printed text: the end, or a placeholder the text does not spoil. */
  predicate Follows(t: string, rest: string) {
    rest == "" || (StartsWith(rest, OPEN) && MayPrecedeSlot(t))
  }

  lemma PrintedNotOpen(t: string, rest: string)
    requires t != "" && Follows(t, rest)
    ensures !StartsWith(PrintText(t) + rest, OPEN)
  {
    PrintedStart(t);
    Opening(PrintText(t) + rest);
    assert TrailingBraces("{") == 1;
  }

  lemma {:induction false} TrailingOfSuffix(t: string, k: nat)
    requires k < |t| && t[k] != '{'
    ensures TrailingBraces(t[k..]) == TrailingBraces(t)
    decreases |t|
  {
    if t[|t| - 1] == '{' {
      assert t[k..][..|t| - k - 1] == t[..|t| - 1][k..];
      TrailingOfSuffix(t[..|t| - 1], k);
    }
  }

  lemma FollowsSuffix(t: string, k: nat, rest: string)
    requires Follows(t, rest) && 0 < k <= |t| && (k < |t| ==> t[k] != '{')
    ensures Follows(t[k..], rest)
  {
    if k < |t| { TrailingOfSuffix(t, k); }
  }

  lemma FollowsTail(t: string, rest: string)
    requires t != "" && t[0] != '{' && Follows(t, rest)
    ensures Follows(t[1..], rest)
  {
    TrailingOfSuffix(t, 0);
    if |t| > 1 { TrailingOfTail(t); }
  }

  lemma {:induction false} TrailingOfTail(t: string)
    requires |t| > 1 && t[0] != '{'
    ensures TrailingBraces(t[1..]) == TrailingBraces(t)
    decreases |t|
  {
    if t[|t| - 1] == '{' {
      assert t[1..][..|t| - 2] == t[..|t| - 1][1..];
      if |t| > 2 { TrailingOfTail(t[..|t| - 1]); }
    }
  }

  /** A printed run of braces reads back as the run, when no brace follows an unescaped last one. */
  lemma PrintedRun(run: nat, rest: string)
    requires run == 1 ==> rest == "" || rest[0] != '{'
    ensures ReadsAs(PrintRun(run), rest, Braces(run))
  {
    var n := run / 2;
    PrintedEscapes(n, rest);
    if run % 2 == 1 {
      if n > 0 { assert Escapes(n) == ESCAPED_OPEN + Escapes(n - 1); }
      else { assert Escapes(n) + rest == rest; }
      ReadsPlain('{', Escapes(n) + rest);
      ReadsJoin("{", Escapes(n), rest, "{", Braces(2 * n));
      assert "{" + Braces(2 * n) == Braces(run);
    } else {
      assert "" + Escapes(n) == Escapes(n);
    }
  }

  lemma {:induction false} PrintedText(t: string, rest: string)
    requires Follows(t, rest)
    ensures ReadsAs(PrintText(t), rest, t)
    decreases |t|
  {
    if t == "" {
      ReadsNothing(rest);
    } else if t[0] != '{' {
      PrintedText(t[1..], rest) by { FollowsTail(t, rest); }
      PrintedPlain(t, rest);
    } else {
      var run := LeadingBraces(t);
      PrintedText(t[run..], rest) by { FollowsSuffix(t, run, rest); }
      PrintedBraces(t, run, rest);
    }
  }

  lemma PrintedPlain(t: string, rest: string)
    requires t != "" && t[0] != '{' && Follows(t, rest) && ReadsAs(PrintText(t[1..]), rest, t[1..])
    ensures ReadsAs(PrintText(t), rest, t)
  {
    PlainThenText(t, rest);
    ReadsPlain(t[0], PrintText(t[1..]) + rest);
    ReadsJoin([t[0]], PrintText(t[1..]), rest, [t[0]], t[1..]);
    assert [t[0]] + t[1..] == t;
  }

  lemma PrintedBraces(t: string, run: nat, rest: string)
    requires t != "" && t[0] == '{' && Follows(t, rest) && run == LeadingBraces(t)
    requires ReadsAs(PrintText(t[run..]), rest, t[run..])
    ensures ReadsAs(PrintText(t), rest, t)
  {
    if run == 1 { AfterSingleBrace(t, rest); }
    PrintedRun(run, PrintText(t[run..]) + rest);
    ReadsJoin(PrintRun(run), PrintText(t[run..]), rest, Braces(run), t[run..]);
    assert Braces(run) + t[run..] == t;
  }

  lemma PlainThenText(t: string, rest: string)
    requires t != "" && t[0] != '{' && Follows(t, rest)
    ensures t[0] == '\\' ==> !StartsWith(PrintText(t[1..]) + rest, OPEN)
  {
    FollowsTail(t, rest);
    if t[1..] == "" { assert "" + rest == rest; } else { PrintedNotOpen(t[1..], rest); }
  }

  lemma AfterSingleBrace(t: string, rest: string)
    requires t != "" && t[0] == '{' && LeadingBraces(t) == 1 && Follows(t, rest)
    ensures var after := PrintText(t[1..]) + rest;
            after == "" || after[0] != '{'
  {
    if t[1..] != "" {
      assert t[1] != '{' && t[1..][0] == t[1];
    } else {
      assert t == "{" && TrailingBraces("{") == 1;
    }
  }

  lemma TrimmedName(name: string)
    requires IsVariableName(name)
    ensures Trim(name) == name
  {
    assert IsNameCharacter(name[0]) && IsNameCharacter(name[|name| - 1]);
  }

  lemma PrintedSlot(name: string, rest: string, offset: nat, buffer: string)
    requires IsVariableName(name)
    ensures var later := Nodes(rest, offset + |name| + 4, "");
            Nodes(OPEN + name + CLOSE + rest, offset, buffer) ==
            if later.Some? then Some(Flush(buffer) + [Variable(name, offset, offset + |name| + 4)] + later.value)
              else None
  {
    var s := OPEN + name + CLOSE + rest;
    assert s[..2] == OPEN && s[2..] == name + CLOSE + rest;
    Opening(s);
    forall i: nat | i < |name|
      ensures !ClosesAt(s[2..], i)
    {
      assert s[2..][i] == name[i] && IsNameCharacter(name[i]);
    }
    assert ClosesAt(s[2..], |name|);
    assert FindClose(s[2..]) == Some(|name|);
    assert s[2..2 + |name|] == name && s[|name| + 4..] == rest;
    TrimmedName(name);
    NodesSlot(s, offset, buffer, |name|);
  }

  lemma StripFlush(buffer: string)
    requires buffer != ""
    ensures Strip(Flush(buffer)) == [TextItem(buffer)]
  {
  }

  lemma StripSlot(before: seq<Node>, name: string, start: nat, end: nat, later: seq<Node>)
    ensures Strip(before + [Variable(name, start, end)] + later) == Strip(before)
      + ([VariableItem(name)] + Strip(later))
  {
    var slot := [Variable(name, start, end)];
    StripAppend(before + slot, later);
    StripAppend(before, slot);
    assert Strip(slot) == [VariableItem(name)];
  }

  /** What printing the rest of a list must give once `buffer` is pending before it. */
  ghost predicate ReadsBack(s: string, offset: nat, buffer: string, items: seq<Item>) {
    var nodes := Nodes(s, offset, buffer);
    nodes.Some? && Strip(nodes.value) == Strip(Flush(buffer)) + items
  }

  lemma SlotReadsBack(name: string, later: string, rest: seq<Item>, offset: nat, buffer: string)
    requires IsVariableName(name) && ReadsBack(later, offset + |name| + 4, "", rest)
    ensures ReadsBack(OPEN + name + CLOSE + later, offset, buffer, [VariableItem(name)] + rest)
  {
    PrintedSlot(name, later, offset, buffer);
    var after := Nodes(later, offset + |name| + 4, "").value;
    StripSlot(Flush(buffer), name, offset, offset + |name| + 4, after);
    assert Strip(Flush("")) + rest == rest;
  }

  lemma TextReadsBack(value: string, later: string, rest: seq<Item>, offset: nat)
    requires value != "" && Follows(value, later) && ReadsBack(later, offset + |PrintText(value)|, value, rest)
    ensures ReadsBack(PrintText(value) + later, offset, "", [TextItem(value)] + rest)
  {
    PrintedText(value, later);
    StripFlush(value);
    assert "" + value == value;
    assert Strip(Flush("")) + ([TextItem(value)] + rest) == [TextItem(value)] + rest;
  }

  lemma PrintFollows(value: string, rest: seq<Item>)
    requires Canonical([TextItem(value)] + rest)
    ensures Follows(value, Print(rest))
  {
    assert ([TextItem(value)] + rest)[1..] == rest;
    if rest != [] {
      var slot := OPEN + rest[0].name + CLOSE;
      assert Print(rest) == slot + Print(rest[1..]) && Print(rest)[..2] == OPEN;
    }
  }

  lemma {:induction false} PrintedItems(items: seq<Item>, offset: nat, buffer: string)
    requires Canonical(items) && (buffer == "" || items == [] || items[0].VariableItem?)
    ensures ReadsBack(Print(items), offset, buffer, items)
    decreases |items|
  {
    if items == [] {
      assert Strip(Flush(buffer)) + [] == Strip(Flush(buffer));
    } else {
      var rest := items[1..];
      assert items == [items[0]] + rest;
      match items[0]
      case TextItem(value) =>
        PrintedItems(rest, offset + |PrintText(value)|, value);
        PrintFollows(value, rest);
        TextReadsBack(value, Print(rest), rest, offset);
      case VariableItem(name) =>
        PrintedItems(rest, offset + |name| + 4, "");
        SlotReadsBack(name, Print(rest), rest, offset, buffer);
    }
  }

  /** Printing and parsing again gives back every canonical list, up to offsets. */
  lemma PrintThenParse(items: seq<Item>)
    requires Canonical(items)
    ensures Parse(Print(items)).Parsed? && Strip(Parse(Print(items)).nodes) == items
  {
    PrintedItems(items, 0, "");
    assert Strip(Flush("")) + items == items;
  }

  /** A list of nodes is what some body parses to, up to offsets, exactly when it is canonical. */
  lemma ImageOfParse(items: seq<Item>)
    ensures Canonical(items) <==> exists body :: Parse(body).Parsed? && Strip(Parse(body).nodes) == items
  {
    if Canonical(items) {
      PrintThenParse(items);
    }
    if body :| Parse(body).Parsed? && Strip(Parse(body).nodes) == items {
      ScanIsCanonical(body, 0, "");
    }
  }
}
