/**
 * Filling a template in. Rendering joins the parsed nodes; here it is shown to be
 * one left-to-right rewriting of the body, and its checks to be exactly those declared.
 */
module TemplateRender {
  import opened Wrappers
  import opened Templates

  // ----- the placeholders of a body, told without the scanner -----

  function Variables(nodes: seq<Node>): seq<Node> {
    if nodes == [] then []
    else (if nodes[0].Variable? then [nodes[0]] else []) + Variables(nodes[1..])
  }

  /** From `from` to `to` nothing opens a placeholder except under an escape. */
  predicate NothingOpens(body: string, from: nat, to: nat)
    requires from <= to <= |body|
    decreases |body| - from
  {
    from == to ||
    if StartsWith(body[from..], ESCAPED_OPEN) then from + 3 <= to && NothingOpens(body, from + 3, to)
    else !StartsWith(body[from..], OPEN) && NothingOpens(body, from + 1, to)
  }

  predicate IsPlaceholder(body: string, slot: Node) {
    && slot.Variable? && slot.start + 4 <= slot.end <= |body|
    && !StartsWith(body[slot.start..], ESCAPED_OPEN) && StartsWith(body[slot.start..], OPEN)
    && FindClose(body[slot.start + 2..]) == Some(slot.end - slot.start - 4)
    && slot.name == Trim(body[slot.start + 2..slot.end - 2])
    && IsVariableName(slot.name)
  }

  /** These are the placeholders from `from` on: in order, apart, and all there are. */
  predicate AreSlots(body: string, from: nat, slots: seq<Node>)
    decreases |slots|
  {
    if slots == [] then from <= |body| && NothingOpens(body, from, |body|)
    else
      && IsPlaceholder(body, slots[0])
      && from <= slots[0].start
      && NothingOpens(body, from, slots[0].start)
      && AreSlots(body, slots[0].end, slots[1..])
  }

  function Unescape(s: string): string {
    if s == "" then ""
    else if StartsWith(s, ESCAPED_OPEN) then OPEN + Unescape(s[3..])
    else [s[0]] + Unescape(s[1..])
  }

  /** The text put in place of a name: what was resolved for it, or nothing. */
  function Substitute(resolved: map<string, string>, name: string): string {
    if name in resolved then resolved[name] else ""
  }

  /** Each gap unescaped, each placeholder replaced, no replacement looked at again. */
  function Weave(body: string, from: nat, slots: seq<Node>, resolved: map<string, string>): string
    requires AreSlots(body, from, slots)
    decreases |slots|
  {
    if slots == [] then Unescape(body[from..])
    else Unescape(body[from..slots[0].start]) + Substitute(resolved, slots[0].name)
         + Weave(body, slots[0].end, slots[1..], resolved)
  }

  function RenderNode(node: Node, resolved: map<string, string>): string {
    match node
    case Text(value) => value
    case Variable(name, _, _) => Substitute(resolved, name)
  }

  function RenderNodes(nodes: seq<Node>, resolved: map<string, string>): string {
    if nodes == [] then "" else RenderNode(nodes[0], resolved) + RenderNodes(nodes[1..], resolved)
  }

  /** Text stands for itself, a variable for what it was resolved to, or for nothing; in order, nothing between. */
  lemma {:induction false} NodesJoin(nodes: seq<Node>, node: Node, resolved: map<string, string>)
    ensures RenderNodes([], resolved) == ""
    ensures RenderNodes(nodes + [node], resolved) == RenderNodes(nodes, resolved) +
              match node
              case Text(value) => value
              case Variable(name, _, _) => if name in resolved then resolved[name] else ""
  {
    if nodes == [] {
      assert ([] + [node])[1..] == [];
    } else {
      assert (nodes + [node])[1..] == nodes[1..] + [node];
      NodesJoin(nodes[1..], node, resolved);
    }
  }

  // ----- the same at the level of tokens -----

  function TokenSlots(tokens: seq<Token>): seq<Node> {
    if tokens == [] then []
    else (match tokens[0] case Literal(_) => [] case Slot(name, start, end) => [Variable(name, start, end)])
         + TokenSlots(tokens[1..])
  }

  function RenderTokens(tokens: seq<Token>, resolved: map<string, string>): string {
    if tokens == [] then ""
    else (match tokens[0] case Literal(text) => text case Slot(name, _, _) => Substitute(resolved, name))
         + RenderTokens(tokens[1..], resolved)
  }

  lemma {:induction false} GroupKeepsSlots(buffer: string, tokens: seq<Token>)
    ensures Variables(Group(buffer, tokens)) == TokenSlots(tokens)
    decreases |tokens|
  {
    if tokens != [] {
      match tokens[0]
      case Literal(text) =>
        GroupKeepsSlots(buffer + text, tokens[1..]);
      case Slot(name, start, end) =>
        GroupKeepsSlots("", tokens[1..]);
        FlushedSlot(buffer, Variable(name, start, end), Group("", tokens[1..]), map[]);
    }
  }

  lemma {:induction false} GroupKeepsText(buffer: string, tokens: seq<Token>, resolved: map<string, string>)
    ensures RenderNodes(Group(buffer, tokens), resolved) == buffer + RenderTokens(tokens, resolved)
    decreases |tokens|
  {
    if tokens != [] {
      match tokens[0]
      case Literal(text) =>
        GroupKeepsText(buffer + text, tokens[1..], resolved);
        Regroup("", buffer, text, RenderTokens(tokens[1..], resolved));
      case Slot(name, start, end) =>
        GroupKeepsText("", tokens[1..], resolved);
        SlotKeepsText(buffer, tokens, resolved);
    }
  }

  lemma SlotKeepsText(buffer: string, tokens: seq<Token>, resolved: map<string, string>)
    requires tokens != [] && tokens[0].Slot?
    requires RenderNodes(Group("", tokens[1..]), resolved) == "" + RenderTokens(tokens[1..], resolved)
    ensures RenderNodes(Group(buffer, tokens), resolved) == buffer + RenderTokens(tokens, resolved)
  {
    var slot := Variable(tokens[0].name, tokens[0].start, tokens[0].end);
    FlushedSlot(buffer, slot, Group("", tokens[1..]), resolved);
    assert "" + RenderTokens(tokens[1..], resolved) == RenderTokens(tokens[1..], resolved);
  }

  lemma Regroup(a: string, b: string, c: string, d: string)
    ensures a + b + c + d == a + (b + c + d)
  {
  }

  lemma FlushedSlot(buffer: string, slot: Node, later: seq<Node>, resolved: map<string, string>)
    requires slot.Variable?
    ensures Variables(Flush(buffer) + [slot] + later) == [slot] + Variables(later)
    ensures RenderNodes(Flush(buffer) + [slot] + later, resolved)
            == buffer + (Substitute(resolved, slot.name) + RenderNodes(later, resolved))
  {
    var nodes := [slot] + later;
    assert nodes[1..] == later;
    if buffer == "" {
      assert Flush(buffer) + [slot] + later == nodes;
    } else {
      var all := [Text(buffer)] + nodes;
      assert Flush(buffer) + [slot] + later == all && all[1..] == nodes;
    }
  }

  /** Shared step of the inductions along the scan: what one token at the front adds. */
  lemma TokensAfter(token: Token, later: seq<Token>, resolved: map<string, string>)
    ensures TokenSlots([token] + later) == (if token.Slot? then [Variable(token.name, token.start, token.end)] else [])
                                           + TokenSlots(later)
    ensures RenderTokens([token] + later, resolved)
            == (if token.Slot? then Substitute(resolved, token.name) else token.text) + RenderTokens(later, resolved)
  {
    assert ([token] + later)[1..] == later;
  }

  /** At `from` the body holds an escape, or a character that opens nothing, read as `text`. */
  predicate IsTextStep(body: string, from: nat, width: nat, text: string) {
    && from + width <= |body|
    && if StartsWith(body[from..], ESCAPED_OPEN) then width == 3 && text == OPEN
       else width == 1 && text == [body[from]] && !StartsWith(body[from..], OPEN)
  }

  lemma UnescapeStep(body: string, from: nat, to: nat, width: nat, text: string)
    requires IsTextStep(body, from, width, text) && from + width <= to <= |body|
    ensures Unescape(body[from..to]) == text + Unescape(body[from + width..to])
  {
    var s := body[from..to];
    assert s[width..] == body[from + width..to];
    if |s| >= 3 { assert s[..3] == body[from..][..3]; }
  }

  lemma SkipText(body: string, from: nat, width: nat, text: string, slots: seq<Node>, resolved: map<string, string>)
    requires IsTextStep(body, from, width, text) && AreSlots(body, from + width, slots)
    ensures AreSlots(body, from, slots)
    ensures Weave(body, from, slots, resolved) == text + Weave(body, from + width, slots, resolved)
  {
    if slots == [] {
      assert body[from..] == body[from..|body|] && body[from + width..] == body[from + width..|body|];
      UnescapeStep(body, from, |body|, width, text);
    } else {
      var slot := slots[0];
      UnescapeStep(body, from, slot.start, width, text);
      Regroup(text, Unescape(body[from + width..slot.start]), Substitute(resolved, slot.name),
              Weave(body, slot.end, slots[1..], resolved));
    }
  }

  lemma LexText(body: string, from: nat, width: nat, text: string)
    requires IsTextStep(body, from, width, text)
    ensures Lex(body[from..], from) == Lex(body[from + width..], from + width).After(Literal(text))
  {
    var s := body[from..];
    assert s[width..] == body[from + width..];
    assert s != "" && s[..1] == [body[from]];
  }

  lemma Suffixes(body: string, from: nat, width: nat)
    requires from + width + 4 <= |body|
    ensures body[from..][2..] == body[from + 2..] && body[from..][width + 4..] == body[from + width + 4..]
    ensures body[from..][2..2 + width] == body[from + 2..from + width + 2]
  {
  }

  lemma LexPlaceholder(s: string, offset: nat, length: nat, name: string)
    requires !StartsWith(s, ESCAPED_OPEN) && StartsWith(s, OPEN)
    requires FindClose(s[2..]) == Some(length) && name == Trim(s[2..2 + length]) && IsVariableName(name)
    ensures Lex(s, offset) == Lex(s[length + 4..], offset + length + 4).After(Slot(name, offset, offset + length + 4))
  {
  }

  lemma LexSlot(body: string, slot: Node)
    requires IsPlaceholder(body, slot)
    ensures Lex(body[slot.start..], slot.start)
            == Lex(body[slot.end..], slot.end).After(Slot(slot.name, slot.start, slot.end))
  {
    Suffixes(body, slot.start, slot.end - slot.start - 4);
    LexPlaceholder(body[slot.start..], slot.start, slot.end - slot.start - 4, slot.name);
  }

  /** Where the lexer succeeds and opens a placeholder, there is one. */
  lemma LexOpens(body: string, from: nat) returns (slot: Node)
    requires from < |body| && Lex(body[from..], from).Tokens?
    requires !StartsWith(body[from..], ESCAPED_OPEN) && StartsWith(body[from..], OPEN)
    ensures IsPlaceholder(body, slot) && slot.start == from
  {
    slot := SlotAt(body, from);
  }

  lemma TextFirst(body: string, from: nat, width: nat, text: string, later: seq<Token>, resolved: map<string, string>)
    requires IsTextStep(body, from, width, text)
    requires AreSlots(body, from + width, TokenSlots(later))
    requires RenderTokens(later, resolved) == Weave(body, from + width, TokenSlots(later), resolved)
    ensures WovenFrom(body, from, [Literal(text)] + later, resolved)
  {
    TokensAfter(Literal(text), later, resolved);
    SkipText(body, from, width, text, TokenSlots(later), resolved);
    assert [] + TokenSlots(later) == TokenSlots(later);
  }

  /** The tokens' placeholders fit the body, and the tokens render as the weaving of the body. */
  ghost predicate WovenFrom(body: string, from: nat, tokens: seq<Token>, resolved: map<string, string>) {
    && AreSlots(body, from, TokenSlots(tokens))
    && RenderTokens(tokens, resolved) == Weave(body, from, TokenSlots(tokens), resolved)
  }

  lemma {:induction false} LexFindsSlots(body: string, from: nat, resolved: map<string, string>)
    requires from <= |body| && Lex(body[from..], from).Tokens?
    ensures WovenFrom(body, from, Lex(body[from..], from).tokens, resolved)
    decreases |body| - from
  {
    if from == |body| {
    } else if StartsWith(body[from..], ESCAPED_OPEN) || !StartsWith(body[from..], OPEN) {
      var escaped := StartsWith(body[from..], ESCAPED_OPEN);
      var width := if escaped then 3 else 1;
      var text := if escaped then OPEN else [body[from]];
      LexText(body, from, width, text);
      LexFindsSlots(body, from + width, resolved);
      TextFirst(body, from, width, text, Lex(body[from + width..], from + width).tokens, resolved);
    } else {
      var slot := LexOpens(body, from);
      LexSlot(body, slot);
      LexFindsSlots(body, slot.end, resolved);
      var later := Lex(body[slot.end..], slot.end).tokens;
      TokensAfter(Slot(slot.name, from, slot.end), later, resolved);
      SlotFirst(body, slot, TokenSlots(later), resolved);
    }
  }

  lemma SlotFirst(body: string, slot: Node, later: seq<Node>, resolved: map<string, string>)
    requires IsPlaceholder(body, slot) && AreSlots(body, slot.end, later)
    ensures AreSlots(body, slot.start, [slot] + later)
    ensures Weave(body, slot.start, [slot] + later, resolved)
            == Substitute(resolved, slot.name) + Weave(body, slot.end, later, resolved)
  {
    var slots := [slot] + later;
    assert slots[0] == slot && slots[1..] == later;
    assert NothingOpens(body, slot.start, slot.start);
    assert Unescape(body[slot.start..slot.start]) == "";
    assert "" + Substitute(resolved, slot.name) == Substitute(resolved, slot.name);
  }

  /** The other direction: a list of placeholders that fits the body is what the lexer finds. */
  lemma {:induction false} SlotsAreLexed(body: string, from: nat, slots: seq<Node>)
    requires AreSlots(body, from, slots)
    ensures from <= |body| && Lex(body[from..], from).Tokens?
    ensures TokenSlots(Lex(body[from..], from).tokens) == slots
    decreases |body| - from
  {
    if from == |body| {
    } else if slots != [] && slots[0].start == from {
      var slot := slots[0];
      SlotsAreLexed(body, slot.end, slots[1..]);
      LexSlot(body, slot);
      TokensAfter(Slot(slot.name, from, slot.end), Lex(body[slot.end..], slot.end).tokens, map[]);
      assert [slot] + slots[1..] == slots;
    } else {
      var escaped := StartsWith(body[from..], ESCAPED_OPEN);
      var width := if escaped then 3 else 1;
      var text := if escaped then OPEN else [body[from]];
      SlotsAreLexed(body, from + width, slots);
      LexText(body, from, width, text);
      TokensAfter(Literal(text), Lex(body[from + width..], from + width).tokens, map[]);
      assert [] + slots == slots;
    }
  }

  /** A body parses with these placeholders exactly when they are its placeholders. */
  lemma ParseFindsExactlyTheSlots(body: string, slots: seq<Node>)
    ensures AreSlots(body, 0, slots) <==> Parse(body).Parsed? && Variables(Parse(body).nodes) == slots
  {
    assert body[0..] == body;
    if AreSlots(body, 0, slots) {
      SlotsAreLexed(body, 0, slots);
      GroupKeepsSlots("", Lex(body, 0).tokens);
    } else if Parse(body).Parsed? {
      LexFindsSlots(body, 0, map[]);
      GroupKeepsSlots("", Lex(body, 0).tokens);
    }
  }

  /** Parsing and then rendering is one rewriting of the body from left to right. */
  lemma RenderingRewritesTheBody(body: string, resolved: map<string, string>)
    requires Parse(body).Parsed?
    ensures AreSlots(body, 0, Variables(Parse(body).nodes))
    ensures RenderNodes(Parse(body).nodes, resolved) == Weave(body, 0, Variables(Parse(body).nodes), resolved)
  {
    assert body[0..] == body;
    LexFindsSlots(body, 0, resolved);
    GroupKeepsSlots("", Lex(body, 0).tokens);
    GroupKeepsText("", Lex(body, 0).tokens, resolved);
    assert "" + RenderTokens(Lex(body, 0).tokens, resolved) == RenderTokens(Lex(body, 0).tokens, resolved);
  }

  // ----- the first error, told without the scanner -----

  /** After these placeholders the next opening, under no escape, is at `offset`. */
  predicate StopsAt(body: string, from: nat, slots: seq<Node>, offset: nat)
    decreases |slots|
  {
    if slots == [] then
      && from <= offset < |body| && NothingOpens(body, from, offset)
      && !StartsWith(body[offset..], ESCAPED_OPEN) && StartsWith(body[offset..], OPEN)
    else
      && IsPlaceholder(body, slots[0]) && from <= slots[0].start
      && NothingOpens(body, from, slots[0].start) && StopsAt(body, slots[0].end, slots[1..], offset)
  }

  /** Up to its first closing braces, at `n`, the text reads so. */
  ghost predicate FirstCloses(rest: string, n: nat) {
    ClosesAt(rest, n) && forall i: nat :: i < n ==> !ClosesAt(rest, i)
  }

  /** What is wrong with the placeholder that `rest` continues after its opening braces. */
  ghost predicate IsWrong(rest: string, code: SyntaxErrorCode) {
    match code
    case UnclosedPlaceholder => forall i: nat :: !ClosesAt(rest, i)
    case EmptyPlaceholder => exists n: nat | n < |rest| :: FirstCloses(rest, n) && AllSpace(rest[..n])
    case InvalidVariableName =>
      exists n: nat | n < |rest| ::
        FirstCloses(rest, n) && !AllSpace(rest[..n]) && !IsVariableName(Trim(rest[..n]))
  }

  lemma CloseIsFirst(rest: string, n: nat)
    ensures FirstCloses(rest, n) <==> FindClose(rest) == Some(n)
  {
  }

  /** An opening is lexed as the error that is wrong with it, if any. */
  lemma OpeningFails(s: string, offset: nat, code: SyntaxErrorCode)
    requires !StartsWith(s, ESCAPED_OPEN) && StartsWith(s, OPEN)
    ensures IsWrong(s[2..], code) ==> Lex(s, offset) == LexError(code, offset)
  {
    var rest := s[2..];
    if IsWrong(rest, code) && !code.UnclosedPlaceholder? {
      var n: nat :| n < |rest| && FirstCloses(rest, n)
                    && (if code.EmptyPlaceholder? then AllSpace(rest[..n])
                        else !AllSpace(rest[..n]) && !IsVariableName(Trim(rest[..n])));
      CloseIsFirst(rest, n);
      assert s[2..2 + n] == rest[..n];
      var before, after := TrimIsTheCore(rest[..n]);
    }
  }

  /** Whatever stops the lexer at an opening is wrong with that opening, or it is a placeholder. */
  lemma OpeningIsWrong(s: string, offset: nat) returns (code: SyntaxErrorCode)
    requires !StartsWith(s, ESCAPED_OPEN) && StartsWith(s, OPEN)
    requires FindClose(s[2..]).None? || !IsVariableName(Trim(s[2..2 + FindClose(s[2..]).value]))
    ensures Lex(s, offset) == LexError(code, offset) && IsWrong(s[2..], code)
  {
    var rest := s[2..];
    if FindClose(rest).None? {
      code := UnclosedPlaceholder;
    } else {
      var n := FindClose(rest).value;
      CloseIsFirst(rest, n);
      assert s[2..2 + n] == rest[..n];
      var before, after := TrimIsTheCore(rest[..n]);
      code := if Trim(rest[..n]) == "" then EmptyPlaceholder else InvalidVariableName;
    }
  }

  /** From `from` on, after these placeholders, the first opening that is none is at `offset`, and so it is wrong. */
  ghost predicate FailsAt(body: string, from: nat, slots: seq<Node>, code: SyntaxErrorCode, offset: nat) {
    StopsAt(body, from, slots, offset) && offset + 2 <= |body| && IsWrong(body[offset + 2..], code)
  }

  lemma FailsAfterText(body: string, from: nat, width: nat, text: string, slots: seq<Node>, code: SyntaxErrorCode,
                       offset: nat)
    requires IsTextStep(body, from, width, text) && FailsAt(body, from + width, slots, code, offset)
    ensures FailsAt(body, from, slots, code, offset)
  {
  }

  lemma FailsAfterSlot(body: string, slot: Node, later: seq<Node>, code: SyntaxErrorCode, offset: nat)
    requires IsPlaceholder(body, slot) && FailsAt(body, slot.end, later, code, offset)
    ensures FailsAt(body, slot.start, [slot] + later, code, offset)
  {
    assert ([slot] + later)[1..] == later;
  }

  lemma FailsHere(body: string, from: nat) returns (code: SyntaxErrorCode)
    requires from < |body| && !StartsWith(body[from..], ESCAPED_OPEN) && StartsWith(body[from..], OPEN)
    requires !IsReadable(body, from)
    ensures Lex(body[from..], from) == LexError(code, from) && FailsAt(body, from, [], code, from)
  {
    code := OpeningIsWrong(body[from..], from);
    assert body[from..][2..] == body[from + 2..];
  }

  /** Where the lexer fails there is a first wrong opening. */
  lemma {:induction false} LexStops(body: string, from: nat) returns (slots: seq<Node>)
    requires from <= |body| && Lex(body[from..], from).LexError?
    ensures var error := Lex(body[from..], from); FailsAt(body, from, slots, error.code, error.offset)
    decreases |body| - from
  {
    var error := Lex(body[from..], from);
    if StartsWith(body[from..], ESCAPED_OPEN) || !StartsWith(body[from..], OPEN) {
      var escaped := StartsWith(body[from..], ESCAPED_OPEN);
      var width := if escaped then 3 else 1;
      var text := if escaped then OPEN else [body[from]];
      LexText(body, from, width, text);
      slots := LexStops(body, from + width);
      FailsAfterText(body, from, width, text, slots, error.code, error.offset);
    } else if IsReadable(body, from) {
      var slot := SlotAt(body, from);
      LexSlot(body, slot);
      slots := LexStops(body, slot.end);
      FailsAfterSlot(body, slot, slots, error.code, error.offset);
      slots := [slot] + slots;
    } else {
      var code := FailsHere(body, from);
      slots := [];
    }
  }

  predicate IsReadable(body: string, from: nat)
    requires from < |body| && StartsWith(body[from..], OPEN)
  {
    var rest := body[from..][2..];
    FindClose(rest).Some? && IsVariableName(Trim(body[from..][2..2 + FindClose(rest).value]))
  }

  lemma SlotAt(body: string, from: nat) returns (slot: Node)
    requires from < |body| && !StartsWith(body[from..], ESCAPED_OPEN) && StartsWith(body[from..], OPEN)
    requires IsReadable(body, from)
    ensures IsPlaceholder(body, slot) && slot.start == from
  {
    var s := body[from..];
    assert s[2..] == body[from + 2..];
    var length := FindClose(s[2..]).value;
    assert s[2..2 + length] == body[from + 2..from + 2 + length];
    slot := Variable(Trim(s[2..2 + length]), from, from + length + 4);
  }

  /** And a first wrong opening fails the lexer there. */
  lemma {:induction false} StopIsLexed(body: string, from: nat, slots: seq<Node>, offset: nat, code: SyntaxErrorCode)
    requires from <= |body| && FailsAt(body, from, slots, code, offset)
    ensures Lex(body[from..], from) == LexError(code, offset)
    decreases |body| - from
  {
    if slots == [] && from == offset {
      assert body[from..][2..] == body[offset + 2..];
      OpeningFails(body[from..], from, code);
    } else if slots != [] && slots[0].start == from {
      LexSlot(body, slots[0]);
      StopIsLexed(body, slots[0].end, slots[1..], offset, code);
    } else {
      var escaped := StartsWith(body[from..], ESCAPED_OPEN);
      var width := if escaped then 3 else 1;
      var text := if escaped then OPEN else [body[from]];
      StopIsLexed(body, from + width, slots, offset, code);
      LexText(body, from, width, text);
    }
  }

  /**
   * A body fails to parse with this code at this offset exactly when the first opening that is no
   * placeholder is there, and that is what is wrong with it.
   */
  lemma ParseFailsExactlyAt(body: string, code: SyntaxErrorCode, offset: nat)
    ensures Parse(body) == SyntaxError(code, offset) <==> exists slots :: FailsAt(body, 0, slots, code, offset)
  {
    assert body[0..] == body;
    if Parse(body) == SyntaxError(code, offset) {
      var slots := LexStops(body, 0);
    }
    if slots :| FailsAt(body, 0, slots, code, offset) {
      StopIsLexed(body, 0, slots, offset, code);
    }
  }

  lemma {:induction false} SlotsAreOrdered(body: string, from: nat, slots: seq<Node>)
    requires AreSlots(body, from, slots)
    ensures forall i :: 0 <= i < |slots| ==>
              slots[i].Variable? && from <= slots[i].start < slots[i].end <= |body|
    ensures forall i, j ::
      0 <= i < j < |slots| ==> slots[i].Variable? && slots[j].Variable? && slots[i].end <= slots[j].start
    decreases |slots|
  {
    if slots != [] {
      SlotsAreOrdered(body, slots[0].end, slots[1..]);
      assert forall i :: 0 < i < |slots| ==> slots[i] == slots[1..][i - 1];
    }
  }

  // ----- the names a template uses -----

  function SlotNames(tokens: seq<Token>): seq<string> {
    if tokens == [] then []
    else (if tokens[0].Slot? then [tokens[0].name] else []) + SlotNames(tokens[1..])
  }

  function FirstIndex<T(==)>(xs: seq<T>, x: T): (k: nat)
    ensures k <= |xs| && (k < |xs| ==> xs[k] == x) && forall i :: 0 <= i < k ==> xs[i] != x
    ensures x in xs ==> k < |xs|
  {
    if xs == [] || xs[0] == x then 0 else 1 + FirstIndex(xs[1..], x)
  }

  /** Exactly the members of `all`, each once, in the order they first occur there. */
  ghost predicate InFirstOrder<T(!new)>(xs: seq<T>, all: seq<T>) {
    && (forall x :: x in xs <==> x in all)
    && forall i, j :: 0 <= i < j < |xs| ==> FirstIndex(all, xs[i]) < FirstIndex(all, xs[j])
  }

  lemma FirstInPrefix<T>(all: seq<T>, more: seq<T>, x: T)
    requires x in all
    ensures FirstIndex(all + more, x) == FirstIndex(all, x)
  {
    var k := FirstIndex(all, x);
    assert (all + more)[k] == x;
    assert forall i :: 0 <= i < k ==> (all + more)[i] == all[i];
  }

  lemma FirstAtEnd<T>(all: seq<T>, x: T)
    requires x !in all
    ensures FirstIndex(all + [x], x) == |all|
  {
    assert (all + [x])[|all|] == x;
  }

  lemma AddLast<T(!new)>(xs: seq<T>, all: seq<T>, x: T)
    requires InFirstOrder(xs, all)
    ensures InFirstOrder(if x in xs then xs else xs + [x], all + [x])
  {
    var ys := if x in xs then xs else xs + [x];
    forall i, j | 0 <= i < j < |ys|
      ensures FirstIndex(all + [x], ys[i]) < FirstIndex(all + [x], ys[j])
    {
      assert xs[i] in xs;
      FirstInPrefix(all, [x], ys[i]);
      if j < |xs| {
        assert xs[j] in xs;
        FirstInPrefix(all, [x], ys[j]);
      } else {
        FirstAtEnd(all, x);
      }
    }
  }

  lemma {:induction false} NamesInFirstOrder(seen: seq<string>, before: seq<string>, tokens: seq<Token>)
    requires InFirstOrder(seen, before)
    ensures InFirstOrder(Names(seen, tokens), before + SlotNames(tokens))
    decreases |tokens|
  {
    SlotNamesStep(before, tokens);
    if tokens != [] {
      if tokens[0].Slot? {
        AddLast(seen, before, tokens[0].name);
        NamesInFirstOrder(if tokens[0].name in seen then seen else seen + [tokens[0].name],
                          before + [tokens[0].name], tokens[1..]);
      } else {
        NamesInFirstOrder(seen, before, tokens[1..]);
      }
    }
  }

  lemma SlotNamesStep(before: seq<string>, tokens: seq<Token>)
    ensures tokens == [] ==> before + SlotNames(tokens) == before
    ensures tokens != [] && tokens[0].Slot? ==>
              before + SlotNames(tokens) == before + [tokens[0].name] + SlotNames(tokens[1..])
    ensures tokens != [] && !tokens[0].Slot? ==> before + SlotNames(tokens) == before + SlotNames(tokens[1..])
  {
    if tokens != [] {
      var later := SlotNames(tokens[1..]);
      var first := if tokens[0].Slot? then [tokens[0].name] else [];
      assert SlotNames(tokens) == first + later;
      JoinedInTurn(before, first, later);
    }
  }

  lemma JoinedInTurn(a: seq<string>, b: seq<string>, c: seq<string>)
    ensures a + (b + c) == a + b + c && a + [] == a
  {
  }

  function NamesOf(slots: seq<Node>): seq<string>
    requires forall slot :: slot in slots ==> slot.Variable?
  {
    seq(|slots|, i requires 0 <= i < |slots| => slots[i].name)
  }

  lemma {:induction false} TokenSlotNames(tokens: seq<Token>)
    ensures forall slot :: slot in TokenSlots(tokens) ==> slot.Variable?
    ensures NamesOf(TokenSlots(tokens)) == SlotNames(tokens)
  {
    if tokens != [] {
      TokenSlotNames(tokens[1..]);
    }
  }

  /** `variableNames` holds each placeholder's name once, by first appearance in the body. */
  lemma VariableNamesByFirstAppearance(body: string)
    requires Parse(body).Parsed?
    ensures forall slot :: slot in Variables(Parse(body).nodes) ==> slot.Variable?
    ensures InFirstOrder(Parse(body).variableNames, NamesOf(Variables(Parse(body).nodes)))
  {
    var tokens := Lex(body, 0).tokens;
    GroupKeepsSlots("", tokens);
    TokenSlotNames(tokens);
    NamesInFirstOrder([], [], tokens);
    assert [] + SlotNames(tokens) == SlotNames(tokens);
  }

  // ----- values and checks -----

  datatype Declaration = Declaration(name: string, required: bool, defaultValue: Option<string>)

  /** A supplied value: one with a text form, null or undefined, or something else. */
  datatype Value = Supported(text: string) | Nothing | Unsupported

  datatype Resolution = Resolved(values: map<string, string>, defaulted: seq<string>) | Unresolved(missing: seq<string>)

  datatype Rendering =
    | Rendered(body: string, variablesUsed: seq<string>, optionalVariablesDefaulted: seq<string>)
    | VariableUnknown(names: set<string>)
    | VariableInvalidType(names: set<string>)
    | VariableMissing(missing: seq<string>)
    | VariableTooLong(names: set<string>)
    | BodyTooLong(length: nat)

  const MAXIMUM_RENDERED_BODY_LENGTH := 4096
  const MAXIMUM_VARIABLE_VALUE_LENGTH := 1024

  predicate IsSupplied(values: map<string, Value>, name: string) {
    name in values && values[name].Supported?
  }

  function Unsupplied(declarations: seq<Declaration>, values: map<string, Value>, required: bool): seq<string> {
    if declarations == [] then []
    else
      var last := declarations[|declarations| - 1];
      Unsupplied(declarations[..|declarations| - 1], values, required)
      + if last.required == required && !IsSupplied(values, last.name) then [last.name] else []
  }

  predicate IsDeclared(declarations: seq<Declaration>, name: string) {
    exists i :: 0 <= i < |declarations| && declarations[i].name == name
  }

  /** The default of the last declaration of a name; no default means the empty text. */
  function DefaultOf(declarations: seq<Declaration>, name: string): string {
    if declarations == [] then ""
    else
      var last := declarations[|declarations| - 1];
      if last.name == name then last.defaultValue.GetOr("") else DefaultOf(declarations[..|declarations| - 1], name)
  }

  function ValueOf(declarations: seq<Declaration>, values: map<string, Value>, name: string): string {
    if IsSupplied(values, name) then values[name].text else DefaultOf(declarations, name)
  }

  ghost predicate ResolvesTo(declarations: seq<Declaration>, values: map<string, Value>,
                             resolved: map<string, string>) {
    && (forall name :: name in resolved <==> IsDeclared(declarations, name))
    && forall name :: name in resolved ==> resolved[name] == ValueOf(declarations, values, name)
  }

  /** What the declared names resolve to when nothing required is missing. */
  function ResolvedValues(declarations: seq<Declaration>, values: map<string, Value>): map<string, string> {
    map declaration | declaration in declarations :: declaration.name := ValueOf(declarations, values, declaration.name)
  }

  lemma ResolutionIsUnique(declarations: seq<Declaration>, values: map<string, Value>, resolved: map<string, string>)
    requires ResolvesTo(declarations, values, resolved)
    ensures resolved == ResolvedValues(declarations, values)
  {
    var other := ResolvedValues(declarations, values);
    forall name ensures name in other <==> name in resolved {
      if IsDeclared(declarations, name) {
        var i :| 0 <= i < |declarations| && declarations[i].name == name;
        assert declarations[i] in declarations;
      }
    }
  }

  lemma DeclaredAlso(declarations: seq<Declaration>, last: Declaration, name: string)
    ensures IsDeclared(declarations + [last], name) <==> IsDeclared(declarations, name) || name == last.name
  {
    var all := declarations + [last];
    if IsDeclared(declarations, name) {
      var i :| 0 <= i < |declarations| && declarations[i].name == name;
      assert all[i].name == name;
    }
    assert all[|declarations|] == last;
  }

  lemma ResolveOneMore(declarations: seq<Declaration>, last: Declaration, values: map<string, Value>,
                       resolved: map<string, string>)
    requires ResolvesTo(declarations, values, resolved)
    ensures ResolvesTo(declarations + [last], values,
                       resolved[last.name := ValueOf(declarations + [last], values, last.name)])
  {
    assert (declarations + [last])[..|declarations|] == declarations;
    forall name ensures IsDeclared(declarations + [last], name)
      <==> IsDeclared(declarations, name) || name == last.name {
      DeclaredAlso(declarations, last, name);
    }
  }

  lemma UnsuppliedOneMore(declarations: seq<Declaration>, last: Declaration, values: map<string, Value>, required: bool)
    ensures Unsupplied(declarations + [last], values, required)
            == Unsupplied(declarations, values, required)
               + if last.required == required && !IsSupplied(values, last.name) then [last.name] else []
  {
    assert (declarations + [last])[..|declarations|] == declarations;
  }

  lemma DefaultOfLast(declarations: seq<Declaration>, last: Declaration, values: map<string, Value>)
    ensures ValueOf(declarations + [last], values, last.name)
            == if IsSupplied(values, last.name) then values[last.name].text else last.defaultValue.GetOr("")
  {
  }

  /** The listed are the names at exactly these places, in this order. */
  ghost predicate AreAt(names: seq<string>, places: seq<nat>, declarations: seq<Declaration>) {
    && |places| == |names|
    && (forall i, j :: 0 <= i < j < |places| ==> places[i] < places[j])
    && forall i :: 0 <= i < |places| ==> places[i] < |declarations| && names[i] == declarations[places[i]].name
  }

  /** Listed, in the order of their declaration, are those of the kind asked for that no text was given for. */
  lemma {:induction false} UnsuppliedAreListed(declarations: seq<Declaration>, values: map<string, Value>,
                                               required: bool) returns (places: seq<nat>)
    ensures AreAt(Unsupplied(declarations, values, required), places, declarations)
    ensures forall i: nat :: i in places <==>
              && i < |declarations| && declarations[i].required == required
              && (declarations[i].name in values ==> !values[declarations[i].name].Supported?)
  {
    if declarations == [] {
      places := [];
    } else {
      var n := |declarations| - 1;
      places := UnsuppliedAreListed(declarations[..n], values, required);
      assert forall i :: 0 <= i < n ==> declarations[..n][i] == declarations[i];
      if declarations[n].required == required && !IsSupplied(values, declarations[n].name) {
        assert forall i :: 0 <= i < |places| ==> places[i] in places;
        places := places + [n];
      }
    }
  }

  /** A name resolves to the text given for it; without one, to the default of its last declaration, or to nothing. */
  lemma {:induction false} LastDeclarationDecides(declarations: seq<Declaration>, values: map<string, Value>, i: nat)
    requires i < |declarations| && forall j :: i < j < |declarations| ==> declarations[j].name != declarations[i].name
    ensures var name, resolved := declarations[i].name, ResolvedValues(declarations, values);
            && name in resolved
            && (name in values && values[name].Supported? ==> resolved[name] == values[name].text)
            && (!(name in values && values[name].Supported?) ==>
                  resolved[name] == match declarations[i].defaultValue
                                    case Some(text) => text
                                    case None => "")
  {
    assert declarations[i] in declarations;
    DefaultIsTheLast(declarations, i);
  }

  lemma {:induction false} DefaultIsTheLast(declarations: seq<Declaration>, i: nat)
    requires i < |declarations| && forall j :: i < j < |declarations| ==> declarations[j].name != declarations[i].name
    ensures DefaultOf(declarations, declarations[i].name) == declarations[i].defaultValue.GetOr("")
  {
    if i < |declarations| - 1 {
      DefaultIsTheLast(declarations[..|declarations| - 1], i);
    }
  }

  /** Nothing else resolves. */
  lemma OnlyDeclaredResolve(declarations: seq<Declaration>, values: map<string, Value>, name: string)
    ensures name in ResolvedValues(declarations, values)
            <==> exists i :: 0 <= i < |declarations| && declarations[i].name == name
  {
    if i :| 0 <= i < |declarations| && declarations[i].name == name {
      assert declarations[i] in declarations;
    }
  }

  /** The defaulted that the body uses, in the order of their declaration. */
  lemma {:induction false} DefaultedAppend(names: seq<string>, last: string, used: seq<string>)
    ensures Defaulted([], used) == []
    ensures Defaulted(names + [last], used) == Defaulted(names, used) + if last in used then [last] else []
  {
    if names == [] {
      assert ([] + [last])[1..] == [];
    } else {
      assert (names + [last])[1..] == names[1..] + [last];
      DefaultedAppend(names[1..], last, used);
    }
  }

  /** No required declaration is unsupplied exactly when none is listed. */
  lemma {:induction false} NothingMissing(declarations: seq<Declaration>, values: map<string, Value>)
    ensures Unsupplied(declarations, values, true) == [] <==>
            forall i :: 0 <= i < |declarations| && declarations[i].required ==> IsSupplied(values, declarations[i].name)
  {
    if declarations != [] {
      var n := |declarations| - 1;
      NothingMissing(declarations[..n], values);
      assert forall i :: 0 <= i < n ==> declarations[..n][i] == declarations[i];
    }
  }

  method ResolveVariables(declarations: seq<Declaration>, values: map<string, Value>) returns (resolution: Resolution)
    ensures resolution.Unresolved? <==>
            exists i :: 0 <= i < |declarations| && declarations[i].required && !IsSupplied(values, declarations[i].name)
    ensures resolution.Unresolved? ==> resolution.missing == Unsupplied(declarations, values, true)
    ensures resolution.Resolved? ==>
              && resolution.values == ResolvedValues(declarations, values)
              && resolution.defaulted == Unsupplied(declarations, values, false)
  {
    var resolved: map<string, string> := map[];
    var defaulted: seq<string> := [];
    var missing: seq<string> := [];
    var i := 0;
    while i < |declarations|
      invariant 0 <= i <= |declarations|
      invariant missing == Unsupplied(declarations[..i], values, true)
      invariant defaulted == Unsupplied(declarations[..i], values, false)
      invariant missing == [] ==> ResolvesTo(declarations[..i], values, resolved)
    {
      var declaration := declarations[i];
      ghost var before := declarations[..i];
      assert declarations[..i + 1] == before + [declaration];
      UnsuppliedOneMore(before, declaration, values, true);
      UnsuppliedOneMore(before, declaration, values, false);
      DefaultOfLast(before, declaration, values);
      if missing == [] { ResolveOneMore(before, declaration, values, resolved); }
      if IsSupplied(values, declaration.name) {
        resolved := resolved[declaration.name := values[declaration.name].text];
      } else if declaration.required {
        missing := missing + [declaration.name];
      } else {
        resolved := resolved[declaration.name := declaration.defaultValue.GetOr("")];
        defaulted := defaulted + [declaration.name];
      }
      i := i + 1;
    }
    assert declarations[..i] == declarations;
    NothingMissing(declarations, values);
    if missing == [] { ResolutionIsUnique(declarations, values, resolved); }
    resolution := if missing != [] then Unresolved(missing) else Resolved(resolved, defaulted);
  }

  /** Every value given is declared, and of a supported type or absent. */
  predicate AcceptsValues(declarations: seq<Declaration>, values: map<string, Value>) {
    forall name :: name in values ==> IsDeclared(declarations, name) && !values[name].Unsupported?
  }

  /** Every declaration is met by a text that is not too long, a default counting like a value, used or not. */
  predicate MeetsDeclarations(declarations: seq<Declaration>, values: map<string, Value>) {
    forall i :: 0 <= i < |declarations| ==>
      && (declarations[i].required ==> IsSupplied(values, declarations[i].name))
      && |ValueOf(declarations, values, declarations[i].name)| <= MAXIMUM_VARIABLE_VALUE_LENGTH
  }

  function Defaulted(names: seq<string>, used: seq<string>): (kept: seq<string>)
    ensures forall name :: name in kept <==> name in names && name in used
  {
    if names == [] then []
    else (if names[0] in used then [names[0]] else []) + Defaulted(names[1..], used)
  }

  /**
   * The checks in their order. A body comes back exactly when all pass, and it is
   * the nodes joined under the one map the declarations and values determine.
   */
  method RenderTemplate(nodes: seq<Node>, variableNames: seq<string>, declarations: seq<Declaration>,
                        values: map<string, Value>)
      returns (rendering: Rendering)
    ensures rendering.VariableUnknown? <==> exists name :: name in values && !IsDeclared(declarations, name)
    ensures rendering.VariableUnknown? ==>
              forall name :: name in rendering.names <==> name in values && !IsDeclared(declarations, name)
    ensures rendering.VariableInvalidType? <==>
              && (forall name :: name in values ==> IsDeclared(declarations, name))
              && exists name :: name in values && values[name].Unsupported?
    ensures rendering.VariableInvalidType? ==>
              forall name :: name in rendering.names <==> name in values && values[name].Unsupported?
    ensures (rendering.VariableUnknown? || rendering.VariableInvalidType?) <==> !AcceptsValues(declarations, values)
    ensures (rendering.VariableMissing? || rendering.VariableTooLong?) <==>
            AcceptsValues(declarations, values) && !MeetsDeclarations(declarations, values)
    ensures rendering.VariableMissing? ==> rendering.missing == Unsupplied(declarations, values, true) != []
    ensures rendering.VariableTooLong? ==>
              && Unsupplied(declarations, values, true) == []
              && forall name :: name in rendering.names <==>
                   IsDeclared(declarations, name)
                     && |ValueOf(declarations, values, name)| > 1024
    ensures AcceptsValues(declarations, values) && MeetsDeclarations(declarations, values) ==>
              var body := RenderNodes(nodes, ResolvedValues(declarations, values));
              rendering == if |body| > 4096 then BodyTooLong(|body|)
                           else Rendered(body, variableNames,
                                         Defaulted(Unsupplied(declarations, values, false), variableNames))
  {
    var unknown := set name | name in values && !IsDeclared(declarations, name);
    if unknown != {} {
      var name :| name in unknown;
      return VariableUnknown(unknown);
    }
    forall name | name in values ensures IsDeclared(declarations, name) { assert name !in unknown; }
    var invalid := set name | name in values && values[name].Unsupported?;
    if invalid != {} {
      var name :| name in invalid;
      return VariableInvalidType(invalid);
    }
    forall name | name in values ensures !values[name].Unsupported? { assert name !in invalid; }
    assert AcceptsValues(declarations, values);
    var resolution := ResolveVariables(declarations, values);
    NothingMissing(declarations, values);
    if resolution.Unresolved? {
      return VariableMissing(resolution.missing);
    }
    var resolved := resolution.values;
    var tooLong := set name | name in resolved && |resolved[name]| > MAXIMUM_VARIABLE_VALUE_LENGTH;
    if tooLong != {} {
      var name :| name in tooLong;
      return VariableTooLong(tooLong);
    }
    forall i | 0 <= i < |declarations|
      ensures |ValueOf(declarations, values, declarations[i].name)| <= MAXIMUM_VARIABLE_VALUE_LENGTH
    {
      assert IsDeclared(declarations, declarations[i].name);
      assert declarations[i].name !in tooLong;
    }
    var body := RenderNodes(nodes, resolved);
    if |body| > MAXIMUM_RENDERED_BODY_LENGTH {
      return BodyTooLong(|body|);
    }
    rendering := Rendered(body, variableNames, Defaulted(resolution.defaulted, variableNames));
  }
}
