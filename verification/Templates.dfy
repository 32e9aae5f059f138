/**
 * Message templates: named placeholders in plain text, with one escape. The
 * scanner reads left to right; what it reads is defined here twice over, as the
 * loop that fills a text buffer and as a lexer whose tokens are then grouped.
 */
module Templates {
  import opened Wrappers

  datatype Node = Text(value: string) | Variable(name: string, start: nat, end: nat)

  datatype SyntaxErrorCode = UnclosedPlaceholder | EmptyPlaceholder | InvalidVariableName

  datatype Template =
    | Parsed(nodes: seq<Node>, variableNames: seq<string>)
    | SyntaxError(code: SyntaxErrorCode, offset: nat)

  const OPEN := "{{"
  const CLOSE := "}}"
  const ESCAPED_OPEN := "\\{{"
  const MAXIMUM_NAME_LENGTH := 64

  // ----- the characters -----

  predicate StartsWith(s: string, prefix: string) {
    |prefix| <= |s| && s[..|prefix|] == prefix
  }

  predicate IsLetter(c: char) {
    'a' <= c <= 'z' || 'A' <= c <= 'Z'
  }

  predicate IsNameCharacter(c: char) {
    IsLetter(c) || '0' <= c <= '9' || c == '_'
  }

  predicate IsVariableName(s: string) {
    && 1 <= |s| <= MAXIMUM_NAME_LENGTH
    && IsLetter(s[0])
    && forall i :: 0 <= i < |s| ==> IsNameCharacter(s[i])
  }

  /** The characters trimming removes: line terminators and white space, the byte order mark among it. */
  predicate IsSpace(c: char) {
    || '\U{0009}' <= c <= '\U{000D}' || c == ' ' || c == '\U{00A0}' || c == '\U{1680}'
    || '\U{2000}' <= c <= '\U{200A}' || c == '\U{2028}' || c == '\U{2029}' || c == '\U{202F}'
    || c == '\U{205F}' || c == '\U{3000}' || c == '\U{FEFF}'
  }

  function TrimStart(s: string): string {
    if s != "" && IsSpace(s[0]) then TrimStart(s[1..]) else s
  }

  function TrimEnd(s: string): string {
    if s != "" && IsSpace(s[|s| - 1]) then TrimEnd(s[..|s| - 1]) else s
  }

  function Trim(s: string): string {
    TrimEnd(TrimStart(s))
  }

  /** A letter and up to 63 letters, digits and underscores more. */
  lemma VariableNamesAre(s: string)
    ensures IsVariableName(s) <==>
            && 1 <= |s| <= 64
            && ('a' <= s[0] <= 'z' || 'A' <= s[0] <= 'Z')
            && forall i :: 1 <= i < |s| ==>
                 'a' <= s[i] <= 'z' || 'A' <= s[i] <= 'Z' || '0' <= s[i] <= '9' || s[i] == '_'
  {
  }

  /** The twenty-five code points. */
  lemma SpacesAre(c: char)
    ensures IsSpace(c) <==>
            c as int in {0x09, 0x0A, 0x0B, 0x0C, 0x0D, 0x20, 0xA0, 0x1680, 0x2000, 0x2001, 0x2002, 0x2003, 0x2004,
                         0x2005, 0x2006, 0x2007, 0x2008, 0x2009, 0x200A, 0x2028, 0x2029, 0x202F, 0x205F, 0x3000,
                         0xFEFF}
  {
  }

  predicate AllSpace(s: string) {
    forall i :: 0 <= i < |s| ==> IsSpace(s[i])
  }

  lemma {:induction false} TrimStartDrops(s: string) returns (i: nat)
    ensures i <= |s| && TrimStart(s) == s[i..] && AllSpace(s[..i]) && (i < |s| ==> !IsSpace(s[i]))
  {
    if s != "" && IsSpace(s[0]) {
      var k := TrimStartDrops(s[1..]);
      i := k + 1;
      assert s[1..][k..] == s[i..];
      assert s[..i] == [s[0]] + s[1..][..k];
    } else {
      i := 0;
      assert s[0..] == s;
    }
  }

  lemma {:induction false} TrimEndDrops(s: string) returns (k: nat)
    ensures k <= |s| && TrimEnd(s) == s[..k] && AllSpace(s[k..]) && (k > 0 ==> !IsSpace(s[k - 1]))
  {
    if s != "" && IsSpace(s[|s| - 1]) {
      var n := |s| - 1;
      k := TrimEndDrops(s[..n]);
      assert s[..n][..k] == s[..k];
      assert s[k..] == s[..n][k..] + [s[n]];
    } else {
      k := |s|;
      assert s[..k] == s;
    }
  }

  /** Trimming takes away what is space at either end, and nothing else. */
  lemma TrimIsTheCore(s: string) returns (before: string, after: string)
    ensures s == before + Trim(s) + after && AllSpace(before) && AllSpace(after)
    ensures Trim(s) != "" ==> !IsSpace(Trim(s)[0]) && !IsSpace(Trim(s)[|Trim(s)| - 1])
    ensures Trim(s) == "" <==> AllSpace(s)
  {
    var i := TrimStartDrops(s);
    var rest := s[i..];
    var k := TrimEndDrops(rest);
    before, after := s[..i], rest[k..];
    assert s == before + rest && rest == rest[..k] + after;
    if k > 0 { assert rest[0] == s[i] && !IsSpace(s[i]); }
  }

  predicate ClosesAt(s: string, i: nat) {
    i + 2 <= |s| && s[i] == '}' && s[i + 1] == '}'
  }

  /** Where the first closing braces are, if anywhere. */
  function FindClose(s: string): (index: Option<nat>)
    ensures index.Some? ==> ClosesAt(s, index.value) && forall i: nat | i < index.value :: !ClosesAt(s, i)
    ensures index.None? ==> forall i: nat :: !ClosesAt(s, i)
  {
    if |s| < 2 then None
    else if ClosesAt(s, 0) then Some(0)
    else
      var rest := FindClose(s[1..]);
      assert forall i: nat | i > 0 :: ClosesAt(s, i) ==> ClosesAt(s[1..], i - 1);
      if rest.Some? then Some(rest.value + 1) else None
  }

  // ----- the lexer -----

  datatype Token = Literal(text: string) | Slot(name: string, start: nat, end: nat)

  datatype Lexed = Tokens(tokens: seq<Token>) | LexError(code: SyntaxErrorCode, offset: nat) {
    function After(token: Token): Lexed {
      if Tokens? then Tokens([token] + tokens) else this
    }
  }

  /** The tokens of `s`, which stands `offset` characters into the body. */
  function Lex(s: string, offset: nat): Lexed
    decreases |s|
  {
    if s == "" then Tokens([])
    else if StartsWith(s, ESCAPED_OPEN) then Lex(s[3..], offset + 3).After(Literal(OPEN))
    else if !StartsWith(s, OPEN) then Lex(s[1..], offset + 1).After(Literal(s[..1]))
    else match FindClose(s[2..])
      case None => LexError(UnclosedPlaceholder, offset)
      case Some(length) =>
        var name := Trim(s[2..2 + length]);
        if name == "" then LexError(EmptyPlaceholder, offset)
        else if !IsVariableName(name) then LexError(InvalidVariableName, offset)
        else Lex(s[length + 4..], offset + length + 4).After(Slot(name, offset, offset + length + 4))
  }

  function Flush(buffer: string): seq<Node> {
    if buffer == "" then [] else [Text(buffer)]
  }

  /** Runs of literals become one text node each, after what the buffer already holds. */
  function Group(buffer: string, tokens: seq<Token>): seq<Node>
    decreases |tokens|
  {
    if tokens == [] then Flush(buffer)
    else match tokens[0]
      case Literal(text) => Group(buffer + text, tokens[1..])
      case Slot(name, start, end) => Flush(buffer) + [Variable(name, start, end)] + Group("", tokens[1..])
  }

  /** The variables of the tokens, each once, after those already seen. */
  function Names(seen: seq<string>, tokens: seq<Token>): seq<string>
    decreases |tokens|
  {
    if tokens == [] then seen
    else if tokens[0].Slot? && tokens[0].name !in seen then Names(seen + [tokens[0].name], tokens[1..])
    else Names(seen, tokens[1..])
  }

  function Parse(body: string): Template {
    match Lex(body, 0)
    case Tokens(tokens) => Parsed(Group("", tokens), Names([], tokens))
    case LexError(code, offset) => SyntaxError(code, offset)
  }

  /** What the scanner still has to produce, standing at `index` with what it holds. */
  function Remaining(body: string, index: nat, nodes: seq<Node>, buffer: string, names: seq<string>): Template
    requires index <= |body|
  {
    match Lex(body[index..], index)
    case Tokens(tokens) => Parsed(nodes + Group(buffer, tokens), Names(names, tokens))
    case LexError(code, offset) => SyntaxError(code, offset)
  }

  lemma AfterLiteral(body: string, index: nat, nodes: seq<Node>, buffer: string, names: seq<string>, text: string,
                     next: nat)
    requires index < next <= |body|
    requires Lex(body[index..], index) == Lex(body[next..], next).After(Literal(text))
    ensures Remaining(body, index, nodes, buffer, names) == Remaining(body, next, nodes, buffer + text, names)
  {
    var later := Lex(body[next..], next);
    if later.Tokens? {
      assert ([Literal(text)] + later.tokens)[1..] == later.tokens;
    }
  }

  lemma AfterEscape(body: string, index: nat, nodes: seq<Node>, buffer: string, names: seq<string>)
    requires index < |body| && StartsWith(body[index..], ESCAPED_OPEN)
    ensures index + 3 <= |body|
    ensures Remaining(body, index, nodes, buffer, names) == Remaining(body, index + 3, nodes, buffer + OPEN, names)
  {
    assert body[index..][3..] == body[index + 3..];
    AfterLiteral(body, index, nodes, buffer, names, OPEN, index + 3);
  }

  lemma AfterPlain(body: string, index: nat, nodes: seq<Node>, buffer: string, names: seq<string>)
    requires index < |body| && !StartsWith(body[index..], ESCAPED_OPEN) && !StartsWith(body[index..], OPEN)
    ensures Remaining(body, index, nodes, buffer, names)
            == Remaining(body, index + 1, nodes, buffer + [body[index]], names)
  {
    assert body[index..][1..] == body[index + 1..] && body[index..][..1] == [body[index]];
    AfterLiteral(body, index, nodes, buffer, names, [body[index]], index + 1);
  }

  lemma GroupSlot(buffer: string, names: seq<string>, name: string, start: nat, end: nat, later: seq<Token>)
    ensures Group(buffer, [Slot(name, start, end)] + later)
            == Flush(buffer) + [Variable(name, start, end)] + Group("", later)
    ensures Names(names, [Slot(name, start, end)] + later)
            == Names(if name in names then names else names + [name], later)
  {
    assert ([Slot(name, start, end)] + later)[1..] == later;
  }

  lemma AfterSlot(body: string, index: nat, nodes: seq<Node>, buffer: string, names: seq<string>, length: nat)
    requires index < |body| && !StartsWith(body[index..], ESCAPED_OPEN) && StartsWith(body[index..], OPEN)
    requires FindClose(body[index..][2..]) == Some(length) && IsVariableName(Trim(body[index..][2..2 + length]))
    ensures index + length + 4 <= |body|
    ensures var name := Trim(body[index..][2..2 + length]);
            var next := index + length + 4;
            Remaining(body, index, nodes, buffer, names) ==
            Remaining(body, next, nodes + Flush(buffer) + [Variable(name, index, next)], "",
                      if name in names then names else names + [name])
  {
    var name := Trim(body[index..][2..2 + length]);
    var next := index + length + 4;
    assert body[index..][length + 4..] == body[next..];
    var later := Lex(body[next..], next);
    assert Lex(body[index..], index) == later.After(Slot(name, index, next));
    if later.Tokens? {
      GroupSlot(buffer, names, name, index, next, later.tokens);
      assert nodes + (Flush(buffer) + [Variable(name, index, next)] + Group("", later.tokens))
          == nodes + Flush(buffer) + [Variable(name, index, next)] + Group("", later.tokens);
    }
  }

  /** What stands at an opening: a placeholder of this name, up to its closing braces, or an error. */
  datatype Opened = Named(name: string, length: nat) | Malformed(code: SyntaxErrorCode)

  /** At the end of the body nothing remains but the buffer. */
  lemma AtEnd(body: string, nodes: seq<Node>, buffer: string, names: seq<string>)
    ensures Remaining(body, |body|, nodes, buffer, names) == Parsed(nodes + Flush(buffer), names)
  {
  }

  method ReadPlaceholder(rest: string, offset: nat) returns (read: Opened)
    requires !StartsWith(rest, ESCAPED_OPEN) && StartsWith(rest, OPEN)
    ensures read.Named? ==>
              && FindClose(rest[2..]) == Some(read.length)
              && read.name == Trim(rest[2..2 + read.length]) && IsVariableName(read.name)
    ensures read.Malformed? ==> Lex(rest, offset) == LexError(read.code, offset)
  {
    var close := FindClose(rest[2..]);
    if close.None? {
      return Malformed(UnclosedPlaceholder);
    }
    var rawName := Trim(rest[2..2 + close.value]);
    if |rawName| == 0 {
      return Malformed(EmptyPlaceholder);
    }
    if !IsVariableName(rawName) {
      return Malformed(InvalidVariableName);
    }
    read := Named(rawName, close.value);
  }

  /** Moves what the buffer holds, if anything, to the nodes. */
  method FlushText(nodes: seq<Node>, textBuffer: string) returns (flushed: seq<Node>)
    ensures flushed == nodes + Flush(textBuffer)
  {
    flushed := if textBuffer == "" then nodes else nodes + [Text(textBuffer)];
  }

  /** The scanner as it runs: an index, a text buffer, and what was pushed so far. */
  method ParseTemplate(body: string) returns (template: Template)
    ensures template == Parse(body)
  {
    var nodes: seq<Node> := [];
    var variableNames: seq<string> := [];
    var textBuffer := "";
    var index := 0;
    assert body[0..] == body;
    while index < |body|
      invariant 0 <= index <= |body|
      invariant Remaining(body, index, nodes, textBuffer, variableNames) == Parse(body)
    {
      var rest := body[index..];
      if StartsWith(rest, ESCAPED_OPEN) {
        AfterEscape(body, index, nodes, textBuffer, variableNames);
        textBuffer := textBuffer + OPEN;
        index := index + 3;
        continue;
      }
      if !StartsWith(rest, OPEN) {
        AfterPlain(body, index, nodes, textBuffer, variableNames);
        textBuffer := textBuffer + [body[index]];
        index := index + 1;
        continue;
      }
      var read := ReadPlaceholder(rest, index);
      if read.Malformed? {
        return SyntaxError(read.code, index);
      }
      AfterSlot(body, index, nodes, textBuffer, variableNames, read.length);
      var next := index + read.length + 4;
      nodes := FlushText(nodes, textBuffer);
      textBuffer := "";
      nodes := nodes + [Variable(read.name, index, next)];
      if read.name !in variableNames {
        variableNames := variableNames + [read.name];
      }
      index := next;
      assert Remaining(body, index, nodes, textBuffer, variableNames) == Parse(body);
    }
    AtEnd(body, nodes, textBuffer, variableNames);
    nodes := FlushText(nodes, textBuffer);
    template := Parsed(nodes, variableNames);
  }
}
