/**
 * The bounded shell word splitter: quote removal and operators, as section 2.2
 * of the POSIX.1-2017 Shell Command Language has them.
 */
module ShellWords {
  import opened Wrappers

  datatype Token = Token(text: string, offset: int)

  predicate Operator(c: char) {
    c == ';' || c == '&' || c == '|' || c == '(' || c == ')' || c == '<' || c == '>' || c == '\n'
  }

  predicate Blank(c: char) {
    c == ' ' || c == '\t' || c == '\r'
  }

  /** What a backslash escapes inside double quotes. */
  predicate Escapable(c: char) {
    c == '$' || c == '`' || c == '"' || c == '\\' || c == '\n'
  }

  /** An escaped newline is a line continuation: it leaves nothing. */
  function Escaped(c: char): string {
    if c == '\n' then "" else [c]
  }

  /** A stretch of input: part of a word, an operator, or a separator. */
  datatype Chunk = Part(text: string, len: nat) | Op | Gap

  /** Verbatim up to the closing quote, or to the end when there is none. */
  function Verbatim(s: string): (c: Chunk)
    requires s != ""
    ensures c.Part? && 0 < c.len <= |s|
  {
    var close := IndexOf(s, s[0], 1);
    if close == -1 then Part(s[1..], |s|) else Part(s[1..close], close + 1)
  }

  /** The text after an opening double quote, and how much of the input it takes with its closing quote. */
  function DoubleBody(s: string): (c: Chunk)
    ensures c.Part? && c.len <= |s|
  {
    if s == "" then Part("", 0)
    else if s[0] == '"' then Part("", 1)
    else if s[0] == '\\' && |s| > 1 && Escapable(s[1]) then
      var rest := DoubleBody(s[2..]);
      Part(Escaped(s[1]) + rest.text, 2 + rest.len)
    else
      var rest := DoubleBody(s[1..]);
      Part([s[0]] + rest.text, 1 + rest.len)
  }

  function ChunkOf(s: string): (c: Chunk)
    requires s != ""
    ensures c.Part? ==> 0 < c.len <= |s|
  {
    if s[0] == '\\' && |s| > 1 then Part(Escaped(s[1]), 2)
    else if s[0] == '\'' || s[0] == '`' then Verbatim(s)
    else if s[0] == '"' then
      var body := DoubleBody(s[1..]);
      Part(body.text, 1 + body.len)
    else if Operator(s[0]) then Op
    else if Blank(s[0]) then Gap
    else Part([s[0]], 1)
  }

  /** The splitter at `index`: the tokens so far, and the text of the word it is in with the offset that began it. */
  datatype Splitter = Splitter(tokens: seq<Token>, text: string, offset: int, index: nat) {
    /** The word so far becomes a token when it has any text; only then is its offset cleared. */
    function Flush(): Splitter {
      if text != "" then Splitter(tokens + [Token(text, offset)], "", -1, index) else this
    }

    /** `len` characters of the input put `part` on the word. */
    function Join(part: string, len: nat): Splitter {
      Splitter(tokens, text + part, if offset < 0 then index else offset, index + len)
    }

    function Operate(c: char): Splitter {
      var done := Flush();
      Splitter(done.tokens + [Token([c], index)], done.text, done.offset, index + 1)
    }

    function Separate(): Splitter {
      var done := Flush();
      Splitter(done.tokens, done.text, done.offset, index + 1)
    }
  }

  const START := Splitter([], "", -1, 0)

  /** The tokens of a command whose rest is `s`. */
  function Scan(s: string, st: Splitter): seq<Token>
    decreases |s|
  {
    if s == "" then st.Flush().tokens
    else match ChunkOf(s)
      case Part(part, len) => Scan(s[len..], st.Join(part, len))
      case Op => Scan(s[1..], st.Operate(s[0]))
      case Gap => Scan(s[1..], st.Separate())
  }

  /** `text` is what the double quote opened before `start` has read up to `cursor`. */
  ghost predicate Reading(command: string, start: nat, cursor: nat, text: string)
    requires start <= cursor <= |command|
  {
    var rest := DoubleBody(command[cursor..]);
    DoubleBody(command[start..]) == Part(text + rest.text, cursor - start + rest.len)
  }

  predicate EscapeAt(command: string, cursor: nat)
    requires cursor < |command|
  {
    command[cursor] == '\\' && cursor + 1 < |command| && Escapable(command[cursor + 1])
  }

  /** The double-quoted text from `start`, one character or escape at a time. */
  method DoubleQuoted(command: string, start: nat) returns (text: string, next: nat)
    requires start <= |command|
    ensures start <= next <= |command|
    ensures DoubleBody(command[start..]) == Part(text, next - start)
  {
    var cursor;
    text, cursor := ReadQuoted(command, start);
    next := if cursor < |command| then cursor + 1 else |command|;
    ReadingEnds(command, start, cursor, text);
  }

  /** Up to the closing quote, or the end. */
  method ReadQuoted(command: string, start: nat) returns (text: string, cursor: nat)
    requires start <= |command|
    ensures start <= cursor <= |command| && (cursor == |command| || command[cursor] == '"')
    ensures Reading(command, start, cursor, text)
  {
    text, cursor := "", start;
    ReadingBegins(command, start);
    while cursor < |command| && command[cursor] != '"'
      invariant start <= cursor <= |command|
      invariant Reading(command, start, cursor, text)
    {
      ReadingGoesOn(command, start, cursor, text);
      if EscapeAt(command, cursor) {
        text, cursor := text + Escaped(command[cursor + 1]), cursor + 2;
      } else {
        text, cursor := text + [command[cursor]], cursor + 1;
      }
    }
  }

  lemma ReadingBegins(command: string, start: nat)
    requires start <= |command|
    ensures Reading(command, start, start, "")
  {
    var rest := DoubleBody(command[start..]);
    assert "" + rest.text == rest.text;
  }

  lemma ReadingGoesOn(command: string, start: nat, cursor: nat, text: string)
    requires start <= cursor < |command| && command[cursor] != '"' && Reading(command, start, cursor, text)
    ensures EscapeAt(command, cursor) ==> Reading(command, start, cursor + 2, text + Escaped(command[cursor + 1]))
    ensures !EscapeAt(command, cursor) ==> Reading(command, start, cursor + 1, text + [command[cursor]])
  {
    var s := command[cursor..];
    BodySteps(s);
    if EscapeAt(command, cursor) {
      assert s[2..] == command[cursor + 2..];
      Assoc(text, Escaped(command[cursor + 1]), DoubleBody(s[2..]).text);
    } else {
      assert s[1..] == command[cursor + 1..];
      Assoc(text, [command[cursor]], DoubleBody(s[1..]).text);
    }
  }

  lemma ReadingEnds(command: string, start: nat, cursor: nat, text: string)
    requires start <= cursor <= |command| && Reading(command, start, cursor, text)
    requires cursor == |command| || command[cursor] == '"'
    ensures DoubleBody(command[start..]) == Part(text, (if cursor < |command| then cursor + 1 else cursor) - start)
  {
    BodyEnds(command[cursor..]);
    assert text + "" == text;
  }

  lemma Assoc<T>(a: seq<T>, b: seq<T>, c: seq<T>)
    ensures a + b + c == a + (b + c)
  {
  }

  lemma BodySteps(s: string)
    requires s != "" && s[0] != '"'
    ensures if EscapeAt(s, 0) then
        DoubleBody(s) == Part(Escaped(s[1]) + DoubleBody(s[2..]).text, 2 + DoubleBody(s[2..]).len)
      else DoubleBody(s) == Part([s[0]] + DoubleBody(s[1..]).text, 1 + DoubleBody(s[1..]).len)
  {
  }

  lemma BodyEnds(s: string)
    requires s == "" || s[0] == '"'
    ensures DoubleBody(s) == Part("", if s == "" then 0 else 1)
  {
  }

  /** One stretch of a word: an escape, a quoted or backtick stretch, or one plain character. */
  method ReadPart(command: string, index: nat) returns (part: string, next: nat)
    requires index < |command| && !Operator(command[index]) && !Blank(command[index])
    ensures index < next <= |command| && ChunkOf(command[index..]) == Part(part, next - index)
  {
    var c, rest := command[index], command[index..];
    if c == '\\' && index + 1 < |command| {
      return Escaped(command[index + 1]), index + 2;
    }
    if c == '\'' || c == '`' {
      var close := IndexOf(rest, c, 1);
      var end := if close == -1 then |rest| else close;
      return rest[1..end], index + (if close == -1 then |rest| else close + 1);
    }
    if c == '"' {
      assert rest[1..] == command[index + 1..];
      part, next := DoubleQuoted(command, index + 1);
      return part, next;
    }
    return [c], index + 1;
  }

  method ShellTokens(command: string) returns (tokens: seq<Token>)
    ensures tokens == Scan(command, START)
  {
    var st := START;
    assert command[0..] == command;
    while st.index < |command|
      invariant st.index <= |command|
      invariant Scan(command[st.index..], st) == Scan(command, START)
      decreases |command| - st.index
    {
      st := Advance(command, st);
    }
    assert command[st.index..] == "";
    tokens := st.Flush().tokens;
  }

  /** One turn of the splitter. */
  method Advance(command: string, st: Splitter) returns (next: Splitter)
    requires st.index < |command|
    ensures st.index < next.index <= |command|
    ensures Scan(command[st.index..], st) == Scan(command[next.index..], next)
  {
    var c := command[st.index];
    if Operator(c) {
      OneScans(command, st, st.Operate(c));
      return st.Operate(c);
    }
    if Blank(c) {
      OneScans(command, st, st.Separate());
      return st.Separate();
    }
    var part, end := ReadPart(command, st.index);
    MoreScans(command, st, part, end);
    next := st.Join(part, end - st.index);
  }

  lemma OneScans(command: string, st: Splitter, next: Splitter)
    requires st.index < |command|
    requires match ChunkOf(command[st.index..])
      case Part(_, _) => false
      case Op => next == st.Operate(command[st.index])
      case Gap => next == st.Separate()
    ensures Scan(command[st.index..], st) == Scan(command[st.index + 1..], next)
  {
    assert command[st.index..][1..] == command[st.index + 1..];
  }

  lemma MoreScans(command: string, st: Splitter, part: string, end: nat)
    requires st.index < end <= |command| && ChunkOf(command[st.index..]) == Part(part, end - st.index)
    ensures Scan(command[st.index..], st) == Scan(command[end..], st.Join(part, end - st.index))
  {
    assert command[st.index..][end - st.index..] == command[end..];
  }
}
