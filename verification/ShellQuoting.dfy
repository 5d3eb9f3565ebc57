/**
 * Writing words for the splitter: the ways a word can be written, what is read
 * back, and when that is what was written.
 */
module ShellQuoting {
  import opened Wrappers
  import opened ShellWords

  const OPERATORS := ";&|()<>\n"
  const BLANKS := " \t\r"
  /** What double quotes need a backslash for. */
  const ESCAPED := "$`\"\\"
  /** What is not itself outside quotes. */
  const SPECIAL := OPERATORS + BLANKS + "'\"`\\"

  /**
   * The ways to write a stretch of a word: as it is, quoted or in backticks, a
   * backslash before each character, between double quotes with no escape at
   * all, or a line continuation, outside or inside double quotes.
   */
  datatype Style = Plain | Single | Double | Backslashed | Backticked | Bare | Continued | ContinuedInQuotes

  /** Between single quotes, each single quote written `'\''`. */
  function SingleQuoted(w: string): string {
    var k := IndexOf(w, '\'', 0);
    if k == -1 then ['\''] + w + ['\''] else ['\''] + w[..k] + ['\'', '\\', '\''] + SingleQuoted(w[k + 1..])
  }

  /** Between double quotes, each `$`, backtick, double quote and backslash escaped. */
  function DoubleEscaped(w: string): string {
    if w == "" then "" else (if w[0] in ESCAPED then ['\\', w[0]] else [w[0]]) + DoubleEscaped(w[1..])
  }

  /** A character after a backslash; a newline, which a backslash would remove, between single quotes. */
  function Escape(c: char): (q: string)
    ensures q != ""
  {
    if c == '\n' then ['\'', c, '\''] else ['\\', c]
  }

  function Escaping(w: string): (q: string)
    ensures w != "" ==> q != ""
  {
    if w == "" then "" else Escape(w[0]) + Escaping(w[1..])
  }

  /** The text can be written this way. */
  predicate Fits(w: string, style: Style) {
    match style
    case Plain => w != "" && forall c <- w :: c !in SPECIAL
    case Backslashed => w != ""
    case Backticked => '`' !in w
    case Bare => '"' !in w && forall i | 0 <= i < |w| && w[i] == '\\' :: i + 1 < |w| && w[i + 1] !in ESCAPED + "\n"
    case Continued => w == ""
    case ContinuedInQuotes => w == ""
    case _ => true
  }

  function Written(w: string, style: Style): (q: string)
    requires Fits(w, style)
    ensures q != ""
  {
    match style
    case Plain => w
    case Single => SingleQuoted(w)
    case Double => ['"'] + DoubleEscaped(w) + ['"']
    case Backslashed => Escaping(w)
    case Backticked => ['`'] + w + ['`']
    case Bare => ['"'] + w + ['"']
    case Continued => ['\\', '\n']
    case ContinuedInQuotes => ['"', '\\', '\n', '"']
  }

  predicate Blanks(gap: string) {
    forall c <- gap :: c in BLANKS
  }

  /** Part of a word, written in one way. */
  datatype Stretch = Stretch(text: string, style: Style)

  predicate AllFit(word: seq<Stretch>) {
    forall s <- word :: Fits(s.text, s.style)
  }

  function Text(word: seq<Stretch>): string {
    if word == [] then "" else word[0].text + Text(word[1..])
  }

  function Writing(word: seq<Stretch>): (q: string)
    requires AllFit(word)
    ensures word != [] ==> q != ""
  {
    if word == [] then "" else Written(word[0].text, word[0].style) + Writing(word[1..])
  }

  /** A word of a command or an operator, after the blanks that separate it. */
  datatype Item = Word(gap: string, word: seq<Stretch>) | Symbol(gap: string, operator: char) {
    predicate Fit() {
      && Blanks(gap)
      && match this
         case Word(_, word) => word != [] && AllFit(word)
         case Symbol(_, c) => c in OPERATORS
    }

    function Says(): string {
      match this
      case Word(_, word) => Text(word)
      case Symbol(_, c) => [c]
    }

    function Quoted(): (q: string)
      requires Fit()
      ensures q != ""
    {
      match this
      case Word(_, word) => Writing(word)
      case Symbol(_, c) => [c]
    }

    /** The splitter past this item. */
    function Taken(st: Splitter): Splitter
      requires Fit()
    {
      match this
      case Word(_, word) => Skipped(st, |gap|).Join(Text(word), |Writing(word)|)
      case Symbol(_, c) => Skipped(st, |gap|).Operate(c)
    }
  }

  /** Past a stretch of blanks. */
  function Skipped(st: Splitter, n: nat): Splitter {
    if n == 0 then st else st.Flush().(index := st.index + n)
  }

  predicate Writable(items: seq<Item>) {
    forall i <- items :: i.Fit()
  }

  /** Each item can be written, and two words in a row have something between them. */
  ghost predicate WellWritten(items: seq<Item>) {
    && Writable(items)
    && (forall i, j | 0 <= i < j < |items| && j == i + 1 && items[i].Word? && items[j].Word? :: items[j].gap != "")
  }

  /** The items as written, and what follows them. */
  function Line(items: seq<Item>, tail: string): string
    requires Writable(items)
  {
    if items == [] then tail else items[0].gap + (items[0].Quoted() + Line(items[1..], tail))
  }

  /* ---- one stretch ---- */

  lemma {:induction false} DoubleBodyReads(w: string, rest: string)
    ensures DoubleBody(DoubleEscaped(w) + ['"'] + rest) == Part(w, |DoubleEscaped(w)| + 1)
  {
    var s := DoubleEscaped(w) + ['"'] + rest;
    if w == "" {
      assert s[0] == '"';
    } else {
      DoubleBodyReads(w[1..], rest);
      var tail := DoubleEscaped(w[1..]) + ['"'] + rest;
      if w[0] in ESCAPED {
        assert s == ['\\', w[0]] + tail;
        assert s[2..] == tail;
      } else {
        assert s == [w[0]] + tail;
        assert s[1..] == tail && s[0] == w[0];
      }
      BodySteps(s);
      assert [w[0]] + w[1..] == w;
    }
  }

  /** A part of a word moves the scan past it and joins the word. */
  lemma PartScans(part: string, q: string, rest: string, st: Splitter)
    requires q != "" && ChunkOf(q + rest) == Part(part, |q|)
    ensures Scan(q + rest, st) == Scan(rest, st.Join(part, |q|))
  {
    assert (q + rest)[|q|..] == rest;
  }

  lemma DoubleScans(w: string, rest: string, st: Splitter)
    ensures var q := ['"'] + DoubleEscaped(w) + ['"']; Scan(q + rest, st) == Scan(rest, st.Join(w, |q|))
  {
    var q := ['"'] + DoubleEscaped(w) + ['"'];
    DoubleBodyReads(w, rest);
    assert (q + rest)[1..] == DoubleEscaped(w) + ['"'] + rest && (q + rest)[0] == '"';
    PartScans(w, q, rest, st);
  }

  lemma {:induction false} IndexIs(s: string, c: char, from: nat, k: nat)
    requires from <= k < |s| && s[k] == c && forall i | from <= i < k :: s[i] != c
    ensures IndexOf(s, c, from) == k
    decreases k - from
  {
    if from < k {
      IndexIs(s, c, from + 1, k);
    }
  }

  /** Quoted text without a quote in it is one part. */
  lemma PlainQuotedIsPart(a: string, rest: string)
    requires forall i | 0 <= i < |a| :: a[i] != '\''
    ensures ChunkOf(['\''] + a + ['\''] + rest) == Part(a, |a| + 2)
  {
    var s := ['\''] + a + ['\''] + rest;
    IndexIs(s, '\'', 1, |a| + 1);
    assert s[1..|a| + 1] == a && s[0] == '\'';
  }

  /** A quoted stretch, then an escaped quote. */
  lemma QuoteThenEscape(a: string, tail: string, st: Splitter)
    requires forall i | 0 <= i < |a| :: a[i] != '\''
    ensures Scan(['\''] + a + ['\''] + (['\\', '\''] + tail), st) == Scan(tail, st.Join(a, |a| + 2).Join(['\''], 2))
  {
    PlainQuotedIsPart(a, ['\\', '\''] + tail);
    PartScans(a, ['\''] + a + ['\''], ['\\', '\''] + tail, st);
    EscapedQuoteScans(tail, st.Join(a, |a| + 2));
  }

  lemma EscapedQuoteScans(tail: string, st: Splitter)
    ensures Scan(['\\', '\''] + tail, st) == Scan(tail, st.Join(['\''], 2))
  {
    PartScans(['\''], ['\\', '\''], tail, st);
  }

  lemma JoinsAdd(st: Splitter, a: string, m: nat, b: string, n: nat)
    ensures st.Join(a, m).Join(b, n) == st.Join(a + b, m + n)
  {
    assert st.text + a + b == st.text + (a + b);
  }

  /** Quoting up to the first single quote, and past it. */
  lemma SingleUnfolds(w: string, k: nat, rest: string)
    requires IndexOf(w, '\'', 0) == k
    ensures k < |w| && w[..k] + ['\''] + w[k + 1..] == w && forall i | 0 <= i < k :: w[..k][i] != '\''
    ensures |SingleQuoted(w)| == k + 4 + |SingleQuoted(w[k + 1..])|
    ensures SingleQuoted(w) + rest == ['\''] + w[..k] + ['\''] + (['\\', '\''] + (SingleQuoted(w[k + 1..]) + rest))
  {
    var a, b := ['\''] + w[..k], SingleQuoted(w[k + 1..]);
    Regroup(a, b, rest);
  }

  lemma Regroup(a: string, b: string, rest: string)
    ensures a + ['\'', '\\', '\''] + b + rest == a + ['\''] + (['\\', '\''] + (b + rest))
  {
  }

  lemma UnquotedScans(w: string, rest: string, st: Splitter)
    requires IndexOf(w, '\'', 0) == -1
    ensures var q := SingleQuoted(w); Scan(q + rest, st) == Scan(rest, st.Join(w, |q|))
  {
    PlainQuotedIsPart(w, rest);
    PartScans(w, SingleQuoted(w), rest, st);
  }

  lemma {:induction false} SingleScans(w: string, rest: string, st: Splitter)
    ensures Scan(SingleQuoted(w) + rest, st) == Scan(rest, st.Join(w, |SingleQuoted(w)|))
    decreases |w|
  {
    var k := IndexOf(w, '\'', 0);
    if k == -1 {
      UnquotedScans(w, rest, st);
    } else {
      SingleUnfolds(w, k, rest);
      var a, b := w[..k], w[k + 1..];
      SingleScans(b, rest, st.Join(a, |a| + 2).Join(['\''], 2));
      StretchScans(w, SingleQuoted(w), a, b, SingleQuoted(b), rest, st);
    }
  }

  /** A stretch, the escaped quote after it and what is quoted after that are joined to the word as one. */
  lemma StretchScans(w: string, whole: string, a: string, b: string, q: string, rest: string, st: Splitter)
    requires forall i | 0 <= i < |a| :: a[i] != '\''
    requires w == a + ['\''] + b && |whole| == |a| + 4 + |q|
    requires whole + rest == ['\''] + a + ['\''] + (['\\', '\''] + (q + rest))
    requires var next := st.Join(a, |a| + 2).Join(['\''], 2); Scan(q + rest, next) == Scan(rest, next.Join(b, |q|))
    ensures Scan(whole + rest, st) == Scan(rest, st.Join(w, |whole|))
  {
    QuoteThenEscape(a, q + rest, st);
    JoinsAdd(st, a, |a| + 2, ['\''], 2);
    JoinsAdd(st, a + ['\''], |a| + 4, b, |q|);
  }

  lemma EscapeScans(c: char, rest: string, st: Splitter)
    ensures Scan(Escape(c) + rest, st) == Scan(rest, st.Join([c], |Escape(c)|))
  {
    if c == '\n' {
      assert ['\''] + [c] + ['\''] == Escape(c);
      PlainQuotedIsPart([c], rest);
    }
    PartScans([c], Escape(c), rest, st);
  }

  lemma EscapingUnfolds(w: string, rest: string)
    requires w != ""
    ensures |Escaping(w)| == |Escape(w[0])| + |Escaping(w[1..])| && [w[0]] + w[1..] == w
    ensures Escaping(w) + rest == Escape(w[0]) + (Escaping(w[1..]) + rest)
  {
    Assoc(Escape(w[0]), Escaping(w[1..]), rest);
  }

  /** Once a word has begun, even nothing at all joins it. */
  lemma {:induction false} BackslashedScans(w: string, rest: string, st: Splitter)
    requires w != "" || st.offset >= 0
    ensures Scan(Escaping(w) + rest, st) == Scan(rest, st.Join(w, |Escaping(w)|))
    decreases |w|
  {
    if w == "" {
      assert "" + rest == rest && st.text + "" == st.text;
    } else {
      EscapingUnfolds(w, rest);
      BackslashedScans(w[1..], rest, st.Join([w[0]], |Escape(w[0])|));
      EscapedThen(w, Escaping(w), w[0], w[1..], Escaping(w[1..]), rest, st);
    }
  }

  lemma EscapedThen(w: string, whole: string, c: char, tail: string, q: string, rest: string, st: Splitter)
    requires w == [c] + tail && |whole| == |Escape(c)| + |q| && whole + rest == Escape(c) + (q + rest)
    requires var next := st.Join([c], |Escape(c)|); Scan(q + rest, next) == Scan(rest, next.Join(tail, |q|))
    ensures Scan(whole + rest, st) == Scan(rest, st.Join(w, |whole|))
  {
    EscapeScans(c, q + rest, st);
    JoinsAdd(st, [c], |Escape(c)|, tail, |q|);
  }

  lemma EmptyScans(rest: string, st: Splitter)
    ensures Scan(['\'', '\''] + rest, st) == Scan(rest, st.Join("", 2))
  {
    PlainQuotedIsPart("", rest);
    assert ['\''] + "" + ['\''] + rest == ['\'', '\''] + rest;
    PartScans("", ['\'', '\''], rest, st);
  }

  lemma {:induction false} PlainScans(w: string, rest: string, st: Splitter)
    requires Fits(w, Plain)
    ensures Scan(w + rest, st) == Scan(rest, st.Join(w, |w|))
    decreases |w|
  {
    var c, tail := w[0], w[1..];
    assert c in w && c !in SPECIAL;
    assert ([c] + (tail + rest))[0] == c;
    PartScans([c], [c], tail + rest, st);
    assert [c] + tail == w && [c] + (tail + rest) == w + rest;
    if tail == "" {
      assert tail + rest == rest;
    } else {
      PlainScans(tail, rest, st.Join([c], 1));
      JoinsAdd(st, [c], 1, tail, |tail|);
    }
  }

  lemma BacktickedScans(w: string, rest: string, st: Splitter)
    requires Fits(w, Backticked)
    ensures var q := ['`'] + w + ['`']; Scan(q + rest, st) == Scan(rest, st.Join(w, |q|))
  {
    var s := ['`'] + w + ['`'] + rest;
    IndexIs(s, '`', 1, |w| + 1);
    assert s[1..|w| + 1] == w && s[0] == '`';
    PartScans(w, ['`'] + w + ['`'], rest, st);
  }

  /** A backslash before anything else is itself between double quotes. */
  lemma {:induction false} BareReads(w: string, rest: string)
    requires Fits(w, Bare)
    ensures DoubleBody(w + ['"'] + rest) == Part(w, |w| + 1)
    decreases |w|
  {
    var s := w + ['"'] + rest;
    if w == "" {
      assert s[0] == '"';
    } else {
      var tail := w[1..];
      assert w[0] in w && [w[0]] + tail == w;
      assert s[1..] == tail + ['"'] + rest && s[0] == w[0];
      assert w[0] == '\\' ==> s[1] == w[1];
      forall i | 0 <= i < |tail| && tail[i] == '\\' ensures i + 1 < |tail| && tail[i + 1] !in ESCAPED + "\n" {
        assert w[i + 1] == '\\' && tail[i + 1] == w[i + 2];
      }
      BareReads(tail, rest);
      BodySteps(s);
    }
  }

  lemma BareScans(w: string, rest: string, st: Splitter)
    requires Fits(w, Bare)
    ensures var q := ['"'] + w + ['"']; Scan(q + rest, st) == Scan(rest, st.Join(w, |q|))
  {
    var q := ['"'] + w + ['"'];
    BareReads(w, rest);
    assert (q + rest)[1..] == w + ['"'] + rest && (q + rest)[0] == '"';
    PartScans(w, q, rest, st);
  }

  lemma ContinuedScans(rest: string, st: Splitter)
    ensures Scan(['\\', '\n'] + rest, st) == Scan(rest, st.Join("", 2))
    ensures Scan(['"', '\\', '\n', '"'] + rest, st) == Scan(rest, st.Join("", 4))
  {
    PartScans("", ['\\', '\n'], rest, st);
    var s := ['\\', '\n', '"'] + rest;
    assert s[2..] == ['"'] + rest;
    BodyEnds(s[2..]);
    BodySteps(s);
    assert (['"', '\\', '\n', '"'] + rest)[1..] == s;
    PartScans("", ['"', '\\', '\n', '"'], rest, st);
  }

  /** However it is written, a stretch joins its text to the word. */
  lemma StyleScans(w: string, style: Style, rest: string, st: Splitter)
    requires Fits(w, style)
    ensures Scan(Written(w, style) + rest, st) == Scan(rest, st.Join(w, |Written(w, style)|))
  {
    match style
    case Plain => PlainScans(w, rest, st);
    case Single => SingleScans(w, rest, st);
    case Double => DoubleScans(w, rest, st);
    case Backslashed => BackslashedScans(w, rest, st);
    case Backticked => BacktickedScans(w, rest, st);
    case Bare => BareScans(w, rest, st);
    case Continued => ContinuedScans(rest, st);
    case ContinuedInQuotes => ContinuedScans(rest, st);
  }

  /* ---- words, gaps and lines ---- */

  lemma {:induction false} WordScans(word: seq<Stretch>, rest: string, st: Splitter)
    requires word != [] && AllFit(word)
    ensures Scan(Writing(word) + rest, st) == Scan(rest, st.Join(Text(word), |Writing(word)|))
    decreases |word|
  {
    var first, more := word[0], word[1..];
    assert first in word && forall s <- more :: s in word;
    var q := Written(first.text, first.style);
    StyleScans(first.text, first.style, Writing(more) + rest, st);
    if more == [] {
      assert q + Writing(more) == q && first.text + Text(more) == first.text && Writing(more) + rest == rest;
    } else {
      WordScans(more, rest, st.Join(first.text, |q|));
      StretchesScan(first.text, q, Text(more), Writing(more), rest, st);
    }
  }

  /** Two stretches, one after the other, join as one. */
  lemma StretchesScan(a: string, qa: string, b: string, qb: string, rest: string, st: Splitter)
    requires Scan(qa + (qb + rest), st) == Scan(qb + rest, st.Join(a, |qa|))
    requires Scan(qb + rest, st.Join(a, |qa|)) == Scan(rest, st.Join(a, |qa|).Join(b, |qb|))
    ensures Scan(qa + qb + rest, st) == Scan(rest, st.Join(a + b, |qa + qb|))
  {
    Assoc(qa, qb, rest);
    JoinsAdd(st, a, |qa|, b, |qb|);
  }

  lemma {:induction false} GapScans(gap: string, rest: string, st: Splitter)
    requires Blanks(gap)
    ensures Scan(gap + rest, st) == Scan(rest, Skipped(st, |gap|))
    decreases |gap|
  {
    if gap == "" {
      assert gap + rest == rest;
    } else {
      var tail := gap[1..];
      assert gap[0] in gap && forall c <- tail :: c in gap;
      assert (gap + rest)[1..] == tail + rest && (gap + rest)[0] == gap[0];
      GapScans(tail, rest, st.Separate());
      assert Skipped(st.Separate(), |tail|) == Skipped(st, |gap|);
    }
  }

  lemma SymbolScans(c: char, rest: string, st: Splitter)
    requires c in OPERATORS
    ensures Scan([c] + rest, st) == Scan(rest, st.Operate(c))
  {
    assert ([c] + rest)[1..] == rest;
  }

  lemma ItemScans(item: Item, rest: string, st: Splitter)
    requires item.Fit()
    ensures Scan(item.gap + (item.Quoted() + rest), st) == Scan(rest, item.Taken(st))
  {
    GapScans(item.gap, item.Quoted() + rest, st);
    match item
    case Word(_, word) => WordScans(word, rest, Skipped(st, |item.gap|));
    case Symbol(_, c) => SymbolScans(c, rest, Skipped(st, |item.gap|));
  }

  /** The splitter past the items. */
  function Past(items: seq<Item>, st: Splitter): Splitter
    requires Writable(items)
  {
    if items == [] then st else Past(items[1..], items[0].Taken(st))
  }

  lemma {:induction false} LineScans(items: seq<Item>, tail: string, st: Splitter)
    requires Writable(items)
    ensures Scan(Line(items, tail), st) == Scan(tail, Past(items, st))
    decreases |items|
  {
    if items != [] {
      ItemScans(items[0], Line(items[1..], tail), st);
      LineScans(items[1..], tail, items[0].Taken(st));
    }
  }

  /* ---- the items read back ---- */

  /** What an item leaves on the line: the blanks before it and its writing. */
  datatype Span = Span(text: string, gap: nat, len: nat)

  function SpanOf(item: Item): (s: Span)
    requires item.Fit()
    ensures s.len > 0
  {
    Span(item.Says(), |item.gap|, |item.Quoted()|)
  }

  function Spans(items: seq<Item>): seq<Span>
    requires Writable(items)
  {
    if items == [] then [] else [SpanOf(items[0])] + Spans(items[1..])
  }

  function Placed(spans: seq<Span>, pos: nat): seq<Token> {
    if spans == [] then []
    else [Token(spans[0].text, pos + spans[0].gap)] + Placed(spans[1..], pos + spans[0].gap + spans[0].len)
  }

  /** Each word and operator with the offset its writing starts at. */
  function Exactly(items: seq<Item>, pos: nat): seq<Token>
    requires Writable(items)
  {
    Placed(Spans(items), pos)
  }

  lemma ExactlyNext(items: seq<Item>, pos: nat)
    requires Writable(items) && items != []
    ensures var span := SpanOf(items[0]);
      Exactly(items, pos) == [Token(span.text, pos + span.gap)] + Exactly(items[1..], pos + span.gap + span.len)
  {
    PlacedNext(SpanOf(items[0]), Spans(items[1..]), pos);
  }

  lemma PlacedNext(span: Span, rest: seq<Span>, pos: nat)
    ensures Placed([span] + rest, pos) == [Token(span.text, pos + span.gap)] + Placed(rest, pos + span.gap + span.len)
  {
    assert ([span] + rest)[1..] == rest;
  }

  predicate NoneEmpty(items: seq<Item>) {
    forall i <- items :: i.Says() != ""
  }

  /** The word the splitter is in has text, or none has begun. */
  predicate Settled(st: Splitter) {
    st.text != "" || st.offset == -1
  }

  /** The next item does not run into the word the splitter is in. */
  predicate Apart(st: Splitter, items: seq<Item>) {
    items != [] && items[0].Word? && items[0].gap == "" ==> st.text == ""
  }

  /** `next` is past `w`, written over `len` characters from `at`, which is one token more. */
  predicate Leaves(st: Splitter, next: Splitter, w: string, at: nat, len: nat) {
    Settled(next) && next.index == at + len && next.Flush().tokens == st.Flush().tokens + [Token(w, at)]
  }

  lemma WordIsTaken(st: Splitter, n: nat, w: string, len: nat)
    requires Settled(st) && w != "" && (n == 0 ==> st.text == "")
    ensures Leaves(st, Skipped(st, n).Join(w, len), w, st.index + n, len)
  {
    assert "" + w == w;
  }

  lemma SymbolIsTaken(st: Splitter, n: nat, c: char)
    requires Settled(st)
    ensures Leaves(st, Skipped(st, n).Operate(c), [c], st.index + n, 1) && Skipped(st, n).Operate(c).text == ""
  {
  }

  /** A nonempty item leaves its token, at the offset of its writing. */
  lemma ItemIsTaken(st: Splitter, item: Item)
    requires item.Fit() && Settled(st) && item.Says() != ""
    requires item.Word? && item.gap == "" ==> st.text == ""
    ensures Leaves(st, item.Taken(st), item.Says(), st.index + |item.gap|, |item.Quoted()|)
    ensures item.Symbol? ==> item.Taken(st).text == ""
  {
    var n, says, len := |item.gap|, item.Says(), |item.Quoted()|;
    if item.Word? {
      assert item.Taken(st) == Skipped(st, n).Join(says, len);
      WordIsTaken(st, n, says, len);
    } else {
      assert item.Taken(st) == Skipped(st, n).Operate(item.operator);
      SymbolIsTaken(st, n, item.operator);
    }
  }

  lemma RestIsWellWritten(items: seq<Item>)
    requires WellWritten(items) && items != []
    ensures items[0].Fit() && WellWritten(items[1..])
    ensures |items| > 1 && items[0].Word? && items[1].Word? ==> items[1].gap != ""
    ensures NoneEmpty(items) ==> items[0].Says() != "" && NoneEmpty(items[1..])
  {
    assert items[0] in items && forall i <- items[1..] :: i in items;
  }

  /** The item after it does not run into it. */
  lemma NextIsApart(st: Splitter, items: seq<Item>)
    requires WellWritten(items) && |items| > 0
    requires items[0].Symbol? ==> items[0].Taken(st).text == ""
    ensures Apart(items[0].Taken(st), items[1..])
  {
    RestIsWellWritten(items);
  }

  lemma {:induction false} ReadBackExactly(items: seq<Item>, st: Splitter)
    requires WellWritten(items) && NoneEmpty(items) && Settled(st) && Apart(st, items)
    ensures Past(items, st).Flush().tokens == st.Flush().tokens + Exactly(items, st.index) && Settled(Past(items, st))
    decreases |items|
  {
    if items != [] {
      RestIsWellWritten(items);
      ItemIsTaken(st, items[0]);
      NextIsApart(st, items);
      ReadBackExactly(items[1..], items[0].Taken(st));
      var at := st.index + |items[0].gap|;
      ExactlyNext(items, st.index);
      TokensAdd(st.Flush().tokens, Token(items[0].Says(), at), Exactly(items[1..], at + |items[0].Quoted()|), Exactly(items, st.index));
    }
  }

  lemma TokensAdd(before: seq<Token>, t: Token, after: seq<Token>, all: seq<Token>)
    requires all == [t] + after
    ensures before + [t] + after == before + all
  {
  }

  /** One item leaves at most one token more, and an empty word none. */
  lemma OneAtMost(st: Splitter, item: Item)
    requires item.Fit()
    ensures |item.Taken(st).Flush().tokens| <= |st.Flush().tokens| + (if item.Says() == "" then 0 else 1)
  {
    var begun := Skipped(st, |item.gap|);
    assert begun.Flush().tokens == st.Flush().tokens;
    if item.Word? && item.Says() == "" { assert begun.text + "" == begun.text; }
  }

  lemma {:induction false} EmptyWordsAreDropped(items: seq<Item>, st: Splitter)
    requires Writable(items)
    ensures |Past(items, st).Flush().tokens| <= |st.Flush().tokens| + |items|
    ensures !NoneEmpty(items) ==> |Past(items, st).Flush().tokens| < |st.Flush().tokens| + |items|
    decreases |items|
  {
    if items != [] {
      OneAtMost(st, items[0]);
      EmptyWordsAreDropped(items[1..], items[0].Taken(st));
      if items[0].Says() != "" && !NoneEmpty(items) {
        var i :| i in items && i.Says() == "";
        assert i in items[1..];
      }
    }
  }

  predicate Ascending(tokens: seq<Token>) {
    forall i, j | 0 <= i < j < |tokens| :: tokens[i].offset < tokens[j].offset
  }

  predicate AllFrom(tokens: seq<Token>, pos: int) {
    forall i | 0 <= i < |tokens| :: tokens[i].offset >= pos
  }

  /** The tokens say what the items do. */
  predicate SaySame(tokens: seq<Token>, items: seq<Item>) {
    |tokens| == |items| && forall i | 0 <= i < |items| :: tokens[i].text == items[i].Says()
  }

  lemma OneBefore(t: Token, rest: seq<Token>, next: int)
    requires Ascending(rest) && AllFrom(rest, next) && t.offset < next
    ensures Ascending([t] + rest) && AllFrom([t] + rest, t.offset)
  {
  }

  predicate NoneHollow(spans: seq<Span>) {
    forall i | 0 <= i < |spans| :: spans[i].len > 0
  }

  lemma {:induction false} PlacedAscends(spans: seq<Span>, pos: nat)
    requires NoneHollow(spans)
    ensures Ascending(Placed(spans, pos)) && AllFrom(Placed(spans, pos), pos)
    decreases |spans|
  {
    if spans != [] {
      var first, rest := spans[0], spans[1..];
      assert spans == [first] + rest && NoneHollow(rest);
      var at, next := pos + first.gap, pos + first.gap + first.len;
      PlacedAscends(rest, next);
      PlacedNext(first, rest, pos);
      OneBefore(Token(first.text, at), Placed(rest, next), next);
    }
  }

  lemma {:induction false} PlacedSays(spans: seq<Span>, pos: nat)
    ensures |Placed(spans, pos)| == |spans| && forall i | 0 <= i < |spans| :: Placed(spans, pos)[i].text == spans[i].text
    decreases |spans|
  {
    if spans != [] {
      PlacedSays(spans[1..], pos + spans[0].gap + spans[0].len);
    }
  }

  lemma {:induction false} SpansAreTheItems(items: seq<Item>)
    requires Writable(items)
    ensures |Spans(items)| == |items| && forall i | 0 <= i < |items| :: Spans(items)[i] == SpanOf(items[i])
    decreases |items|
  {
    if items != [] {
      SpansAreTheItems(items[1..]);
    }
  }

  lemma ExactOffsetsAscend(items: seq<Item>, pos: nat)
    requires Writable(items)
    ensures Ascending(Exactly(items, pos)) && AllFrom(Exactly(items, pos), pos) && SaySame(Exactly(items, pos), items)
  {
    SpansAreTheItems(items);
    PlacedAscends(Spans(items), pos);
    PlacedSays(Spans(items), pos);
    forall i | 0 <= i < |items| ensures Exactly(items, pos)[i].text == items[i].Says() {
      assert Spans(items)[i] == SpanOf(items[i]);
    }
  }

  /**
   * Words of any stretches, quoted or not, and operators, with any blanks
   * around them, read back as exactly those words and operators, at strictly
   * increasing offsets, where each is written. An empty word breaks it: the
   * round trip holds exactly when there is none.
   */
  lemma WordsRoundTrip(items: seq<Item>, gap: string)
    requires WellWritten(items) && Blanks(gap)
    ensures Scan(Line(items, gap), START) == Exactly(items, 0) <==> NoneEmpty(items)
    ensures SaySame(Exactly(items, 0), items) && Ascending(Exactly(items, 0))
  {
    LineTokens(items, gap);
    ExactOffsetsAscend(items, 0);
    EmptyWordsAreDropped(items, START);
    if NoneEmpty(items) {
      ReadBackExactly(items, START);
      TokensAreExactly(items);
    }
  }

  lemma LineTokens(items: seq<Item>, gap: string)
    requires Writable(items) && Blanks(gap)
    ensures Scan(Line(items, gap), START) == Past(items, START).Flush().tokens
  {
    LineScans(items, gap, START);
    GapScans(gap, "", Past(items, START));
    assert gap + "" == gap;
  }

  /** `part` stands in the text at `at`. */
  predicate StandsAt(text: string, at: int, part: string) {
    0 <= at && at + |part| <= |text| && text[at..][..|part|] == part
  }

  lemma Stands(a: string, part: string, b: string)
    ensures StandsAt(a + part + b, |a|, part)
  {
  }

  lemma ExactlyUnfolds(items: seq<Item>, pos: nat, i: nat)
    requires Writable(items) && i < |items| && |Exactly(items, pos)| == |items|
    ensures var next := pos + |items[0].gap| + |items[0].Quoted()|;
      if i == 0 then Exactly(items, pos)[i].offset == pos + |items[0].gap|
      else |Exactly(items[1..], next)| == |items| - 1 && Exactly(items, pos)[i] == Exactly(items[1..], next)[i - 1]
  {
    ExactlyNext(items, pos);
  }

  /** Each token's offset is where its word or operator is written in the line. */
  lemma {:induction false} ExactlyWhereWritten(items: seq<Item>, tail: string, before: string, i: nat)
    requires Writable(items) && i < |items| && |Exactly(items, |before|)| == |items|
    ensures StandsAt(before + Line(items, tail), Exactly(items, |before|)[i].offset, items[i].Quoted())
    decreases |items|
  {
    var gap, q, rest := items[0].gap, items[0].Quoted(), Line(items[1..], tail);
    LineSplits(before, gap, q, rest);
    ExactlyUnfolds(items, |before|, i);
    if i == 0 {
      Stands(before + gap, q, rest);
    } else {
      ExactlyWhereWritten(items[1..], tail, before + gap + q, i - 1);
    }
  }

  lemma LineSplits(before: string, gap: string, q: string, rest: string)
    ensures before + (gap + (q + rest)) == before + gap + q + rest && |before + gap + q| == |before| + |gap| + |q|
  {
  }

  /** A quote or backtick that is never closed takes the rest of the command, after the words before it. */
  lemma UnclosedTakesTheRest(items: seq<Item>, gap: string, quote: char, w: string)
    requires WellWritten(items) && NoneEmpty(items) && gap != "" && Blanks(gap)
    requires quote in "'`\"" && w != "" && quote !in w && (quote == '"' ==> '\\' !in w)
    ensures var pos := |Line(items, gap)|; Scan(Line(items, gap + ([quote] + w)), START) == Exactly(items, 0) + [Token(w, pos)]
  {
    UnclosedIsPart(quote, w);
    TailIsTaken(items, gap, [quote] + w, w);
  }

  /** What follows the items after blanks, one part to the end of the command, is the last token. */
  lemma TailIsTaken(items: seq<Item>, gap: string, s: string, w: string)
    requires WellWritten(items) && NoneEmpty(items) && gap != "" && Blanks(gap)
    requires s != "" && w != "" && ChunkOf(s) == Part(w, |s|)
    ensures Scan(Line(items, gap + s), START) == Exactly(items, 0) + [Token(w, |Line(items, gap)|)]
  {
    var past := Past(items, START);
    LineScans(items, gap + s, START);
    GapScans(gap, s, past);
    ReadBackExactly(items, START);
    TokensAreExactly(items);
    PastIsTheLine(items, gap, START);
    LastPart(s, w, past, |gap|);
  }

  lemma TokensAreExactly(items: seq<Item>)
    requires Writable(items)
    ensures START.Flush().tokens + Exactly(items, START.index) == Exactly(items, 0)
  {
  }

  lemma ScansOut(s: string, w: string, st: Splitter)
    requires s != "" && ChunkOf(s) == Part(w, |s|)
    ensures Scan(s, st) == st.Join(w, |s|).Flush().tokens
  {
    assert s[|s|..] == "";
  }

  lemma LastPart(s: string, w: string, past: Splitter, n: nat)
    requires n > 0 && s != "" && w != "" && ChunkOf(s) == Part(w, |s|) && Settled(past)
    ensures Scan(s, Skipped(past, n)) == past.Flush().tokens + [Token(w, past.index + n)]
  {
    WordIsTaken(past, n, w, |s|);
    ScansOut(s, w, Skipped(past, n));
  }

  /** A backslash with nothing after it is itself. */
  lemma LastBackslashStands(items: seq<Item>, gap: string)
    requires WellWritten(items) && NoneEmpty(items) && gap != "" && Blanks(gap)
    ensures Scan(Line(items, gap + "\\"), START) == Exactly(items, 0) + [Token("\\", |Line(items, gap)|)]
  {
    TailIsTaken(items, gap, "\\", "\\");
  }

  lemma UnclosedIsPart(quote: char, w: string)
    requires quote in "'`\"" && quote !in w && (quote == '"' ==> '\\' !in w)
    ensures ChunkOf([quote] + w) == Part(w, |w| + 1)
  {
    var s := [quote] + w;
    assert s[1..] == w;
    if quote == '"' {
      UnclosedBody(w);
    } else {
      assert IndexOf(s, quote, 1) == -1;
    }
  }

  lemma {:induction false} UnclosedBody(w: string)
    requires '"' !in w && '\\' !in w
    ensures DoubleBody(w) == Part(w, |w|)
  {
    if w != "" {
      assert w[0] in w && [w[0]] + w[1..] == w;
      UnclosedBody(w[1..]);
    }
  }

  lemma {:induction false} PastIsTheLine(items: seq<Item>, tail: string, st: Splitter)
    requires Writable(items)
    ensures st.index + |Line(items, tail)| == Past(items, st).index + |tail|
    decreases |items|
  {
    if items != [] {
      PastIsTheLine(items[1..], tail, items[0].Taken(st));
    }
  }

  /** An empty word's offset is left to the word after it. */
  lemma EmptyWordLeavesItsOffset(gap: string, text: string, style: Style)
    requires text != "" && Fits(text, style) && gap != "" && Blanks(gap)
    ensures Scan(Line([Word("", [Stretch("", Single)]), Word(gap, [Stretch(text, style)])], ""), START) == [Token(text, 0)]
  {
    var word, rest := [Stretch(text, style)], gap + Written(text, style);
    var items := [Word("", [Stretch("", Single)]), Word(gap, word)];
    OneStretch("", Single);
    OneStretch(text, style);
    assert items[1..] == [Word(gap, word)] && [Word(gap, word)][1..] == [];
    assert items[0].Fit() && items[1].Fit();
    LineScans(items, "", START);
    PastTwo(items, START);
    var st := START.Join("", 2);
    assert items[0].Taken(START) == st && st == Splitter([], "", 0, 2);
    assert "" + text == text;
  }

  lemma PastTwo(items: seq<Item>, st: Splitter)
    requires Writable(items) && |items| == 2
    ensures Past(items, st) == items[1].Taken(items[0].Taken(st))
  {
    assert items[1..][1..] == [];
    assert Past(items[1..], items[0].Taken(st)) == items[1].Taken(items[0].Taken(st));
  }

  lemma OneStretch(text: string, style: Style)
    requires Fits(text, style)
    ensures var word := [Stretch(text, style)]; AllFit(word) && Text(word) == text && Writing(word) == Written(text, style)
  {
    var word := [Stretch(text, style)];
    assert word[1..] == [];
    assert text + "" == text && Written(text, style) + "" == Written(text, style);
  }
}
