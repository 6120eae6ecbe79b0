/**
 Quoting a command line for sh -c. The reader's side is the tokenizer of the POSIX.1-2017 Shell
 Command Language restricted to its backslash (2.2.1) and single-quote (2.2.2) rules: any other
 character with a meaning to the shell, when unquoted, ends the simple words.
 */
module ShellQuote {
  import opened ByteOrder

  const QUOTE: Byte := 39
  const BACKSLASH: Byte := 92
  const SPACE: Byte := 32
  const TAB: Byte := 9
  const NEWLINE: Byte := 10

  // ------------------------------------------------------------------ the shell

  predicate Blank(c: Byte) {
    c == SPACE || c == TAB
  }

  // | & ; < > ( ) $ ` " * ? [ # ~ = % and newline, section 2.2.
  predicate Special(c: Byte) {
    c in {124, 38, 59, 60, 62, 40, 41, 36, 96, 34, 42, 63, 91, 35, 126, 61, 37, NEWLINE}
  }

  // Words up to the first unquoted special character, and what is left from there on.
  datatype Lexed = Lexed(words: seq<Bytes>, rest: Bytes) | Unterminated

  datatype Mode =
    | Between
    | Word(cur: Bytes)
    | Quoted(cur: Bytes)
    | Escaped(back: Mode)   // after a backslash seen in `back`, Between or Word

  function PrependAll(ws: seq<Bytes>, l: Lexed): Lexed {
    if l.Lexed? then l.(words := ws + l.words) else l
  }

  // The word that a blank, an operator or the end completes, if one was begun.
  function Finished(m: Mode): seq<Bytes> {
    if m.Word? then [m.cur] else []
  }

  function Text(m: Mode): Bytes {
    if m.Word? || m.Quoted? then m.cur else []
  }

  function Scan(m: Mode, s: Bytes): Lexed
    decreases |s|
  {
    if m.Quoted? then
      if s == [] then Unterminated
      else if s[0] == QUOTE then Scan(Word(m.cur), s[1..])
      else Scan(Quoted(m.cur + [s[0]]), s[1..])
    else if m.Escaped? then
      if s == [] then Unterminated
      else if s[0] == NEWLINE then Scan(m.back, s[1..])   // line continuation
      else Scan(Word(Text(m.back) + [s[0]]), s[1..])
    else if s == [] || Special(s[0]) then Lexed(Finished(m), s)
    else if Blank(s[0]) then PrependAll(Finished(m), Scan(Between, s[1..]))
    else if s[0] == QUOTE then Scan(Quoted(Text(m)), s[1..])
    else if s[0] == BACKSLASH then Scan(Escaped(m), s[1..])
    else Scan(Word(Text(m) + [s[0]]), s[1..])
  }

  function Split(line: Bytes): Lexed {
    Scan(Between, line)
  }

  // ------------------------------------------------------------------ quoting

  function ReplaceQuotes(s: Bytes): Bytes {
    if s == [] then [] else Escape(s[0]) + ReplaceQuotes(s[1..])
  }

  function Escape(c: Byte): Bytes {
    if c == QUOTE then [QUOTE, BACKSLASH, QUOTE, QUOTE] else [c]
  }

  function ShQuote(s: Bytes): Bytes {
    [QUOTE] + ReplaceQuotes(s) + [QUOTE]
  }

  function Join(q: seq<Bytes>): Bytes {
    if q == [] then []
    else if |q| == 1 then q[0]
    else q[0] + [SPACE] + Join(q[1..])
  }

  function QuoteAll(parts: seq<Bytes>): seq<Bytes> {
    seq(|parts|, i requires 0 <= i < |parts| => ShQuote(parts[i]))
  }

  /** The shell reads back exactly the given words, whatever bytes they hold. */
  method ShJoin(parts: seq<Bytes>) returns (line: Bytes)
    ensures line == Join(QuoteAll(parts))
    ensures Split(line) == Lexed(parts, [])
  {
    var q := [];
    for i := 0 to |parts|
      invariant |q| == i && forall k :: 0 <= k < i ==> q[k] == ShQuote(parts[k])
    {
      q := q + [ShQuote(parts[i])];
    }
    assert q == QuoteAll(parts);
    line := Join(q);
    RoundTrip(parts);
  }

  // ------------------------------------------------------------------ the round trip

  lemma Opens(m: Mode, rest: Bytes)
    requires m.Between? || m.Word?
    ensures Scan(m, [QUOTE] + rest) == Scan(Quoted(Text(m)), rest)
  {
    assert ([QUOTE] + rest)[1..] == rest;
    assert !Special(QUOTE) && !Blank(QUOTE);
  }

  lemma Separates(w: Bytes, rest: Bytes)
    ensures Scan(Word(w), [SPACE] + rest) == PrependAll([w], Split(rest))
  {
    assert ([SPACE] + rest)[1..] == rest;
    assert !Special(SPACE);
  }

  // Inside quotes, the escaped text is read as the text itself.
  lemma {:induction false} BodyIsRead(s: Bytes, cur: Bytes, tail: Bytes)
    ensures Scan(Quoted(cur), ReplaceQuotes(s) + [QUOTE] + tail) == Scan(Word(cur + s), tail)
    decreases |s|
  {
    if s == [] {
      ClosingQuoteIsRead(cur, tail);
      assert ReplaceQuotes(s) + [QUOTE] + tail == [QUOTE] + tail && cur + s == cur;
    } else {
      BodyIsRead(s[1..], cur + [s[0]], tail);
      assert cur + [s[0]] + s[1..] == cur + s;
      EscapesFirst(s, tail);
      ThenByte(s[0], cur, ReplaceQuotes(s[1..]) + [QUOTE] + tail, Scan(Word(cur + s), tail));
    }
  }

  lemma {:induction false} ThenByte(c: Byte, cur: Bytes, rest: Bytes, l: Lexed)
    requires Scan(Quoted(cur + [c]), rest) == l
    ensures Scan(Quoted(cur), Escape(c) + rest) == l
  {
    ByteIsRead(c, cur, rest);
  }

  lemma {:induction false} EscapesFirst(s: Bytes, tail: Bytes)
    requires s != []
    ensures ReplaceQuotes(s) + [QUOTE] + tail == Escape(s[0]) + (ReplaceQuotes(s[1..]) + [QUOTE] + tail)
  {
    var e, r := Escape(s[0]), ReplaceQuotes(s[1..]);
    assert e + r + [QUOTE] + tail == e + (r + [QUOTE] + tail);
  }

  lemma {:induction false} ByteIsRead(c: Byte, cur: Bytes, rest: Bytes)
    ensures Scan(Quoted(cur), Escape(c) + rest) == Scan(Quoted(cur + [c]), rest)
  {
    if c == QUOTE {
      EscapedQuoteIsRead(cur, rest);
    } else {
      assert ([c] + rest)[1..] == rest;
    }
  }

  lemma {:induction false} ClosingQuoteIsRead(cur: Bytes, tail: Bytes)
    ensures Scan(Quoted(cur), [QUOTE] + tail) == Scan(Word(cur), tail)
  {
    assert ([QUOTE] + tail)[1..] == tail;
  }

  lemma EscapedQuoteIsRead(cur: Bytes, rest: Bytes)
    ensures Scan(Quoted(cur), [QUOTE, BACKSLASH, QUOTE, QUOTE] + rest) == Scan(Quoted(cur + [QUOTE]), rest)
  {
    var s1, s2, s3 := [BACKSLASH, QUOTE, QUOTE] + rest, [QUOTE, QUOTE] + rest, [QUOTE] + rest;
    assert ([QUOTE, BACKSLASH, QUOTE, QUOTE] + rest)[1..] == s1;
    assert s1[1..] == s2 && s2[1..] == s3;
    Opens(Word(cur + [QUOTE]), rest);
    assert Scan(Word(cur), s1) == Scan(Escaped(Word(cur)), s2);
    assert Scan(Escaped(Word(cur)), s2) == Scan(Word(cur + [QUOTE]), s3);
  }

  lemma {:induction false} WordIsRead(s: Bytes, tail: Bytes)
    ensures Scan(Between, ShQuote(s) + tail) == Scan(Word(s), tail)
  {
    BodyIsRead(s, [], tail);
    assert [] + s == s;
    QuoteFirst(s, tail);
    ThenOpening(ReplaceQuotes(s) + [QUOTE] + tail, Scan(Word(s), tail));
  }

  lemma {:induction false} QuoteFirst(s: Bytes, tail: Bytes)
    ensures ShQuote(s) + tail == [QUOTE] + (ReplaceQuotes(s) + [QUOTE] + tail)
  {
  }

  lemma {:induction false} ThenOpening(rest: Bytes, l: Lexed)
    requires Scan(Quoted([]), rest) == l
    ensures Scan(Between, [QUOTE] + rest) == l
  {
    Opens(Between, rest);
  }

  /** Nothing escapes its quotes: in front of any script text, the joined words are read as
      themselves, and the text as if it followed the last of them bare. */
  lemma {:induction false} JoinedInContext(parts: seq<Bytes>, tail: Bytes)
    requires parts != []
    ensures Split(Join(QuoteAll(parts)) + tail)
         == PrependAll(parts[..|parts| - 1], Scan(Word(parts[|parts| - 1]), tail))
    decreases |parts|
  {
    if |parts| == 1 {
      WordIsRead(parts[0], tail);
      assert parts[..0] == [];
    } else {
      var w, more := parts[0], parts[1..];
      var rest := Join(QuoteAll(more)) + tail;
      JoinStep(parts, tail);
      WordIsRead(w, [SPACE] + rest);
      Separates(w, rest);
      JoinedInContext(more, tail);
      PrependTwice(w, more[..|more| - 1], Scan(Word(parts[|parts| - 1]), tail));
      assert [w] + more[..|more| - 1] == parts[..|parts| - 1];
    }
  }

  lemma JoinStep(parts: seq<Bytes>, tail: Bytes)
    requires |parts| > 1
    ensures Join(QuoteAll(parts)) + tail == ShQuote(parts[0]) + ([SPACE] + (Join(QuoteAll(parts[1..])) + tail))
  {
    assert QuoteAll(parts)[1..] == QuoteAll(parts[1..]);
  }

  lemma PrependTwice(w: Bytes, ws: seq<Bytes>, l: Lexed)
    ensures PrependAll([w], PrependAll(ws, l)) == PrependAll([w] + ws, l)
  {
    if l.Lexed? {
      assert [w] + (ws + l.words) == [w] + ws + l.words;
    }
  }

  lemma {:induction false} RoundTrip(parts: seq<Bytes>)
    ensures Split(Join(QuoteAll(parts))) == Lexed(parts, [])
  {
    if parts != [] {
      JoinedInContext(parts, []);
      assert Join(QuoteAll(parts)) + [] == Join(QuoteAll(parts));
      assert parts[..|parts| - 1] + [parts[|parts| - 1]] == parts;
    }
  }

  /** As the run scripts use it: the words before an operator are exactly the parts, and the script
      after it is untouched. */
  lemma {:induction false} CommandBeforeOperator(parts: seq<Bytes>, script: Bytes)
    requires parts != [] && script != [] && Special(script[0])
    ensures Split(Join(QuoteAll(parts)) + script) == Lexed(parts, script)
    ensures Split(Join(QuoteAll(parts)) + ([SPACE] + script)) == Lexed(parts, script)
  {
    JoinedInContext(parts, script);
    JoinedInContext(parts, [SPACE] + script);
    Separates(parts[|parts| - 1], script);
    assert parts[..|parts| - 1] + [parts[|parts| - 1]] == parts;
    assert parts[..|parts| - 1] + ([parts[|parts| - 1]] + []) == parts;
  }
}
