/** `_strip_comments`: blanks Go comments in place, leaving strings and line positions alone. */
module StripComments {

  /** The pieces of a source text. */
  datatype Token = Code(text: string) | Literal(text: string) | Comment(text: string)

  // ------------------------------------------------------ what the tokens are

  predicate IsQuote(c: char) {
    c == '"' || c == '\'' || c == '`'
  }

  /** `body` follows an opening quote and ends with the first closing one; a backslash
      protects the character behind it, except in a raw string. */
  predicate Closed(quote: char, body: string) {
    if body == "" then false
    else if quote != '`' && body[0] == '\\' && |body| > 1 then Closed(quote, body[2..])
    else if body[0] == quote then |body| == 1
    else Closed(quote, body[1..])
  }

  /** `body` follows an opening quote and has no closing one. */
  predicate Unclosed(quote: char, body: string) {
    if body == "" then true
    else if quote != '`' && body[0] == '\\' && |body| > 1 then Unclosed(quote, body[2..])
    else body[0] != quote && Unclosed(quote, body[1..])
  }

  predicate StarSlashAt(s: string, i: int) {
    0 <= i && i + 1 < |s| && s[i] == '*' && s[i + 1] == '/'
  }

  predicate IsLineComment(text: string, rest: string) {
    && |text| >= 2 && text[..2] == "//" && '\n' !in text
    && (rest == "" || rest[0] == '\n')
  }

  /** `body` follows the opener of a block comment: it ends at the first closer, or nothing
      follows and it has none. */
  ghost predicate IsBlockBody(body: string, rest: string) {
    && (forall i :: i < |body| - 2 ==> !StarSlashAt(body, i))
    && (StarSlashAt(body, |body| - 2) || rest == "")
  }

  ghost predicate IsBlockComment(text: string, rest: string) {
    |text| >= 2 && text[..2] == "/*" && IsBlockBody(text[2..], rest)
  }

  predicate OpensComment(s: string) {
    |s| >= 2 && s[0] == '/' && (s[1] == '/' || s[1] == '*')
  }

  /** Token t may stand in front of the text `rest`. */
  ghost predicate Fits(t: Token, rest: string) {
    match t
    case Code(text) => |text| == 1 && !IsQuote(text[0]) && !OpensComment(text + rest)
    case Literal(text) =>
      && text != "" && IsQuote(text[0])
      && (Closed(text[0], text[1..]) || (rest == "" && Unclosed(text[0], text[1..])))
    case Comment(text) => IsLineComment(text, rest) || IsBlockComment(text, rest)
  }

  /** The tokens spell the source, each one fitting before what follows it. */
  ghost predicate Tokenises(tokens: seq<Token>, source: string) {
    if tokens == [] then source == ""
    else
      var text := tokens[0].text;
      && text != "" && |text| <= |source| && source[..|text|] == text
      && Fits(tokens[0], source[|text|..])
      && Tokenises(tokens[1..], source[|text|..])
  }

  function BlankChar(c: char): char {
    if c == '\n' then '\n' else ' '
  }

  function Blank(text: string): (r: string)
    ensures |r| == |text|
    ensures forall i :: 0 <= i < |text| ==> r[i] == BlankChar(text[i])
  {
    seq(|text|, i requires 0 <= i < |text| => BlankChar(text[i]))
  }

  function Shown(t: Token): string {
    if t.Comment? then Blank(t.text) else t.text
  }

  function Render(tokens: seq<Token>): string {
    if tokens == [] then "" else Shown(tokens[0]) + Render(tokens[1..])
  }

  // -------------------------------------------------------- how they are found

  function LiteralLength(quote: char, body: string): (n: nat)
    ensures n <= |body|
    ensures body != "" ==> n > 0
  {
    if body == "" then 0
    else if quote != '`' && body[0] == '\\' && |body| > 1 then 2 + LiteralLength(quote, body[2..])
    else if body[0] == quote then 1
    else 1 + LiteralLength(quote, body[1..])
  }

  function LineLength(s: string): (n: nat)
    ensures n <= |s| && '\n' !in s[..n]
    ensures n < |s| ==> s[n] == '\n'
  {
    if s == "" || s[0] == '\n' then 0 else 1 + LineLength(s[1..])
  }

  function BlockLength(body: string): (n: nat)
    ensures n <= |body|
  {
    if StarSlashAt(body, 0) then 2
    else if body == "" then 0
    else 1 + BlockLength(body[1..])
  }

  /** The first token of a text. */
  function Next(s: string): (t: Token)
    requires s != ""
    ensures t.text != "" && |t.text| <= |s| && t.text == s[..|t.text|]
  {
    if IsQuote(s[0]) then Literal(s[..1 + LiteralLength(s[0], s[1..])])
    else if OpensComment(s) && s[1] == '/' then Comment(s[..2 + LineLength(s[2..])])
    else if OpensComment(s) then Comment(s[..2 + BlockLength(s[2..])])
    else Code(s[..1])
  }

  function Tokens(s: string): seq<Token> {
    if s == "" then [] else [Next(s)] + Tokens(s[|Next(s).text|..])
  }

  function Strip(source: string): string {
    Render(Tokens(source))
  }

  // ------------------------------------------- the two descriptions agree

  lemma {:induction false} LiteralLengthCloses(quote: char, body: string)
    ensures
      var n := LiteralLength(quote, body);
      Closed(quote, body[..n]) || (n == |body| && Unclosed(quote, body))
    decreases |body|
  {
    if body == "" {
    } else if quote != '`' && body[0] == '\\' && |body| > 1 {
      LiteralLengthCloses(quote, body[2..]);
      var n := LiteralLength(quote, body[2..]);
      assert body[..2 + n][2..] == body[2..][..n];
    } else if body[0] != quote {
      LiteralLengthCloses(quote, body[1..]);
      var n := LiteralLength(quote, body[1..]);
      assert body[..1 + n][1..] == body[1..][..n];
    }
  }

  lemma {:induction false} ClosedLength(quote: char, body: string, rest: string)
    requires IsQuote(quote)
    requires Closed(quote, body) || (rest == "" && Unclosed(quote, body))
    ensures LiteralLength(quote, body + rest) == |body|
    decreases |body|
  {
    var all := body + rest;
    if body == "" {
    } else if quote != '`' && body[0] == '\\' && |body| > 1 {
      assert all[2..] == body[2..] + rest;
      ClosedLength(quote, body[2..], rest);
    } else if body[0] != quote {
      assert all[1..] == body[1..] + rest;
      ClosedLength(quote, body[1..], rest);
    }
  }

  lemma {:induction false} BlockLengthEnds(body: string)
    ensures
      var n := BlockLength(body);
      && (forall i :: i < n - 2 ==> !StarSlashAt(body, i))
      && (StarSlashAt(body, n - 2) || (n == |body| && forall i :: !StarSlashAt(body, i)))
    decreases |body|
  {
    if !StarSlashAt(body, 0) && body != "" {
      BlockLengthEnds(body[1..]);
      assert forall i :: StarSlashAt(body, i) && i > 0 ==> StarSlashAt(body[1..], i - 1);
    }
  }

  lemma {:induction false} BlockLengthIs(body: string, rest: string)
    requires IsBlockBody(body, rest)
    ensures BlockLength(body + rest) == |body|
  {
    var all := body + rest;
    var n := BlockLength(all);
    BlockLengthEnds(all);
    assert forall i :: i + 1 < |body| ==> (StarSlashAt(all, i) <==> StarSlashAt(body, i));
    if StarSlashAt(body, |body| - 2) {
      assert StarSlashAt(all, |body| - 2);
    } else {
      assert all == body;
    }
  }

  lemma {:induction false} LineLengthIs(body: string, rest: string)
    requires '\n' !in body && (rest == "" || rest[0] == '\n')
    ensures LineLength(body + rest) == |body|
    decreases |body|
  {
    if body != "" {
      assert (body + rest)[1..] == body[1..] + rest;
      LineLengthIs(body[1..], rest);
    }
  }

  lemma LiteralFits(s: string)
    requires s != "" && IsQuote(s[0])
    ensures
      var text := s[..1 + LiteralLength(s[0], s[1..])];
      Fits(Literal(text), s[|text|..])
  {
    var n := LiteralLength(s[0], s[1..]);
    LiteralLengthCloses(s[0], s[1..]);
    assert s[..1 + n][1..] == s[1..][..n];
    assert n == |s[1..]| ==> s[1..][..n] == s[1..];
  }

  lemma LineCommentFits(s: string)
    requires OpensComment(s) && s[1] == '/'
    ensures
      var text := s[..2 + LineLength(s[2..])];
      IsLineComment(text, s[|text|..])
  {
    var n := LineLength(s[2..]);
    assert s[..2 + n] == s[..2] + s[2..][..n];
  }

  lemma BlockCommentFits(s: string)
    requires OpensComment(s) && s[1] == '*'
    ensures
      var text := s[..2 + BlockLength(s[2..])];
      IsBlockComment(text, s[|text|..])
  {
    var n := BlockLength(s[2..]);
    BlockLengthEnds(s[2..]);
    var body := s[..2 + n][2..];
    assert body == s[2..][..n] && s[..2 + n][..2] == s[..2];
    assert forall i :: i + 1 < n ==> (StarSlashAt(s[2..], i) <==> StarSlashAt(body, i));
    assert n == |s[2..]| ==> body == s[2..];
  }

  lemma NextFits(s: string)
    requires s != ""
    ensures Fits(Next(s), s[|Next(s).text|..])
  {
    if IsQuote(s[0]) {
      LiteralFits(s);
    } else if OpensComment(s) && s[1] == '/' {
      LineCommentFits(s);
    } else if OpensComment(s) {
      BlockCommentFits(s);
    } else {
      assert s == s[..1] + s[1..];
    }
  }

  lemma FitsIsNext(t: Token, rest: string)
    requires t.text != "" && Fits(t, rest)
    ensures Next(t.text + rest) == t
  {
    var text, s := t.text, t.text + rest;
    match t {
      case Code(_) =>
        assert s[..1] == text;
      case Literal(_) =>
        assert s[1..] == text[1..] + rest;
        ClosedLength(text[0], text[1..], rest);
        assert s[..|text|] == text;
      case Comment(_) =>
        assert s[..|text|] == text;
        assert s[2..] == text[2..] + rest;
        assert text[0] == text[..2][0] && text[1] == text[..2][1];
        if IsLineComment(text, rest) {
          LineLengthIs(text[2..], rest);
        } else {
          BlockLengthIs(text[2..], rest);
        }
    }
  }

  /** Every source has exactly one tokenisation, the one that is found. */
  lemma {:induction false} TokenisationIsUnique(tokens: seq<Token>, source: string)
    ensures Tokenises(tokens, source) <==> tokens == Tokens(source)
    decreases |source|, |tokens|
  {
    if source != "" {
      var t := Next(source);
      var rest := source[|t.text|..];
      NextFits(source);
      TokenisationIsUnique(Tokens(rest), rest);
      assert Tokens(source)[1..] == Tokens(rest);
      if Tokenises(tokens, source) {
        var n := |tokens[0].text|;
        assert source == tokens[0].text + source[n..];
        FitsIsNext(tokens[0], source[n..]);
        TokenisationIsUnique(tokens[1..], rest);
        assert tokens == [tokens[0]] + tokens[1..];
      }
    }
  }

  // ------------------------------------------------------------- main results

  /** Position i of the text spelled by the tokens lies in a comment. */
  predicate InComment(tokens: seq<Token>, i: int) {
    && tokens != []
    && if i < |tokens[0].text| then tokens[0].Comment? else InComment(tokens[1..], i - |tokens[0].text|)
  }

  /** A rendering shows a source where its comments are blanked. */
  ghost predicate Shows(shown: string, tokens: seq<Token>, source: string) {
    && |shown| == |source|
    && forall i :: 0 <= i < |source| ==> shown[i] == if InComment(tokens, i) then BlankChar(source[i]) else source[i]
  }

  lemma ShowsOneMore(tokens: seq<Token>, source: string, more: string)
    requires tokens != [] && |tokens[0].text| <= |source| && source[..|tokens[0].text|] == tokens[0].text
    requires Shows(more, tokens[1..], source[|tokens[0].text|..])
    ensures Shows(Shown(tokens[0]) + more, tokens, source)
  {
    var text := tokens[0].text;
    var rest, all := source[|text|..], Shown(tokens[0]) + more;
    forall i | 0 <= i < |source|
      ensures all[i] == if InComment(tokens, i) then BlankChar(source[i]) else source[i]
    {
      if i < |text| {
        assert source[i] == source[..|text|][i];
      } else {
        var j := i - |text|;
        assert source[i] == rest[j] && all[i] == more[j];
      }
    }
  }

  lemma {:induction false} RenderAt(tokens: seq<Token>, source: string)
    requires Tokenises(tokens, source)
    ensures Shows(Render(tokens), tokens, source)
    decreases |tokens|
  {
    if tokens != [] {
      RenderAt(tokens[1..], source[|tokens[0].text|..]);
      ShowsOneMore(tokens, source, Render(tokens[1..]));
    }
  }

  /** Position by position: comment characters become blanks, newlines and everything else
      stay.  So lengths, line numbers and columns are kept. */
  lemma OnlyCommentsAreBlanked(source: string)
    ensures |Strip(source)| == |source|
    ensures forall i :: 0 <= i < |source| ==>
              Strip(source)[i] == if InComment(Tokens(source), i) && source[i] != '\n' then ' ' else source[i]
    ensures forall i :: 0 <= i < |source| ==> (Strip(source)[i] == '\n' <==> source[i] == '\n')
  {
    TokenisationIsUnique(Tokens(source), source);
    RenderAt(Tokens(source), source);
  }

  // ------------------------------------------------ what the characters mean

  /** What is found first is shown first. */
  lemma FirstToken(t: Token, rest: string, s: string)
    requires t.text != "" && Fits(t, rest) && s == t.text + rest
    ensures Strip(s) == Shown(t) + Strip(rest)
  {
    FitsIsNext(t, rest);
    assert s[|t.text|..] == rest;
    assert Tokens(s)[1..] == Tokens(rest);
  }

  /** Free of a quote, and outside raw strings of backslashes. */
  predicate PlainBody(quote: char, w: string) {
    forall i :: 0 <= i < |w| ==> w[i] != quote && (quote != '`' ==> w[i] != '\\')
  }

  lemma {:induction false} PlainIsClosed(quote: char, w: string)
    requires IsQuote(quote) && PlainBody(quote, w)
    ensures Closed(quote, w + [quote])
  {
    if w != "" {
      PlainIsClosed(quote, w[1..]);
      assert (w + [quote])[1..] == w[1..] + [quote];
    }
  }

  /** A plain stretch in front of something closed. */
  lemma {:induction false} PlainThenClosed(quote: char, w: string, more: string)
    requires PlainBody(quote, w) && Closed(quote, more)
    ensures Closed(quote, w + more)
  {
    if w == "" {
      assert w + more == more;
    } else {
      PlainThenClosed(quote, w[1..], more);
      assert (w + more)[1..] == w[1..] + more;
    }
  }

  lemma LiteralIsKept(quote: char, body: string, rest: string, s: string)
    requires IsQuote(quote) && Closed(quote, body) && s == [quote] + body + rest
    ensures Strip(s) == [quote] + body + Strip(rest)
  {
    var t := Literal([quote] + body);
    assert t.text[1..] == body;
    FirstToken(t, rest, s);
  }

  /** A raw string is kept, whatever is in it. */
  lemma RawStringIsKept(w: string, rest: string, s: string)
    requires forall i :: 0 <= i < |w| ==> w[i] != '`'
    requires s == "`" + (w + "`") + rest
    ensures Strip(s) == "`" + (w + "`") + Strip(rest)
  {
    PlainIsClosed('`', w);
    LiteralIsKept('`', w + "`", rest, s);
  }

  /** So is a string, and so is a rune. */
  lemma QuotedIsKept(c: char, w: string, rest: string, s: string)
    requires c == '"' || c == '\''
    requires forall i :: 0 <= i < |w| ==> w[i] != c && w[i] != '\\'
    requires s == [c] + (w + [c]) + rest
    ensures Strip(s) == [c] + (w + [c]) + Strip(rest)
  {
    PlainIsClosed(c, w);
    LiteralIsKept(c, w + [c], rest, s);
  }

  /** A quote behind a backslash does not end them, nor does any other character there. */
  lemma EscapeIsKept(c: char, a: string, x: char, b: string, rest: string, s: string)
    requires c == '"' || c == '\''
    requires forall i :: 0 <= i < |a| ==> a[i] != c && a[i] != '\\'
    requires forall i :: 0 <= i < |b| ==> b[i] != c && b[i] != '\\'
    requires s == [c] + (a + (['\\', x] + (b + [c]))) + rest
    ensures Strip(s) == [c] + (a + (['\\', x] + (b + [c]))) + Strip(rest)
  {
    var more := ['\\', x] + (b + [c]);
    PlainIsClosed(c, b);
    assert more[2..] == b + [c];
    PlainThenClosed(c, a, more);
    LiteralIsKept(c, a + more, rest, s);
  }

  lemma {:induction false} PlainIsUnclosed(quote: char, w: string)
    requires PlainBody(quote, w)
    ensures Unclosed(quote, w)
  {
    if w != "" {
      PlainIsUnclosed(quote, w[1..]);
    }
  }

  /** A quote that is not closed keeps what is left of the file. */
  lemma UnclosedIsKept(c: char, w: string)
    requires c == '"' || c == '\'' || c == '`'
    requires forall i :: 0 <= i < |w| ==> w[i] != c && w[i] != '\\'
    ensures Strip([c] + w) == [c] + w
  {
    PlainIsUnclosed(c, w);
    var t := Literal([c] + w);
    assert t.text[1..] == w && t.text + "" == [c] + w;
    FirstToken(t, "", [c] + w);
  }

  /** The rest of a line behind two slashes is blanked. */
  lemma LineCommentIsBlanked(w: string, rest: string, s: string)
    requires forall i :: 0 <= i < |w| ==> w[i] != '\n'
    requires (rest == "" || rest[0] == '\n') && s == "//" + w + rest
    ensures Strip(s) == seq(2 + |w|, _ => ' ') + Strip(rest)
  {
    var t := Comment("//" + w);
    assert t.text[..2] == "//";
    FirstToken(t, rest, s);
    assert Blank(t.text) == seq(2 + |w|, _ => ' ');
  }

  /** What is between a slash and a star and the next star and slash is blanked too, but for
      the ends of its lines. */
  lemma BlockCommentIsBlanked(w: string, rest: string, s: string, shown: string)
    requires forall i :: 0 <= i < |w| - 1 ==> !(w[i] == '*' && w[i + 1] == '/')
    requires s == "/*" + w + "*/" + rest
    requires |shown| == |w| && forall i :: 0 <= i < |w| ==> shown[i] == if w[i] == '\n' then '\n' else ' '
    ensures Strip(s) == "  " + shown + "  " + Strip(rest)
  {
    var t, body := Comment("/*" + w + "*/"), w + "*/";
    assert t.text[..2] == "/*" && t.text[2..] == body;
    assert StarSlashAt(body, |w|);
    forall i | i < |body| - 2
      ensures !StarSlashAt(body, i)
    {
      if 0 <= i { assert body[i] == w[i]; }
    }
    FirstToken(t, rest, s);
    assert Blank(t.text) == "  " + shown + "  ";
  }

  /** A block comment that is not closed blanks what is left of the file. */
  lemma UnclosedCommentIsBlanked(w: string, s: string, shown: string)
    requires forall i :: 0 <= i < |w| - 1 ==> !(w[i] == '*' && w[i + 1] == '/')
    requires s == "/*" + w
    requires |shown| == |w| && forall i :: 0 <= i < |w| ==> shown[i] == if w[i] == '\n' then '\n' else ' '
    ensures Strip(s) == "  " + shown
  {
    var t := Comment(s);
    assert t.text[..2] == "/*" && t.text[2..] == w && t.text + "" == s;
    FirstToken(t, "", s);
    assert Blank(t.text) == "  " + shown;
  }

  /** Any other character is kept: all but quotes, and a slash that no slash or star follows. */
  lemma CodeIsKept(c: char, rest: string, s: string)
    requires c != '"' && c != '\'' && c != '`' && s == [c] + rest
    requires c == '/' ==> rest == "" || (rest[0] != '/' && rest[0] != '*')
    ensures Strip(s) == [c] + Strip(rest)
  {
    FirstToken(Code([c]), rest, s);
  }

  /** One token for each blank of a comment, and then the others. */
  function Blanks(text: string, others: seq<Token>): seq<Token> {
    if text == "" then others else [Code([BlankChar(text[0])])] + Blanks(text[1..], others)
  }

  /** The tokens of the output: those of the source, each comment cut into blanks. */
  function Expand(tokens: seq<Token>): seq<Token> {
    if tokens == [] then []
    else
      var others := Expand(tokens[1..]);
      if tokens[0].Comment? then Blanks(tokens[0].text, others) else [tokens[0]] + others
  }

  lemma ConsTokenises(t: Token, tokens: seq<Token>, rest: string)
    requires t.text != "" && Fits(t, rest) && Tokenises(tokens, rest)
    ensures Tokenises([t] + tokens, t.text + rest)
  {
    var all, source := [t] + tokens, t.text + rest;
    assert all[0] == t && all[1..] == tokens;
    assert source[..|t.text|] == t.text && source[|t.text|..] == rest;
  }

  lemma BlankFits(c: char, rest: string)
    ensures Fits(Code([BlankChar(c)]), rest)
  {
    assert ([BlankChar(c)] + rest)[0] == BlankChar(c);
  }

  lemma BlankHead(text: string, rest: string)
    requires text != ""
    ensures Blank(text) + rest == [BlankChar(text[0])] + (Blank(text[1..]) + rest)
  {
    var head, more := [BlankChar(text[0])], Blank(text[1..]);
    assert forall i :: 0 < i < |text| ==> text[1..][i - 1] == text[i];
    assert Blank(text) == head + more;
    assert (head + more) + rest == head + (more + rest);
  }

  lemma BlankCons(c: char, tokens: seq<Token>, source: string)
    requires Tokenises(tokens, source)
    ensures Tokenises([Code([BlankChar(c)])] + tokens, [BlankChar(c)] + source)
  {
    BlankFits(c, source);
    ConsTokenises(Code([BlankChar(c)]), tokens, source);
  }

  lemma {:induction false} BlanksTokenise(text: string, tail: seq<Token>, rest: string)
    requires Tokenises(tail, rest)
    ensures Tokenises(Blanks(text, tail), Blank(text) + rest)
    decreases |text|
  {
    if text == "" {
      assert Blank(text) + rest == rest;
    } else {
      BlanksTokenise(text[1..], tail, rest);
      BlankCons(text[0], Blanks(text[1..], tail), Blank(text[1..]) + rest);
      BlankHead(text, rest);
    }
  }

  lemma StillNoOpener(text: string, rest: string, shown: string)
    requires |text| == 1 && !OpensComment(text + rest) && |shown| == |rest|
    requires rest != "" ==> shown[0] == rest[0] || shown[0] == BlankChar(rest[0])
    ensures !OpensComment(text + shown)
  {
    if rest != "" {
      assert (text + rest)[1] == rest[0] && (text + shown)[1] == shown[0];
    }
  }

  lemma {:induction false} ExpandTokenises(tokens: seq<Token>, source: string)
    requires Tokenises(tokens, source)
    ensures Tokenises(Expand(tokens), Render(tokens))
    decreases |tokens|
  {
    if tokens != [] {
      var t := tokens[0];
      var rest, shown := source[|t.text|..], Render(tokens[1..]);
      ExpandTokenises(tokens[1..], rest);
      RenderAt(tokens[1..], rest);
      if t.Comment? {
        BlanksTokenise(t.text, Expand(tokens[1..]), shown);
      } else {
        if t.Code? { StillNoOpener(t.text, rest, shown); }
        ConsTokenises(t, Expand(tokens[1..]), shown);
      }
    }
  }

  ghost predicate NoComment(tokens: seq<Token>) {
    forall i :: 0 <= i < |tokens| ==> !tokens[i].Comment?
  }

  lemma {:induction false} ExpandHasNoComment(tokens: seq<Token>)
    ensures NoComment(Expand(tokens))
    decreases |tokens|
  {
    if tokens != [] {
      ExpandHasNoComment(tokens[1..]);
      BlanksAreNoComment(tokens[0].text, Expand(tokens[1..]));
    }
  }

  lemma {:induction false} BlanksAreNoComment(text: string, others: seq<Token>)
    requires NoComment(others)
    ensures NoComment(Blanks(text, others))
    decreases |text|
  {
    if text != "" {
      BlanksAreNoComment(text[1..], others);
    }
  }

  /** The output holds no comment: read again, it has the code and the literals of the source
      and nothing that opens a comment outside a literal. */
  lemma OutputHasNoComment(source: string)
    ensures Tokens(Strip(source)) == Expand(Tokens(source))
    ensures NoComment(Tokens(Strip(source)))
  {
    TokenisationIsUnique(Tokens(source), source);
    ExpandTokenises(Tokens(source), source);
    TokenisationIsUnique(Expand(Tokens(source)), Strip(source));
    ExpandHasNoComment(Tokens(source));
  }

  lemma {:induction false} NoCommentNoChange(tokens: seq<Token>, source: string)
    requires Tokenises(tokens, source) && NoComment(tokens)
    ensures Render(tokens) == source
    decreases |tokens|
  {
    if tokens != [] {
      var n := |tokens[0].text|;
      NoCommentNoChange(tokens[1..], source[n..]);
      assert source == source[..n] + source[n..];
    }
  }

  /** Stripping twice changes nothing more; stripping changes a text only if it has a comment. */
  lemma StripIsIdempotent(source: string)
    ensures Strip(Strip(source)) == Strip(source)
  {
    OutputHasNoComment(source);
    var out := Strip(source);
    TokenisationIsUnique(Tokens(out), out);
    NoCommentNoChange(Tokens(out), out);
  }

  // ----------------------------------------------------------------- the tool

  /** What the loop has still to write: inside a literal its rest comes first. */
  ghost function Remaining(inLiteral: bool, quote: char, s: string): string {
    if !inLiteral then Strip(s)
    else var n := LiteralLength(quote, s); s[..n] + Strip(s[n..])
  }

  lemma StripNext(s: string)
    requires s != ""
    ensures Strip(s) == Shown(Next(s)) + Strip(s[|Next(s).text|..])
  {
    assert Tokens(s)[0] == Next(s) && Tokens(s)[1..] == Tokens(s[|Next(s).text|..]);
  }

  lemma Regroup(s: string, k: nat, n: nat, tail: string)
    requires k + n <= |s|
    ensures s[..k + n] + tail == s[..k] + (s[k..][..n] + tail)
    ensures s[k..][n..] == s[k + n..]
  {
    assert s[..k + n] == s[..k] + s[k..][..n];
  }

  lemma OpenLiteral(s: string)
    requires s != "" && IsQuote(s[0])
    ensures Strip(s) == s[..1] + Remaining(true, s[0], s[1..])
  {
    StripNext(s);
    var n := LiteralLength(s[0], s[1..]);
    Regroup(s, 1, n, Strip(s[1 + n..]));
  }

  lemma LiteralStep(quote: char, s: string, k: nat, closes: bool)
    requires s != ""
    requires k == if quote != '`' && s[0] == '\\' && |s| > 1 then 2 else 1
    requires closes <==> k == 1 && s[0] == quote
    ensures k <= |s| && Remaining(true, quote, s) == s[..k] + Remaining(!closes, quote, s[k..])
  {
    if !closes {
      var n := LiteralLength(quote, s[k..]);
      assert LiteralLength(quote, s) == k + n;
      Regroup(s, k, n, Strip(s[k + n..]));
    }
  }

  lemma LineCommentStep(s: string, n: nat)
    requires OpensComment(s) && s[1] == '/' && 2 <= n <= |s|
    requires '\n' !in s[..n] && (n < |s| ==> s[n] == '\n')
    ensures Strip(s) == Blank(s[..n]) + Strip(s[n..])
  {
    assert s == s[..n] + s[n..] && s[..n][..2] == "//";
    FitsIsNext(Comment(s[..n]), s[n..]);
    StripNext(s);
  }

  lemma BlockCommentStep(s: string, n: nat)
    requires OpensComment(s) && s[1] == '*' && 2 <= n <= |s|
    requires forall i :: i < n - 4 ==> !StarSlashAt(s[2..], i)
    requires (n >= 4 && StarSlashAt(s[2..], n - 4)) || (n == |s| && forall i :: !StarSlashAt(s[2..], i))
    ensures Strip(s) == Blank(s[..n]) + Strip(s[n..])
  {
    var body := s[..n][2..];
    assert s == s[..n] + s[n..] && s[..n][..2] == "/*";
    assert forall i :: i + 1 < |body| ==> (StarSlashAt(body, i) <==> StarSlashAt(s[2..], i));
    FitsIsNext(Comment(s[..n]), s[n..]);
    StripNext(s);
  }

  /** The loop's invariant. */
  ghost predicate OnTrack(source: string, index: nat, output: string, inLiteral: bool, quote: char) {
    index <= |source| && output + Remaining(inLiteral, quote, source[index..]) == Strip(source)
  }

  /** Writing `chunk` for the next k characters keeps the loop's invariant. */
  lemma Emit(source: string, index: nat, k: nat, output: string, chunk: string,
             inLiteral: bool, quote: char, inNext: bool, nextQuote: char)
    requires index + k <= |source| && OnTrack(source, index, output, inLiteral, quote)
    requires Remaining(inLiteral, quote, source[index..]) == chunk + Remaining(inNext, nextQuote, source[index..][k..])
    ensures OnTrack(source, index + k, output + chunk, inNext, nextQuote)
  {
    assert source[index..][k..] == source[index + k..];
    assert (output + chunk) + Remaining(inNext, nextQuote, source[index + k..])
        == output + (chunk + Remaining(inNext, nextQuote, source[index + k..]));
  }

  /** The comment that begins at `start`, blanked. */
  method BlankComment(source: string, start: nat) returns (blanks: string, end: nat)
    requires start + 1 < |source| && source[start] == '/'
    requires source[start + 1] == '/' || source[start + 1] == '*'
    ensures start + 2 <= end <= |source|
    ensures Strip(source[start..]) == blanks + Strip(source[start..][end - start..])
  {
    if source[start + 1] == '/' {
      blanks, end := BlankLine(source, start);
      LineShown(source, start, end);
    } else {
      blanks, end := BlankBlock(source, start);
      BlockShown(source, start, end);
    }
  }

  /** The tool's loop over modes; it writes what the tokens say. */
  method StripCommentsLoop(source: string) returns (output: string)
    ensures output == Strip(source)
  {
    output := "";
    var index := 0;
    var inLiteral, quote := false, ' ';
    while index < |source|
      invariant OnTrack(source, index, output, inLiteral, quote)
    {
      if inLiteral {
        output, index, inLiteral := CopyLiteral(source, index, output, quote);
        continue;
      }
      if IsQuote(source[index]) {
        QuoteStep(source, index, output, quote);
        inLiteral, quote := true, source[index];
        output := output + [quote];
        index := index + 1;
        continue;
      }
      if source[index] == '/' && index + 1 < |source| && (source[index + 1] == '/' || source[index + 1] == '*') {
        var blanks, end := BlankComment(source, index);
        CommentStep(source, index, end, output, blanks, quote);
        output, index := output + blanks, end;
        continue;
      }
      CodeStep(source, index, output, quote);
      output := output + [source[index]];
      index := index + 1;
    }
    AtEnd(source, index, output, inLiteral, quote);
  }

  lemma AtEnd(source: string, index: nat, output: string, inLiteral: bool, quote: char)
    requires index == |source| && OnTrack(source, index, output, inLiteral, quote)
    ensures output == Strip(source)
  {
    assert source[index..] == "";
  }

  lemma QuoteStep(source: string, index: nat, output: string, quote: char)
    requires index < |source| && OnTrack(source, index, output, false, quote) && IsQuote(source[index])
    ensures OnTrack(source, index + 1, output + [source[index]], true, source[index])
  {
    var s := source[index..];
    assert s[..1] == [source[index]];
    OpenLiteral(s);
    Emit(source, index, 1, output, s[..1], false, quote, true, source[index]);
  }

  lemma CodeStep(source: string, index: nat, output: string, quote: char)
    requires index < |source| && OnTrack(source, index, output, false, quote) && !IsQuote(source[index])
    requires !(source[index] == '/' && index + 1 < |source| && (source[index + 1] == '/' || source[index + 1] == '*'))
    ensures OnTrack(source, index + 1, output + [source[index]], false, quote)
  {
    var s := source[index..];
    assert !OpensComment(s) && s[..1] == [source[index]];
    StripNext(s);
    Emit(source, index, 1, output, s[..1], false, quote, false, quote);
  }

  lemma CommentStep(source: string, index: nat, end: nat, output: string, blanks: string, quote: char)
    requires index <= end <= |source| && OnTrack(source, index, output, false, quote)
    requires Strip(source[index..]) == blanks + Strip(source[index..][end - index..])
    ensures OnTrack(source, end, output + blanks, false, quote)
  {
    Emit(source, index, end - index, output, blanks, false, quote, false, quote);
  }

  lemma SliceOf(source: string, start: nat, end: nat)
    requires start <= end <= |source|
    ensures source[start..][..end - start] == source[start..end]
    ensures end < |source| ==> source[start..][end - start] == source[end]
    ensures end == |source| ==> end - start == |source[start..]|
  {
  }

  lemma LineShown(source: string, index: nat, end: nat)
    requires index + 2 <= end <= |source| && source[index] == source[index + 1] == '/'
    requires LineEnds(source, index, end)
    ensures Strip(source[index..]) == Blank(source[index..end]) + Strip(source[index..][end - index..])
  {
    var s, n := source[index..], end - index;
    SliceOf(source, index, end);
    assert '\n' !in s[..n] && (n < |s| ==> s[n] == '\n');
    LineCommentStep(s, n);
  }

  lemma StarSlashInBody(source: string, start: nat, i: int)
    requires start + 2 <= |source| && i >= 0
    ensures StarSlashAt(source[start..][2..], i) <==> StarSlashAt(source, start + 2 + i)
  {
  }

  lemma BlockShown(source: string, index: nat, end: nat)
    requires index + 2 <= end <= |source| && source[index] == '/' && source[index + 1] == '*'
    requires BlockEnds(source, index, end)
    ensures Strip(source[index..]) == Blank(source[index..end]) + Strip(source[index..][end - index..])
  {
    SliceOf(source, index, end);
    forall i | i >= 0
      ensures StarSlashAt(source[index..][2..], i) <==> StarSlashAt(source, index + 2 + i)
    {
      StarSlashInBody(source, index, i);
    }
    BlockCommentStep(source[index..], end - index);
  }

  predicate LineEnds(source: string, start: nat, end: nat)
    requires start <= end <= |source|
  {
    '\n' !in source[start..end] && (end < |source| ==> source[end] == '\n')
  }

  ghost predicate BlockEnds(source: string, start: nat, end: nat)
    requires start + 2 <= end <= |source|
  {
    && (forall i :: start + 2 <= i < end - 2 ==> !StarSlashAt(source, i))
    && ((end >= start + 4 && StarSlashAt(source, end - 2))
        || (end == |source| && forall i :: start + 2 <= i ==> !StarSlashAt(source, i)))
  }

  lemma BlankSnoc(source: string, start: nat, index: nat)
    requires start <= index < |source|
    ensures source[start..index + 1] == source[start..index] + [source[index]]
    ensures Blank(source[start..index + 1]) == Blank(source[start..index]) + [BlankChar(source[index])]
  {
  }

  lemma SliceAt(source: string, start: nat)
    requires start < |source|
    ensures source[start..][..1] == [source[start]]
    ensures start + 1 < |source| ==> source[start..][..2] == [source[start], source[start + 1]]
  {
  }

  /** One turn of the loop inside a literal. */
  method CopyLiteral(source: string, start: nat, before: string, quote: char)
    returns (output: string, index: nat, inLiteral: bool)
    requires start < |source| && OnTrack(source, start, before, true, quote)
    ensures start < index && OnTrack(source, index, output, inLiteral, quote)
  {
    SliceAt(source, start);
    if quote != '`' && source[start] == '\\' && start + 1 < |source| {
      LiteralEmit(source, start, before, quote, 2, false);
      return before + [source[start], source[start + 1]], start + 2, true;
    }
    LiteralEmit(source, start, before, quote, 1, source[start] == quote);
    return before + [source[start]], start + 1, source[start] != quote;
  }

  lemma LiteralEmit(source: string, start: nat, before: string, quote: char, k: nat, closes: bool)
    requires start < |source| && OnTrack(source, start, before, true, quote)
    requires k == if quote != '`' && source[start] == '\\' && start + 1 < |source| then 2 else 1
    requires closes <==> k == 1 && source[start] == quote
    ensures start + k <= |source| && OnTrack(source, start + k, before + source[start..][..k], !closes, quote)
  {
    var s := source[start..];
    LiteralStep(quote, s, k, closes);
    Emit(source, start, k, before, s[..k], true, quote, !closes, quote);
  }

  lemma BlankTwo(source: string, start: nat, index: nat)
    requires start <= index && index + 1 < |source| && source[index] != '\n' && source[index + 1] != '\n'
    ensures Blank(source[start..index + 2]) == Blank(source[start..index]) + "  "
  {
    BlankSnoc(source, start, index);
    BlankSnoc(source, start, index + 1);
  }

  /** The inner loop for a line comment that begins at `start`. */
  method BlankLine(source: string, start: nat) returns (output: string, index: nat)
    requires start + 1 < |source| && source[start] == source[start + 1] == '/'
    ensures start + 2 <= index <= |source|
    ensures LineEnds(source, start, index)
    ensures output == Blank(source[start..index])
  {
    index, output := start, "";
    while index < |source| && source[index] != '\n'
      invariant start <= index <= |source|
      invariant '\n' !in source[start..index]
      invariant output == Blank(source[start..index])
    {
      BlankSnoc(source, start, index);
      output := output + " ";
      index := index + 1;
    }
  }

  /** The inner loop for a block comment that begins at `start`. */
  method BlankBlock(source: string, start: nat) returns (output: string, index: nat)
    requires start + 1 < |source| && source[start] == '/' && source[start + 1] == '*'
    ensures start + 2 <= index <= |source|
    ensures output == Blank(source[start..index])
    ensures BlockEnds(source, start, index)
  {
    output := "  ";
    index := start + 2;
    BlankTwo(source, start, start);
    while index < |source|
      invariant start + 2 <= index <= |source|
      invariant output == Blank(source[start..index])
      invariant forall i :: start + 2 <= i < index ==> !StarSlashAt(source, i)
    {
      if index + 1 < |source| && source[index] == '*' && source[index + 1] == '/' {
        BlankTwo(source, start, index);
        output := output + "  ";
        index := index + 2;
        return;
      }
      BlankSnoc(source, start, index);
      output := output + (if source[index] == '\n' then "\n" else " ");
      index := index + 1;
    }
  }
}
