/** Stripping comments and trailing commas preserves the meaning of JSON, at the level of the
    tokens of RFC 8259. */
module JsoncMeaning {
  import opened JsoncStrip
  import opened Options

  // ----- tokens (section 2 of RFC 8259) -----

  datatype Token =
    | Punct(c: char)
    | Str(body: string)      // the characters between the quotes, escapes not decoded
    | Scalar(word: string)   // a number, true, false or null

  predicate IsPunct(c: char) {
    c == '{' || c == '}' || c == '[' || c == ']' || c == ':' || c == ','
  }

  /** The white space of section 2. */
  predicate IsBlank(c: char) {
    c == ' ' || c == '\t' || c == '\n' || c == '\r'
  }

  predicate IsHex(c: char) {
    '0' <= c <= '9' || 'a' <= c <= 'f' || 'A' <= c <= 'F'
  }

  /** What may follow a backslash (section 7), other than `u`. */
  predicate IsEscapable(c: char) {
    c == '"' || c == '\\' || c == '/' || c == 'b' || c == 'f' || c == 'n' || c == 'r' || c == 't'
  }

  /** The inside of a string literal (section 7): no raw quote, backslash or control character. */
  predicate ValidBody(body: string) {
    body == [] ||
    if body[0] == '\\' then
      |body| > 1 &&
      (if IsEscapable(body[1]) then ValidBody(body[2..])
       else
         && body[1] == 'u' && |body| > 5
         && IsHex(body[2]) && IsHex(body[3]) && IsHex(body[4]) && IsHex(body[5])
         && ValidBody(body[6..]))
    else body[0] != '"' && body[0] >= ' ' && ValidBody(body[1..])
  }

  predicate AllDigits(s: string) {
    forall i :: 0 <= i < |s| ==> '0' <= s[i] <= '9'
  }

  /** The parts of a number (section 6): sign, integer, fraction, exponent. */
  ghost predicate NumberParts(word: string, sign: string, whole: string, fraction: string, exponent: string) {
    && word == sign + whole + fraction + exponent
    && (sign == "" || sign == "-")
    && whole != "" && AllDigits(whole) && (whole[0] == '0' ==> whole == "0")
    && (fraction == "" || (|fraction| > 1 && fraction[0] == '.' && AllDigits(fraction[1..])))
    && (exponent == "" || ExponentPart(exponent))
  }

  predicate ExponentPart(exponent: string) {
    && |exponent| > 1
    && (exponent[0] == 'e' || exponent[0] == 'E')
    && (if exponent[1] == '+' || exponent[1] == '-' then |exponent| > 2 && AllDigits(exponent[2..])
        else AllDigits(exponent[1..]))
  }

  ghost predicate IsNumber(word: string) {
    exists sign, whole, fraction, exponent :: NumberParts(word, sign, whole, fraction, exponent)
  }

  ghost predicate ValidToken(t: Token) {
    match t
    case Punct(c) => IsPunct(c)
    case Str(body) => ValidBody(body)
    case Scalar(word) => word == "true" || word == "false" || word == "null" || IsNumber(word)
  }

  predicate IsWordChar(c: char) {
    '0' <= c <= '9' || 'a' <= c <= 'z' || 'A' <= c <= 'Z' || c == '+' || c == '-' || c == '.'
  }

  ghost predicate IsWord(word: string) {
    word != [] && forall i :: 0 <= i < |word| ==> IsWordChar(word[i])
  }

  lemma ScalarIsWord(word: string)
    requires ValidToken(Scalar(word))
    ensures IsWord(word)
  {
    if IsNumber(word) {
      var sign, whole, fraction, exponent :| NumberParts(word, sign, whole, fraction, exponent);
      assert forall i :: 1 <= i < |fraction| ==> fraction[i] == fraction[1..][i - 1];
      assert exponent != "" ==> forall i :: 2 <= i < |exponent| ==>
        exponent[i] == exponent[2..][i - 2] == exponent[1..][i - 1];
      assert IsWord(whole);
    }
  }

  function TokenText(t: Token): string {
    match t
    case Punct(c) => [c]
    case Str(body) => "\"" + body + "\""
    case Scalar(word) => word
  }

  // ----- reading tokens -----

  /** The length of a string body that is ended by a quote, if there is such a quote. */
  function BodyLength(text: string): (n: Option<nat>)
    ensures n.Some? ==> n.value < |text| && text[n.value] == '"'
  {
    if text == [] then None
    else if text[0] == '"' then Some(0)
    else if text[0] == '\\' then
      if |text| < 2 then None
      else
        var rest := BodyLength(text[2..]);
        if rest.None? then None else Some(rest.value + 2)
    else
      var rest := BodyLength(text[1..]);
      if rest.None? then None else Some(rest.value + 1)
  }

  function WordLength(text: string): (n: nat)
    ensures n <= |text|
  {
    if text == [] || !IsWordChar(text[0]) then 0 else 1 + WordLength(text[1..])
  }

  /** The tokens of a JSON text, or nothing if it has none. */
  ghost function Lex(text: string): Option<seq<Token>>
    decreases |text|
  {
    if text == [] then Some([])
    else if IsBlank(text[0]) then Lex(text[1..])
    else if IsPunct(text[0]) then Before(Punct(text[0]), Lex(text[1..]))
    else if text[0] == '"' then
      var n := BodyLength(text[1..]);
      if n.None? || !ValidBody(text[1..n.value + 1]) then None
      else Before(Str(text[1..n.value + 1]), Lex(text[n.value + 2..]))
    else
      var n := WordLength(text);
      if n == 0 || !ValidToken(Scalar(text[..n])) then None
      else Before(Scalar(text[..n]), Lex(text[n..]))
  }

  ghost function Before(t: Token, rest: Option<seq<Token>>): Option<seq<Token>> {
    if rest.None? then None else Some([t] + rest.value)
  }

  // ----- JSON with comments -----

  datatype Item =
    | Tok(token: Token)
    | Blank(c: char)
    | LineComment(text: string)
    | BlockComment(text: string)
    | ExtraComma

  /** A layout ends with its last item, or with a line comment that the end of the text ends. */
  datatype Layout = End | LastLine(text: string) | Then(item: Item, rest: Layout)

  predicate ValidLineText(text: string) {
    forall i :: 0 <= i < |text| ==> text[i] != '\n'
  }

  predicate ValidBlockText(text: string) {
    forall i :: 0 < i < |text| ==> !(text[i - 1] == '*' && text[i] == '/')
  }

  ghost predicate ValidItem(item: Item) {
    match item
    case Tok(token) => ValidToken(token)
    case Blank(c) => IsBlank(c)
    case LineComment(text) => ValidLineText(text)
    case BlockComment(text) => ValidBlockText(text)
    case ExtraComma => true
  }

  predicate IsCloserToken(t: Token) {
    t.Punct? && IsCloser(t.c)
  }

  /** The next token, or the extra comma, if one comes first. */
  function Following(layout: Layout): Option<Item> {
    match layout
    case End => None
    case LastLine(_) => None
    case Then(item, rest) => if item.Tok? || item.ExtraComma? then Some(item) else Following(rest)
  }

  /** What may stand between tokens: an extra comma only before a closing bracket, at most one. */
  ghost predicate ValidLayout(layout: Layout) {
    match layout
    case End => true
    case LastLine(text) => ValidLineText(text)
    case Then(item, rest) =>
      && ValidItem(item)
      && ValidLayout(rest)
      && (item.ExtraComma? ==>
            Following(rest).Some? && Following(rest).value.Tok? && IsCloserToken(Following(rest).value.token))
  }

  function Tokens(layout: Layout): seq<Token> {
    match layout
    case End => []
    case LastLine(_) => []
    case Then(item, rest) => if item.Tok? then [item.token] + Tokens(rest) else Tokens(rest)
  }

  /** No two scalars are neighbours and no comma stands before a closing bracket: true of the
      tokens of every JSON value. */
  ghost predicate WellSpaced(tokens: seq<Token>) {
    forall i :: 0 < i < |tokens| ==> Compatible(tokens[i - 1], tokens[i])
  }

  predicate Compatible(t: Token, u: Token) {
    && !(t.Scalar? && u.Scalar?)
    && !(t == Punct(',') && IsCloserToken(u))
  }

  function ItemText(item: Item): string {
    match item
    case Tok(token) => TokenText(token)
    case Blank(c) => [c]
    case LineComment(text) => "//" + text + "\n"
    case BlockComment(text) => "/*" + text + "*/"
    case ExtraComma => ","
  }

  function LineEnds(text: string): string {
    if text == [] then [] else (if text[0] == '\n' then ['\n'] else []) + LineEnds(text[1..])
  }

  /** What the first pass leaves of an item. */
  function PlainText(item: Item): string {
    match item
    case LineComment(_) => "\n"
    case BlockComment(text) => LineEnds(text)
    case _ => ItemText(item)
  }

  function Rendered(layout: Layout): string {
    match layout
    case End => []
    case LastLine(text) => "//" + text
    case Then(item, rest) => ItemText(item) + Rendered(rest)
  }

  function Plain(layout: Layout): string {
    match layout
    case End => []
    case LastLine(_) => []
    case Then(item, rest) => PlainText(item) + Plain(rest)
  }

  function Clean(layout: Layout): string {
    match layout
    case End => []
    case LastLine(_) => []
    case Then(item, rest) => if item.ExtraComma? then Clean(rest) else PlainText(item) + Clean(rest)
  }

  // ----- the first pass over each item -----

  lemma QuotedTail(body: string, rest: string)
    requires body != []
    ensures (body + "\"" + rest)[1..] == body[1..] + "\"" + rest
    ensures |body| > 1 ==> (body + "\"" + rest)[1..][1..] == body[2..] + "\"" + rest
  {
  }

  lemma {:induction false} ScanBody(body: string, rest: string)
    requires ValidBody(body)
    ensures Scan(body + "\"" + rest, InString) == body + "\"" + Scan(rest, Code)
    decreases |body|
  {
    var text := body + "\"" + rest;
    if body == [] {
      assert text == "\"" + rest && text[1..] == rest;
    } else {
      QuotedTail(body, rest);
      assert body == [body[0]] + body[1..];
      if body[0] == '\\' {
        assert body[1..] == [body[1]] + body[2..];
        if !IsEscapable(body[1]) {
          HexBody(body);
        }
        ScanBody(body[2..], rest);
      } else {
        ScanBody(body[1..], rest);
      }
    }
  }

  /** The four hexadecimal digits are themselves a valid body. */
  lemma HexBody(body: string)
    requires |body| > 5 && IsHex(body[2]) && IsHex(body[3]) && IsHex(body[4]) && IsHex(body[5])
    requires ValidBody(body[6..])
    ensures ValidBody(body[2..])
  {
    assert body[5..][1..] == body[6..] && ValidBody(body[5..]);
    assert body[4..][1..] == body[5..] && ValidBody(body[4..]);
    assert body[3..][1..] == body[4..] && ValidBody(body[3..]);
    assert body[2..][1..] == body[3..];
  }

  lemma {:induction false} ScanWord(word: string, rest: string)
    requires forall i :: 0 <= i < |word| ==> IsWordChar(word[i])
    ensures Scan(word + rest, Code) == word + Scan(rest, Code)
  {
    if word == [] {
      assert word + rest == rest && word + Scan(rest, Code) == Scan(rest, Code);
    } else {
      assert (word + rest)[1..] == word[1..] + rest;
      ScanWord(word[1..], rest);
      assert word == [word[0]] + word[1..];
    }
  }

  lemma {:induction false} ScanLine(text: string, rest: string)
    requires ValidLineText(text)
    ensures Scan(text + "\n" + rest, if text == [] then Code else Line) == "\n" + Scan(rest, Code)
  {
    var all := text + "\n" + rest;
    if text == [] {
      assert all == "\n" + rest && all[1..] == rest;
    } else {
      assert all[1..] == text[1..] + "\n" + rest;
      ScanLine(text[1..], rest);
    }
  }

  lemma {:induction false} ScanLineToEnd(text: string)
    requires ValidLineText(text)
    ensures Scan(text, Line) == []
  {
    if text != [] {
      ScanLineToEnd(text[1..]);
    }
  }

  lemma ScanLastLine(text: string)
    requires ValidLineText(text)
    ensures Scan("//" + text, Code) == []
  {
    var all := "//" + text;
    assert all[1..][1..] == text;
    ScanLineToEnd(text);
    if text != [] {
      assert all[1..][1] == text[0];
    }
  }

  lemma {:induction false} ScanBlock(text: string, rest: string)
    requires ValidBlockText(text)
    ensures Scan(text + "*/" + rest, Block) == LineEnds(text) + Scan(rest, Code)
  {
    var all := text + "*/" + rest;
    if text == [] {
      assert all[1..] == "/" + rest && all[1..][1..] == rest;
      assert LineEnds(text) + Scan(rest, Code) == Scan(rest, Code);
    } else {
      assert all[1..] == text[1..] + "*/" + rest;
      ScanBlock(text[1..], rest);
      assert !(all[0] == '*' && all[1] == '/');
    }
  }

  lemma ScanStr(body: string, rest: string)
    requires ValidBody(body)
    ensures Scan("\"" + body + "\"" + rest, Code) == "\"" + body + "\"" + Scan(rest, Code)
  {
    ScanBody(body, rest);
    var text := "\"" + body + "\"" + rest;
    assert text[1..] == body + "\"" + rest;
    assert "\"" + body + "\"" + Scan(rest, Code) == ['"'] + (body + "\"" + Scan(rest, Code));
  }

  lemma ScanOne(c: char, rest: string)
    requires c != '"' && c != '/'
    ensures Scan([c] + rest, Code) == [c] + Scan(rest, Code)
  {
    assert ([c] + rest)[1..] == rest;
  }

  lemma ScanLineComment(text: string, rest: string)
    requires ValidLineText(text)
    ensures Scan("//" + text + "\n" + rest, Code) == "\n" + Scan(rest, Code)
  {
    var all := "//" + text + "\n" + rest;
    assert all[1..][1..] == text + "\n" + rest;
    ScanLine(text, rest);
    if text != [] {
      assert all[1..][1] == text[0];
    }
  }

  lemma ScanBlockComment(text: string, rest: string)
    requires ValidBlockText(text)
    ensures Scan("/*" + text + "*/" + rest, Code) == LineEnds(text) + Scan(rest, Code)
  {
    var all := "/*" + text + "*/" + rest;
    assert all[1..][1..] == text + "*/" + rest;
    ScanBlock(text, rest);
  }

  lemma ScanItem(item: Item, rest: string)
    requires ValidItem(item)
    ensures Scan(ItemText(item) + rest, Code) == PlainText(item) + Scan(rest, Code)
  {
    match item
    case Tok(token) =>
      match token {
        case Punct(c) => ScanOne(c, rest);
        case Str(body) => ScanStr(body, rest);
        case Scalar(word) =>
          ScalarIsWord(word);
          ScanWord(word, rest);
      }
    case Blank(c) => ScanOne(c, rest);
    case ExtraComma => ScanOne(',', rest);
    case LineComment(text) => ScanLineComment(text, rest);
    case BlockComment(text) => ScanBlockComment(text, rest);
  }

  lemma {:induction false} FirstPass(layout: Layout)
    requires ValidLayout(layout)
    ensures Scan(Rendered(layout), Code) == Plain(layout)
  {
    if layout.Then? {
      FirstPass(layout.rest);
      ScanItem(layout.item, Rendered(layout.rest));
    } else if layout.LastLine? {
      ScanLastLine(layout.text);
    }
  }

  // ----- the second pass over each item -----

  lemma {:induction false} CommasInBody(body: string, rest: string)
    requires ValidBody(body)
    ensures ScanCommas(body + "\"" + rest, InString) == body + "\"" + ScanCommas(rest, Code)
    decreases |body|
  {
    var text := body + "\"" + rest;
    if body == [] {
      assert text == "\"" + rest && text[1..] == rest;
    } else {
      QuotedTail(body, rest);
      assert body == [body[0]] + body[1..];
      if body[0] == '\\' {
        assert body[1..] == [body[1]] + body[2..];
        if !IsEscapable(body[1]) {
          HexBody(body);
        }
        CommasInBody(body[2..], rest);
      } else {
        CommasInBody(body[1..], rest);
      }
    }
  }

  /** Text without commas and quotes goes through unchanged. */
  lemma {:induction false} CommasInPlain(text: string, rest: string)
    requires forall i :: 0 <= i < |text| ==> text[i] != ',' && text[i] != '"'
    ensures ScanCommas(text + rest, Code) == text + ScanCommas(rest, Code)
  {
    if text == [] {
      assert text + rest == rest && text + ScanCommas(rest, Code) == ScanCommas(rest, Code);
    } else {
      assert (text + rest)[1..] == text[1..] + rest;
      CommasInPlain(text[1..], rest);
      assert text == [text[0]] + text[1..];
    }
  }

  lemma {:induction false} LineEndsAreBlank(text: string)
    ensures forall i :: 0 <= i < |LineEnds(text)| ==> LineEnds(text)[i] == '\n'
  {
    if text != [] {
      LineEndsAreBlank(text[1..]);
    }
  }

  lemma {:induction false} ClosesAfterBlank(blank: string, rest: string)
    requires forall i :: 0 <= i < |blank| ==> IsSpace(blank[i])
    ensures ClosesNext(blank + rest) == ClosesNext(rest)
  {
    if blank == [] {
      assert blank + rest == rest;
    } else {
      assert (blank + rest)[1..] == blank[1..] + rest;
      ClosesAfterBlank(blank[1..], rest);
    }
  }

  /** The text closes next exactly when the next token is a closing bracket. */
  lemma {:induction false} ClosesNextMeans(layout: Layout)
    requires ValidLayout(layout)
    ensures ClosesNext(Plain(layout)) <==>
      Following(layout).Some? && Following(layout).value.Tok? && IsCloserToken(Following(layout).value.token)
  {
    if layout.Then? {
      var item, rest := layout.item, layout.rest;
      match item
      case Tok(token) =>
        assert Plain(layout)[0] == TokenText(token)[0] by {
          if token.Scalar? {
            ScalarIsWord(token.word);
          }
        }
      case ExtraComma => assert Plain(layout)[0] == ',';
      case Blank(c) =>
        ClosesNextMeans(rest);
        ClosesAfterBlank([c], Plain(rest));
      case LineComment(_) =>
        ClosesNextMeans(rest);
        ClosesAfterBlank("\n", Plain(rest));
      case BlockComment(text) =>
        ClosesNextMeans(rest);
        LineEndsAreBlank(text);
        ClosesAfterBlank(LineEnds(text), Plain(rest));
    }
  }

  /** The token after this layout's first one, if no extra comma stands between. */
  lemma {:induction false} FollowingToken(layout: Layout)
    ensures Following(layout).Some? && Following(layout).value.Tok? ==>
      Tokens(layout) != [] && Tokens(layout)[0] == Following(layout).value.token
    ensures Following(layout).None? ==> Tokens(layout) == []
  {
    if layout.Then? && !layout.item.Tok? {
      FollowingToken(layout.rest);
    }
  }

  lemma CommasInStr(body: string, rest: string)
    requires ValidBody(body)
    ensures ScanCommas("\"" + body + "\"" + rest, Code) == "\"" + body + "\"" + ScanCommas(rest, Code)
  {
    CommasInBody(body, rest);
    var text := "\"" + body + "\"" + rest;
    assert text[1..] == body + "\"" + rest;
    assert "\"" + body + "\"" + ScanCommas(rest, Code) == ['"'] + (body + "\"" + ScanCommas(rest, Code));
  }

  lemma CommaItself(rest: string)
    ensures ScanCommas("," + rest, Code) == if ClosesNext(rest) then ScanCommas(rest, Code) else "," + ScanCommas(rest, Code)
  {
    assert ("," + rest)[1..] == rest;
  }

  lemma CommasInItem(item: Item, rest: string)
    requires ValidItem(item)
    requires item == Tok(Punct(',')) ==> !ClosesNext(rest)
    requires item == ExtraComma ==> ClosesNext(rest)
    ensures ScanCommas(PlainText(item) + rest, Code)
         == if item.ExtraComma? then ScanCommas(rest, Code) else PlainText(item) + ScanCommas(rest, Code)
  {
    match item
    case Tok(token) =>
      match token {
        case Punct(c) =>
          if c == ',' {
            CommaItself(rest);
          } else {
            CommasInPlain([c], rest);
          }
        case Str(body) => CommasInStr(body, rest);
        case Scalar(word) =>
          ScalarIsWord(word);
          CommasInPlain(word, rest);
      }
    case Blank(c) => CommasInPlain([c], rest);
    case ExtraComma => CommaItself(rest);
    case LineComment(_) => CommasInPlain("\n", rest);
    case BlockComment(text) =>
      LineEndsAreBlank(text);
      CommasInPlain(LineEnds(text), rest);
  }

  lemma WellSpacedTail(layout: Layout)
    requires layout.Then? && WellSpaced(Tokens(layout))
    ensures WellSpaced(Tokens(layout.rest))
    ensures layout.item.Tok? && Tokens(layout.rest) != [] ==> Compatible(layout.item.token, Tokens(layout.rest)[0])
  {
    var all, tail := Tokens(layout), Tokens(layout.rest);
    if layout.item.Tok? {
      assert forall i :: 0 <= i < |tail| ==> all[i + 1] == tail[i];
      forall i | 0 < i < |tail| ensures Compatible(tail[i - 1], tail[i]) {
        assert Compatible(all[i], all[i + 1]);
      }
      if tail != [] {
        assert Compatible(all[0], all[1]);
      }
    } else {
      assert all == tail;
    }
  }

  lemma {:induction false} SecondPass(layout: Layout)
    requires ValidLayout(layout) && WellSpaced(Tokens(layout))
    ensures ScanCommas(Plain(layout), Code) == Clean(layout)
  {
    if layout.Then? {
      var item, rest := layout.item, layout.rest;
      WellSpacedTail(layout);
      SecondPass(rest);
      ClosesNextMeans(rest);
      FollowingToken(rest);
      CommasInItem(item, Plain(rest));
    }
  }

  // ----- reading the result -----

  lemma {:induction false} BodyIsRead(body: string, rest: string)
    requires ValidBody(body)
    ensures BodyLength(body + "\"" + rest) == Some(|body|)
    decreases |body|
  {
    var text := body + "\"" + rest;
    if body != [] {
      if body[0] == '\\' {
        assert text[2..] == body[2..] + "\"" + rest;
        if !IsEscapable(body[1]) {
          HexBody(body);
        }
        BodyIsRead(body[2..], rest);
      } else {
        assert text[1..] == body[1..] + "\"" + rest;
        BodyIsRead(body[1..], rest);
      }
    }
  }

  lemma {:induction false} WordIsRead(word: string, rest: string)
    requires forall i :: 0 <= i < |word| ==> IsWordChar(word[i])
    requires rest == [] || !IsWordChar(rest[0])
    ensures WordLength(word + rest) == |word|
  {
    if word == [] {
      assert word + rest == rest;
    } else {
      assert (word + rest)[1..] == word[1..] + rest;
      WordIsRead(word[1..], rest);
    }
  }

  lemma {:induction false} LexBlank(blank: string, rest: string)
    requires forall i :: 0 <= i < |blank| ==> IsBlank(blank[i])
    ensures Lex(blank + rest) == Lex(rest)
  {
    if blank == [] {
      assert blank + rest == rest;
    } else {
      assert (blank + rest)[1..] == blank[1..] + rest;
      LexBlank(blank[1..], rest);
    }
  }

  lemma LexStr(body: string, rest: string)
    requires ValidBody(body)
    ensures Lex("\"" + body + "\"" + rest) == Before(Str(body), Lex(rest))
  {
    var text := "\"" + body + "\"" + rest;
    assert text[1..] == body + "\"" + rest;
    BodyIsRead(body, rest);
    assert text[1..|body| + 1] == body && text[|body| + 2..] == rest;
  }

  lemma LexScalar(word: string, rest: string)
    requires ValidToken(Scalar(word))
    requires rest == [] || !IsWordChar(rest[0])
    ensures Lex(word + rest) == Before(Scalar(word), Lex(rest))
  {
    ScalarIsWord(word);
    WordIsRead(word, rest);
    var text := word + rest;
    assert text[0] == word[0] && IsWordChar(text[0]);
    assert text[..|word|] == word && text[|word|..] == rest;
  }

  lemma LexToken(token: Token, rest: string)
    requires ValidToken(token)
    requires token.Scalar? ==> rest == [] || !IsWordChar(rest[0])
    ensures Lex(TokenText(token) + rest) == Before(token, Lex(rest))
  {
    match token
    case Punct(c) => assert ([c] + rest)[1..] == rest;
    case Str(body) => LexStr(body, rest);
    case Scalar(word) => LexScalar(word, rest);
  }

  /** After a scalar token the clean text does not go on with a word. */
  lemma {:induction false} NoWordNext(layout: Layout)
    requires ValidLayout(layout)
    requires Tokens(layout) != [] ==> !Tokens(layout)[0].Scalar?
    ensures Clean(layout) == [] || !IsWordChar(Clean(layout)[0])
  {
    if layout.Then? {
      match layout.item
      case Tok(token) =>
        assert Clean(layout)[0] == TokenText(token)[0];
      case BlockComment(text) =>
        NoWordNext(layout.rest);
        LineEndsAreBlank(text);
        if LineEnds(text) == [] {
          assert Clean(layout) == Clean(layout.rest);
        }
      case ExtraComma =>
        NoWordNext(layout.rest);
        assert Clean(layout) == Clean(layout.rest);
      case Blank(c) => assert Clean(layout)[0] == c;
      case LineComment(_) => assert Clean(layout)[0] == '\n';
    }
  }

  lemma {:induction false} LexClean(layout: Layout)
    requires ValidLayout(layout) && WellSpaced(Tokens(layout))
    ensures Lex(Clean(layout)) == Some(Tokens(layout))
  {
    if layout.Then? {
      var item, rest := layout.item, layout.rest;
      WellSpacedTail(layout);
      LexClean(rest);
      match item
      case Tok(token) =>
        if token.Scalar? {
          NoWordNext(rest);
        }
        LexToken(token, Clean(rest));
      case Blank(c) => LexBlank([c], Clean(rest));
      case LineComment(_) => LexBlank("\n", Clean(rest));
      case BlockComment(text) =>
        LineEndsAreBlank(text);
        LexBlank(LineEnds(text), Clean(rest));
      case ExtraComma =>
    }
  }

  // ----- JSON values -----

  /** A JSON value, with numbers and strings in the spelling they have in the text. */
  datatype Json =
    | Null | True | False
    | Number(word: string)
    | String(body: string)
    | Array(elements: Elements)
    | Object(members: Members)

  datatype Elements = NoElement | Element(value: Json, more: Elements)

  datatype Members = NoMember | Member(name: string, value: Json, more: Members)

  /** The tokens of a value, as the grammar of sections 3 to 7 puts them together. */
  function TokensOf(v: Json): seq<Token> {
    match v
    case Null => [Scalar("null")]
    case True => [Scalar("true")]
    case False => [Scalar("false")]
    case Number(word) => [Scalar(word)]
    case String(body) => [Str(body)]
    case Array(elements) => [Punct('[')] + TokensOfElements(elements) + [Punct(']')]
    case Object(members) => [Punct('{')] + TokensOfMembers(members) + [Punct('}')]
  }

  function TokensOfElements(es: Elements): seq<Token> {
    match es
    case NoElement => []
    case Element(value, more) =>
      TokensOf(value) + (if more.NoElement? then [] else [Punct(',')] + TokensOfElements(more))
  }

  function TokensOfMembers(ms: Members): seq<Token> {
    match ms
    case NoMember => []
    case Member(name, value, more) =>
      [Str(name), Punct(':')] + TokensOf(value)
      + (if more.NoMember? then [] else [Punct(',')] + TokensOfMembers(more))
  }

  /** Not empty, well spaced, and neither starting nor ending with a separator or the wrong bracket. */
  ghost predicate Solid(tokens: seq<Token>) {
    && tokens != [] && WellSpaced(tokens)
    && StartsValue(tokens[0]) && EndsValue(tokens[|tokens| - 1])
  }

  predicate StartsValue(t: Token) {
    t.Punct? ==> t.c == '[' || t.c == '{'
  }

  predicate EndsValue(t: Token) {
    t.Punct? ==> t.c == ']' || t.c == '}'
  }

  lemma WellSpacedConcat(a: seq<Token>, b: seq<Token>)
    requires WellSpaced(a) && WellSpaced(b)
    requires a != [] && b != [] ==> Compatible(a[|a| - 1], b[0])
    ensures WellSpaced(a + b)
  {
    var all := a + b;
    forall i | 0 < i < |all| ensures Compatible(all[i - 1], all[i]) {
      if i > |a| {
        assert all[i - 1] == b[i - 1 - |a|] && all[i] == b[i - |a|];
      }
    }
  }

  lemma {:induction false} ValueIsSolid(v: Json)
    ensures Solid(TokensOf(v))
    decreases v
  {
    match v
    case Array(elements) =>
      ElementsAreSolid(elements);
      WellSpacedConcat([Punct('[')], TokensOfElements(elements));
      WellSpacedConcat([Punct('[')] + TokensOfElements(elements), [Punct(']')]);
    case Object(members) =>
      MembersAreSolid(members);
      WellSpacedConcat([Punct('{')], TokensOfMembers(members));
      WellSpacedConcat([Punct('{')] + TokensOfMembers(members), [Punct('}')]);
    case _ =>
  }

  lemma {:induction false} ElementsAreSolid(es: Elements)
    ensures es.Element? ==> Solid(TokensOfElements(es))
    decreases es
  {
    if es.Element? {
      ValueIsSolid(es.value);
      ElementsAreSolid(es.more);
      if es.more.Element? {
        WellSpacedConcat([Punct(',')], TokensOfElements(es.more));
        WellSpacedConcat(TokensOf(es.value), [Punct(',')] + TokensOfElements(es.more));
      } else {
        assert TokensOfElements(es) == TokensOf(es.value);
      }
    }
  }

  lemma {:induction false} MembersAreSolid(ms: Members)
    ensures ms.Member? ==> Solid(TokensOfMembers(ms))
    decreases ms
  {
    if ms.Member? {
      ValueIsSolid(ms.value);
      MembersAreSolid(ms.more);
      var head := [Str(ms.name), Punct(':')];
      WellSpacedConcat(head, TokensOf(ms.value));
      if ms.more.Member? {
        WellSpacedConcat([Punct(',')], TokensOfMembers(ms.more));
        WellSpacedConcat(head + TokensOf(ms.value), [Punct(',')] + TokensOfMembers(ms.more));
      } else {
        assert TokensOfMembers(ms) == head + TokensOf(ms.value);
      }
    }
  }

  // ----- the theorem -----

  /** Both passes, over any layout of well spaced tokens with comments, white space and trailing
      commas, give a text that reads as exactly those tokens. */
  lemma LayoutMeaningPreserved(layout: Layout)
    requires ValidLayout(layout) && WellSpaced(Tokens(layout))
    ensures Lex(Stripped(Rendered(layout))) == Some(Tokens(layout))
  {
    FirstPass(layout);
    SecondPass(layout);
    LexClean(layout);
  }

  /** In particular over any layout of a JSON value. */
  lemma MeaningPreserved(v: Json, layout: Layout)
    requires ValidLayout(layout) && Tokens(layout) == TokensOf(v)
    ensures Lex(Stripped(Rendered(layout))) == Some(TokensOf(v))
  {
    ValueIsSolid(v);
    LayoutMeaningPreserved(layout);
  }
}
