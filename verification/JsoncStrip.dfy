/** The two string-aware passes that turn JSON with comments and trailing commas into JSON. */
module JsoncStrip {
  import opened Options

  // ----- comments, one character at a time -----

  /** What the character about to be read is part of. */
  datatype Mode =
    | Code
    | InString
    | Escaped      // the character after a backslash in a string
    | LineHead     // the second slash that opens a line comment
    | Line
    | BlockHead    // the star that opens a block comment
    | Block
    | BlockTail    // the slash that closes it

  function NextMode(mode: Mode, c: char, next: Option<char>): Mode {
    match mode
    case Code =>
      if c == '"' then InString
      else if c == '/' && next == Some('/') then LineHead
      else if c == '/' && next == Some('*') then BlockHead
      else Code
    case InString => if c == '\\' then Escaped else if c == '"' then Code else InString
    case Escaped => InString
    case LineHead => if next == Some('\n') then Code else Line
    case Line => if next == Some('\n') then Code else Line
    case BlockHead => Block
    case Block => if c == '*' && next == Some('/') then BlockTail else Block
    case BlockTail => Code
  }

  /** Whether the character is kept: everything outside comments, and the line ends of block comments. */
  predicate Survives(mode: Mode, c: char, next: Option<char>) {
    match mode
    case Code => !(c == '/' && (next == Some('/') || next == Some('*')))
    case InString => true
    case Escaped => true
    case Block => c == '\n'
    case _ => false
  }

  function CharAt(text: string, i: nat): Option<char> {
    if i < |text| then Some(text[i]) else None
  }

  /** The mode in which position `i` is read. */
  ghost function ModeAt(text: string, i: nat): Mode
    requires i <= |text|
  {
    if i == 0 then Code else NextMode(ModeAt(text, i - 1), text[i - 1], CharAt(text, i))
  }

  ghost predicate Kept(text: string, i: nat)
    requires i < |text|
  {
    Survives(ModeAt(text, i), text[i], CharAt(text, i + 1))
  }

  /** The kept characters before position `i`. */
  ghost function Written(text: string, i: nat): string
    requires i <= |text|
  {
    if i == 0 then []
    else if Kept(text, i - 1) then Written(text, i - 1) + [text[i - 1]]
    else Written(text, i - 1)
  }

  /** The text without its comments. */
  ghost function Uncommented(text: string): string {
    Written(text, |text|)
  }

  method StripJsonComments(text: string) returns (out: string)
    ensures out == Uncommented(text)
  {
    out := "";
    var index: nat := 0;
    var inString := false;
    while index < |text|
      invariant out == Written(text, if index <= |text| then index else |text|)
      invariant index < |text| ==> ModeAt(text, index) == if inString then InString else Code
      decreases |text| - index
    {
      var character := text[index];
      if inString {
        out := out + [character];
        if character == '\\' && index + 1 < |text| {
          out := out + [text[index + 1]];
          index := index + 2;
          continue;
        }
        if character == '"' {
          inString := false;
        }
        index := index + 1;
        continue;
      }
      if character == '"' {
        inString := true;
        out := out + [character];
        index := index + 1;
        continue;
      }
      if character == '/' && index + 1 < |text| && text[index + 1] == '/' {
        index := SkipLine(text, index);
        continue;
      }
      if character == '/' && index + 1 < |text| && text[index + 1] == '*' {
        index, out := SkipBlock(text, index, out);
        continue;
      }
      out := out + [character];
      index := index + 1;
    }
  }

  /** The loop over a line comment: up to its line end, which stays. */
  method SkipLine(text: string, start: nat) returns (index: nat)
    requires start + 1 < |text| && text[start] == '/' && text[start + 1] == '/'
    requires ModeAt(text, start) == Code
    ensures start < index <= |text|
    ensures Written(text, index) == Written(text, start)
    ensures index < |text| ==> ModeAt(text, index) == Code
  {
    index := start + 2;
    assert ModeAt(text, start + 1) == LineHead;
    while index < |text| && text[index] != '\n'
      invariant start + 2 <= index <= |text|
      invariant ModeAt(text, index) == if CharAt(text, index) == Some('\n') then Code else Line
      invariant Written(text, index) == Written(text, start)
    {
      index := index + 1;
    }
  }

  /** The loop over a block comment: past its end, or past the end of the text. */
  method SkipBlock(text: string, start: nat, before: string) returns (index: nat, out: string)
    requires start + 1 < |text| && text[start] == '/' && text[start + 1] == '*'
    requires ModeAt(text, start) == Code && before == Written(text, start)
    ensures start < index
    ensures out == Written(text, if index <= |text| then index else |text|)
    ensures index < |text| ==> ModeAt(text, index) == Code
  {
    index := start + 2;
    out := before;
    assert ModeAt(text, start + 1) == BlockHead;
    while index < |text| && !(text[index] == '*' && index + 1 < |text| && text[index + 1] == '/')
      invariant start + 2 <= index <= |text|
      invariant ModeAt(text, index) == Block
      invariant out == Written(text, index)
    {
      if text[index] == '\n' {
        out := out + ['\n'];
      }
      index := index + 1;
    }
    if index < |text| {
      assert ModeAt(text, index + 1) == BlockTail;
    }
    index := index + 2;
  }

  // ----- where the survivors are -----

  ghost function Newlines(text: string): nat {
    if text == [] then 0 else Newlines(text[..|text| - 1]) + if text[|text| - 1] == '\n' then 1 else 0
  }

  /** A mode that waits for one particular character is about to read it. */
  lemma {:induction false} ModeExpects(text: string, i: nat)
    requires i <= |text|
    ensures ModeAt(text, i) == LineHead || ModeAt(text, i) == BlockTail ==> CharAt(text, i) == Some('/')
    ensures ModeAt(text, i) == BlockHead ==> CharAt(text, i) == Some('*')
    ensures ModeAt(text, i) == Line ==> CharAt(text, i) != Some('\n')
  {
    if i > 0 {
      ModeExpects(text, i - 1);
    }
  }

  /** Every surviving character stays on its line: what is written before it has as many line ends
      as what was read before it. */
  lemma {:induction false} LinesKept(text: string, i: nat)
    requires i <= |text|
    ensures Newlines(Written(text, i)) == Newlines(text[..i])
  {
    if i > 0 {
      LinesKept(text, i - 1);
      ModeExpects(text, i - 1);
      assert text[..i][..i - 1] == text[..i - 1];
      if Kept(text, i - 1) {
        assert Written(text, i)[..|Written(text, i)| - 1] == Written(text, i - 1);
      }
    }
  }

  /** A kept character is in the output at the place where it was written, and stays there. */
  lemma {:induction false} KeptIsWritten(text: string, i: nat, j: nat)
    requires i < j <= |text| && Kept(text, i)
    ensures |Written(text, i)| < |Written(text, j)|
    ensures Written(text, j)[|Written(text, i)|] == text[i]
    ensures Written(text, j)[..|Written(text, i)|] == Written(text, i)
    decreases j
  {
    if i + 1 < j {
      KeptIsWritten(text, i, j - 1);
    }
  }

  /** The characters of string literals are all kept. */
  lemma StringsKept(text: string, i: nat)
    requires i < |text|
    requires ModeAt(text, i) == InString || ModeAt(text, i) == Escaped || (ModeAt(text, i) == Code && text[i] == '"')
    ensures Kept(text, i)
    ensures |Written(text, i)| < |Uncommented(text)| && Uncommented(text)[|Written(text, i)|] == text[i]
  {
    KeptIsWritten(text, i, |text|);
  }

  // ----- the same pass as a function of the text that is still to come -----

  function Peek(text: string): Option<char> {
    CharAt(text, 1)
  }

  ghost function Scan(text: string, mode: Mode): string {
    if text == [] then []
    else
      var rest := Scan(text[1..], NextMode(mode, text[0], Peek(text)));
      if Survives(mode, text[0], Peek(text)) then [text[0]] + rest else rest
  }

  lemma {:induction false} ScanFromHere(text: string, i: nat)
    requires i <= |text|
    ensures Uncommented(text) == Written(text, i) + Scan(text[i..], ModeAt(text, i))
    decreases |text| - i
  {
    if i < |text| {
      ScanFromHere(text, i + 1);
      assert text[i..][1..] == text[i + 1..];
      var tail := Scan(text[i + 1..], ModeAt(text, i + 1));
      assert Written(text, i) + ([text[i]] + tail) == (Written(text, i) + [text[i]]) + tail;
    }
  }

  lemma UncommentedIsScan(text: string)
    ensures Uncommented(text) == Scan(text, Code)
  {
    ScanFromHere(text, 0);
    assert text[0..] == text && [] + Scan(text, Code) == Scan(text, Code);
  }

  /** In code a character other than a slash is always the next one written. */
  lemma FirstWritten(text: string)
    requires text != [] && text[0] != '/'
    ensures Scan(text, Code) != [] && Scan(text, Code)[0] == text[0]
  {
  }

  /** The mode in which the output continues: comments are gone from it. */
  function OutMode(mode: Mode): Mode {
    if mode == InString || mode == Escaped then mode else Code
  }

  lemma {:induction false} ScanIdempotent(text: string, mode: Mode)
    ensures Scan(Scan(text, mode), OutMode(mode)) == Scan(text, mode)
    decreases text
  {
    if text != [] {
      var after := NextMode(mode, text[0], Peek(text));
      ScanIdempotent(text[1..], after);
      if Survives(mode, text[0], Peek(text)) {
        var out, tail := Scan(text, mode), Scan(text[1..], after);
        assert out[1..] == tail;
        if mode == Code && text[0] == '/' && |text| > 1 {
          FirstWritten(text[1..]);
        }
        assert Survives(OutMode(mode), out[0], Peek(out));
        assert NextMode(OutMode(mode), out[0], Peek(out)) == OutMode(after);
      }
    }
  }

  /** A second pass over comments changes nothing. */
  lemma CommentsIdempotent(text: string)
    ensures Uncommented(Uncommented(text)) == Uncommented(text)
  {
    UncommentedIsScan(text);
    UncommentedIsScan(Uncommented(text));
    ScanIdempotent(text, Code);
  }

  // ----- trailing commas -----

  /** What a regular expression's `\s` matches. */
  predicate IsSpace(c: char) {
    || '\t' <= c <= '\r'
    || c == ' '
    || c == '\U{00A0}'
    || c == '\U{1680}'
    || '\U{2000}' <= c <= '\U{200A}'
    || c == '\U{2028}' || c == '\U{2029}'
    || c == '\U{202F}' || c == '\U{205F}' || c == '\U{3000}' || c == '\U{FEFF}'
  }

  /** White space by its code points, as `\s` has it. */
  lemma SpaceExactly(c: char)
    ensures IsSpace(c) <==>
      var n := c as int;
      9 <= n <= 13 || 8192 <= n <= 8202 || n in [32, 160, 5760, 8232, 8233, 8239, 8287, 12288, 65279]
  {
  }

  predicate IsCloser(c: char) {
    c == '}' || c == ']'
  }

  /** The next character that is not white space is a closing bracket. */
  predicate ClosesNext(text: string) {
    text != [] && (if IsSpace(text[0]) then ClosesNext(text[1..]) else IsCloser(text[0]))
  }

  /** The mode after reading a character, where there are no comments. */
  function NextPlain(mode: Mode, c: char): Mode {
    match mode
    case InString => if c == '\\' then Escaped else if c == '"' then Code else InString
    case Escaped => InString
    case _ => if c == '"' then InString else Code
  }

  ghost function PlainModeAt(text: string, i: nat): Mode
    requires i <= |text|
  {
    if i == 0 then Code else NextPlain(PlainModeAt(text, i - 1), text[i - 1])
  }

  /** A comma outside strings whose next character other than white space closes a bracket. */
  ghost predicate Trailing(text: string, i: nat)
    requires i < |text|
  {
    text[i] == ',' && PlainModeAt(text, i) == Code && ClosesNext(text[i + 1..])
  }

  /** Everything but the trailing commas before position `i`. */
  ghost function Untrailed(text: string, i: nat): string
    requires i <= |text|
  {
    if i == 0 then []
    else if Trailing(text, i - 1) then Untrailed(text, i - 1)
    else Untrailed(text, i - 1) + [text[i - 1]]
  }

  method StripTrailingCommas(text: string) returns (out: string)
    ensures out == Untrailed(text, |text|)
  {
    out := "";
    var index: nat := 0;
    var inString := false;
    while index < |text|
      invariant index <= |text|
      invariant out == Untrailed(text, index)
      invariant index < |text| ==> PlainModeAt(text, index) == if inString then InString else Code
      decreases |text| - index
    {
      var character := text[index];
      if inString {
        out := out + [character];
        if character == '\\' && index + 1 < |text| {
          out := out + [text[index + 1]];
          index := index + 2;
          continue;
        }
        if character == '"' {
          inString := false;
        }
        index := index + 1;
        continue;
      }
      if character == '"' {
        inString := true;
        out := out + [character];
        index := index + 1;
        continue;
      }
      if character == ',' {
        var closes := LookAhead(text, index + 1);
        if closes {
          index := index + 1;
          continue;
        }
      }
      out := out + [character];
      index := index + 1;
    }
  }

  /** The scan over white space after a comma. */
  method LookAhead(text: string, start: nat) returns (closes: bool)
    requires start <= |text|
    ensures closes <==> ClosesNext(text[start..])
  {
    var lookahead := start;
    while lookahead < |text| && IsSpace(text[lookahead])
      invariant start <= lookahead <= |text|
      invariant ClosesNext(text[start..]) <==> ClosesNext(text[lookahead..])
    {
      assert text[lookahead..][1..] == text[lookahead + 1..];
      lookahead := lookahead + 1;
    }
    closes := lookahead < |text| && IsCloser(text[lookahead]);
  }

  /** The bracket that makes a comma a trailing one. */
  ghost function CloserAfter(text: string, i: nat): (closer: nat)
    requires i <= |text| && ClosesNext(text[i..])
    ensures i <= closer < |text| && IsCloser(text[closer])
    ensures forall k :: i <= k < closer ==> IsSpace(text[k])
    decreases |text| - i
  {
    if IsSpace(text[i]) then
      assert text[i..][1..] == text[i + 1..];
      CloserAfter(text, i + 1)
    else i
  }

  /** Each closing bracket takes at most one comma with it. */
  lemma OneCommaPerBracket(text: string, i: nat, j: nat)
    requires i < j < |text| && Trailing(text, i) && Trailing(text, j)
    ensures CloserAfter(text, i + 1) < j < CloserAfter(text, j + 1)
  {
    assert !IsSpace(text[j]) && !IsCloser(text[j]);
  }

  // ----- this pass, too, as a function of what is still to come -----

  predicate TrailingHere(text: string, mode: Mode) {
    text != [] && mode == Code && text[0] == ',' && ClosesNext(text[1..])
  }

  ghost function ScanCommas(text: string, mode: Mode): string {
    if text == [] then []
    else
      var rest := ScanCommas(text[1..], NextPlain(mode, text[0]));
      if TrailingHere(text, mode) then rest else [text[0]] + rest
  }

  lemma {:induction false} ScanCommasFromHere(text: string, i: nat)
    requires i <= |text|
    ensures Untrailed(text, |text|) == Untrailed(text, i) + ScanCommas(text[i..], PlainModeAt(text, i))
    decreases |text| - i
  {
    if i < |text| {
      ScanCommasFromHere(text, i + 1);
      assert text[i..][1..] == text[i + 1..];
      var tail := ScanCommas(text[i + 1..], PlainModeAt(text, i + 1));
      assert Untrailed(text, i) + ([text[i]] + tail) == (Untrailed(text, i) + [text[i]]) + tail;
    }
  }

  // ----- both -----

  ghost function Stripped(text: string): string {
    ScanCommas(Scan(text, Code), Code)
  }

  method StripJsonc(text: string) returns (json: string)
    ensures json == Stripped(text)
  {
    var uncommented := StripJsonComments(text);
    json := StripTrailingCommas(uncommented);
    UncommentedIsScan(text);
    ScanCommasFromHere(uncommented, 0);
    assert uncommented[0..] == uncommented;
    assert [] + ScanCommas(uncommented, Code) == ScanCommas(uncommented, Code);
  }
}
