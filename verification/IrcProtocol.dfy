/**
 The IRC line codec: a parser and a printer for the message format of section
 2.3.1 of RFC 2812, stricter than the RFC in that a middle parameter never holds
 a colon. Lengths are UTF-8 bytes.
 */
module IrcProtocol {
  import opened Wrappers
  import opened Text

  const MAX_LINE_BYTES := 512
  const CRLF := "\r\n"

  datatype Message = Message(command: string, params: seq<string>, prefix: Option<string>, trailing: Option<string>)

  datatype IrcError = LineInvalid | PrefixInvalid | CommandInvalid | ParameterInvalid | TrailingInvalid | LineTooLong

  /** The characters that `\s` and `trimStart` of JavaScript treat as white space. */
  predicate IsSpace(c: char) {
    || '\t' <= c <= '\r'
    || c == ' ' || c == '\U{A0}' || c == '\U{1680}'
    || '\U{2000}' <= c <= '\U{200A}'
    || c == '\U{2028}' || c == '\U{2029}' || c == '\U{202F}' || c == '\U{205F}'
    || c == '\U{3000}' || c == '\U{FEFF}'
  }

  function TrimStart(s: string): (r: string)
    ensures |r| <= |s|
  {
    if s != "" && IsSpace(s[0]) then TrimStart(s[1..]) else s
  }

  /**
   `toUpperCase` of one character, exact wherever the result is ASCII letters: besides
   a to z these are sharp s, dotless i, long s and the f and st ligatures. A command
   holding any other non-ASCII character is rejected, so their mapping is immaterial.
   */
  function UpperChar(c: char): string {
    if 'a' <= c <= 'z' then [c - 'a' + 'A']
    else if c == '\U{DF}' then "SS"
    else if c == '\U{131}' then "I"
    else if c == '\U{17F}' then "S"
    else if c == '\U{FB00}' then "FF"
    else if c == '\U{FB01}' then "FI"
    else if c == '\U{FB02}' then "FL"
    else if c == '\U{FB03}' then "FFI"
    else if c == '\U{FB04}' then "FFL"
    else if c == '\U{FB05}' || c == '\U{FB06}' then "ST"
    else [c]
  }

  function Upper(s: string): string {
    if s == "" then "" else UpperChar(s[0]) + Upper(s[1..])
  }

  predicate IsUpperLetter(c: char) { 'A' <= c <= 'Z' }

  predicate IsDigit(c: char) { '0' <= c <= '9' }

  predicate IsWord(s: string) {
    forall i :: 0 <= i < |s| ==> IsUpperLetter(s[i]) || IsDigit(s[i])
  }

  /** A letter followed by at most fifteen letters or digits. */
  predicate IsWordCommand(s: string) {
    1 <= |s| <= 16 && IsUpperLetter(s[0]) && IsWord(s)
  }

  predicate IsNumericCommand(s: string) {
    |s| == 3 && forall i :: 0 <= i < 3 ==> IsDigit(s[i])
  }

  predicate IsMiddle(s: string) {
    s != "" && forall i :: 0 <= i < |s| ==> !IsSpace(s[i]) && s[i] != ':'
  }

  predicate HasLineBreak(s: string) {
    !Lacks(s, '\r') || !Lacks(s, '\n')
  }

  predicate AllMiddle(params: seq<string>) {
    forall i :: 0 <= i < |params| ==> IsMiddle(params[i])
  }

  datatype Arguments = Arguments(params: seq<string>, trailing: Option<string>)

  /** The cursor up to its first space. */
  function FirstWord(cursor: string): string {
    var separator := IndexOf(cursor, ' ');
    if separator == -1 then cursor else cursor[..separator]
  }

  /** The cursor after its first space and any white space that follows. */
  function AfterWord(cursor: string): (rest: string)
    ensures cursor != "" ==> |rest| < |cursor|
  {
    var separator := IndexOf(cursor, ' ');
    if separator == -1 then "" else TrimStart(cursor[separator + 1..])
  }

  /** Puts a parameter before already parsed arguments. */
  function WithParameter(parameter: string, r: Result<Arguments, IrcError>): Result<Arguments, IrcError> {
    match r
    case Ok(a) => Ok(Arguments([parameter] + a.params, a.trailing))
    case Err(e) => Err(e)
  }

  /** Parameters and trailing text of a cursor without leading white space. */
  function ParseArguments(cursor: string): Result<Arguments, IrcError>
    decreases |cursor|
  {
    if cursor == "" then Ok(Arguments([], None))
    else if cursor[0] == ':' then Ok(Arguments([], Some(cursor[1..])))
    else if !IsMiddle(FirstWord(cursor)) then Err(ParameterInvalid)
    else WithParameter(FirstWord(cursor), ParseArguments(AfterWord(cursor)))
  }

  lemma {:induction false} TrimStartShrinks(s: string)
    ensures Utf8Length(TrimStart(s)) <= Utf8Length(s)
    ensures !HasLineBreak(s) ==> !HasLineBreak(TrimStart(s))
  {
    if s != "" && IsSpace(s[0]) {
      TrimStartShrinks(s[1..]);
    }
  }

  function ParseUnprefixed(remaining: string, prefix: Option<string>): Result<Message, IrcError> {
    var parts := Split(remaining, ' ');
    var command := Upper(parts[0]);
    if !IsWordCommand(command) && !IsNumericCommand(command) then Err(CommandInvalid)
    else
      var arguments :- ParseArguments(TrimStart(Join(parts[1..], " ")));
      Ok(Message(command, arguments.params, prefix, arguments.trailing))
  }

  function Parse(value: string): Result<Message, IrcError> {
    if value == "" || HasLineBreak(value) || Utf8Length(value) > MAX_LINE_BYTES - 2 then Err(LineInvalid)
    else if value[0] == ':' then
      var separator := IndexOf(value, ' ');
      if separator <= 1 then Err(PrefixInvalid)
      else ParseUnprefixed(value[separator + 1..], Some(value[1..separator]))
    else ParseUnprefixed(value, None)
  }

  /** The first two checks, in their order. */
  lemma ParseChecks(value: string)
    ensures Parse(value) == Err(LineInvalid) <==>
      value == "" || '\r' in value || '\n' in value || Utf8Length(value) > 510
    ensures Parse(value) == Err(PrefixInvalid) <==>
      Parse(value) != Err(LineInvalid) && value[0] == ':' && (' ' !in value || value[1] == ' ')
  {
    hide IsSpace, Upper, IsWordCommand, IsNumericCommand, Split, Join, Utf8Length;
    ArgumentErrors(TrimStart(Join(Split(value, ' ')[1..], " ")));
    if value != "" && value[0] == ':' {
      var separator := IndexOf(value, ' ');
      if separator > 1 {
        ArgumentErrors(TrimStart(Join(Split(value[separator + 1..], ' ')[1..], " ")));
      }
    }
  }

  lemma {:induction false} ArgumentErrors(cursor: string)
    ensures ParseArguments(cursor).Err? ==> ParseArguments(cursor).error == ParameterInvalid
    decreases |cursor|
  {
    if cursor != "" && cursor[0] != ':' {
      ArgumentErrors(AfterWord(cursor));
    }
  }

  /** `parseIrcLine`. */
  method ParseIrcLine(value: string) returns (r: Result<Message, IrcError>)
    ensures r == Parse(value)
    ensures r == Err(LineInvalid) <==> value == "" || '\r' in value || '\n' in value || Utf8Length(value) > 510
    ensures r == Err(PrefixInvalid) <==>
      r != Err(LineInvalid) && value[0] == ':' && (' ' !in value || value[1] == ' ')
  {
    ParseChecks(value);
    hide IsSpace, Upper, IsWordCommand, IsNumericCommand, Utf8Length, TrimStart, Join, Split, ParseArguments;
    if value == "" || HasLineBreak(value) || Utf8Length(value) > MAX_LINE_BYTES - 2 {
      return Err(LineInvalid);
    }
    var remaining, prefix := value, None;
    if remaining[0] == ':' {
      var separator := IndexOf(remaining, ' ');
      if separator <= 1 {
        return Err(PrefixInvalid);
      }
      prefix := Some(remaining[1..separator]);
      remaining := remaining[separator + 1..];
    }
    var parts := Split(remaining, ' ');
    var command := Upper(parts[0]);
    if !IsWordCommand(command) && !IsNumericCommand(command) {
      return Err(CommandInvalid);
    }

    var arguments := ParseCursor(TrimStart(Join(parts[1..], " ")));
    match arguments {
      case Err(e) => r := Err(e);
      case Ok(a) => r := Ok(Message(command, a.params, prefix, a.trailing));
    }
  }

  /** The cursor loop of `parseIrcLine`. */
  method ParseCursor(start: string) returns (r: Result<Arguments, IrcError>)
    ensures r == ParseArguments(start)
  {
    var params, trailing := [], None;
    var cursor := start;
    PrependNothing(ParseArguments(start));
    while cursor != ""
      invariant trailing.None?
      invariant ParseArguments(start) == Prepend(params, ParseArguments(cursor))
      decreases |cursor|
    {
      if cursor[0] == ':' {
        trailing := Some(cursor[1..]);
        break;
      }
      var parameter := FirstWord(cursor);
      if !IsMiddle(parameter) {
        return Err(ParameterInvalid);
      }
      PrependTwice(params, parameter, ParseArguments(AfterWord(cursor)));
      params := params + [parameter];
      cursor := AfterWord(cursor);
    }
    assert params + [] == params;
    r := Ok(Arguments(params, trailing));
  }

  ghost function Prepend(params: seq<string>, r: Result<Arguments, IrcError>): Result<Arguments, IrcError> {
    match r
    case Ok(a) => Ok(a.(params := params + a.params))
    case Err(e) => Err(e)
  }

  lemma PrependNothing(r: Result<Arguments, IrcError>)
    ensures Prepend([], r) == r
  {
    if r.Ok? {
      assert [] + r.value.params == r.value.params;
    }
  }

  lemma PrependTwice(params: seq<string>, parameter: string, r: Result<Arguments, IrcError>)
    ensures Prepend(params, WithParameter(parameter, r)) == Prepend(params + [parameter], r)
  {
    if r.Ok? {
      assert params + ([parameter] + r.value.params) == params + [parameter] + r.value.params;
    }
  }

  /** The space-separated words of a message after its command. */
  function Words(params: seq<string>, trailing: Option<string>): seq<string> {
    params + (if trailing.None? then [] else [":" + trailing.value])
  }

  function Line(command: string, params: seq<string>, trailing: Option<string>): string {
    Join([command] + Words(params, trailing), " ")
  }

  function Encode(command: string, params: seq<string>, trailing: Option<string>): Result<string, IrcError> {
    var normalized := Upper(command);
    if !IsWordCommand(normalized) then Err(CommandInvalid)
    else if !AllMiddle(params) then Err(ParameterInvalid)
    else if trailing.Some? && HasLineBreak(trailing.value) then Err(TrailingInvalid)
    else
      var line := Line(normalized, params, trailing);
      if Utf8Length(line + CRLF) > MAX_LINE_BYTES then Err(LineTooLong) else Ok(line + CRLF)
  }

  // ---------- Encode, then parse ----------

  lemma {:induction false} UpperOfWord(s: string)
    requires IsWord(s)
    ensures Upper(s) == s
  {
    if s != "" {
      UpperOfWord(s[1..]);
    }
  }

  /** A valid parameter is the first word of the text it starts. */
  lemma FirstWordOfPrinted(parameter: string, rest: seq<string>)
    requires IsMiddle(parameter)
    requires TrimStart(Join(rest, " ")) == Join(rest, " ")
    ensures var text := Join([parameter] + rest, " ");
            && text != "" && text[0] == parameter[0] && TrimStart(text) == text
            && FirstWord(text) == parameter && AfterWord(text) == Join(rest, " ")
  {
    var text := Join([parameter] + rest, " ");
    JoinHead(parameter, rest, " ");
    assert Lacks(parameter, ' ');
    if rest != [] {
      SplitHead(parameter, Join(rest, " "), ' ');
      assert text[|parameter| + 1..] == Join(rest, " ");
    }
  }

  /** Printed arguments parse back, and never start with white space. */
  lemma {:induction false} ParsePrintedArguments(params: seq<string>, trailing: Option<string>)
    requires AllMiddle(params)
    ensures TrimStart(Join(Words(params, trailing), " ")) == Join(Words(params, trailing), " ")
    ensures ParseArguments(Join(Words(params, trailing), " ")) == Ok(Arguments(params, trailing))
    decreases |params|
  {
    if params == [] {
      if trailing.Some? {
        assert Join(Words(params, trailing), " ") == ":" + trailing.value;
      }
    } else {
      var rest := Words(params[1..], trailing);
      assert Words(params, trailing) == [params[0]] + rest;
      assert params == [params[0]] + params[1..];
      ParsePrintedArguments(params[1..], trailing);
      FirstWordOfPrinted(params[0], rest);
    }
  }

  lemma ParsePrintedLine(command: string, params: seq<string>, trailing: Option<string>, prefix: Option<string>)
    requires (IsWordCommand(command) || IsNumericCommand(command)) && AllMiddle(params)
    ensures ParseUnprefixed(Line(command, params, trailing), prefix) == Ok(Message(command, params, prefix, trailing))
  {
    var words := Words(params, trailing);
    JoinHead(command, words, " ");
    UpperOfWord(command);
    if words == [] {
      SplitNone(command, ' ');
    } else {
      SplitHead(command, Join(words, " "), ' ');
      JoinSplit(Join(words, " "), ' ');
      assert ([command] + Split(Join(words, " "), ' '))[1..] == Split(Join(words, " "), ' ');
    }
    ParsePrintedArguments(params, trailing);
  }

  lemma {:induction false} JoinedWordsHaveNoLineBreak(words: seq<string>)
    requires forall i :: 0 <= i < |words| ==> !HasLineBreak(words[i])
    ensures !HasLineBreak(Join(words, " "))
  {
    if |words| > 1 {
      JoinedWordsHaveNoLineBreak(words[1..]);
    }
  }

  /**
   Parsing an encoded command without its CRLF returns the upper-cased command, the same
   parameters and the same trailing text; absent and empty trailing text stay distinct.
   */
  lemma ParseEncoded(command: string, params: seq<string>, trailing: Option<string>)
    requires Encode(command, params, trailing).Ok?
    ensures var wire := Encode(command, params, trailing).value;
            && 2 <= |wire| && wire[|wire| - 2..] == CRLF
            && Parse(wire[..|wire| - 2]) == Ok(Message(Upper(command), params, None, trailing))
  {
    var line := Line(Upper(command), params, trailing);
    var words := [Upper(command)] + Words(params, trailing);
    assert (line + CRLF)[..|line|] == line;
    Utf8LengthConcat(line, CRLF);
    Utf8LengthAscii(CRLF);
    forall i | 0 <= i < |words|
      ensures !HasLineBreak(words[i])
    {
      if 0 < i <= |params| {
        assert IsMiddle(params[i - 1]);
      }
    }
    JoinedWordsHaveNoLineBreak(words);
    JoinHead(Upper(command), Words(params, trailing), " ");
    assert line[0] == Upper(command)[0];
    ParsePrintedLine(Upper(command), params, trailing, None);
  }

  // ---------- Parse, then encode ----------

  lemma {:induction false} UpperShrinks(s: string)
    ensures Utf8Length(Upper(s)) <= Utf8Length(s)
  {
    if s != "" {
      UpperShrinks(s[1..]);
      Utf8LengthConcat(UpperChar(s[0]), Upper(s[1..]));
      UpperCharShrinks(s[0]);
    }
  }

  lemma UpperCharShrinks(c: char)
    ensures Utf8Length(UpperChar(c)) <= Utf8Width(c)
  {
    if IsAscii(UpperChar(c)) {
      Utf8LengthAscii(UpperChar(c));
    }
  }

  lemma PrintedLength(head: string, words: seq<string>)
    ensures Utf8Length(Join([head] + words, " "))
         == Utf8Length(head) + (if words == [] then 0 else 1 + Utf8Length(Join(words, " ")))
  {
    JoinHead(head, words, " ");
    if words != [] {
      Utf8LengthConcat(head + " ", Join(words, " "));
      Utf8LengthConcat(head, " ");
      Utf8LengthAscii(" ");
    }
  }

  /** What is left after a word is shorter by the word and a separator, and as free of line breaks. */
  lemma WordLengths(cursor: string)
    requires !HasLineBreak(cursor)
    ensures !HasLineBreak(AfterWord(cursor))
    ensures Utf8Length(FirstWord(cursor)) + (if AfterWord(cursor) == "" then 0 else 1 + Utf8Length(AfterWord(cursor)))
         <= Utf8Length(cursor)
  {
    var separator := IndexOf(cursor, ' ');
    if separator != -1 {
      Utf8LengthAround(cursor, separator);
      assert !HasLineBreak(cursor[separator + 1..]);
      TrimStartShrinks(cursor[separator + 1..]);
    }
  }

  /** Parsed arguments are printable, hold no line break, and print no longer than they were. */
  lemma {:induction false} ParsedArgumentsPrint(cursor: string)
    requires ParseArguments(cursor).Ok? && !HasLineBreak(cursor)
    ensures var a := ParseArguments(cursor).value;
            && AllMiddle(a.params)
            && (a.trailing.Some? ==> !HasLineBreak(a.trailing.value))
            && (Words(a.params, a.trailing) == [] <==> cursor == "")
            && Utf8Length(Join(Words(a.params, a.trailing), " ")) <= Utf8Length(cursor)
    decreases |cursor|
  {
    var a := ParseArguments(cursor).value;
    if cursor == "" {
    } else if cursor[0] == ':' {
      assert Join(Words(a.params, a.trailing), " ") == ":" + cursor[1..] == cursor;
    } else {
      WordLengths(cursor);
      ParsedArgumentsPrint(AfterWord(cursor));
      WithParameterPrints(FirstWord(cursor), AfterWord(cursor), ParseArguments(AfterWord(cursor)).value);
    }
  }

  /** One parameter more in front of printable arguments. */
  lemma WithParameterPrints(parameter: string, rest: string, a: Arguments)
    requires IsMiddle(parameter) && AllMiddle(a.params)
    requires Words(a.params, a.trailing) == [] <==> rest == ""
    requires Utf8Length(Join(Words(a.params, a.trailing), " ")) <= Utf8Length(rest)
    ensures AllMiddle([parameter] + a.params)
    ensures Words([parameter] + a.params, a.trailing) != []
    ensures Utf8Length(Join(Words([parameter] + a.params, a.trailing), " "))
         <= Utf8Length(parameter) + (if rest == "" then 0 else 1 + Utf8Length(rest))
  {
    assert Words([parameter] + a.params, a.trailing) == [parameter] + Words(a.params, a.trailing);
    PrintedLength(parameter, Words(a.params, a.trailing));
  }

  /** The command token and the cursor behind it take no more room than the line. */
  lemma TokenLengths(remaining: string)
    requires !HasLineBreak(remaining)
    ensures var parts := Split(remaining, ' ');
            var cursor := TrimStart(Join(parts[1..], " "));
            && !HasLineBreak(cursor)
            && Utf8Length(parts[0]) + (if cursor == "" then 0 else 1 + Utf8Length(cursor)) <= Utf8Length(remaining)
  {
    hide IsSpace, IndexOf, Utf8Length;
    var parts := Split(remaining, ' ');
    var rest := Join(parts[1..], " ");
    TrimStartShrinks(rest);
    var separator := IndexOf(remaining, ' ');
    if separator == -1 {
      assert rest == "" && TrimStart("") == "";
    } else {
      JoinSplit(remaining[separator + 1..], ' ');
      Utf8LengthAround(remaining, separator);
    }
  }

  lemma ParsedUnprefixedPrints(remaining: string, prefix: Option<string>)
    requires ParseUnprefixed(remaining, prefix).Ok? && !HasLineBreak(remaining)
    ensures var m := ParseUnprefixed(remaining, prefix).value;
            && m.prefix == prefix
            && (IsWordCommand(m.command) || IsNumericCommand(m.command))
            && AllMiddle(m.params)
            && (m.trailing.Some? ==> !HasLineBreak(m.trailing.value))
            && Utf8Length(Line(m.command, m.params, m.trailing)) <= Utf8Length(remaining)
  {
    var m := ParseUnprefixed(remaining, prefix).value;
    var parts := Split(remaining, ' ');
    TokenLengths(remaining);
    ParsedArgumentsPrint(TrimStart(Join(parts[1..], " ")));
    UpperShrinks(parts[0]);
    PrintedLength(m.command, Words(m.params, m.trailing));
  }

  /** An accepted line splits into its prefix and the part that holds the message. */
  lemma ParsedPrints(value: string)
    requires Parse(value).Ok?
    ensures var m := Parse(value).value;
            && (IsWordCommand(m.command) || IsNumericCommand(m.command))
            && AllMiddle(m.params)
            && (m.trailing.Some? ==> !HasLineBreak(m.trailing.value))
            && Utf8Length(Line(m.command, m.params, m.trailing)) <= MAX_LINE_BYTES - 2
  {
    hide ParseUnprefixed, Utf8Length, IsWordCommand, IsNumericCommand, Line;
    if value[0] == ':' {
      var separator := IndexOf(value, ' ');
      assert value == value[..separator + 1] + value[separator + 1..];
      Utf8LengthConcat(value[..separator + 1], value[separator + 1..]);
      ParsedUnprefixedPrints(value[separator + 1..], Some(value[1..separator]));
    } else {
      ParsedUnprefixedPrints(value, None);
    }
  }

  /**
   Every accepted line re-encodes within the 512-byte limit exactly when its command is
   not a numeric reply, and parses back to the same message without its prefix.
   */
  lemma EncodeParsed(value: string)
    requires Parse(value).Ok?
    ensures var m := Parse(value).value;
            var wire := Encode(m.command, m.params, m.trailing);
            && (wire.Ok? <==> !IsNumericCommand(m.command))
            && (wire.Err? ==> wire.error == CommandInvalid)
            && (wire.Ok? ==>
                  && Utf8Length(wire.value) <= MAX_LINE_BYTES && 2 <= |wire.value|
                  && Parse(wire.value[..|wire.value| - 2]) == Ok(m.(prefix := None)))
  {
    var m := Parse(value).value;
    ParsedPrints(value);
    UpperOfWord(m.command);
    var line := Line(m.command, m.params, m.trailing);
    Utf8LengthConcat(line, CRLF);
    Utf8LengthAscii(CRLF);
    if Encode(m.command, m.params, m.trailing).Ok? {
      ParseEncoded(m.command, m.params, m.trailing);
    }
  }

  // ---------- Prefixes ----------

  lemma LineBreakOfConcat(a: string, b: string)
    ensures HasLineBreak(a + b) <==> HasLineBreak(a) || HasLineBreak(b)
  {
    forall c: char
      ensures Lacks(a + b, c) <==> Lacks(a, c) && Lacks(b, c)
    {
      assert forall i :: 0 <= i < |a| ==> (a + b)[i] == a[i];
      assert forall i :: 0 <= i < |b| ==> (a + b)[|a| + i] == b[i];
    }
  }

  /** The prefix is carried over unread. */
  lemma PrefixIsCarried(remaining: string, prefix: Option<string>)
    ensures ParseUnprefixed(remaining, prefix).Ok? <==> ParseUnprefixed(remaining, None).Ok?
    ensures ParseUnprefixed(remaining, prefix).Ok? ==>
      ParseUnprefixed(remaining, prefix).value == ParseUnprefixed(remaining, None).value.(prefix := prefix)
  {
  }

  /** A prefix put before an accepted line is read back, without its colon, and changes nothing else. */
  lemma PrefixedParses(p: string, line: string)
    requires p != "" && Lacks(p, ' ') && Lacks(p, '\r') && Lacks(p, '\n')
    requires Parse(line).Ok? && line[0] != ':'
    requires Utf8Length(":" + p + " " + line) <= 510
    ensures Parse(":" + p + " " + line) == Ok(Parse(line).value.(prefix := Some(p)))
  {
    var value := ":" + p + " " + line;
    hide Utf8Length, ParseUnprefixed, Lacks;
    assert Lacks(":" + p, ' ') && !HasLineBreak(":" + p + " ") by { PrefixTextIsQuiet(p); }
    LineBreakOfConcat(":" + p + " ", line);
    SplitHead(":" + p, line, ' ');
    assert value[1..|p| + 1] == p && value[|p| + 2..] == line;
    PrefixIsCarried(line, Some(p));
  }

  lemma PrefixTextIsQuiet(p: string)
    requires Lacks(p, ' ') && Lacks(p, '\r') && Lacks(p, '\n')
    ensures Lacks(":" + p, ' ') && !HasLineBreak(":" + p + " ")
  {
    LineBreakOfConcat(":" + p, " ");
    LineBreakOfConcat(":", p);
    assert forall i :: 0 < i < |":" + p| ==> (":" + p)[i] == p[i - 1];
  }

  /** An accepted line has a prefix exactly when it starts with a colon, and what the prefix is. */
  lemma PrefixIsThere(value: string)
    requires Parse(value).Ok?
    ensures var prefix := Parse(value).value.prefix;
      && (prefix.Some? <==> value[0] == ':')
      && (prefix.Some? ==>
            && prefix.value != "" && Lacks(prefix.value, ' ')
            && |prefix.value| + 2 <= |value|
            && value[..|prefix.value| + 2] == ":" + prefix.value + " "
            && ParseUnprefixed(value[|prefix.value| + 2..], None) == Ok(Parse(value).value.(prefix := None)))
  {
    hide Utf8Length, ParseUnprefixed, HasLineBreak, IndexOf;
    PrefixIsCarried(value, None);
    if value[0] == ':' {
      var separator := IndexOf(value, ' ');
      var p := value[1..separator];
      assert value[..separator + 1] == ":" + p + " ";
      PrefixIsCarried(value[separator + 1..], Some(p));
      assert separator + 1 == |p| + 2;
      NoPrefixStays(value[separator + 1..]);
    } else {
      NoPrefixStays(value);
    }
  }

  lemma NoPrefixStays(remaining: string)
    requires ParseUnprefixed(remaining, None).Ok?
    ensures ParseUnprefixed(remaining, None).value.prefix == None
  {
  }

  // ---------- Commands and parameters, spelled out ----------

  /** Printed lines whose command is three digits or a word parse back to it. */
  lemma PrintedLineParses(command: string, params: seq<string>, trailing: Option<string>)
    requires (|command| == 3 && forall i :: 0 <= i < 3 ==> '0' <= command[i] <= '9')
      || (1 <= |command| <= 16 && 'A' <= command[0] <= 'Z'
          && forall i :: 0 < i < |command| ==> 'A' <= command[i] <= 'Z' || '0' <= command[i] <= '9')
    requires AllMiddle(params)
    requires trailing.Some? ==> Lacks(trailing.value, '\r') && Lacks(trailing.value, '\n')
    requires Utf8Length(Line(command, params, trailing)) <= 510
    ensures Parse(Line(command, params, trailing)) == Ok(Message(command, params, None, trailing))
  {
    var line, words := Line(command, params, trailing), [command] + Words(params, trailing);
    forall i | 0 <= i < |words|
      ensures !HasLineBreak(words[i])
    {
      if 0 < i <= |params| {
        assert IsMiddle(params[i - 1]);
      }
    }
    JoinedWordsHaveNoLineBreak(words);
    JoinHead(command, Words(params, trailing), " ");
    assert line[0] == command[0];
    ParsePrintedLine(command, params, trailing, None);
  }

  predicate IsLetter(c: char) {
    'A' <= c <= 'Z' || 'a' <= c <= 'z'
  }

  /** Text of ASCII codes from the exclamation mark to the tilde. */
  predicate IsVisible(s: string) {
    forall i :: 0 <= i < |s| ==> '!' <= s[i] <= '~'
  }

  lemma {:induction false} UpperOfAscii(s: string)
    requires IsAscii(s)
    ensures |Upper(s)| == |s|
    ensures forall i :: 0 <= i < |s| ==> Upper(s)[i] == if 'a' <= s[i] <= 'z' then s[i] - ' ' else s[i]
  {
    if s != "" {
      UpperOfAscii(s[1..]);
    }
  }

  /** Of ASCII commands, in either case, exactly a letter and up to fifteen letters or digits are sent. */
  lemma CommandsSent(command: string)
    requires IsAscii(command)
    ensures Encode(command, [], None).Ok? <==>
      && 1 <= |command| <= 16 && IsLetter(command[0])
      && forall i :: 0 <= i < |command| ==> IsLetter(command[i]) || '0' <= command[i] <= '9'
  {
    var upper := Upper(command);
    UpperOfAscii(command);
    assert forall i :: 0 <= i < |command| ==>
        (IsUpperLetter(upper[i]) <==> IsLetter(command[i])) && (IsDigit(upper[i]) <==> IsDigit(command[i]));
    if IsWordCommand(upper) {
      assert Line(upper, [], None) == upper;
      Utf8LengthAscii(upper + CRLF);
    }
  }

  lemma VisibleMiddles(parameter: string)
    requires IsVisible(parameter)
    ensures IsMiddle(parameter) <==> parameter != "" && ':' !in parameter
  {
  }

  /** A command with one parameter is refused for the parameter alone, or else sent if short enough. */
  lemma JoinSent(parameter: string)
    requires IsAscii(parameter) && |parameter| <= 500
    ensures Encode("JOIN", [parameter], None) ==
      if IsMiddle(parameter) then Ok("JOIN " + parameter + CRLF) else Err(ParameterInvalid)
  {
    hide IsMiddle, IsSpace, Utf8Length, Upper;
    UpperOfWord("JOIN");
    assert IsMiddle([parameter][0]) == IsMiddle(parameter);
    assert Words([parameter], None) == [parameter];
    JoinHead("JOIN", [parameter], " ");
    assert "JOIN" + " " + parameter == "JOIN " + parameter;
    Utf8LengthAscii("JOIN " + parameter + CRLF);
  }

  /** Of visible ASCII text exactly the non-empty one without a colon is sent as a parameter. */
  lemma ParametersSent(parameter: string)
    requires IsVisible(parameter) && |parameter| <= 500
    ensures Encode("JOIN", [parameter], None).Ok? <==> parameter != "" && ':' !in parameter
  {
    hide Encode, IsMiddle;
    VisibleMiddles(parameter);
    JoinSent(parameter);
  }

  /** The white space and line terminators of ECMAScript. */
  const WHITE_SPACE: string :=
    "\t\n\U{B}\U{C}\r \U{A0}\U{1680}"
    + "\U{2000}\U{2001}\U{2002}\U{2003}\U{2004}\U{2005}\U{2006}\U{2007}\U{2008}\U{2009}\U{200A}"
    + "\U{2028}\U{2029}\U{202F}\U{205F}\U{3000}\U{FEFF}"

  lemma WhiteSpaceListed(c: char)
    ensures IsSpace(c) <==> c in WHITE_SPACE
  {
    assert c in WHITE_SPACE <==> exists i :: 0 <= i < |WHITE_SPACE| && WHITE_SPACE[i] == c;
  }

  /** Letters outside ASCII whose upper case is ASCII, and what a command becomes by them. */
  lemma SpecialUpperCases()
    ensures Upper("\U{DF}") == "SS" && Upper("\U{131}") == "I" && Upper("\U{17F}") == "S"
    ensures Upper("\U{FB00}") == "FF" && Upper("\U{FB01}") == "FI" && Upper("\U{FB02}") == "FL"
    ensures Upper("\U{FB03}") == "FFI" && Upper("\U{FB04}") == "FFL"
    ensures Upper("\U{FB05}") == "ST" && Upper("\U{FB06}") == "ST"
  {
    UpperOfOne('\U{DF}');
    UpperOfOne('\U{131}');
    UpperOfOne('\U{17F}');
    UpperOfOne('\U{FB00}');
    UpperOfOne('\U{FB01}');
    UpperOfOne('\U{FB02}');
    UpperOfOne('\U{FB03}');
    UpperOfOne('\U{FB04}');
    UpperOfOne('\U{FB05}');
    UpperOfOne('\U{FB06}');
  }

  lemma UpperOfOne(c: char)
    ensures Upper([c]) == UpperChar(c)
  {
    assert [c][1..] == "";
    assert UpperChar(c) + "" == UpperChar(c);
  }

  /** White space of any kind, a line break, a colon or nothing at all is no parameter. */
  lemma ParametersRefused(parameter: string)
    requires parameter == "" || exists c :: c in parameter && (c == ':' || c in WHITE_SPACE)
    ensures Encode("JOIN", [parameter], None) == Err(ParameterInvalid)
  {
    hide IsSpace;
    UpperOfWord("JOIN");
    if c :| c in parameter && (c == ':' || c in WHITE_SPACE) {
      WhiteSpaceListed(c);
    }
    assert !IsMiddle([parameter][0]);
  }

  // ---------- Short lines, spelled out ----------

  /** Three digits, or a letter and up to fifteen letters or digits, in either case. */
  predicate NamesCommand(word: string) {
    || (|word| == 3 && forall i :: 0 <= i < 3 ==> '0' <= word[i] <= '9')
    || (1 <= |word| <= 16 && IsLetter(word[0])
        && forall i :: 0 <= i < |word| ==> IsLetter(word[i]) || '0' <= word[i] <= '9')
  }

  lemma VisibleIsQuiet(word: string)
    requires IsVisible(word)
    ensures IsAscii(word) && Lacks(word, ' ') && !HasLineBreak(word)
  {
  }

  lemma NamesCommandMeans(word: string)
    requires IsAscii(word)
    ensures NamesCommand(word) <==> IsWordCommand(Upper(word)) || IsNumericCommand(Upper(word))
  {
    UpperOfAscii(word);
    var upper := Upper(word);
    assert forall i :: 0 <= i < |word| ==>
        (IsUpperLetter(upper[i]) <==> IsLetter(word[i])) && (IsDigit(upper[i]) <==> IsDigit(word[i]));
  }

  /** A line of one visible word is that command without arguments, or a command error. */
  lemma OneWordLines(word: string)
    requires IsVisible(word) && 1 <= |word| <= 510 && word[0] != ':'
    ensures Parse(word) == if NamesCommand(word) then Ok(Message(Upper(word), [], None, None)) else Err(CommandInvalid)
  {
    VisibleIsQuiet(word);
    NamesCommandMeans(word);
    Utf8LengthAscii(word);
    SplitNone(word, ' ');
    hide IsSpace, IsVisible, Utf8Length, Upper, NamesCommand, IsWordCommand, IsNumericCommand;
    assert Split(word, ' ')[1..] == [];
    assert TrimStart("") == "";
  }

  function Spaces(n: nat): string {
    seq(n, _ => ' ')
  }

  lemma {:induction false} SpacesAreTrimmed(n: nat, rest: string)
    requires rest != "" && !IsSpace(rest[0])
    ensures TrimStart(Spaces(n) + rest) == rest
  {
    if n == 0 {
      assert Spaces(0) + rest == rest;
    } else {
      SpacesAreTrimmed(n - 1, rest);
      assert (Spaces(n) + rest)[1..] == Spaces(n - 1) + rest;
    }
  }

  lemma OneArgument(word: string)
    requires IsVisible(word) && word != ""
    ensures ParseArguments(word) ==
      if word[0] == ':' then Ok(Arguments([], Some(word[1..])))
      else if ':' in word then Err(ParameterInvalid)
      else Ok(Arguments([word], None))
  {
    hide IsSpace;
    VisibleIsQuiet(word);
    VisibleMiddles(word);
    assert FirstWord(word) == word && AfterWord(word) == "";
    assert [word] + [] == [word];
  }

  lemma CursorAfterJoin(n: nat, word: string)
    requires IsVisible(word) && word != ""
    ensures var parts := Split("JOIN " + Spaces(n) + word, ' ');
      parts[0] == "JOIN" && TrimStart(Join(parts[1..], " ")) == word
  {
    hide IsSpace, Split, Join, TrimStart;
    var rest := Spaces(n) + word;
    assert "JOIN " + Spaces(n) + word == "JOIN" + [' '] + rest;
    SplitHead("JOIN", rest, ' ');
    assert (["JOIN"] + Split(rest, ' '))[1..] == Split(rest, ' ');
    JoinSplit(rest, ' ');
    VisibleStarts(word);
    SpacesAreTrimmed(n, word);
  }

  lemma VisibleStarts(word: string)
    requires IsVisible(word) && word != ""
    ensures !IsSpace(word[0])
  {
  }

  /** One visible argument after any number of spaces: trailing text, a parameter, or a parameter error. */
  lemma OneArgumentLines(n: nat, word: string)
    requires IsVisible(word) && word != "" && n + |word| <= 500
    ensures Parse("JOIN " + Spaces(n) + word) ==
      if word[0] == ':' then Ok(Message("JOIN", [], None, Some(word[1..])))
      else if ':' in word then Err(ParameterInvalid)
      else Ok(Message("JOIN", [word], None, None))
  {
    LineIsQuiet(n, word);
    UpperOfWord("JOIN");
    CursorAfterJoin(n, word);
    OneArgument(word);
    hide IsSpace, IsVisible, Utf8Length, Upper, Split, Join, TrimStart, ParseArguments, HasLineBreak, Spaces;
  }

  lemma LineIsQuiet(n: nat, word: string)
    requires IsVisible(word) && n + |word| <= 500
    ensures var line := "JOIN " + Spaces(n) + word;
      !HasLineBreak(line) && Utf8Length(line) <= 510 && line[0] == 'J'
  {
    var line := "JOIN " + Spaces(n) + word;
    Utf8LengthAscii(line);
  }
}
