/** The Rust front end's lexer (src/frontend/lexer.rs). The reader is the
    sequence of characters the source yields, with EOF at and after its end
    (CharReader keeps answering EOF there); the lexer keeps one character
    of push-back (`next_char`) and remembers the last character it read
    (`previous_char`) so that it can be pushed back.

    As in the C++ lexer model, the specification is given on "virtual"
    positions: position v holds `data[v]` when v < |data| and EOF beyond,
    and reading from p0 to v moves the location as the characters on the
    way dictate (EOF does not move it). */
module LexerRs {
  import opened Wrappers

  /** 2^64: the range of u64. */
  const MOD64: nat := 0x1_0000_0000_0000_0000

  /** The largest width a number literal may carry. */
  const MAX_WIDTH: nat := 64

  type U64 = x: nat | x < MOD64

  /** ExtChar: a character, or the end of the input. */
  datatype ExtChar = Char(c: char) | EOF

  /** Location: the line and the column of the last character read. */
  datatype Location = Location(line: nat, column: nat)

  datatype TokenKind =
    | EndOfFile | Identifier | Number | String
    | Dot | Comma | Semicolon | Colon | Equals
    | AND | OR | XOR | NOT | Plus | Concatenate
    | LeftBrace | RightBrace | LeftBracket | RightBracket | LeftParenthesis | RightParenthesis
    | IncludeKeyword | BlockKeyword | SequentialKeyword | ClockKeyword | FallingEdgeKeyword
    | RisingEdgeKeyword | InKeyword | OutKeyword | WireKeyword

  /** TokenData; `NoData` is the source's TokenData::None. */
  datatype TokenData =
    | NoData
    | IdentifierData(text: string)
    | NumberData(value: nat, width: Option<nat>)
    | StringData(text: string)

  datatype Token = Token(kind: TokenKind, data: TokenData, location: Location)

  /** ErrorKind, less the read error of the underlying reader (reading a
      sequence cannot fail). Every location is the token's. */
  datatype ErrorKind =
    | UnexpectedCharacter(c: char, at: Location)
    | UnexpectedEndOfFile(at: Location)
    | NumberLiteralNoWidth(at: Location)
    | NumberLiteralWidthZero(at: Location)
    | NumberLiteralWidthTooBig(at: Location)
    | NumberLiteralValueTooBig(at: Location)
    | InvalidEscape(c: char, at: Location)

  /** What get_token returns. */
  datatype LexResult = Ok(token: Token) | Err(error: ErrorKind)

  /** The data a token of each kind carries: identifiers, numbers and
      strings their own kind of data, every other kind none. */
  predicate DataMatches(kind: TokenKind, data: TokenData)
  {
    match kind
    case Identifier => data.IdentifierData?
    case Number => data.NumberData?
    case String => data.StringData?
    case _ => data.NoData?
  }

  /** Token::new_with_data: the assert_matches! panics unless the data
      matches the kind, so only matching pairs make a token. */
  function NewWithData(kind: TokenKind, data: TokenData, location: Location): (t: Token)
    requires DataMatches(kind, data)
    ensures DataMatches(t.kind, t.data) && t.location == location
    ensures t.kind == kind && t.data == data
  {
    Token(kind, data, location)
  }

  /** Token::new: a token without data. */
  function Simple(kind: TokenKind, location: Location): Token
  {
    Token(kind, NoData, location)
  }

  /** Data fixes the kind it may go with: each of the three data-carrying
      kinds takes its own data and nothing else, every other kind none. */
  lemma {:induction false} DataMatchesExact(kind: TokenKind, data: TokenData)
    ensures DataMatches(kind, data) ==>
      && (data.IdentifierData? <==> kind == Identifier)
      && (data.NumberData? <==> kind == Number)
      && (data.StringData? <==> kind == String)
      && (data.NoData? <==> kind != Identifier && kind != Number && kind != String)
  {
  }

  function Min(a: nat, b: nat): nat
  {
    if a <= b then a else b
  }

  function Pow2(n: nat): (r: nat)
    ensures r > 0
  {
    if n == 0 then 1 else 2 * Pow2(n - 1)
  }

  // Character classes. char::is_whitespace is the Unicode White_Space
  // property; letters and digits are the ASCII ones here.

  predicate IsWhitespace(x: char)
  {
    var n := x as int;
    || 0x09 <= n <= 0x0D || n == 0x20 || n == 0x85 || n == 0xA0 || n == 0x1680
    || 0x2000 <= n <= 0x200A || n == 0x2028 || n == 0x2029 || n == 0x202F || n == 0x205F || n == 0x3000
  }

  predicate IsAlphabetic(x: char)
  {
    'A' <= x <= 'Z' || 'a' <= x <= 'z'
  }

  predicate IsNumeric(x: char)
  {
    '0' <= x <= '9'
  }

  predicate IsBlank(c: ExtChar)
  {
    c.Char? && IsWhitespace(c.c)
  }

  predicate IsDigit(c: ExtChar)
  {
    c.Char? && IsNumeric(c.c)
  }

  /** What a word may continue with: is_alphanumeric or '_'. */
  predicate IsWordChar(c: ExtChar)
  {
    c.Char? && (IsAlphabetic(c.c) || IsNumeric(c.c) || c.c == '_')
  }

  /** What the reader yields at virtual position v. */
  function CharAt(data: string, v: nat): ExtChar
  {
    if v < |data| then Char(data[v]) else EOF
  }

  /** How one get_char moves the location: a line break starts a new line
      at column 0, any other character moves one column on, EOF leaves it. */
  function Advance(loc: Location, c: ExtChar): Location
  {
    match c
    case EOF => loc
    case Char(x) => if x == '\n' then Location(loc.line + 1, 0) else loc.(column := loc.column + 1)
  }

  /** The location after reading virtual positions [first, last) from `loc`. */
  function Locate(loc: Location, data: string, first: nat, last: nat): Location
    decreases last
  {
    if last <= first then loc else Advance(Locate(loc, data, first, last - 1), CharAt(data, last - 1))
  }

  /** The first position at or after v that does not continue a digit run. */
  function DigitsEnd(data: string, v: nat): (r: nat)
    ensures v <= r && (v <= |data| ==> r <= |data|)
    ensures !IsDigit(CharAt(data, r))
    ensures forall q :: v <= q < r ==> IsDigit(CharAt(data, q))
    decreases |data| - v
  {
    if IsDigit(CharAt(data, v)) then DigitsEnd(data, v + 1) else v
  }

  /** The first position at or after v that does not continue a word. */
  function WordEnd(data: string, v: nat): (r: nat)
    ensures v <= r && (v <= |data| ==> r <= |data|)
    ensures !IsWordChar(CharAt(data, r))
    ensures forall q :: v <= q < r ==> IsWordChar(CharAt(data, q))
    decreases |data| - v
  {
    if IsWordChar(CharAt(data, v)) then WordEnd(data, v + 1) else v
  }

  /** The first line break at or after v, if the input has one. */
  function LineEnd(data: string, v: nat): (r: Option<nat>)
    ensures r.Some? ==> v <= r.value < |data| && data[r.value] == '\n'
    ensures r.Some? ==> forall q :: v <= q < r.value ==> data[q] != '\n'
    ensures r.None? ==> forall q :: v <= q < |data| ==> data[q] != '\n'
    decreases |data| - v
  {
    if v >= |data| then None else if data[v] == '\n' then Some(v) else LineEnd(data, v + 1)
  }

  // ---------------------------------------------------------------------
  // The specification of get_token

  /** How the skipping loop of get_token ends: with the character the token
      is dispatched on and the virtual position the reader then stands at,
      or never, when a "//" comment runs to the end of the input (the
      comment loop waits for a line break and keeps reading EOF). */
  datatype Skipped = Stop(c: ExtChar, next: nat) | Endless

  /** One pass of the skipping loop from v. A "//" comment is read through
      its line break. A '/' followed by anything else pushes that character
      back, but the pass goes on with it as its character: the '/' itself
      is lost, and the character will be read once more. */
  function SkipPass(data: string, v: nat): (r: Skipped)
    ensures r.Stop? ==> v < r.next && (r.c.Char? ==> r.next <= |data|)
  {
    if CharAt(data, v) == Char('/') then
      if CharAt(data, v + 1) == Char('/') then
        match LineEnd(data, v + 2)
        case Some(e) => Stop(Char('\n'), e + 1)
        case None => Endless
      else Stop(CharAt(data, v + 1), v + 1)
    else Stop(CharAt(data, v), v + 1)
  }

  /** The skipping loop: passes repeat while they end on whitespace. */
  function Skip(data: string, v: nat): (r: Skipped)
    ensures r.Stop? ==> v < r.next && !IsBlank(r.c) && (r.c.Char? ==> r.next <= |data|)
    decreases |data| - v
  {
    match SkipPass(data, v)
    case Endless => Endless
    case Stop(c, n) => if IsBlank(c) then Skip(data, n) else Stop(c, n)
  }

  /** What one get_token call does from virtual position p0: a token and
      the position the next call reads from, an error, a panic (u64
      overflow in parse_number or in `1 << width`), or no end at all. */
  datatype Outcome = Lexed(token: Token, next: nat) | Failed(error: ErrorKind) | Panics | Loops

  /** The result get_token returns for an outcome that has one. */
  function ResultOf(o: Outcome): LexResult
    requires o.Lexed? || o.Failed?
  {
    if o.Lexed? then Ok(o.token) else Err(o.error)
  }

  /** The token kind of a one-character token, if `x` is one. */
  function Punctuation(x: char): Option<TokenKind>
  {
    if x == '.' then Some(Dot)
    else if x == ',' then Some(Comma)
    else if x == ';' then Some(Semicolon)
    else if x == ':' then Some(Colon)
    else if x == '=' then Some(Equals)
    else if x == '&' then Some(AND)
    else if x == '|' then Some(OR)
    else if x == '^' then Some(XOR)
    else if x == '~' then Some(NOT)
    else if x == '+' then Some(Plus)
    else if x == '$' then Some(Concatenate)
    else if x == '{' then Some(LeftBrace)
    else if x == '}' then Some(RightBrace)
    else if x == '[' then Some(LeftBracket)
    else if x == ']' then Some(RightBracket)
    else if x == '(' then Some(LeftParenthesis)
    else if x == ')' then Some(RightParenthesis)
    else None
  }

  /** The keyword a word spells, or Identifier. */
  function Keyword(word: string): TokenKind
  {
    if word == "include" then IncludeKeyword
    else if word == "block" then BlockKeyword
    else if word == "sequential" then SequentialKeyword
    else if word == "clock" then ClockKeyword
    else if word == "falling_edge" then FallingEdgeKeyword
    else if word == "rising_edge" then RisingEdgeKeyword
    else if word == "in" then InKeyword
    else if word == "out" then OutKeyword
    else if word == "wire" then WireKeyword
    else Identifier
  }

  /** The value of a decimal digit. */
  function DigitValue(x: char): nat
  {
    if IsNumeric(x) then x as int - '0' as int else 0
  }

  /** The value parse_number accumulates over a run of digits:
      value * 10 + digit per digit, most significant first. */
  function DigitsValue(digits: string): nat
  {
    if digits == [] then 0 else DigitsValue(digits[..|digits| - 1]) * 10 + DigitValue(digits[|digits| - 1])
  }

  /** get_token from virtual position p0 with the lexer at loc0. The token
      is dispatched on the character the skipping loop ends with; the
      reader then stands at the position after it, which is also where the
      token's location is taken. */
  function Scan(data: string, p0: nat, loc0: Location): Outcome
  {
    match Skip(data, p0)
    case Endless => Loops
    case Stop(c, n) =>
      var at := Locate(loc0, data, p0, n);
      match c
      case EOF => Lexed(Simple(EndOfFile, at), n)
      case Char(x) =>
        match Punctuation(x)
        case Some(kind) => Lexed(Simple(kind, at), n)
        case None =>
          if IsAlphabetic(x) || x == '_' then ScanWord(data, x, n, at)
          else if IsNumeric(x) then ScanNumber(data, x, n, at)
          else if x == '"' then ScanStringToken(data, n, at)
          else Failed(UnexpectedCharacter(x, at))
  }

  /** A word whose first character x was read, with the rest read from n:
      a keyword, or an identifier carrying the word's text. At the end of
      the input the reader stays past it; otherwise the character that ends
      the word is pushed back. */
  function ScanWord(data: string, x: char, n: nat, at: Location): Outcome
  {
    var e := WordEnd(data, n);
    var word := [x] + (if n <= e <= |data| then data[n..e] else []);
    var kind := Keyword(word);
    if kind == Identifier then Lexed(Token(Identifier, IdentifierData(word), at), e)
    else Lexed(Simple(kind, at), e)
  }

  /** A number literal whose first digit x was read, with the rest read
      from n: the digits, then optionally '#' and a width. */
  function ScanNumber(data: string, x: char, n: nat, at: Location): Outcome
  {
    var e := DigitsEnd(data, n);
    var value := DigitsValue([x] + (if n <= e <= |data| then data[n..e] else []));
    if value >= MOD64 then Panics
    else if CharAt(data, e) == Char('#') then ScanWidth(data, value, e, at)
    else Lexed(Token(Number, NumberData(value, None), at), e)
  }

  /** The width of a number literal of the given value whose '#' is at h:
      no digit after '#', width 0 and widths above 64 are errors, and so is
      a value that does not fit the width. Width 64 panics, since
      `1 << 64` overflows u64. */
  function ScanWidth(data: string, value: nat, h: nat, at: Location): Outcome
  {
    if !IsDigit(CharAt(data, h + 1)) then Failed(NumberLiteralNoWidth(at))
    else
      var e := DigitsEnd(data, h + 2);
      var width := DigitsValue(if h + 1 <= e <= |data| then data[h + 1..e] else []);
      if width >= MOD64 then Panics
      else if width == 0 then Failed(NumberLiteralWidthZero(at))
      else if width > MAX_WIDTH then Failed(NumberLiteralWidthTooBig(at))
      else if width == MAX_WIDTH then Panics
      else if value > Pow2(width) - 1 then Failed(NumberLiteralValueTooBig(at))
      else Lexed(Token(Number, NumberData(value, Some(width)), at), e)
  }

  /** The character an escape stands for, if it is one of the seven. */
  function Escaped(x: char): Option<char>
  {
    if x == '"' || x == '\'' || x == '\\' then Some(x)
    else if x == 'n' then Some('\n')
    else if x == 'r' then Some('\r')
    else if x == 't' then Some('\t')
    else if x == '0' then Some('\0')
    else None
  }

  /** How the string loop ends: with the text and the position after the
      closing quote, at an invalid escape, or at the end of the input. */
  datatype StringScan = Closed(text: string, next: nat) | BadEscape(c: char) | Unterminated

  /** Puts `prefix` in front of the text of a closed string. */
  function Prepend(prefix: string, r: StringScan): StringScan
  {
    if r.Closed? then Closed(prefix + r.text, r.next) else r
  }

  /** The string loop reading from v, after a backslash when `escape`. */
  function ScanString(data: string, v: nat, escape: bool): (r: StringScan)
    ensures r.Closed? ==> v < r.next <= |data|
    decreases |data| - v
  {
    if v >= |data| then Unterminated
    else
      var x := data[v];
      if escape then
        match Escaped(x)
        case None => BadEscape(x)
        case Some(y) => Prepend([y], ScanString(data, v + 1, false))
      else if x == '"' then Closed("", v + 1)
      else if x == '\\' then ScanString(data, v + 1, true)
      else Prepend([x], ScanString(data, v + 1, false))
  }

  /** A string literal whose opening quote was read, from n. */
  function ScanStringToken(data: string, n: nat, at: Location): Outcome
  {
    match ScanString(data, n, false)
    case Closed(text, e) => Lexed(Token(String, StringData(text), at), e)
    case BadEscape(y) => Failed(InvalidEscape(y, at))
    case Unterminated => Failed(UnexpectedEndOfFile(at))
  }

  // ---------------------------------------------------------------------
  // Facts the lexer's loops need

  /** A longer run of digits never has a smaller value. */
  lemma {:induction false} PrefixValueBelow(digits: string, k: nat)
    requires k <= |digits|
    ensures DigitsValue(digits[..k]) <= DigitsValue(digits)
    decreases |digits|
  {
    if k < |digits| {
      var init := digits[..|digits| - 1];
      PrefixValueBelow(init, k);
      assert init[..k] == digits[..k];
    } else {
      assert digits[..k] == digits;
    }
  }

  /** One more digit: the value is multiplied by ten and the digit added. */
  lemma AppendDigit(digits: string, x: char)
    ensures DigitsValue(digits + [x]) == DigitsValue(digits) * 10 + DigitValue(x)
  {
    assert (digits + [x])[..|digits|] == digits;
  }

  /** Reading one more digit of a run that starts with `first` and goes on
      at v: the value grows by that digit, and stays within the value of
      the whole run. */
  lemma DigitStep(data: string, first: char, v: nat, q: nat)
    requires v <= q < DigitsEnd(data, v) <= |data|
    ensures var e := DigitsEnd(data, v);
      && DigitsValue([first] + data[v..q + 1]) == DigitsValue([first] + data[v..q]) * 10 + DigitValue(data[q])
      && DigitsValue([first] + data[v..q + 1]) <= DigitsValue([first] + data[v..e])
  {
    var e := DigitsEnd(data, v);
    assert [first] + data[v..q + 1] == ([first] + data[v..q]) + [data[q]];
    AppendDigit([first] + data[v..q], data[q]);
    assert ([first] + data[v..e])[..q + 1 - v + 1] == [first] + data[v..q + 1];
    PrefixValueBelow([first] + data[v..e], q + 1 - v + 1);
  }

  /** Powers of two add their exponents. */
  lemma {:induction false} Pow2Add(m: nat, n: nat)
    ensures Pow2(m + n) == Pow2(m) * Pow2(n)
    decreases m
  {
    if m > 0 {
      Pow2Add(m - 1, n);
    }
  }

  lemma Pow2SixtyFour()
    ensures Pow2(64) == MOD64
  {
    assert Pow2(1) == 2;
    Pow2Add(1, 1);
    assert Pow2(2) == 4;
    Pow2Add(2, 2);
    assert Pow2(4) == 16;
    Pow2Add(4, 4);
    assert Pow2(8) == 256;
    Pow2Add(8, 8);
    assert Pow2(16) == 65536;
    Pow2Add(16, 16);
    assert Pow2(32) == 4294967296;
    Pow2Add(32, 32);
  }

  /** A positive factor of a product with another factor of at least 2 is
      smaller than the product. */
  lemma FactorBelow(a: nat, b: nat)
    requires a > 0 && b >= 2
    ensures a < a * b
  {
    assert a * b == a + a * (b - 1);
  }

  /** 2^n fits in u64 for every n below 64. */
  lemma Pow2Below(n: nat)
    requires n < MAX_WIDTH
    ensures Pow2(n) < MOD64
  {
    Pow2SixtyFour();
    Pow2Add(n, 64 - n);
    Pow2Add(1, 64 - n - 1);
    FactorBelow(Pow2(n), Pow2(64 - n));
  }

  /** Prepending to a prefix and then more is prepending all of it. */
  lemma PrependTwice(s: string, t: string, r: StringScan)
    ensures Prepend(s, Prepend(t, r)) == Prepend(s + t, r)
  {
    if r.Closed? {
      assert s + (t + r.text) == s + t + r.text;
    }
  }

  // ---------------------------------------------------------------------
  // The lexer

  class Lexer {
    /** The source's characters. */
    const data: string
    /** How many characters the reader has handed out. */
    var pos: nat
    var location: Location
    /** A pushed-back character, returned by the next get_char. */
    var nextChar: Option<ExtChar>
    /** The character the last get_char returned, until pushed back. */
    var previousChar: Option<ExtChar>
    var previousLocation: Location

    /** The pushed-back or remembered character is the one the reader
        handed out last; the two are never both present. */
    ghost predicate Valid()
      reads this
    {
      && pos <= |data|
      && (nextChar.Some? ==> previousChar.None?)
      && (nextChar == Some(EOF) || previousChar == Some(EOF) ==> pos == |data|)
      && (nextChar.Some? && nextChar.value.Char? ==> 0 < pos && data[pos - 1] == nextChar.value.c)
      && (previousChar.Some? && previousChar.value.Char? ==> 0 < pos && data[pos - 1] == previousChar.value.c)
    }

    /** The virtual position of the character the next get_char returns. */
    ghost function Position(): nat
      reads this
    {
      if nextChar.Some? && nextChar.value.Char? && pos > 0 then pos - 1 else pos
    }

    /** The reader stands at virtual position v of a read that started at
        p0 with the lexer at loc0. */
    ghost predicate At(p0: nat, loc0: Location, v: nat)
      reads this
    {
      && location == Locate(loc0, data, p0, v)
      && (nextChar.None? ==> pos == Min(v, |data|))
      && (nextChar.Some? ==> nextChar.value == CharAt(data, v) && pos == Min(v + 1, |data|))
    }

    /** The last get_char read virtual position v - 1, and it has not been
        pushed back. */
    ghost predicate JustRead(p0: nat, loc0: Location, v: nat)
      reads this
    {
      && 0 < v
      && nextChar.None?
      && previousChar == Some(CharAt(data, v - 1))
      && previousLocation == Locate(loc0, data, p0, v - 1)
    }

    /** Lexer::new: line 1, column 0, nothing read yet. */
    constructor (data: string)
      ensures Valid() && this.data == data && pos == 0
      ensures location == Location(1, 0) && previousLocation == Location(1, 0)
      ensures nextChar == None && previousChar == None
    {
      this.data := data;
      pos := 0;
      location := Location(1, 0);
      nextChar := None;
      previousChar := None;
      previousLocation := Location(1, 0);
    }

    /** get_char: the pushed-back character if there is one, else the
        reader's next; remembers it and the location before it, and moves
        the location past it. */
    method GetChar() returns (c: ExtChar)
      requires Valid()
      modifies this`pos, this`location, this`nextChar, this`previousChar, this`previousLocation
      ensures Valid()
      ensures c == (if old(nextChar).Some? then old(nextChar).value else CharAt(data, old(pos)))
      ensures pos == (if old(nextChar).Some? || old(pos) == |data| then old(pos) else old(pos) + 1)
      ensures nextChar == None && previousChar == Some(c) && previousLocation == old(location)
      ensures location == Advance(old(location), c)
    {
      if nextChar.Some? {
        c := nextChar.value;
        nextChar := None;
      } else if pos < |data| {
        c := Char(data[pos]);
        pos := pos + 1;
      } else {
        c := EOF;
      }
      previousLocation := location;
      previousChar := Some(c);
      match c {
        case Char(x) =>
          if x == '\n' {
            location := Location(location.line + 1, 0);
          } else {
            location := location.(column := location.column + 1);
          }
        case EOF =>
      }
    }

    /** unget_char: pushes the last character back and restores the
        location before it. It panics when a character is already pushed
        back or none was read since, which callers must not do. */
    method UngetChar()
      requires Valid()
      requires nextChar.None? && previousChar.Some?
      modifies this`nextChar, this`previousChar, this`location
      ensures Valid()
      ensures nextChar == old(previousChar) && previousChar == None && location == old(previousLocation)
    {
      previousChar, nextChar := None, previousChar;
      location := previousLocation;
    }

    /** get_char at virtual position v reads CharAt(data, v) and moves to v + 1. */
    method GetCharAt(ghost p0: nat, ghost loc0: Location, ghost v: nat) returns (c: ExtChar)
      requires Valid() && p0 <= v && At(p0, loc0, v)
      modifies this`pos, this`location, this`nextChar, this`previousChar, this`previousLocation
      ensures Valid() && c == CharAt(data, v) && At(p0, loc0, v + 1) && JustRead(p0, loc0, v + 1)
    {
      c := GetChar();
    }

    /** unget_char right after reading virtual position v - 1 goes back to it. */
    method UngetCharAt(ghost p0: nat, ghost loc0: Location, ghost v: nat)
      requires Valid() && p0 < v && At(p0, loc0, v) && JustRead(p0, loc0, v)
      modifies this`nextChar, this`previousChar, this`location
      ensures Valid() && At(p0, loc0, v - 1)
    {
      UngetChar();
    }

    /** At the end of the input, one more EOF read changes nothing. */
    lemma AtPastEnd(p0: nat, loc0: Location, v: nat)
      requires p0 <= v && |data| <= v && nextChar.None? && At(p0, loc0, v + 1)
      ensures At(p0, loc0, v)
    {
    }

    /** The comment loop, from the comment's text at v: reads through the
        line break that ends it. */
    method ReadComment(ghost p0: nat, ghost loc0: Location, ghost v: nat) returns (c: ExtChar)
      requires Valid() && p0 <= v && At(p0, loc0, v) && LineEnd(data, v).Some?
      modifies this`pos, this`location, this`nextChar, this`previousChar, this`previousLocation
      ensures Valid() && c == Char('\n') && At(p0, loc0, LineEnd(data, v).value + 1)
    {
      ghost var e := LineEnd(data, v).value;
      ghost var q := v;
      c := GetCharAt(p0, loc0, q);
      while c != Char('\n')
        invariant v <= q <= e
        invariant Valid() && c == CharAt(data, q) && At(p0, loc0, q + 1)
        decreases e - q
      {
        q := q + 1;
        c := GetCharAt(p0, loc0, q);
      }
    }

    /** One pass of the skipping loop of get_token, from v. */
    method SkipOnce(ghost p0: nat, ghost loc0: Location, ghost v: nat) returns (c: ExtChar)
      requires Valid() && p0 <= v && At(p0, loc0, v) && SkipPass(data, v).Stop?
      modifies this`pos, this`location, this`nextChar, this`previousChar, this`previousLocation
      ensures Valid() && c == SkipPass(data, v).c && At(p0, loc0, SkipPass(data, v).next)
    {
      c := GetCharAt(p0, loc0, v);
      if c == Char('/') {
        c := GetCharAt(p0, loc0, v + 1);
        if c == Char('/') {
          c := ReadComment(p0, loc0, v + 2);
        } else {
          UngetCharAt(p0, loc0, v + 2);
        }
      }
    }

    /** The skipping loop of get_token: whitespace and "//" comments are
        read past. */
    method SkipBlank(ghost p0: nat, ghost loc0: Location) returns (c: ExtChar)
      requires Valid() && At(p0, loc0, p0) && Skip(data, p0).Stop?
      modifies this`pos, this`location, this`nextChar, this`previousChar, this`previousLocation
      ensures Valid() && c == Skip(data, p0).c && At(p0, loc0, Skip(data, p0).next)
    {
      ghost var v := p0;
      c := SkipOnce(p0, loc0, v);
      v := SkipPass(data, v).next;
      while IsBlank(c)
        invariant Valid() && p0 < v && At(p0, loc0, v)
        invariant IsBlank(c) ==> v <= |data|
        invariant Skip(data, p0) == if IsBlank(c) then Skip(data, v) else Stop(c, v)
        decreases |data| - v
      {
        c := SkipOnce(p0, loc0, v);
        v := SkipPass(data, v).next;
      }
    }

    /** parse_number: nothing when `first` is not a digit; otherwise reads
        on while digits come, accumulating value * 10 + digit in u64 (the
        run's value must fit: the source panics on overflow), and leaves
        the character after the run in c. */
    method ParseNumber(first: ExtChar, ghost p0: nat, ghost loc0: Location, ghost v: nat)
      returns (value: Option<U64>, c: ExtChar)
      requires Valid() && p0 <= v && At(p0, loc0, v)
      requires IsDigit(first) ==>
        v <= |data| && DigitsValue([first.c] + data[v..DigitsEnd(data, v)]) < MOD64
      modifies this`pos, this`location, this`nextChar, this`previousChar, this`previousLocation
      ensures Valid()
      ensures !IsDigit(first) ==> value == None && c == first && At(p0, loc0, v)
      ensures IsDigit(first) ==>
        var e := DigitsEnd(data, v);
        && value == Some(DigitsValue([first.c] + data[v..e]))
        && c == CharAt(data, e) && At(p0, loc0, e + 1) && JustRead(p0, loc0, e + 1)
    {
      if !IsDigit(first) {
        return None, first;
      }
      var acc;
      acc, c := ReadDigits(first.c, p0, loc0, v);
      value := Some(acc);
    }

    /** The accumulation loop of parse_number: x is the first digit and
        the rest are read from v; no step overflows, as the caller's
        bound on the whole run shows. */
    method ReadDigits(x: char, ghost p0: nat, ghost loc0: Location, ghost v: nat) returns (acc: U64, c: ExtChar)
      requires Valid() && p0 <= v <= |data| && At(p0, loc0, v) && IsNumeric(x)
      requires DigitsValue([x] + data[v..DigitsEnd(data, v)]) < MOD64
      modifies this`pos, this`location, this`nextChar, this`previousChar, this`previousLocation
      ensures var e := DigitsEnd(data, v);
        && Valid() && acc == DigitsValue([x] + data[v..e])
        && c == CharAt(data, e) && At(p0, loc0, e + 1) && JustRead(p0, loc0, e + 1)
    {
      ghost var e := DigitsEnd(data, v);
      assert [x] + data[v..v] == [x];
      assert DigitsValue([x]) == DigitValue(x) by {
        assert [x][..0] == [];
      }
      acc := DigitValue(x);
      c := GetCharAt(p0, loc0, v);
      ghost var q := v;
      while IsDigit(c)
        invariant v <= q <= e
        invariant acc == DigitsValue([x] + data[v..q]) && c == CharAt(data, q)
        invariant Valid() && At(p0, loc0, q + 1) && JustRead(p0, loc0, q + 1)
        decreases e - q
      {
        DigitStep(data, x, v, q);
        ghost var next := DigitsValue([x] + data[v..q + 1]);
        assert acc * 10 + DigitValue(c.c) == next < MOD64;
        acc := acc * 10 + DigitValue(c.c);
        c := GetCharAt(p0, loc0, q + 1);
        q := q + 1;
      }
    }

    /** The loop of the word branch: collects the word's characters and
        reads the one after it. */
    method ReadWordChars(ghost p0: nat, ghost loc0: Location, ghost n: nat, x: char) returns (s: string, c: ExtChar)
      requires Valid() && p0 < n <= |data| && At(p0, loc0, n)
      modifies this`pos, this`location, this`nextChar, this`previousChar, this`previousLocation
      ensures var e := WordEnd(data, n);
        && Valid() && s == [x] + data[n..e] && c == CharAt(data, e)
        && At(p0, loc0, e + 1) && JustRead(p0, loc0, e + 1)
    {
      ghost var e := WordEnd(data, n);
      s := [x];
      c := GetCharAt(p0, loc0, n);
      ghost var q := n;
      while IsWordChar(c)
        invariant n <= q <= e
        invariant s == [x] + data[n..q] && c == CharAt(data, q)
        invariant Valid() && At(p0, loc0, q + 1) && JustRead(p0, loc0, q + 1)
        decreases e - q
      {
        assert [x] + data[n..q + 1] == [x] + data[n..q] + [data[q]];
        s := s + [c.c];
        c := GetCharAt(p0, loc0, q + 1);
        q := q + 1;
      }
    }

    /** The word branch of get_token: x was read and the reader stands at n. */
    method ReadWord(ghost p0: nat, ghost loc0: Location, ghost n: nat, x: char, at: Location) returns (r: LexResult)
      requires Valid() && p0 < n <= |data| && At(p0, loc0, n)
      modifies this`pos, this`location, this`nextChar, this`previousChar, this`previousLocation
      ensures Valid()
      ensures var o := ScanWord(data, x, n, at); r == ResultOf(o) && At(p0, loc0, o.next)
    {
      var s, c := ReadWordChars(p0, loc0, n, x);
      ghost var q := WordEnd(data, n);
      if c.Char? {
        UngetCharAt(p0, loc0, q + 1);
      } else {
        AtPastEnd(p0, loc0, q);
      }
      var kind := Keyword(s);
      if kind == Identifier {
        r := Ok(NewWithData(Identifier, IdentifierData(s), at));
      } else {
        r := Ok(Simple(kind, at));
      }
    }

    /** The number branch of get_token: the digit x was read and the
        reader stands at n. */
    method ReadNumber(ghost p0: nat, ghost loc0: Location, ghost n: nat, x: char, at: Location) returns (r: LexResult)
      requires Valid() && p0 < n <= |data| && At(p0, loc0, n) && IsNumeric(x)
      requires var o := ScanNumber(data, x, n, at); o.Lexed? || o.Failed?
      modifies this`pos, this`location, this`nextChar, this`previousChar, this`previousLocation
      ensures Valid()
      ensures var o := ScanNumber(data, x, n, at); r == ResultOf(o) && (o.Lexed? ==> At(p0, loc0, o.next))
    {
      var value, c := ParseNumber(Char(x), p0, loc0, n);
      ghost var e := DigitsEnd(data, n);
      if c == Char('#') {
        r := ReadWidth(p0, loc0, value.value, e, at);
      } else {
        UngetCharAt(p0, loc0, e + 1);
        r := Ok(NewWithData(Number, NumberData(value.value, None), at));
      }
    }

    /** The width part of the number branch, from the '#' at h. */
    method ReadWidth(ghost p0: nat, ghost loc0: Location, value: U64, ghost h: nat, at: Location) returns (r: LexResult)
      requires Valid() && p0 <= h < |data| && data[h] == '#' && At(p0, loc0, h + 1) && JustRead(p0, loc0, h + 1)
      requires var o := ScanWidth(data, value, h, at); o.Lexed? || o.Failed?
      modifies this`pos, this`location, this`nextChar, this`previousChar, this`previousLocation
      ensures Valid()
      ensures var o := ScanWidth(data, value, h, at); r == ResultOf(o) && (o.Lexed? ==> At(p0, loc0, o.next))
    {
      var c := GetCharAt(p0, loc0, h + 1);
      ghost var e := DigitsEnd(data, h + 2);
      if IsDigit(c) {
        assert [c.c] + data[h + 2..e] == data[h + 1..e];
      }
      var width;
      width, c := ParseNumber(c, p0, loc0, h + 2);
      if width.None? {
        return Err(NumberLiteralNoWidth(at));
      }
      if width.value == 0 {
        return Err(NumberLiteralWidthZero(at));
      }
      if width.value > MAX_WIDTH {
        return Err(NumberLiteralWidthTooBig(at));
      }
      Pow2Below(width.value);
      var shifted: U64 := Pow2(width.value);
      if value > shifted - 1 {
        return Err(NumberLiteralValueTooBig(at));
      }
      UngetCharAt(p0, loc0, DigitsEnd(data, h + 2) + 1);
      r := Ok(NewWithData(Number, NumberData(value, width), at));
    }

    /** The string branch of get_token: the opening quote was read and the
        reader stands at n. */
    method ReadString(ghost p0: nat, ghost loc0: Location, ghost n: nat, at: Location) returns (r: LexResult)
      requires Valid() && p0 < n <= |data| && At(p0, loc0, n)
      modifies this`pos, this`location, this`nextChar, this`previousChar, this`previousLocation
      ensures Valid()
      ensures var o := ScanStringToken(data, n, at); r == ResultOf(o) && (o.Lexed? ==> At(p0, loc0, o.next))
    {
      var s := "";
      var escape := false;
      ghost var q := n;
      while true
        invariant n <= q <= |data|
        invariant Valid() && At(p0, loc0, q)
        invariant ScanString(data, n, false) == Prepend(s, ScanString(data, q, escape))
        decreases |data| - q
      {
        var c := GetCharAt(p0, loc0, q);
        match c {
          case EOF =>
            return Err(UnexpectedEndOfFile(at));
          case Char(x) =>
            if escape {
              var y := Escaped(x);
              if y.None? {
                return Err(InvalidEscape(x, at));
              }
              PrependTwice(s, [y.value], ScanString(data, q + 1, false));
              s := s + [y.value];
              escape := false;
            } else if x == '"' {
              assert s + "" == s;
              return Ok(NewWithData(String, StringData(s), at));
            } else if x == '\\' {
              escape := true;
            } else {
              PrependTwice(s, [x], ScanString(data, q + 1, false));
              s := s + [x];
            }
        }
        q := q + 1;
      }
    }

    /** Lexer::get_token. The result and the reader's new position and
        location are those Scan gives; inputs on which the source panics
        or never returns are excluded. After an error the state is not
        described. */
    method GetToken() returns (r: LexResult)
      requires Valid()
      requires var o := Scan(data, Position(), location); o.Lexed? || o.Failed?
      modifies this`pos, this`location, this`nextChar, this`previousChar, this`previousLocation
      ensures Valid()
      ensures var o := Scan(data, old(Position()), old(location));
        && r == ResultOf(o)
        && (o.Lexed? ==> Position() == Min(o.next, |data|)
                         && location == Locate(old(location), data, old(Position()), o.next))
    {
      ghost var p0 := Position();
      ghost var loc0 := location;
      var c := SkipBlank(p0, loc0);
      ghost var n := Skip(data, p0).next;
      var tokenLocation := location;
      match c {
        case EOF =>
          r := Ok(Simple(EndOfFile, tokenLocation));
        case Char(x) =>
          var kind := Punctuation(x);
          if kind.Some? {
            r := Ok(Simple(kind.value, tokenLocation));
          } else if IsAlphabetic(x) || x == '_' {
            r := ReadWord(p0, loc0, n, x, tokenLocation);
          } else if IsNumeric(x) {
            r := ReadNumber(p0, loc0, n, x, tokenLocation);
          } else if x == '"' {
            r := ReadString(p0, loc0, n, tokenLocation);
          } else {
            r := Err(UnexpectedCharacter(x, tokenLocation));
          }
      }
    }
  }

  // ---------------------------------------------------------------------
  // Properties of the specification

  /** Leading zeros do not change the value of a run of digits. */
  lemma {:induction false} LeadingZeroIgnored(digits: string)
    ensures DigitsValue("0" + digits) == DigitsValue(digits)
    decreases |digits|
  {
    if digits != [] {
      var init := digits[..|digits| - 1];
      assert ("0" + digits)[..|"0" + digits| - 1] == "0" + init;
      LeadingZeroIgnored(init);
    } else {
      assert "0"[..0] == [];
    }
  }

  /** Decimal printing gives digits only, and their value is the number
      printed: a digit run is read as its decimal value. */
  lemma {:induction false} DecimalDigits(n: nat)
    ensures |Decimal(n)| > 0
    ensures forall i :: 0 <= i < |Decimal(n)| ==> IsNumeric(Decimal(n)[i])
    ensures DigitsValue(Decimal(n)) == n
    decreases n
  {
    var d := '0' + (n % 10) as char;
    assert DigitValue(d) == n % 10;
    if n >= 10 {
      DecimalDigits(n / 10);
      AppendDigit(Decimal(n / 10), d);
    } else {
      assert [d][..0] == [];
    }
  }

  /** A digit run from v up to k, followed by something else, ends at k. */
  lemma {:induction false} DigitsEndAt(data: string, v: nat, k: nat)
    requires v <= k <= |data|
    requires forall q :: v <= q < k ==> IsNumeric(data[q])
    requires !IsDigit(CharAt(data, k))
    ensures DigitsEnd(data, v) == k
    decreases k - v
  {
    if v < k {
      DigitsEndAt(data, v + 1, k);
    }
  }

  /** A word from v up to k, followed by something else, ends at k. */
  lemma {:induction false} WordEndAt(data: string, v: nat, k: nat)
    requires v <= k <= |data|
    requires forall q :: v <= q < k ==> IsWordChar(Char(data[q]))
    requires !IsWordChar(CharAt(data, k))
    ensures WordEnd(data, v) == k
    decreases k - v
  {
    if v < k {
      WordEndAt(data, v + 1, k);
    }
  }

  /** A token whose first character is neither blank nor '/' starts right
      at p0: its location is the one after that character. */
  lemma StartsAt(data: string, p0: nat, loc0: Location)
    requires p0 < |data| && !IsWhitespace(data[p0]) && data[p0] != '/'
    ensures Skip(data, p0) == Stop(Char(data[p0]), p0 + 1)
    ensures Locate(loc0, data, p0, p0 + 1) == Advance(loc0, Char(data[p0]))
  {
  }

  /** A token that starts with a digit is a number literal. */
  lemma DispatchNumber(data: string, loc0: Location)
    requires 0 < |data| && IsNumeric(data[0])
    ensures Scan(data, 0, loc0) == ScanNumber(data, data[0], 1, Advance(loc0, Char(data[0])))
  {
    StartsAt(data, 0, loc0);
  }

  /** The digits of a literal printed as its value up to e. */
  lemma ValueOf(data: string, value: nat, e: nat)
    requires 0 < e <= |data| && data[..e] == Decimal(value)
    requires !IsDigit(CharAt(data, e))
    ensures IsNumeric(data[0]) && DigitsEnd(data, 1) == e
    ensures DigitsValue([data[0]] + data[1..e]) == value
  {
    DecimalDigits(value);
    assert forall q :: 0 <= q < e ==> data[q] == Decimal(value)[q];
    DigitsEndAt(data, 1, e);
    assert [data[0]] + data[1..e] == data[..e];
  }

  /** A literal printed as its value alone, followed by anything but a
      digit or '#', lexes back to that value with no width. */
  lemma NumberRoundTrip(value: nat, rest: string, loc0: Location)
    requires value < MOD64
    requires rest == [] || (!IsNumeric(rest[0]) && rest[0] != '#')
    ensures var data := Decimal(value) + rest;
      Scan(data, 0, loc0)
      == Lexed(Token(Number, NumberData(value, None), Advance(loc0, Char(data[0]))), |Decimal(value)|)
  {
    var text := Decimal(value);
    var data := text + rest;
    DecimalDigits(value);
    StartsAt(data, 0, loc0);
    DigitsEndAt(data, 1, |text|);
    assert [data[0]] + data[1..|text|] == text;
  }

  /** The width part of a literal: '#' at h, then the width printed in
      decimal up to k. */
  lemma WidthOf(data: string, value: nat, width: nat, h: nat, k: nat, at: Location)
    requires h + 1 < k <= |data| && data[h + 1..k] == Decimal(width)
    requires !IsDigit(CharAt(data, k))
    requires 0 < width < MAX_WIDTH && value < Pow2(width)
    ensures ScanWidth(data, value, h, at) == Lexed(Token(Number, NumberData(value, Some(width)), at), k)
  {
    WidthDigits(data, width, h, k);
  }

  /** The digits after a '#' at h, printed as width up to k, are read as width. */
  lemma WidthDigits(data: string, width: nat, h: nat, k: nat)
    requires h + 1 < k <= |data| && data[h + 1..k] == Decimal(width)
    requires !IsDigit(CharAt(data, k))
    ensures IsDigit(CharAt(data, h + 1)) && DigitsEnd(data, h + 2) == k
    ensures DigitsValue(data[h + 1..k]) == width
  {
    DecimalDigits(width);
    assert forall q :: h + 1 <= q < k ==> data[q] == Decimal(width)[q - h - 1];
    DigitsEndAt(data, h + 2, k);
  }

  /** A literal printed as value#width, followed by anything but a digit,
      lexes back to that value and width when the value fits the width. */
  lemma WidthRoundTrip(value: nat, width: nat, rest: string, loc0: Location)
    requires 0 < width < MAX_WIDTH && value < Pow2(width)
    requires rest == [] || !IsNumeric(rest[0])
    ensures var text := Decimal(value) + "#" + Decimal(width);
      var data := text + rest;
      Scan(data, 0, loc0)
      == Lexed(Token(Number, NumberData(value, Some(width)), Advance(loc0, Char(data[0]))), |text|)
  {
    var v, w := Decimal(value), Decimal(width);
    var text := v + "#" + w;
    var data := text + rest;
    var at := Advance(loc0, Char(data[0]));
    DecimalDigits(value);
    Pow2Below(width);
    assert data[..|v|] == v && data[|v|] == '#';
    ValueOf(data, value, |v|);
    DispatchNumber(data, loc0);
    assert data[|v| + 1..|text|] == w;
    WidthOf(data, value, width, |v|, |text|, at);
    assert ScanNumber(data, data[0], 1, at) == ScanWidth(data, value, |v|, at);
  }

  /** A word followed by anything that cannot continue it lexes back to
      its keyword, or to an identifier carrying exactly its text. */
  lemma WordRoundTrip(word: string, rest: string, loc0: Location)
    requires |word| > 0 && (IsAlphabetic(word[0]) || word[0] == '_')
    requires forall i :: 0 <= i < |word| ==> IsWordChar(Char(word[i]))
    requires rest == [] || !IsWordChar(Char(rest[0]))
    ensures var data := word + rest;
      var at := Advance(loc0, Char(word[0]));
      Scan(data, 0, loc0)
      == Lexed(if Keyword(word) == Identifier then Token(Identifier, IdentifierData(word), at)
               else Simple(Keyword(word), at), |word|)
  {
    var data := word + rest;
    StartsAt(data, 0, loc0);
    WordEndAt(data, 1, |word|);
    assert [data[0]] + data[1..|word|] == word;
  }

  /** The keywords are exactly the nine words of the language. */
  lemma KeywordExact(word: string)
    ensures Keyword(word) != Identifier <==>
      word in ["include", "block", "sequential", "clock", "falling_edge", "rising_edge", "in", "out", "wire"]
    ensures Keyword(word) != Identifier ==> !DataMatches(Keyword(word), IdentifierData(word))
  {
  }

  /** The seven escapes and what they stand for; nothing else is one. */
  lemma EscapedExact(x: char)
    ensures Escaped(x).Some? <==> x in ['"', '\'', '\\', 'n', 'r', 't', '0']
    ensures x == '"' || x == '\'' || x == '\\' ==> Escaped(x) == Some(x)
    ensures Escaped('n') == Some('\n') && Escaped('r') == Some('\r')
    ensures Escaped('t') == Some('\t') && Escaped('0') == Some('\0')
  {
  }

  /** A string's text with its quotes and backslashes escaped. */
  function Escape(text: string): (r: string)
    ensures |r| >= |text|
  {
    if text == [] then []
    else (if text[0] == '"' || text[0] == '\\' then ['\\', text[0]] else [text[0]]) + Escape(text[1..])
  }

  /** The string loop reads an escaped text back up to its closing quote. */
  lemma {:induction false} EscapeRoundTrip(prefix: string, text: string, rest: string)
    ensures var data := prefix + Escape(text) + "\"" + rest;
      ScanString(data, |prefix|, false) == Closed(text, |prefix| + |Escape(text)| + 1)
    decreases |text|
  {
    var data := prefix + Escape(text) + "\"" + rest;
    if text == [] {
      assert data[|prefix|] == '"';
    } else {
      var c := text[0];
      var piece := if c == '"' || c == '\\' then ['\\', c] else [c];
      assert data == (prefix + piece) + Escape(text[1..]) + "\"" + rest;
      EscapeRoundTrip(prefix + piece, text[1..], rest);
      assert [c] + text[1..] == text;
      if c == '"' || c == '\\' {
        assert data[|prefix|] == '\\' && data[|prefix| + 1] == c;
      } else {
        assert data[|prefix|] == c;
      }
    }
  }

  /** A string literal printed with its escapes lexes back to its text. */
  lemma StringRoundTrip(text: string, rest: string, loc0: Location)
    ensures var data := "\"" + Escape(text) + "\"" + rest;
      Scan(data, 0, loc0)
      == Lexed(Token(String, StringData(text), Advance(loc0, Char('"'))), |Escape(text)| + 2)
  {
    var data := "\"" + Escape(text) + "\"" + rest;
    StartsAt(data, 0, loc0);
    EscapeRoundTrip("\"", text, rest);
  }

  /** Without a closing quote ahead, the string loop never closes: it
      stops at the end of the input, or earlier at an invalid escape. */
  lemma {:induction false} NoQuoteUnterminated(data: string, v: nat, escape: bool)
    requires forall q :: v <= q < |data| ==> data[q] != '"'
    ensures !ScanString(data, v, escape).Closed?
    ensures (forall q :: v <= q < |data| ==> data[q] != '\\') && !escape ==> ScanString(data, v, escape) == Unterminated
    decreases |data| - v
  {
    if v < |data| {
      NoQuoteUnterminated(data, v + 1, false);
      NoQuoteUnterminated(data, v + 1, true);
    }
  }

  /** Every token get_token yields carries the data its kind calls for, so
      new_with_data's check never fires; and each call moves on. */
  lemma {:induction false} ScannedTokensMatch(data: string, p0: nat, loc0: Location)
    requires p0 <= |data|
    ensures var o := Scan(data, p0, loc0);
      o.Lexed? ==>
        (DataMatches(o.token.kind, o.token.data) && p0 < o.next
         && (o.token.kind != EndOfFile ==> o.next <= |data|))
  {
    match Skip(data, p0)
    case Endless =>
    case Stop(c, n) =>
      var at := Locate(loc0, data, p0, n);
      if c.Char? && Punctuation(c.c).None? {
        if IsAlphabetic(c.c) || c.c == '_' {
          WordMatches(data, c.c, n, at);
        } else if IsNumeric(c.c) {
          NumberMatches(data, c.c, n, at);
        } else if c.c == '"' {
          StringMatches(data, n, at);
        }
      }
  }

  lemma WordMatches(data: string, x: char, n: nat, at: Location)
    requires n <= |data|
    ensures var o := ScanWord(data, x, n, at);
      o.Lexed? && DataMatches(o.token.kind, o.token.data) && n <= o.next <= |data|
  {
  }

  lemma NumberMatches(data: string, x: char, n: nat, at: Location)
    requires n <= |data|
    ensures var o := ScanNumber(data, x, n, at);
      o.Lexed? ==> DataMatches(o.token.kind, o.token.data) && n <= o.next <= |data|
  {
  }

  lemma StringMatches(data: string, n: nat, at: Location)
    requires n <= |data|
    ensures var o := ScanStringToken(data, n, at);
      o.Lexed? ==> DataMatches(o.token.kind, o.token.data) && n <= o.next <= |data|
  {
  }

  /** Whitespace before a token is skipped, and so is a "//" comment
      through its line break; a comment that runs to the end of the input
      never ends. */
  lemma SkipRules(data: string, v: nat)
    ensures IsBlank(CharAt(data, v)) ==> Skip(data, v) == Skip(data, v + 1)
    ensures CharAt(data, v) == Char('/') && CharAt(data, v + 1) == Char('/') ==>
      match LineEnd(data, v + 2)
      case Some(e) => Skip(data, v) == Skip(data, e + 1)
      case None => Skip(data, v) == Endless
  {
  }

  /** A character that starts no token is reported with the token's location. */
  lemma UnexpectedCharacterRule(data: string, p0: nat, loc0: Location)
    requires p0 < |data| && !IsWhitespace(data[p0]) && data[p0] != '/'
    ensures var x := data[p0];
      Scan(data, p0, loc0) == Failed(UnexpectedCharacter(x, Advance(loc0, Char(x))))
      <==> Punctuation(x).None? && !IsAlphabetic(x) && x != '_' && !IsNumeric(x) && x != '"'
  {
    StartsAt(data, p0, loc0);
  }

  // Scenarios from the source's own tests, and the lone-'/' behaviour.

  /** "42#" has no width after '#'; the error is at the token, (1, 1). */
  lemma NoWidthScenario()
    ensures Scan("42#", 0, Location(1, 0)) == Failed(NumberLiteralNoWidth(Location(1, 1)))
  {
    StartsAt("42#", 0, Location(1, 0));
    DigitsEndAt("42#", 1, 2);
    FortyTwo("42#");
  }

  /** "42#0" has width 0. */
  lemma WidthZeroScenario()
    ensures Scan("42#0", 0, Location(1, 0)) == Failed(NumberLiteralWidthZero(Location(1, 1)))
  {
    StartsAt("42#0", 0, Location(1, 0));
    DigitsEndAt("42#0", 1, 2);
    FortyTwo("42#0");
    DigitsEndAt("42#0", 4, 4);
    assert "42#0"[3..4] == "0" && "0"[..0] == [];
  }

  /** "42#70" has a width above 64. */
  lemma WidthTooBigScenario()
    ensures Scan("42#70", 0, Location(1, 0)) == Failed(NumberLiteralWidthTooBig(Location(1, 1)))
  {
    StartsAt("42#70", 0, Location(1, 0));
    DigitsEndAt("42#70", 1, 2);
    FortyTwo("42#70");
    assert "42#70"[3..5] == Decimal(70);
    WidthDigits("42#70", 70, 2, 5);
  }

  /** "256#8": 256 does not fit in 8 bits. */
  lemma ValueTooBigScenario()
    ensures Scan("256#8", 0, Location(1, 0)) == Failed(NumberLiteralValueTooBig(Location(1, 1)))
  {
    StartsAt("256#8", 0, Location(1, 0));
    DigitsEndAt("256#8", 1, 3);
    DigitsEndAt("256#8", 5, 5);
    assert [('2' as char)] + "256#8"[1..3] == "256" && "256"[..2] == "25" && "25"[..1] == "2" && "2"[..0] == [];
    assert DigitsValue("2") == 2 && DigitsValue("25") == 25 && DigitsValue("256") == 256;
    assert "256#8"[4..5] == "8" && "8"[..0] == [];
    assert DigitsValue("8") == 8;
    assert Pow2(8) == 256 by {
      assert Pow2(4) == 16;
      Pow2Add(4, 4);
    }
  }

  /** "18446744073709551616" is 2^64: accumulating it overflows u64, which
      panics. */
  lemma OverflowScenario()
    ensures Scan("18446744073709551616", 0, Location(1, 0)) == Panics
  {
    var data := "18446744073709551616";
    OverflowValue();
    OverflowDigitsEnd();
    assert [data[0]] + data[1..20] == data;
    NumberOverflows(data, 20, Location(1, 0));
  }

  /** 2^64 written in decimal. */
  lemma OverflowValue()
    ensures DigitsValue("18446744073709551616") == MOD64
  {
    assert "1"[..0] == "";
    assert DigitsValue("1") == 1;
    assert "18"[..1] == "1";
    assert DigitsValue("18") == 18;
    assert "184"[..2] == "18";
    assert DigitsValue("184") == 184;
    assert "1844"[..3] == "184";
    assert DigitsValue("1844") == 1844;
    assert "18446"[..4] == "1844";
    assert DigitsValue("18446") == 18446;
    assert "184467"[..5] == "18446";
    assert DigitsValue("184467") == 184467;
    assert "1844674"[..6] == "184467";
    assert DigitsValue("1844674") == 1844674;
    assert "18446744"[..7] == "1844674";
    assert DigitsValue("18446744") == 18446744;
    assert "184467440"[..8] == "18446744";
    assert DigitsValue("184467440") == 184467440;
    assert "1844674407"[..9] == "184467440";
    assert DigitsValue("1844674407") == 1844674407;
    assert "18446744073"[..10] == "1844674407";
    assert DigitsValue("18446744073") == 18446744073;
    assert "184467440737"[..11] == "18446744073";
    assert DigitsValue("184467440737") == 184467440737;
    assert "1844674407370"[..12] == "184467440737";
    assert DigitsValue("1844674407370") == 1844674407370;
    assert "18446744073709"[..13] == "1844674407370";
    assert DigitsValue("18446744073709") == 18446744073709;
    assert "184467440737095"[..14] == "18446744073709";
    assert DigitsValue("184467440737095") == 184467440737095;
    assert "1844674407370955"[..15] == "184467440737095";
    assert DigitsValue("1844674407370955") == 1844674407370955;
    assert "18446744073709551"[..16] == "1844674407370955";
    assert DigitsValue("18446744073709551") == 18446744073709551;
    assert "184467440737095516"[..17] == "18446744073709551";
    assert DigitsValue("184467440737095516") == 184467440737095516;
    assert "1844674407370955161"[..18] == "184467440737095516";
    assert DigitsValue("1844674407370955161") == 1844674407370955161;
    assert "18446744073709551616"[..19] == "1844674407370955161";
    assert DigitsValue("18446744073709551616") == 18446744073709551616;
  }

  /** The digit run of 2^64 in decimal ends with the text. */
  lemma OverflowDigitsEnd()
    ensures DigitsEnd("18446744073709551616", 1) == 20
  {
    assert DigitsEnd("18446744073709551616", 20) == 20;
    assert DigitsEnd("18446744073709551616", 19) == 20;
    assert DigitsEnd("18446744073709551616", 18) == 20;
    assert DigitsEnd("18446744073709551616", 17) == 20;
    assert DigitsEnd("18446744073709551616", 16) == 20;
    assert DigitsEnd("18446744073709551616", 15) == 20;
    assert DigitsEnd("18446744073709551616", 14) == 20;
    assert DigitsEnd("18446744073709551616", 13) == 20;
    assert DigitsEnd("18446744073709551616", 12) == 20;
    assert DigitsEnd("18446744073709551616", 11) == 20;
    assert DigitsEnd("18446744073709551616", 10) == 20;
    assert DigitsEnd("18446744073709551616", 9) == 20;
    assert DigitsEnd("18446744073709551616", 8) == 20;
    assert DigitsEnd("18446744073709551616", 7) == 20;
    assert DigitsEnd("18446744073709551616", 6) == 20;
    assert DigitsEnd("18446744073709551616", 5) == 20;
    assert DigitsEnd("18446744073709551616", 4) == 20;
    assert DigitsEnd("18446744073709551616", 3) == 20;
    assert DigitsEnd("18446744073709551616", 2) == 20;
    assert DigitsEnd("18446744073709551616", 1) == 20;
  }

  /** A number literal whose digits run up to e and whose value reaches
      2^64 panics. */
  lemma NumberOverflows(data: string, e: nat, loc0: Location)
    requires 0 < e <= |data| && IsNumeric(data[0]) && DigitsEnd(data, 1) == e
    requires DigitsValue([data[0]] + data[1..e]) >= MOD64
    ensures Scan(data, 0, loc0) == Panics
  {
    DispatchNumber(data, loc0);
  }

  /** The literal "42" at the head of data. */
  lemma FortyTwo(data: string)
    requires |data| >= 2 && data[..2] == "42"
    ensures DigitsValue([data[0]] + data[1..2]) == 42
  {
    assert [data[0]] + data[1..2] == "42" && "42"[..1] == "4" && "4"[..0] == [];
  }

  /** "\"Bad: \\o/": 'o' is not an escape; the error is at the opening quote. */
  lemma InvalidEscapeScenario()
    ensures Scan("\"Bad: \\o/", 0, Location(1, 0)) == Failed(InvalidEscape('o', Location(1, 1)))
  {
    StartsAt("\"Bad: \\o/", 0, Location(1, 0));
  }

  /** A string with no closing quote ends at the end of the input. */
  lemma UnterminatedScenario()
    ensures Scan("\"This string never ends", 0, Location(1, 0)) == Failed(UnexpectedEndOfFile(Location(1, 1)))
  {
    var data := "\"This string never ends";
    StringUnterminated(data, Location(1, 0));
  }

  /** A string literal with no quote and no backslash after its opening
      quote fails at the end of the input. */
  lemma StringUnterminated(data: string, loc0: Location)
    requires 0 < |data| && data[0] == '"'
    requires forall q :: 1 <= q < |data| ==> data[q] != '"' && data[q] != '\\'
    ensures Scan(data, 0, loc0) == Failed(UnexpectedEndOfFile(Advance(loc0, Char('"'))))
  {
    StartsAt(data, 0, loc0);
    NoQuoteUnterminated(data, 1, false);
  }

  /** "jane?doe": the identifier "jane", then '?' is unexpected at (1, 5). */
  lemma UnexpectedCharacterScenario()
    ensures Scan("jane?doe", 0, Location(1, 0)) == Lexed(Token(Identifier, IdentifierData("jane"), Location(1, 1)), 4)
    ensures Scan("jane?doe", 4, Location(1, 4)) == Failed(UnexpectedCharacter('?', Location(1, 5)))
  {
    JaneFirst();
    QuestionMarkNext();
  }

  /** The first token of "jane?doe" is the identifier "jane". */
  lemma JaneFirst()
    ensures Scan("jane?doe", 0, Location(1, 0)) == Lexed(Token(Identifier, IdentifierData("jane"), Location(1, 1)), 4)
  {
    WordRoundTrip("jane", "?doe", Location(1, 0));
    assert "jane" + "?doe" == "jane?doe";
  }

  /** After "jane", the '?' of "jane?doe" is unexpected at (1, 5). */
  lemma QuestionMarkNext()
    ensures Scan("jane?doe", 4, Location(1, 4)) == Failed(UnexpectedCharacter('?', Location(1, 5)))
  {
    UnexpectedCharacterRule("jane?doe", 4, Location(1, 4));
  }

  /** A '/' that does not start a comment is dropped, and the character
      after it is read twice: "/ab" is the identifier "aab", located at the
      '/'. */
  lemma SlashQuirk()
    ensures Scan("/ab", 0, Location(1, 0)) == Lexed(Token(Identifier, IdentifierData("aab"), Location(1, 1)), 3)
  {
    var data := "/ab";
    assert Skip(data, 0) == Stop(Char('a'), 1);
    WordEndAt(data, 1, 3);
    assert [data[1]] + data[1..3] == "aab";
  }
}
