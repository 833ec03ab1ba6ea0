/** The C++ lexer (src/frontend/Lexer.cpp). The input file is the sequence
    of characters the stream yields (each standing for one byte); the stream
    is its read position plus its fail state, since once a read hits the end
    of the file every later read yields EOF and an unget does nothing.

    The specification is given on "virtual" positions: position v of the
    file holds `data[v]` when v < |data| and EOF beyond, and reading the
    file from position p0 to v moves the location as the characters (and
    EOF reads) on the way dictate. */
module Lexer {
  import opened Wrappers

  /** The EOF value of std::istream::get. */
  const EOF: int := -1

  /** 2^64: std::uint64_t arithmetic wraps modulo this. */
  const MOD64: nat := 0x1_0000_0000_0000_0000

  /** The largest width a number literal may carry. */
  const MAX_WIDTH: nat := 64

  const WidthZeroMessage := ": Number literal width is 0"
  const WidthTooBigMessage := ": Number literal width > 64"
  const InvalidCharacterMessage := ": Invalid character '"

  /** Lexer::TokenType; `Unset` is the source's TokenType::None. */
  datatype TokenType =
    | Unset | EndOfFile | Identifier | Number
    | Dot | Comma | Semicolon | Colon | Equals | AND | OR | XOR | NOT
    | LeftBrace | RightBrace | LeftBracket | RightBracket | LeftParenthesis | RightParenthesis
    | InKeyword | OutKeyword | BlockKeyword

  /** Lexer::Location: the line and the column of the last character read. */
  datatype Location = Location(line: nat, column: nat, filename: string)

  /** Location::to_string: "file:line:column". */
  function LocationString(loc: Location): string
  {
    loc.filename + ":" + Decimal(loc.line) + ":" + Decimal(loc.column)
  }

  /** The message of the error for a '#' followed by width 0. */
  function WidthZeroError(at: Location): string
  {
    LocationString(at) + WidthZeroMessage
  }

  /** The message of the error for a width above 64. */
  function WidthTooBigError(at: Location): string
  {
    LocationString(at) + WidthTooBigMessage
  }

  /** The message of the error for a character that starts no token. */
  function InvalidCharacterError(at: Location, c: char): string
  {
    LocationString(at) + InvalidCharacterMessage + [c] + "'"
  }

  datatype NumberValue = NumberValue(value: nat, width: nat)

  /** Lexer::Token: the identifier text is set for identifiers only, the
      number for numbers only; both start empty. */
  datatype Token = Token(tokenType: TokenType, location: Location, identifier: string, number: NumberValue)

  /** The Token(type, location) constructor. */
  function MakeToken(tokenType: TokenType, location: Location): Token
  {
    Token(tokenType, location, "", NumberValue(0, 0))
  }

  /** A Number token carrying its value and width. */
  function NumberToken(location: Location, value: nat, width: nat): Token
  {
    Token(Number, location, "", NumberValue(value, width))
  }

  /** An Identifier token carrying its text. */
  function IdentifierToken(location: Location, text: string): Token
  {
    Token(Identifier, location, text, NumberValue(0, 0))
  }

  /** Truncation to std::uint64_t. */
  function Wrap64(x: int): (r: nat)
    ensures r < MOD64
  {
    x % MOD64
  }

  function Min(a: nat, b: nat): nat
  {
    if a <= b then a else b
  }

  // Character classes of the C locale, on the int that get() returns.

  predicate IsSpace(c: int)
  {
    c == ' ' as int || c == '\t' as int || c == '\n' as int || c == 0x0B || c == 0x0C || c == '\r' as int
  }

  predicate IsDigit(c: int)
  {
    '0' as int <= c <= '9' as int
  }

  predicate IsAlpha(c: int)
  {
    'A' as int <= c <= 'Z' as int || 'a' as int <= c <= 'z' as int
  }

  /** What a word may continue with. */
  predicate IsWordChar(c: int)
  {
    IsAlpha(c) || IsDigit(c) || c == '_' as int
  }

  /** What get() yields at virtual position v. */
  function CharAt(data: string, v: nat): int
  {
    if v < |data| then data[v] as int else EOF
  }

  /** How one get() moves the location: a line break starts a new line at
      column 0, anything else (EOF included) moves one column on. */
  function Step(loc: Location, c: int): Location
  {
    if c == '\n' as int then loc.(line := loc.line + 1, column := 0) else loc.(column := loc.column + 1)
  }

  /** The location after reading virtual positions [first, last) from `loc`. */
  function Locate(loc: Location, data: string, first: nat, last: nat): Location
    decreases last
  {
    if last <= first then loc else Step(Locate(loc, data, first, last - 1), CharAt(data, last - 1))
  }

  /** The first position at or after v that does not continue a digit run. */
  function DigitsEnd(data: string, v: nat): (r: nat)
    ensures v <= r && (v <= |data| ==> r <= |data|)
    ensures !IsDigit(CharAt(data, r))
    ensures forall q :: v <= q < r ==> IsDigit(CharAt(data, q))
    decreases |data| - v
  {
    if IsDigit(CharAt(data, v)) then DigitsEnd(data, v + 1) else v
  }

  /** The first position at or after v that does not continue a word. */
  function WordEnd(data: string, v: nat): (r: nat)
    ensures v <= r && (v <= |data| ==> r <= |data|)
    ensures !IsWordChar(CharAt(data, r))
    ensures forall q :: v <= q < r ==> IsWordChar(CharAt(data, q))
    decreases |data| - v
  {
    if IsWordChar(CharAt(data, v)) then WordEnd(data, v + 1) else v
  }

  /** The position of the line break that ends a comment whose text starts
      at v, or the end of the file when no line break follows. */
  function CommentEnd(data: string, v: nat): (r: nat)
    ensures v <= r && (v <= |data| ==> r <= |data|)
    ensures CharAt(data, r) == '\n' as int || CharAt(data, r) == EOF
    ensures forall q :: v <= q < r ==> CharAt(data, q) != '\n' as int && CharAt(data, q) != EOF
    decreases |data| - v
  {
    if CharAt(data, v) == '\n' as int || CharAt(data, v) == EOF then v else CommentEnd(data, v + 1)
  }

  /** One pass of the skipping loop reading from v: a "//" comment is read
      through its line break (or up to the end of the file); anything else
      is one character, a lone '/' after looking one character ahead. The
      result is the position after the last character the pass keeps. */
  function SkipPassEnd(data: string, v: nat): (r: nat)
    ensures v < r && (v <= |data| ==> r <= |data| + 1)
    ensures CharAt(data, r - 1) != EOF ==> r <= |data|
  {
    if CharAt(data, v) == '/' as int && CharAt(data, v + 1) == '/' as int then CommentEnd(data, v + 2) + 1 else v + 1
  }

  /** Where the token starts: the position of the first character the
      skipping loop stops at, past all whitespace and comments. */
  function TokenStart(data: string, v: nat): (s: nat)
    ensures v <= s
    ensures v <= |data| ==> s <= |data|
    decreases |data| - v
  {
    var n := SkipPassEnd(data, v);
    if IsSpace(CharAt(data, n - 1)) then TokenStart(data, n) else n - 1
  }

  /** The value a run of characters accumulates into: value * 10 + c - '0'
      per character, in std::uint64_t. */
  function Accumulate(data: string, first: nat, last: nat): (r: nat)
    ensures r < MOD64
    decreases last
  {
    if last <= first then 0 else Wrap64(Wrap64(Accumulate(data, first, last - 1) * 10) + (CharAt(data, last - 1) - '0' as int))
  }

  /** The token type of a one-character token, if `c` is one. */
  function Punctuation(c: int): Option<TokenType>
  {
    if c == '.' as int then Some(Dot)
    else if c == ',' as int then Some(Comma)
    else if c == ';' as int then Some(Semicolon)
    else if c == ':' as int then Some(Colon)
    else if c == '=' as int then Some(Equals)
    else if c == '&' as int then Some(AND)
    else if c == '|' as int then Some(OR)
    else if c == '^' as int then Some(XOR)
    else if c == '~' as int then Some(NOT)
    else if c == '{' as int then Some(LeftBrace)
    else if c == '}' as int then Some(RightBrace)
    else if c == '[' as int then Some(LeftBracket)
    else if c == ']' as int then Some(RightBracket)
    else if c == '(' as int then Some(LeftParenthesis)
    else if c == ')' as int then Some(RightParenthesis)
    else None
  }

  /** The keyword a word spells, or Identifier. */
  function Keyword(word: string): TokenType
  {
    if word == "in" then InKeyword
    else if word == "out" then OutKeyword
    else if word == "block" then BlockKeyword
    else Identifier
  }

  /** What one readNextToken call does: its result, the virtual position
      the next call reads from, and the position of its last read. */
  datatype Scanned = Scanned(result: Result<Token>, next: nat, lastRead: nat)

  /** readNextToken from position p0 with the lexer at location loc0. */
  function Scan(data: string, p0: nat, loc0: Location): Scanned
  {
    var s := TokenStart(data, p0);
    var c := CharAt(data, s);
    if IsDigit(c) then ScanNumber(data, p0, loc0, s)
    else if IsAlpha(c) || c == '_' as int then ScanWord(data, p0, loc0, s)
    else ScanSymbol(data, p0, loc0, s)
  }

  /** A number literal starting at s: its digits, then optionally '#' and a
      width. The value is not checked against the width (the source only
      warns). */
  function ScanNumber(data: string, p0: nat, loc0: Location, s: nat): Scanned
  {
    var e := DigitsEnd(data, s + 1);
    var value := Accumulate(data, s, e);
    if CharAt(data, e) == '#' as int then ScanWidth(data, p0, loc0, value, e)
    else Scanned(Success(NumberToken(Locate(loc0, data, p0, e), value, 0)), e, e)
  }

  /** The width of a number literal whose '#' is at h. The character right
      after '#' always counts as the first digit of the width, whatever it
      is (c - '0' wrapped to std::uint64_t). Errors are reported at the
      location after the character that ends the width. */
  function ScanWidth(data: string, p0: nat, loc0: Location, value: nat, h: nat): Scanned
  {
    var e := DigitsEnd(data, h + 2);
    var width := Accumulate(data, h + 1, e);
    var at := Locate(loc0, data, p0, e + 1);
    if width == 0 then Scanned(Failure(WidthZeroError(at)), e, e)
    else if width > MAX_WIDTH then Scanned(Failure(WidthTooBigError(at)), e, e)
    else Scanned(Success(NumberToken(Locate(loc0, data, p0, e), value, width)), e, e)
  }

  /** A word starting at s: a keyword, or an identifier carrying its text. */
  function ScanWord(data: string, p0: nat, loc0: Location, s: nat): Scanned
    requires s < |data|
  {
    var e := WordEnd(data, s + 1);
    var word := data[s..e];
    var at := Locate(loc0, data, p0, e);
    var token := if Keyword(word) == Identifier then IdentifierToken(at, word)
                 else MakeToken(Keyword(word), at);
    Scanned(Success(token), e, e)
  }

  /** Anything else at s: punctuation, the end of the file, or an error. */
  function ScanSymbol(data: string, p0: nat, loc0: Location, s: nat): Scanned
  {
    var c := CharAt(data, s);
    var at := Locate(loc0, data, p0, s + 1);
    match Punctuation(c)
    case Some(t) => Scanned(Success(MakeToken(t, at)), s + 1, s)
    case None =>
      if c == EOF then Scanned(Success(MakeToken(EndOfFile, at)), s + 1, s)
      else Scanned(Failure(InvalidCharacterError(at, c as char)), s + 1, s)
  }

  /** The lexer over one input file. */
  class Lexer {
    /** The file's contents. */
    const data: string
    /** The stream's read position and fail state. */
    var pos: nat
    var failed: bool
    var location: Location
    var lastLocation: Location

    /** Only a read at the end of the file sets the fail state. */
    ghost predicate Valid()
      reads this
    {
      pos <= |data| && (failed ==> pos == |data|)
    }

    /** The stream stands at virtual position v of a read that started at
        p0 with the lexer at loc0. */
    ghost predicate At(p0: nat, loc0: Location, v: nat)
      reads this
    {
      && (v < |data| ==> pos == v && !failed)
      && (v >= |data| ==> pos == |data|)
      && (v > |data| ==> failed)
      && location == Locate(loc0, data, p0, v)
    }

    /** Lexer::Lexer: at the start of the file, line 1, column 0. */
    constructor (data: string, filename: string)
      ensures Valid() && this.data == data && pos == 0 && !failed
      ensures location == Location(1, 0, filename) && lastLocation == Location(0, 0, "")
    {
      this.data := data;
      pos := 0;
      failed := false;
      location := Location(1, 0, filename);
      lastLocation := Location(0, 0, "");
    }

    /** Lexer::getc: saves the location, reads one character (EOF at the
        end of the file or once the stream has failed) and moves the
        location past it. */
    method Getc() returns (c: int)
      requires Valid()
      modifies this`pos, this`failed, this`location, this`lastLocation
      ensures Valid()
      ensures c == (if old(failed) then EOF else CharAt(data, old(pos)))
      ensures pos == (if c == EOF then old(pos) else old(pos) + 1)
      ensures failed == (c == EOF)
      ensures lastLocation == old(location) && location == Step(old(location), c)
    {
      lastLocation := location;
      if failed || pos >= |data| {
        failed := true;
        c := EOF;
      } else {
        c := data[pos] as int;
        pos := pos + 1;
      }
      if c == '\n' as int {
        location := location.(line := location.line + 1, column := 0);
      } else {
        location := location.(column := location.column + 1);
      }
    }

    /** Lexer::ungetc: steps the stream back one character (nothing once it
        has failed) and restores the location saved by the last getc. */
    method Ungetc()
      requires Valid() && (failed || pos > 0)
      modifies this`pos, this`location
      ensures Valid() && failed == old(failed)
      ensures pos == if failed then old(pos) else old(pos) - 1
      ensures location == old(lastLocation)
    {
      if !failed {
        pos := pos - 1;
      }
      location := lastLocation;
    }

    /** Getc at virtual position v reads CharAt(data, v) and moves to v + 1. */
    method GetcAt(ghost p0: nat, ghost loc0: Location, ghost v: nat) returns (c: int)
      requires p0 <= v && At(p0, loc0, v)
      modifies this`pos, this`failed, this`location, this`lastLocation
      ensures c == CharAt(data, v) && At(p0, loc0, v + 1)
      ensures lastLocation == Locate(loc0, data, p0, v)
      ensures failed <==> v >= |data|
    {
      c := Getc();
    }

    /** Ungetc right after a read at virtual position v - 1 goes back to it. */
    method UngetcAt(ghost p0: nat, ghost loc0: Location, ghost v: nat)
      requires p0 < v && At(p0, loc0, v) && lastLocation == Locate(loc0, data, p0, v - 1)
      requires failed <==> v - 1 >= |data|
      modifies this`pos, this`location
      ensures At(p0, loc0, v - 1) && lastLocation == old(lastLocation)
      ensures v - 1 >= |data| <==> failed
    {
      Ungetc();
    }

    /** One pass of the skipping loop of readNextToken, with the comment
        loop stopping at the end of the file. */
    method SkipPass(ghost p0: nat, ghost loc0: Location, ghost v: nat) returns (c: int)
      requires p0 <= v && At(p0, loc0, v)
      modifies this`pos, this`failed, this`location, this`lastLocation
      ensures var n := SkipPassEnd(data, v);
        && c == CharAt(data, n - 1) && At(p0, loc0, n)
        && (c != '/' as int ==> lastLocation == Locate(loc0, data, p0, n - 1) && (failed <==> n - 1 >= |data|))
    {
      c := GetcAt(p0, loc0, v);
      if c == '/' as int {
        var next := GetcAt(p0, loc0, v + 1);
        if next == '/' as int {
          c := ReadComment(p0, loc0, v + 2);
        } else {
          UngetcAt(p0, loc0, v + 2);
        }
      }
    }

    /** The comment loop of readNextToken from the comment's text at v: it
        reads through the line break that ends the comment, and here also
        stops at the end of the file. */
    method ReadComment(ghost p0: nat, ghost loc0: Location, ghost v: nat) returns (c: int)
      requires p0 <= v && At(p0, loc0, v)
      modifies this`pos, this`failed, this`location, this`lastLocation
      ensures var e := CommentEnd(data, v);
        && c == CharAt(data, e) && At(p0, loc0, e + 1)
        && lastLocation == Locate(loc0, data, p0, e) && (failed <==> e >= |data|)
    {
      ghost var q := v;
      c := GetcAt(p0, loc0, q);
      while c != '\n' as int && c != EOF
        invariant v <= q <= CommentEnd(data, v)
        invariant c == CharAt(data, q) && At(p0, loc0, q + 1)
        invariant lastLocation == Locate(loc0, data, p0, q) && (failed <==> q >= |data|)
        decreases CommentEnd(data, v) - q
      {
        q := q + 1;
        c := GetcAt(p0, loc0, q);
      }
    }

    /** The skipping loop of readNextToken: whitespace and "//" comments
        are read past, and the first other character is the token's. */
    method SkipBlank(ghost p0: nat, ghost loc0: Location) returns (c: int)
      requires At(p0, loc0, p0)
      modifies this`pos, this`failed, this`location, this`lastLocation
      ensures var s := TokenStart(data, p0);
        && c == CharAt(data, s) && At(p0, loc0, s + 1)
        && (c != '/' as int ==> lastLocation == Locate(loc0, data, p0, s) && (failed <==> s >= |data|))
    {
      ghost var v := p0;
      c := SkipPass(p0, loc0, v);
      v := SkipPassEnd(data, v);
      while IsSpace(c)
        invariant p0 < v && At(p0, loc0, v) && c == CharAt(data, v - 1)
        invariant c != '/' as int ==> lastLocation == Locate(loc0, data, p0, v - 1) && (failed <==> v - 1 >= |data|)
        invariant TokenStart(data, p0) == if IsSpace(c) then TokenStart(data, v) else v - 1
        decreases |data| - v
      {
        c := SkipPass(p0, loc0, v);
        v := SkipPassEnd(data, v);
      }
    }

    /** The digit loop shared by the value and the width of a number: from
        the character at v - 1 (already read), reads on while digits come,
        accumulating value * 10 + c - '0'. */
    method ReadDigits(ghost p0: nat, ghost loc0: Location, ghost v: nat, first: int) returns (value: nat, c: int)
      requires p0 < v && At(p0, loc0, v) && first == CharAt(data, v - 1)
      modifies this`pos, this`failed, this`location, this`lastLocation
      ensures var e := DigitsEnd(data, v);
        && value == Accumulate(data, v - 1, e) && c == CharAt(data, e)
        && At(p0, loc0, e + 1) && lastLocation == Locate(loc0, data, p0, e)
        && (failed <==> e >= |data|)
    {
      value := 0;
      c := first;
      ghost var q := v - 1;
      value := Wrap64(Wrap64(value * 10) + (c - '0' as int));
      c := GetcAt(p0, loc0, v);
      q := v;
      while IsDigit(c)
        invariant v <= q <= DigitsEnd(data, v)
        invariant value == Accumulate(data, v - 1, q) && c == CharAt(data, q)
        invariant At(p0, loc0, q + 1) && lastLocation == Locate(loc0, data, p0, q)
        invariant failed <==> q >= |data|
        decreases |data| - q
      {
        value := Wrap64(Wrap64(value * 10) + (c - '0' as int));
        c := GetcAt(p0, loc0, q + 1);
        q := q + 1;
      }
    }

    /** The number branch of readNextToken, from its first digit at s. */
    method ReadNumber(ghost p0: nat, ghost loc0: Location, ghost s: nat, first: int) returns (r: Result<Token>)
      requires p0 <= s && At(p0, loc0, s + 1) && first == CharAt(data, s) && IsDigit(first)
      modifies this`pos, this`failed, this`location, this`lastLocation
      ensures Valid()
      ensures var sc := ScanNumber(data, p0, loc0, s);
        && r == sc.result
        && (r.Success? ==> At(p0, loc0, sc.next) && lastLocation == Locate(loc0, data, p0, sc.lastRead)
                            && (failed <==> sc.lastRead >= |data|))
    {
      var num, c := ReadDigits(p0, loc0, s + 1, first);
      ghost var e := DigitsEnd(data, s + 1);
      if c == '#' as int {
        r := ReadWidth(p0, loc0, num, e);
      } else {
        UngetcAt(p0, loc0, e + 1);
        r := Success(NumberToken(location, num, 0));
      }
    }

    /** The width part of the number branch, from the '#' at h. The width
        checks follow the width loop (a width above 64 can only come from
        there). */
    method ReadWidth(ghost p0: nat, ghost loc0: Location, num: nat, ghost h: nat) returns (r: Result<Token>)
      requires p0 < h && At(p0, loc0, h + 1) && CharAt(data, h) == '#' as int && !failed
      modifies this`pos, this`failed, this`location, this`lastLocation
      ensures Valid()
      ensures var sc := ScanWidth(data, p0, loc0, num, h);
        && r == sc.result
        && (r.Success? ==> At(p0, loc0, sc.next) && lastLocation == Locate(loc0, data, p0, sc.lastRead)
                            && (failed <==> sc.lastRead >= |data|))
    {
      var c := GetcAt(p0, loc0, h + 1);
      var width;
      width, c := ReadDigits(p0, loc0, h + 2, c);
      ghost var e := DigitsEnd(data, h + 2);
      if width == 0 {
        return Failure(WidthZeroError(location));
      }
      if width > MAX_WIDTH {
        return Failure(WidthTooBigError(location));
      }
      UngetcAt(p0, loc0, e + 1);
      r := Success(NumberToken(location, num, width));
    }

    /** The word branch of readNextToken, from its first character at s. */
    method ReadWord(ghost p0: nat, ghost loc0: Location, ghost s: nat, first: int) returns (r: Result<Token>)
      requires p0 <= s < |data| && At(p0, loc0, s + 1) && first == CharAt(data, s)
      requires IsAlpha(first) || first == '_' as int
      modifies this`pos, this`failed, this`location, this`lastLocation
      ensures Valid()
      ensures var sc := ScanWord(data, p0, loc0, s);
        && r == sc.result && At(p0, loc0, sc.next) && lastLocation == Locate(loc0, data, p0, sc.lastRead)
        && (failed <==> sc.lastRead >= |data|)
    {
      var str := ReadWordChars(p0, loc0, s, first);
      UngetcAt(p0, loc0, WordEnd(data, s + 1) + 1);
      var t := Keyword(str);
      if t == Identifier {
        r := Success(IdentifierToken(location, str));
      } else {
        r := Success(MakeToken(t, location));
      }
    }

    /** The loop of the word branch: collects the word's characters and
        reads the one after it. */
    method ReadWordChars(ghost p0: nat, ghost loc0: Location, ghost s: nat, first: int) returns (str: string)
      requires p0 <= s < |data| && At(p0, loc0, s + 1) && first == CharAt(data, s)
      modifies this`pos, this`failed, this`location, this`lastLocation
      ensures var e := WordEnd(data, s + 1);
        && str == data[s..e] && At(p0, loc0, e + 1) && lastLocation == Locate(loc0, data, p0, e)
        && (failed <==> e >= |data|)
    {
      str := [first as char];
      var c := GetcAt(p0, loc0, s + 1);
      ghost var q := s + 1;
      while IsWordChar(c)
        invariant s + 1 <= q <= WordEnd(data, s + 1)
        invariant str == data[s..q] && c == CharAt(data, q)
        invariant At(p0, loc0, q + 1) && lastLocation == Locate(loc0, data, p0, q)
        invariant failed <==> q >= |data|
        decreases |data| - q
      {
        assert data[s..q + 1] == data[s..q] + [data[q]];
        str := str + [c as char];
        c := GetcAt(p0, loc0, q + 1);
        q := q + 1;
      }
    }

    /** Lexer::readNextToken. The result and the lexer's new state are
        those Scan describes; after an error the state is not described. */
    method ReadNextToken() returns (r: Result<Token>)
      requires Valid()
      modifies this`pos, this`failed, this`location, this`lastLocation
      ensures Valid()
      ensures var sc := Scan(data, old(pos), old(location));
        && r == sc.result
        && (r.Success? ==>
              && pos == Min(sc.next, |data|)
              && location == Locate(old(location), data, old(pos), sc.next)
              && lastLocation == Locate(old(location), data, old(pos), sc.lastRead)
              && failed == (old(failed) || sc.lastRead >= |data|))
    {
      ghost var p0 := pos;
      ghost var loc0 := location;
      var c := SkipBlank(p0, loc0);
      ghost var s := TokenStart(data, p0);
      if IsDigit(c) {
        r := ReadNumber(p0, loc0, s, c);
      } else if IsAlpha(c) || c == '_' as int {
        r := ReadWord(p0, loc0, s, c);
      } else {
        var t := Punctuation(c);
        if t.Some? {
          r := Success(MakeToken(t.value, location));
        } else if c == EOF {
          r := Success(MakeToken(EndOfFile, location));
        } else {
          r := Failure(InvalidCharacterError(location, c as char));
        }
      }
    }
  }

  // Properties of the specification.

  /** Whitespace before a token is skipped: a blank at v moves the token
      start on by one, and a character that is neither blank nor '/' is
      itself the token's start. */
  lemma TokenStartSkipsBlank(data: string, v: nat)
    ensures IsSpace(CharAt(data, v)) ==> TokenStart(data, v) == TokenStart(data, v + 1)
    ensures !IsSpace(CharAt(data, v)) && CharAt(data, v) != '/' as int ==> TokenStart(data, v) == v
  {
  }

  /** The character a token starts with is never blank and never the start
      of a "//" comment, and everything skipped lies inside the file. */
  lemma {:induction false} TokenStartChar(data: string, v: nat)
    requires v <= |data|
    ensures var s := TokenStart(data, v);
      && !IsSpace(CharAt(data, s))
      && !(CharAt(data, s) == '/' as int && CharAt(data, s + 1) == '/' as int)
    decreases |data| - v
  {
    var n := SkipPassEnd(data, v);
    if IsSpace(CharAt(data, n - 1)) {
      TokenStartChar(data, n);
    } else if CharAt(data, v) == '/' as int && CharAt(data, v + 1) == '/' as int {
      assert CharAt(data, n - 1) == EOF;
    }
  }

  /** The exact value a run of characters spells, each counting c - '0'. */
  function DecimalValue(data: string, first: nat, last: nat): int
    decreases last
  {
    if last <= first then 0 else DecimalValue(data, first, last - 1) * 10 + (CharAt(data, last - 1) - '0' as int)
  }

  function Pow10(n: nat): (r: nat)
    ensures 0 < r
  {
    if n == 0 then 1 else 10 * Pow10(n - 1)
  }

  /** Truncating after each step loses nothing modulo 2^64. */
  lemma WrapStep(x: int, d: int)
    ensures Wrap64(Wrap64(Wrap64(x) * 10) + d) == (x * 10 + d) % MOD64
  {
    var q := x / MOD64;
    assert x == q * MOD64 + Wrap64(x);
    assert x * 10 + d == (q * 10) * MOD64 + (Wrap64(x) * 10 + d);
    ModShift(Wrap64(x) * 10 + d, q * 10);
    var w := Wrap64(x) * 10;
    assert w == (w / MOD64) * MOD64 + Wrap64(w);
    assert w + d == (w / MOD64) * MOD64 + (Wrap64(w) + d);
    ModShift(Wrap64(w) + d, w / MOD64);
  }

  /** Adding a multiple of 2^64 does not change the remainder. */
  lemma ModShift(y: int, k: int)
    ensures (k * MOD64 + y) % MOD64 == y % MOD64
  {
  }

  /** The number a literal accumulates is its decimal value modulo 2^64
      (std::uint64_t arithmetic wraps). */
  lemma {:induction false} AccumulateIsDecimal(data: string, first: nat, last: nat)
    ensures Accumulate(data, first, last) == DecimalValue(data, first, last) % MOD64
    decreases last
  {
    if first < last {
      AccumulateIsDecimal(data, first, last - 1);
      var x := DecimalValue(data, first, last - 1);
      WrapStep(x, CharAt(data, last - 1) - '0' as int);
    }
  }

  /** A run of digits spells a value below 10 to the power of its length. */
  lemma {:induction false} DecimalBound(data: string, first: nat, last: nat)
    requires first <= last
    requires forall q :: first <= q < last ==> IsDigit(CharAt(data, q))
    ensures 0 <= DecimalValue(data, first, last) < Pow10(last - first)
    decreases last
  {
    if first < last {
      DecimalBound(data, first, last - 1);
    }
  }

  /** A literal of at most 19 digits keeps its exact decimal value. */
  lemma NumberValueExact(data: string, first: nat, last: nat)
    requires first <= last <= first + 19
    requires forall q :: first <= q < last ==> IsDigit(CharAt(data, q))
    ensures Accumulate(data, first, last) == DecimalValue(data, first, last)
  {
    DecimalBound(data, first, last);
    Pow10Grows(last - first, 19);
    assert Pow10(1) == 10;
    assert Pow10(2) == 100;
    assert Pow10(3) == 1000;
    assert Pow10(4) == 10000;
    assert Pow10(5) == 100000;
    assert Pow10(6) == 1000000;
    assert Pow10(7) == 10000000;
    assert Pow10(8) == 100000000;
    assert Pow10(9) == 1000000000;
    assert Pow10(10) == 10000000000;
    assert Pow10(11) == 100000000000;
    assert Pow10(12) == 1000000000000;
    assert Pow10(13) == 10000000000000;
    assert Pow10(14) == 100000000000000;
    assert Pow10(15) == 1000000000000000;
    assert Pow10(16) == 10000000000000000;
    assert Pow10(17) == 100000000000000000;
    assert Pow10(18) == 1000000000000000000;
    assert Pow10(19) == 10000000000000000000;
    assert Pow10(19) < MOD64;
    AccumulateIsDecimal(data, first, last);
  }

  lemma {:induction false} Pow10Grows(m: nat, n: nat)
    requires m <= n
    ensures Pow10(m) <= Pow10(n)
    decreases n
  {
    if m < n {
      Pow10Grows(m, n - 1);
    }
  }

  /** A number without '#' has width 0; with '#', width 0 and widths
      above 64 are errors and every other width is accepted, whatever the
      value. */
  lemma ScanNumberOutcome(data: string, p0: nat, loc0: Location, s: nat)
    ensures var e := DigitsEnd(data, s + 1);
      var sc := ScanNumber(data, p0, loc0, s);
      && (CharAt(data, e) != '#' as int ==>
            sc.result == Success(NumberToken(Locate(loc0, data, p0, e), Accumulate(data, s, e), 0)))
      && (CharAt(data, e) == '#' as int ==>
            var e2 := DigitsEnd(data, e + 2);
            var width := Accumulate(data, e + 1, e2);
            && (sc.result.Failure? <==> width == 0 || width > MAX_WIDTH)
            && (sc.result.Success? ==> sc.result.value.number == NumberValue(Accumulate(data, s, e), width)))
  {
  }

  /** The character right after '#' is taken as a digit unchecked: "1#a"
      is the number 1 with width 49 ('a' - '0'). */
  lemma WidthQuirk(loc0: Location)
    ensures ScanNumber("1#a", 0, loc0, 0).result.Success?
    ensures ScanNumber("1#a", 0, loc0, 0).result.value.number == NumberValue(1, 49)
  {
    assert DigitsEnd("1#a", 1) == 1;
    assert DigitsEnd("1#a", 3) == 3;
    assert Accumulate("1#a", 0, 1) == 1;
    assert Accumulate("1#a", 2, 3) == 49;
  }

  /** The keywords are exactly "in", "out" and "block". */
  lemma KeywordExact(word: string)
    ensures Keyword(word) != Identifier <==> word == "in" || word == "out" || word == "block"
    ensures Keyword(word) == InKeyword <==> word == "in"
    ensures Keyword(word) == OutKeyword <==> word == "out"
    ensures Keyword(word) == BlockKeyword <==> word == "block"
  {
  }

  /** A word is read up to the first character that cannot continue it; an
      identifier carries exactly that text, a keyword none. */
  lemma ScanWordText(data: string, p0: nat, loc0: Location, s: nat)
    requires s < |data| && (IsAlpha(CharAt(data, s)) || CharAt(data, s) == '_' as int)
    ensures var e := WordEnd(data, s + 1);
      var t := ScanWord(data, p0, loc0, s).result.value;
      && ScanWord(data, p0, loc0, s).result.Success?
      && !IsWordChar(CharAt(data, e))
      && (t.tokenType == Identifier <==> Keyword(data[s..e]) == Identifier)
      && (t.tokenType == Identifier ==> t.identifier == data[s..e])
      && (t.tokenType != Identifier ==> t.tokenType == Keyword(data[s..e]) && t.identifier == "")
  {
  }

  /** Distinct punctuation characters give distinct token types. */
  lemma PunctuationInjective(c: int, d: int)
    requires Punctuation(c).Some? && Punctuation(c) == Punctuation(d)
    ensures c == d
  {
  }

  /** At the end of the input the lexer yields EndOfFile, and any
      character that starts no token is an error naming it. */
  lemma ScanSymbolOutcome(data: string, p0: nat, loc0: Location, s: nat)
    requires !IsDigit(CharAt(data, s)) && !IsAlpha(CharAt(data, s)) && CharAt(data, s) != '_' as int
    ensures var sc := ScanSymbol(data, p0, loc0, s);
      var c := CharAt(data, s);
      && (s >= |data| ==> sc.result == Success(MakeToken(EndOfFile, Locate(loc0, data, p0, s + 1))))
      && (sc.result.Failure? <==> s < |data| && Punctuation(c).None?)
      && (sc.result.Success? && s < |data| ==> Some(sc.result.value.tokenType) == Punctuation(c))
  {
  }

  /** Every call consumes input: the next call starts further on, and
      within one past the end of the file. */
  lemma ScanAdvances(data: string, p0: nat, loc0: Location)
    requires p0 <= |data|
    ensures var sc := Scan(data, p0, loc0);
      && p0 < sc.next <= |data| + 1
      && (sc.result.Success? && sc.result.value.tokenType != EndOfFile ==> sc.next <= |data|)
  {
    var s := TokenStart(data, p0);
    var c := CharAt(data, s);
    if IsDigit(c) {
      var e := DigitsEnd(data, s + 1);
      if CharAt(data, e) == '#' as int && DigitsEnd(data, e + 2) > |data| {
        // '#' is the last character: the width reads EOF and is too big
        assert DigitsEnd(data, e + 2) == e + 2 == |data| + 1;
        assert Accumulate(data, e + 1, e + 2) == MOD64 - 49;
      }
    } else if IsAlpha(c) || c == '_' as int {
      assert s < |data|;
    } else if s < |data| {
      assert Scan(data, p0, loc0) == ScanSymbol(data, p0, loc0, s);
    } else {
      assert c == EOF && Punctuation(c).None?;
      assert Scan(data, p0, loc0).result.value.tokenType == EndOfFile;
    }
  }

  /** The tokens successive readNextToken calls yield from position p with
      the lexer at loc, up to EndOfFile, and the error of the call that
      throws, if one does. */
  datatype Lexed = Lexed(tokens: seq<Token>, error: Option<string>)

  /** Reads tokens until EndOfFile or an error; each call starts where the
      previous one left the stream and the location. Exactly the last token
      of an error-free run is EndOfFile. */
  function Tokenize(data: string, p: nat, loc: Location): (r: Lexed)
    requires p <= |data|
    ensures r.error.None? ==> |r.tokens| > 0
    ensures forall i :: 0 <= i < |r.tokens| ==>
      (r.tokens[i].tokenType == EndOfFile <==> r.error.None? && i == |r.tokens| - 1)
    decreases |data| - p
  {
    var sc := Scan(data, p, loc);
    ScanAdvances(data, p, loc);
    match sc.result
    case Failure(e) => Lexed([], Some(e))
    case Success(t) =>
      if t.tokenType == EndOfFile then Lexed([t], None)
      else
        var rest := Tokenize(data, sc.next, Locate(loc, data, p, sc.next));
        Lexed([t] + rest.tokens, rest.error)
  }

  // The comment loop as the source writes it reads until it has read a line
  // break; get() keeps returning EOF at the end of the file, so a comment
  // on the last line without a line break never ends.

  /** The comment loop as written, from the comment's text at v: the
      position of the line break it stops at, or None if it has not stopped
      within `fuel` reads. */
  function CommentLoopAsWritten(data: string, v: nat, fuel: nat): Option<nat>
    decreases fuel
  {
    if fuel == 0 then None
    else if CharAt(data, v) == '\n' as int then Some(v)
    else CommentLoopAsWritten(data, v + 1, fuel - 1)
  }

  /** A comment with no line break after it never ends, however many
      characters are read: "//" alone makes readNextToken loop forever. */
  lemma {:induction false} CommentAtEndOfFileNeverEnds(data: string, v: nat, fuel: nat)
    requires forall q :: v <= q < |data| ==> data[q] != '\n'
    ensures CommentLoopAsWritten(data, v, fuel) == None
    decreases fuel
  {
    if fuel > 0 {
      CommentAtEndOfFileNeverEnds(data, v + 1, fuel - 1);
    }
  }

  /** The corrected loop also stops at the end of the file, and everywhere
      else stops where the loop as written does. */
  lemma {:induction false} CommentEndAgrees(data: string, v: nat)
    requires v <= |data|
    ensures CommentEnd(data, v) < |data| ==>
      CommentLoopAsWritten(data, v, CommentEnd(data, v) - v + 1) == Some(CommentEnd(data, v))
    ensures (forall q :: v <= q < |data| ==> data[q] != '\n') ==> CommentEnd(data, v) == |data|
    decreases |data| - v
  {
    if v < |data| && data[v] != '\n' {
      CommentEndAgrees(data, v + 1);
    }
  }

  /** With the corrected loop, a file ending in a comment without a line
      break yields EndOfFile after it. */
  lemma CommentAtEndOfFileEnds(data: string, p0: nat, loc0: Location)
    requires p0 + 2 <= |data| && data[p0] == '/' && data[p0 + 1] == '/'
    requires forall q :: p0 + 2 <= q < |data| ==> data[q] != '\n'
    ensures Scan(data, p0, loc0).result.Success?
    ensures Scan(data, p0, loc0).result.value.tokenType == EndOfFile
  {
    CommentEndAgrees(data, p0 + 2);
    assert TokenStart(data, p0) == |data|;
  }
}
