// The compiler's tokenizer: a cursor walks the source text and a fixed list
// of matchers (string literal, whitespace, comment, colour, delimiter,
// number, word) is tried at each position; a matcher that fails has the
// cursor put back where it started.
module Tokenizer {
  import opened Wrappers
  import Keyword
  import Keywords

  /** `CodePosition`: zero-based line and column. */
  datatype Position = Position(line: nat, column: nat)

  /** The iterator into the code and the position reported for it. */
  datatype Cursor = Cursor(pos: nat, at: Position)

  datatype Color = Color(red: nat, green: nat, blue: nat)

  /** The one field of a `Token` its symbol gives a meaning to: the text
      of a string literal or user token, a number, or a colour. */
  datatype Payload = Bare | Text(text: string) | Number(value: real) | Paint(color: Color)

  datatype Token = Token(at: Position, symbol: int, payload: Payload)

  const Start: Cursor := Cursor(0, Position(0, 0))

  // ---- characters ----

  /** `checkCurrentIsWhitespace`: \r \n \t \f \v and space. */
  predicate IsSpace(c: char)
  {
    c == '\r' || c == '\n' || c == '\t' || c == '\U{0C}' || c == '\U{0B}' || c == ' '
  }

  predicate IsDigit(c: char) { '0' <= c <= '9' }

  predicate IsHexDigit(c: char) { IsDigit(c) || 'a' <= c <= 'f' || 'A' <= c <= 'F' }

  function DigitValue(c: char): (v: nat)
    requires IsDigit(c)
    ensures v < 10
  {
    c as int - '0' as int
  }

  function HexValue(c: char): (v: nat)
    requires IsHexDigit(c)
    ensures v < 16
  {
    if IsDigit(c) then DigitValue(c)
    else if 'a' <= c <= 'f' then c as int - 'a' as int + 10
    else c as int - 'A' as int + 10
  }

  /** `std::stoi(pair, 0, 16)` of two hex digits. */
  function HexByte(hi: char, lo: char): (v: nat)
    requires IsHexDigit(hi) && IsHexDigit(lo)
    ensures v < 256
  {
    16 * HexValue(hi) + HexValue(lo)
  }

  predicate AllDigits(s: string) { forall i :: 0 <= i < |s| ==> IsDigit(s[i]) }

  /** The value of a string of decimal digits. */
  function DigitsValue(s: string): nat
    requires AllDigits(s)
  {
    if s == [] then 0 else 10 * DigitsValue(s[..|s| - 1]) + DigitValue(s[|s| - 1])
  }

  function Pow10(n: nat): (p: nat)
    ensures p > 0
  {
    if n == 0 then 1 else 10 * Pow10(n - 1)
  }

  /** `std::stod` of "whole.frac". */
  function Decimal(whole: string, frac: string): real
    requires AllDigits(whole) && AllDigits(frac)
  {
    DigitsValue(whole) as real + DigitsValue(frac) as real / Pow10(|frac|) as real
  }

  /** The characters at `p` and `p + 1` are `a` and `b` (`checkNextIsEq`). */
  predicate PairAt(code: string, p: nat, a: char, b: char)
  {
    p + 1 < |code| && code[p] == a && code[p + 1] == b
  }

  // ---- moving the cursor ----

  /** The inner loop of `nextChar`: every newline of a run moves to the
      start of the next line. */
  function SkipNewlines(code: string, c: Cursor): (r: Cursor)
    requires c.pos <= |code|
    ensures c.pos <= r.pos <= |code|
    ensures r.pos == |code| || code[r.pos] != '\n'
    ensures forall i :: c.pos <= i < r.pos ==> code[i] == '\n'
    ensures r.pos > c.pos ==> r.at == Position(c.at.line + (r.pos - c.pos), 0)
    ensures r.pos == c.pos ==> r == c
    decreases |code| - c.pos
  {
    if c.pos < |code| && code[c.pos] == '\n' then SkipNewlines(code, Cursor(c.pos + 1, Position(c.at.line + 1, 0)))
    else c
  }

  /** `nextChar`: one character forward on the same line, or past a whole
      run of newlines to the start of a later line; nothing at the end. */
  function Next(code: string, c: Cursor): (r: Cursor)
    requires c.pos <= |code|
    ensures c.pos <= r.pos <= |code|
    ensures c.pos < |code| ==> c.pos < r.pos
  {
    if c.pos == |code| then c
    else if code[c.pos] == '\n' then SkipNewlines(code, c)
    else Cursor(c.pos + 1, Position(c.at.line, c.at.column + 1))
  }

  /** A newline moves to column 0 of the line after the whole run, and
      leaves the cursor on the first character that is not a newline. */
  lemma NextMeaning(code: string, c: Cursor)
    requires c.pos < |code|
    ensures code[c.pos] != '\n' ==> Next(code, c) == Cursor(c.pos + 1, Position(c.at.line, c.at.column + 1))
    ensures code[c.pos] == '\n' ==>
              var r := Next(code, c);
              (forall i :: c.pos <= i < r.pos ==> code[i] == '\n')
              && (r.pos == |code| || code[r.pos] != '\n')
              && r.at == Position(c.at.line + (r.pos - c.pos), 0)
  {
  }

  // ---- scanning loops ----

  /** What a scanning loop accepts at a position. The word class is the
      loop of `matchToken`: it stops at a delimiting character, at "->",
      at "//" and at whitespace. */
  datatype Class = Space | NotNewline | Hex | Digit | Word(symbols: Keywords.SymbolTable)

  predicate Admits(cls: Class, code: string, p: nat)
    requires p < |code|
  {
    match cls
    case Space => IsSpace(code[p])
    case NotNewline => code[p] != '\n'
    case Hex => IsHexDigit(code[p])
    case Digit => IsDigit(code[p])
    case Word(symbols) =>
      !DelimitingChar(symbols, code[p]) && !PairAt(code, p, '-', '>') && !PairAt(code, p, '/', '/') && !IsSpace(code[p])
  }

  /** `checkIsDelimitingSymbol(char)` against a symbol table: the
      character's one-letter spelling names a delimiting symbol. */
  predicate DelimitingChar(symbols: Keywords.SymbolTable, c: char)
  {
    var s := Keywords.FindSymbol(symbols, [c], 0);
    s.Some? && Keywords.IsDelimitingSymbol(s.value)
  }

  lemma DelimitingCharAgrees(c: char)
    ensures DelimitingChar(Keywords.SymbolValuePairs, c) == Keywords.IsDelimitingChar(c)
  {
  }

  /** Where a loop ended and what it collected. */
  datatype Scanned = Scanned(end: Cursor, text: string)

  /** A loop that, while the character under the cursor is of the class,
      collects it and calls `nextChar`. */
  function While(code: string, c: Cursor, cls: Class): (r: Scanned)
    requires c.pos <= |code|
    ensures c.pos <= r.end.pos <= |code|
    ensures r.end.pos == |code| || !Admits(cls, code, r.end.pos)
    ensures |r.text| == 0 ==> r.end == c
    ensures |r.text| > 0 ==> c.pos < r.end.pos
    ensures forall i :: 0 <= i < |r.text| ==> (cls == Hex ==> IsHexDigit(r.text[i])) && (cls == Digit ==> IsDigit(r.text[i]))
    decreases |code| - c.pos
  {
    if c.pos < |code| && Admits(cls, code, c.pos) then
      var rest := While(code, Next(code, c), cls);
      Scanned(rest.end, [code[c.pos]] + rest.text)
    else Scanned(c, [])
  }

  lemma WhileUnfold(code: string, c: Cursor, cls: Class)
    requires c.pos < |code| && Admits(cls, code, c.pos)
    ensures var rest := While(code, Next(code, c), cls);
      While(code, c, cls) == Scanned(rest.end, [code[c.pos]] + rest.text)
  {
  }

  /** Outside whitespace no character is a newline, so such a loop collects
      exactly the characters it passes, one column each, and stops at the
      first one outside the class. */
  /** One turn of the scanning loop keeps the text taken so far, followed
      by the rest of the scan, equal to the whole scan. */
  lemma WhileStep(code: string, c: Cursor, cls: Class, text: string, whole: Scanned)
    requires c.pos < |code| && Admits(cls, code, c.pos)
    requires whole == Scanned(While(code, c, cls).end, text + While(code, c, cls).text)
    ensures var n := Next(code, c);
      whole == Scanned(While(code, n, cls).end, (text + [code[c.pos]]) + While(code, n, cls).text)
  {
    WhileUnfold(code, c, cls);
    var rest := While(code, Next(code, c), cls);
    assert text + ([code[c.pos]] + rest.text) == (text + [code[c.pos]]) + rest.text;
  }

  lemma {:induction false} WhileOnOneLine(code: string, c: Cursor, cls: Class)
    requires c.pos <= |code| && cls != Space
    ensures var r := While(code, c, cls);
      r.end.pos == c.pos + |r.text| && r.text == code[c.pos..r.end.pos]
      && r.end.at == Position(c.at.line, c.at.column + |r.text|)
    decreases |code| - c.pos
  {
    if c.pos < |code| && Admits(cls, code, c.pos) {
      AdmittedNotNewline(code, c.pos, cls);
      var n := Next(code, c);
      assert n == Cursor(c.pos + 1, Position(c.at.line, c.at.column + 1));
      WhileUnfold(code, c, cls);
      WhileOnOneLine(code, n, cls);
      var rest := While(code, n, cls);
      assert [code[c.pos]] + code[n.pos..rest.end.pos] == code[c.pos..rest.end.pos];
    }
  }

  lemma AdmittedNotNewline(code: string, p: nat, cls: Class)
    requires p < |code| && cls != Space && Admits(cls, code, p)
    ensures code[p] != '\n'
  {
    if cls.Word? { assert !IsSpace(code[p]); }
  }

  /** The loop of `matchLiteral`, from the cursor just after a `nextChar`:
      a backslash before a quote takes the quote as a character, a quote
      ends the literal (and is passed), and the end of the code ends it. */
  function StringFrom(code: string, n: Cursor): (r: Scanned)
    requires n.pos <= |code|
    ensures n.pos <= r.end.pos <= |code|
    decreases |code| - n.pos
  {
    if n.pos == |code| then Scanned(n, [])
    else if code[n.pos] == '\\' && PairAt(code, n.pos, '\\', '"') then
      var rest := StringFrom(code, Next(code, Next(code, n)));
      Scanned(rest.end, ['"'] + rest.text)
    else if code[n.pos] == '"' then Scanned(Next(code, n), [])
    else
      var rest := StringFrom(code, Next(code, n));
      Scanned(rest.end, [code[n.pos]] + rest.text)
  }

  lemma StringFromUnfold(code: string, n: Cursor)
    requires n.pos < |code|
    ensures PairAt(code, n.pos, '\\', '"') ==>
              var rest := StringFrom(code, Next(code, Next(code, n)));
              StringFrom(code, n) == Scanned(rest.end, ['"'] + rest.text)
    ensures !PairAt(code, n.pos, '\\', '"') && code[n.pos] == '"' ==> StringFrom(code, n) == Scanned(Next(code, n), [])
    ensures !PairAt(code, n.pos, '\\', '"') && code[n.pos] != '"' ==>
              var rest := StringFrom(code, Next(code, n));
              StringFrom(code, n) == Scanned(rest.end, [code[n.pos]] + rest.text)
  {
  }

  /** The same loop as written: `nextChar` eats the backslash and the loop's
      own `nextChar` then passes the quote without collecting it. */
  /** The string loop's three turns, each keeping the text taken so far,
      followed by the rest of the string, equal to the whole string. */
  lemma EscapedQuoteStep(code: string, n: Cursor, text: string, whole: Scanned)
    requires n.pos < |code| && PairAt(code, n.pos, '\\', '"')
    requires whole == Scanned(StringFrom(code, n).end, text + StringFrom(code, n).text)
    ensures var m := Next(code, Next(code, n));
      whole == Scanned(StringFrom(code, m).end, (text + ['"']) + StringFrom(code, m).text)
  {
    StringFromUnfold(code, n);
    var rest := StringFrom(code, Next(code, Next(code, n)));
    assert text + (['"'] + rest.text) == (text + ['"']) + rest.text;
  }

  lemma ClosingQuoteStep(code: string, n: Cursor, text: string, whole: Scanned)
    requires n.pos < |code| && !PairAt(code, n.pos, '\\', '"') && code[n.pos] == '"'
    requires whole == Scanned(StringFrom(code, n).end, text + StringFrom(code, n).text)
    ensures whole == Scanned(Next(code, n), text)
  {
    StringFromUnfold(code, n);
  }

  lemma PlainCharStep(code: string, n: Cursor, text: string, whole: Scanned)
    requires n.pos < |code| && !PairAt(code, n.pos, '\\', '"') && code[n.pos] != '"'
    requires whole == Scanned(StringFrom(code, n).end, text + StringFrom(code, n).text)
    ensures var m := Next(code, n);
      whole == Scanned(StringFrom(code, m).end, (text + [code[n.pos]]) + StringFrom(code, m).text)
  {
    StringFromUnfold(code, n);
    var rest := StringFrom(code, Next(code, n));
    assert text + ([code[n.pos]] + rest.text) == (text + [code[n.pos]]) + rest.text;
  }

  function StringFromAsWritten(code: string, n: Cursor): (r: Scanned)
    requires n.pos <= |code|
    ensures n.pos <= r.end.pos <= |code|
    decreases |code| - n.pos
  {
    if n.pos == |code| then Scanned(n, [])
    else if code[n.pos] == '\\' && PairAt(code, n.pos, '\\', '"') then
      StringFromAsWritten(code, Next(code, Next(code, n)))
    else if code[n.pos] == '"' then Scanned(Next(code, n), [])
    else
      var rest := StringFromAsWritten(code, Next(code, n));
      Scanned(rest.end, [code[n.pos]] + rest.text)
  }

  /** A string as it is written between quotes: each quote preceded by a backslash. */
  function Escape(s: string): (r: string)
    ensures |r| >= |s|
  {
    if s == [] then [] else (if s[0] == '"' then "\\\"" else [s[0]]) + Escape(s[1..])
  }

  /** Text a literal can carry: no backslash and no newline. */
  predicate Plain(s: string)
  {
    forall i :: 0 <= i < |s| ==> s[i] != '\\' && s[i] != '\n'
  }

  /** Reading an escaped string back up to its closing quote gives the
      string, and leaves the cursor just past the quote. */
  lemma {:induction false} EscapeRoundTrip(code: string, n: Cursor, s: string)
    requires Plain(s)
    requires n.pos + |Escape(s)| < |code|
    requires code[n.pos..n.pos + |Escape(s)|] == Escape(s) && code[n.pos + |Escape(s)|] == '"'
    ensures StringFrom(code, n).text == s
    ensures StringFrom(code, n).end.pos == n.pos + |Escape(s)| + 1
    decreases s
  {
    if s != [] {
      var m := EscapeStep(code, n, s);
      EscapeRoundTrip(code, m, s[1..]);
      assert [s[0]] + s[1..] == s;
    } else {
      StringFromUnfold(code, n);
    }
  }

  /** One character of an escaped string: the cursor after it, with the rest
      of the string still in place there. */
  lemma EscapeStep(code: string, n: Cursor, s: string) returns (m: Cursor)
    requires Plain(s) && s != []
    requires n.pos + |Escape(s)| < |code|
    requires code[n.pos..n.pos + |Escape(s)|] == Escape(s) && code[n.pos + |Escape(s)|] == '"'
    ensures Plain(s[1..])
    ensures m.pos + |Escape(s[1..])| == n.pos + |Escape(s)|
    ensures code[m.pos..m.pos + |Escape(s[1..])|] == Escape(s[1..])
    ensures StringFrom(code, n) == Scanned(StringFrom(code, m).end, [s[0]] + StringFrom(code, m).text)
  {
    var e := Escape(s);
    StringFromUnfold(code, n);
    PlainTail(s);
    var k := if s[0] == '"' then 2 else 1;
    assert e == e[..k] + Escape(s[1..]);
    SliceShift(code, n.pos, e, k);
    assert code[n.pos] == e[0];
    if s[0] == '"' {
      assert code[n.pos + 1] == e[1];
      m := Next(code, Next(code, n));
    } else {
      m := Next(code, n);
    }
  }

  lemma PlainTail(s: string)
    requires Plain(s) && s != []
    ensures Plain(s[1..]) && s[0] != '\\' && s[0] != '\n'
  {
    assert forall i :: 0 <= i < |s[1..]| ==> s[1..][i] == s[i + 1];
  }

  lemma SliceShift(code: string, p: nat, e: string, k: nat)
    requires p + |e| <= |code| && code[p..p + |e|] == e && k <= |e|
    ensures code[p + k..p + |e|] == e[k..]
  {
    assert code[p + k..p + |e|] == code[p..p + |e|][k..];
  }

  /** As written, the escaped quote is lost: `"\""` reads back as nothing. */
  lemma EscapedQuoteLostAsWritten()
    ensures var code := "\"\\\"\"";
      |code| == 4 && StringFromAsWritten(code, Cursor(1, Position(0, 1))).text == []
      && StringFrom(code, Cursor(1, Position(0, 1))).text == "\""
  {
    var code := "\"\\\"\"";
    var n := Cursor(1, Position(0, 1));
    assert PairAt(code, 1, '\\', '"');
    var m := Next(code, Next(code, n));
    assert m == Cursor(3, Position(0, 3));
    assert StringFromAsWritten(code, m) == Scanned(Cursor(4, Position(0, 4)), []);
    assert StringFrom(code, m) == Scanned(Cursor(4, Position(0, 4)), []);
  }

  // ---- the matchers, on values ----

  /** What a matcher that succeeds leaves: the cursor, and the tokens it
      pushes (none or one). */
  datatype Step = Step(next: Cursor, emitted: seq<Token>)

  predicate Advances(code: string, c: Cursor, r: Option<Step>)
    requires c.pos <= |code|
  {
    r.Some? ==> c.pos < r.value.next.pos <= |code|
  }

  /** `matchLiteral`: a quote starts a string; an empty one pushes nothing. */
  function LiteralScan(code: string, c: Cursor): (r: Option<Step>)
    requires c.pos <= |code|
    ensures Advances(code, c, r)
  {
    if c.pos == |code| || code[c.pos] != '"' then None
    else
      var body := StringFrom(code, Next(code, c));
      Some(Step(body.end, if |body.text| > 0 then [Token(c.at, Keyword.UserString, Text(body.text))] else []))
  }

  /** `matchWhitespace`: passes a run of whitespace. */
  function WhitespaceScan(code: string, c: Cursor): (r: Option<Step>)
    requires c.pos <= |code|
    ensures Advances(code, c, r)
  {
    if c.pos == |code| || !IsSpace(code[c.pos]) then None
    else Some(Step(While(code, Next(code, c), Space).end, []))
  }

  /** `matchComment`: "//" up to the next newline. */
  function CommentScan(code: string, c: Cursor): (r: Option<Step>)
    requires c.pos <= |code|
    ensures Advances(code, c, r)
  {
    if !PairAt(code, c.pos, '/', '/') then None
    else Some(Step(While(code, Next(code, c), NotNewline).end, []))
  }

  /** `matchColor`: '#', then the hex digits after it must be exactly six
      and must not run to the end of the code. */
  function ColorScan(code: string, c: Cursor): (r: Option<Step>)
    requires c.pos <= |code|
    ensures Advances(code, c, r)
  {
    if c.pos == |code| || code[c.pos] != '#' then None
    else
      var hex := While(code, Next(code, c), Hex);
      if hex.end.pos == |code| || |hex.text| != 6 then None
      else
        var color := Color(HexByte(hex.text[0], hex.text[1]), HexByte(hex.text[2], hex.text[3]),
                           HexByte(hex.text[4], hex.text[5]));
        Some(Step(hex.end, [Token(c.at, Keyword.ColorLiteral, Paint(color))]))
  }

  /** `matchDelimitingSymbol`: "->" is the arrow; otherwise the one
      character's symbol, when it is a delimiting one. */
  function DelimiterScan(code: string, c: Cursor, symbols: Keywords.SymbolTable): (r: Option<Step>)
    requires c.pos <= |code|
    ensures Advances(code, c, r)
  {
    if c.pos == |code| then None
    else
      var arrow := PairAt(code, c.pos, '-', '>');
      var symbol := if arrow then Some(Keyword.Arrow) else Keywords.FindSymbol(symbols, [code[c.pos]], 0);
      var n := if arrow then Next(code, c) else c;
      if symbol.Some? && Keywords.IsDelimitingSymbol(symbol.value) then
        Some(Step(Next(code, n), [Token(c.at, symbol.value, Bare)]))
      else None
  }

  /** `matchNumber`: digits are a scalar; digits, '.', digits a float; and
      digits followed by a '.' without a digit are no number at all. */
  function NumberScan(code: string, c: Cursor): (r: Option<Step>)
    requires c.pos <= |code|
    ensures Advances(code, c, r)
  {
    var whole := While(code, c, Digit);
    if |whole.text| == 0 then None
    else if whole.end.pos < |code| && code[whole.end.pos] == '.' then
      var frac := While(code, Next(code, whole.end), Digit);
      if |frac.text| == 0 then None
      else Some(Step(frac.end, [Token(c.at, Keyword.FloatType, Number(Decimal(whole.text, frac.text)))]))
    else Some(Step(whole.end, [Token(c.at, Keyword.ScalarType, Number(DigitsValue(whole.text) as real))]))
  }

  /** `matchToken`: a reserved word becomes its symbol, anything else a user token. */
  function WordScan(code: string, c: Cursor, symbols: Keywords.SymbolTable): (r: Option<Step>)
    requires c.pos <= |code|
    ensures Advances(code, c, r)
  {
    var w := While(code, c, Word(symbols));
    if |w.text| == 0 then None
    else
      var symbol := Keywords.FindSymbol(symbols, w.text, 0);
      Some(Step(w.end, [if symbol.Some? then Token(c.at, symbol.value, Bare)
                        else Token(c.at, Keyword.UserToken, Text(w.text))]))
  }

  /** The matchers in the order the loop tries them; the first that
      succeeds decides. */
  function FirstMatch(code: string, c: Cursor, symbols: Keywords.SymbolTable): (r: Option<Step>)
    requires c.pos <= |code|
    ensures Advances(code, c, r)
  {
    var literal := LiteralScan(code, c);
    if literal.Some? then literal else
    var space := WhitespaceScan(code, c);
    if space.Some? then space else
    var comment := CommentScan(code, c);
    if comment.Some? then comment else
    LaterMatch(code, c, symbols)
  }

  /** The matchers after the comment: colour, delimiter, number, word. */
  function LaterMatch(code: string, c: Cursor, symbols: Keywords.SymbolTable): (r: Option<Step>)
    requires c.pos <= |code|
    ensures Advances(code, c, r)
  {
    var color := ColorScan(code, c);
    if color.Some? then color else
    var delimiter := DelimiterScan(code, c, symbols);
    if delimiter.Some? then delimiter else
    var number := NumberScan(code, c);
    if number.Some? then number else
    WordScan(code, c, symbols)
  }

  /** The loop of `tokenizeInput`: match until the end, or stop when no
      matcher applies. */
  function Run(code: string, c: Cursor, symbols: Keywords.SymbolTable): (r: seq<Token>)
    requires c.pos <= |code|
    decreases |code| - c.pos
  {
    if c.pos == |code| then []
    else match FirstMatch(code, c, symbols)
      case None => []
      case Some(s) => s.emitted + Run(code, s.next, symbols)
  }

  lemma RunUnfold(code: string, c: Cursor, symbols: Keywords.SymbolTable)
    requires c.pos < |code| && FirstMatch(code, c, symbols).Some?
    ensures var s := FirstMatch(code, c, symbols).value;
      Run(code, c, symbols) == s.emitted + Run(code, s.next, symbols)
  {
  }

  /** One turn of the loop: the tokens the first matcher emits, followed by
      the rest of the run, are the run from here. */
  lemma RunStep(code: string, c: Cursor, symbols: Keywords.SymbolTable, before: seq<Token>, after: seq<Token>, whole: seq<Token>)
    requires c.pos < |code| && FirstMatch(code, c, symbols).Some?
    requires before + Run(code, c, symbols) == whole
    requires after == before + FirstMatch(code, c, symbols).value.emitted
    ensures after + Run(code, FirstMatch(code, c, symbols).value.next, symbols) == whole
  {
    RunUnfold(code, c, symbols);
  }

  function Tokenize(code: string): seq<Token>
  {
    Run(code, Start, Keywords.SymbolValuePairs)
  }

  // ---- what the matchers mean ----

  /** Some matcher applies wherever the code has not ended, so the loop
      consumes everything (the `assert(pos == code.end())` holds). */
  lemma EveryPositionMatches(code: string, c: Cursor, symbols: Keywords.SymbolTable)
    requires c.pos < |code|
    ensures FirstMatch(code, c, symbols).Some?
  {
    if LiteralScan(code, c).None? && WhitespaceScan(code, c).None? && CommentScan(code, c).None?
       && ColorScan(code, c).None? && DelimiterScan(code, c, symbols).None? && NumberScan(code, c).None? {
      assert !IsSpace(code[c.pos]);
      assert !PairAt(code, c.pos, '/', '/');
      assert !PairAt(code, c.pos, '-', '>') by {
        DelimitingArrow();
      }
      assert !DelimitingChar(symbols, code[c.pos]);
      assert Admits(Word(symbols), code, c.pos);
    }
  }

  lemma DelimitingArrow()
    ensures Keywords.IsDelimitingSymbol(Keyword.Arrow)
  {
  }

  /** `#` and six hex digits not at the end of the code give a colour whose
      channels are the three hex pairs; every other `#` gives none. */
  lemma ColorMeaning(code: string, c: Cursor)
    requires c.pos < |code| && code[c.pos] == '#'
    ensures ColorScan(code, c).Some? <==>
              c.pos + 7 < |code| && (forall i :: c.pos < i <= c.pos + 6 ==> IsHexDigit(code[i]))
              && !IsHexDigit(code[c.pos + 7])
    ensures ColorScan(code, c).Some? ==>
              ColorScan(code, c) == Some(Step(Cursor(c.pos + 7, Position(c.at.line, c.at.column + 7)),
                [Token(c.at, Keyword.ColorLiteral,
                       Paint(Color(HexByte(code[c.pos + 1], code[c.pos + 2]), HexByte(code[c.pos + 3], code[c.pos + 4]),
                                   HexByte(code[c.pos + 5], code[c.pos + 6]))))]))
  {
    var n := Next(code, c);
    assert n == Cursor(c.pos + 1, Position(c.at.line, c.at.column + 1));
    WhileOnOneLine(code, n, Hex);
    var hex := While(code, n, Hex);
    if c.pos + 7 < |code| && (forall i :: c.pos < i <= c.pos + 6 ==> IsHexDigit(code[i])) && !IsHexDigit(code[c.pos + 7]) {
      assert hex.end.pos == c.pos + 7;
    }
  }

  /** Digits alone are a scalar of their value. */
  lemma ScalarMeaning(code: string, c: Cursor)
    requires c.pos <= |code|
    requires var w := While(code, c, Digit); |w.text| > 0 && (w.end.pos == |code| || code[w.end.pos] != '.')
    ensures var w := While(code, c, Digit);
      NumberScan(code, c) == Some(Step(w.end, [Token(c.at, Keyword.ScalarType, Number(DigitsValue(w.text) as real))]))
      && w.text == code[c.pos..w.end.pos]
  {
    WhileOnOneLine(code, c, Digit);
  }

  /** Digits, a dot and digits are a float of that decimal value; a dot
      without a digit after it makes no number. */
  lemma FloatMeaning(code: string, c: Cursor)
    requires c.pos <= |code|
    requires var w := While(code, c, Digit); |w.text| > 0 && w.end.pos < |code| && code[w.end.pos] == '.'
    ensures var w := While(code, c, Digit);
      var f := While(code, Cursor(w.end.pos + 1, Position(w.end.at.line, w.end.at.column + 1)), Digit);
      (|f.text| == 0 <==> NumberScan(code, c).None?)
      && (|f.text| > 0 ==> NumberScan(code, c) == Some(Step(f.end, [Token(c.at, Keyword.FloatType, Number(Decimal(w.text, f.text)))])))
      && (|f.text| == 0 <==> (w.end.pos + 1 == |code| || !IsDigit(code[w.end.pos + 1])))
  {
    var w := While(code, c, Digit);
    var n := Next(code, w.end);
    assert n == Cursor(w.end.pos + 1, Position(w.end.at.line, w.end.at.column + 1));
  }

  /** The literal `""` pushes no token. */
  lemma EmptyLiteralIsDropped(code: string, c: Cursor)
    requires PairAt(code, c.pos, '"', '"')
    ensures LiteralScan(code, c) == Some(Step(Cursor(c.pos + 2, Position(c.at.line, c.at.column + 2)), []))
  {
    var n := Next(code, c);
    assert n == Cursor(c.pos + 1, Position(c.at.line, c.at.column + 1));
  }

  /** A quoted, escaped string is one UserString token carrying the string,
      or nothing when it is empty. */
  lemma LiteralRoundTrip(code: string, c: Cursor, s: string)
    requires Plain(s)
    requires c.pos + |Escape(s)| + 1 < |code|
    requires code[c.pos] == '"' && code[c.pos + 1..c.pos + 1 + |Escape(s)|] == Escape(s)
    requires code[c.pos + 1 + |Escape(s)|] == '"'
    ensures LiteralScan(code, c).Some?
    ensures LiteralScan(code, c).value.next.pos == c.pos + |Escape(s)| + 2
    ensures LiteralScan(code, c).value.emitted == if s == [] then [] else [Token(c.at, Keyword.UserString, Text(s))]
  {
    var n := Next(code, c);
    assert n.pos == c.pos + 1;
    EscapeRoundTrip(code, n, s);
    if s != [] {
      assert |s| > 0;
    }
  }

  // ---- the tokenizer, as the cursor-moving code it is ----

  class Tokenizer {
    const code: string
    /** `getSymbolValuePairs()`. */
    const symbols: Keywords.SymbolTable
    /** `pos` and `currentPos`. */
    var cur: Cursor
    /** `myTokens`. */
    var tokens: seq<Token>

    predicate Valid()
      reads this
    {
      cur.pos <= |code|
    }

    constructor(code: string)
      ensures Valid() && this.code == code && cur == Start && tokens == []
      ensures symbols == Keywords.SymbolValuePairs
    {
      this.code := code;
      symbols := Keywords.SymbolValuePairs;
      cur := Start;
      tokens := [];
    }

    /** `nextChar`; the result is `notEnd()` afterwards. */
    method NextChar() returns (more: bool)
      requires Valid()
      modifies this
      ensures Valid() && cur == Next(code, old(cur)) && tokens == old(tokens)
      ensures more == (cur.pos < |code|)
    {
      if cur.pos == |code| {
        return false;
      }
      if code[cur.pos] == '\n' {
        while cur.pos < |code| && code[cur.pos] == '\n'
          invariant Valid() && tokens == old(tokens)
          invariant SkipNewlines(code, cur) == SkipNewlines(code, old(cur))
          decreases |code| - cur.pos
        {
          cur := Cursor(cur.pos + 1, Position(cur.at.line + 1, 0));
        }
      } else {
        cur := Cursor(cur.pos + 1, Position(cur.at.line, cur.at.column + 1));
      }
      more := cur.pos < |code|;
    }

    /** A scanning loop: collect and advance while the class admits the
        character under the cursor. */
    method TakeWhile(cls: Class) returns (text: string)
      requires Valid()
      modifies this
      ensures Valid() && tokens == old(tokens)
      ensures Scanned(cur, text) == While(code, old(cur), cls)
    {
      text := [];
      ghost var whole := While(code, cur, cls);
      while cur.pos < |code| && Admits(cls, code, cur.pos)
        invariant Valid() && tokens == old(tokens)
        invariant whole == Scanned(While(code, cur, cls).end, text + While(code, cur, cls).text)
        decreases |code| - cur.pos
      {
        WhileStep(code, cur, cls, text, whole);
        text := text + [code[cur.pos]];
        var more := NextChar();
      }
    }

    method TakeString(more0: bool) returns (text: string)
      requires Valid() && more0 == (cur.pos < |code|)
      modifies this
      ensures Valid() && tokens == old(tokens)
      ensures Scanned(cur, text) == StringFrom(code, old(cur))
    {
      text := [];
      var more := more0;
      ghost var whole := StringFrom(code, cur);
      while more
        invariant Valid() && tokens == old(tokens) && more == (cur.pos < |code|)
        invariant whole == Scanned(StringFrom(code, cur).end, text + StringFrom(code, cur).text)
        decreases |code| - cur.pos
      {
        if code[cur.pos] == '\\' && PairAt(code, cur.pos, '\\', '"') {
          EscapedQuoteStep(code, cur, text, whole);
          more := NextChar();
          text := text + ['"'];
          more := NextChar();
        } else if code[cur.pos] == '"' {
          ClosingQuoteStep(code, cur, text, whole);
          more := NextChar();
          return;
        } else {
          PlainCharStep(code, cur, text, whole);
          text := text + [code[cur.pos]];
          more := NextChar();
        }
      }
    }

    method MatchLiteral() returns (ok: bool)
      requires Valid()
      modifies this
      ensures Valid()
      ensures ok == LiteralScan(code, old(cur)).Some?
      ensures ok ==> cur == LiteralScan(code, old(cur)).value.next
      ensures tokens == old(tokens) + (if ok then LiteralScan(code, old(cur)).value.emitted else [])
    {
      if cur.pos == |code| || code[cur.pos] != '"' {
        return false;
      }
      var start := cur.at;
      var more := NextChar();
      var text := TakeString(more);
      if |text| > 0 {
        tokens := tokens + [Token(start, Keyword.UserString, Text(text))];
      }
      return true;
    }

    method MatchWhitespace() returns (ok: bool)
      requires Valid()
      modifies this
      ensures Valid() && tokens == old(tokens)
      ensures ok == WhitespaceScan(code, old(cur)).Some?
      ensures ok ==> cur == WhitespaceScan(code, old(cur)).value.next
    {
      if cur.pos == |code| || !IsSpace(code[cur.pos]) {
        return false;
      }
      var more := NextChar();
      var passed := TakeWhile(Space);
      return true;
    }

    method MatchComment() returns (ok: bool)
      requires Valid()
      modifies this
      ensures Valid() && tokens == old(tokens)
      ensures ok == CommentScan(code, old(cur)).Some?
      ensures ok ==> cur == CommentScan(code, old(cur)).value.next
    {
      if !PairAt(code, cur.pos, '/', '/') {
        return false;
      }
      var more := NextChar();
      var passed := TakeWhile(NotNewline);
      return true;
    }

    method MatchColor() returns (ok: bool)
      requires Valid()
      modifies this
      ensures Valid()
      ensures ok == ColorScan(code, old(cur)).Some?
      ensures ok ==> cur == ColorScan(code, old(cur)).value.next
      ensures tokens == old(tokens) + (if ok then ColorScan(code, old(cur)).value.emitted else [])
    {
      if cur.pos == |code| || code[cur.pos] != '#' {
        return false;
      }
      var start := cur.at;
      var more := NextChar();
      var hex := TakeWhile(Hex);
      if cur.pos == |code| || |hex| != 6 {
        return false;
      }
      var color := Color(HexByte(hex[0], hex[1]), HexByte(hex[2], hex[3]), HexByte(hex[4], hex[5]));
      tokens := tokens + [Token(start, Keyword.ColorLiteral, Paint(color))];
      return true;
    }

    method MatchDelimitingSymbol() returns (ok: bool)
      requires Valid()
      modifies this
      ensures Valid()
      ensures ok == DelimiterScan(code, old(cur), symbols).Some?
      ensures ok ==> cur == DelimiterScan(code, old(cur), symbols).value.next
      ensures tokens == old(tokens) + (if ok then DelimiterScan(code, old(cur), symbols).value.emitted else [])
    {
      if cur.pos == |code| {
        return false;
      }
      var start := cur.at;
      var symbol: Option<int>;
      if PairAt(code, cur.pos, '-', '>') {
        symbol := Some(Keyword.Arrow);
        var more := NextChar();
      } else {
        symbol := Keywords.FindSymbol(symbols, [code[cur.pos]], 0);
      }
      if symbol.Some? && Keywords.IsDelimitingSymbol(symbol.value) {
        tokens := tokens + [Token(start, symbol.value, Bare)];
        var more := NextChar();
        return true;
      }
      return false;
    }

    method MatchNumber() returns (ok: bool)
      requires Valid()
      modifies this
      ensures Valid()
      ensures ok == NumberScan(code, old(cur)).Some?
      ensures ok ==> cur == NumberScan(code, old(cur)).value.next
      ensures tokens == old(tokens) + (if ok then NumberScan(code, old(cur)).value.emitted else [])
    {
      var start := cur.at;
      var whole := TakeWhile(Digit);
      if |whole| == 0 {
        return false;
      }
      if cur.pos < |code| && code[cur.pos] == '.' {
        var more := NextChar();
        var frac := TakeWhile(Digit);
        if |frac| == 0 {
          return false;
        }
        tokens := tokens + [Token(start, Keyword.FloatType, Number(Decimal(whole, frac)))];
        return true;
      }
      tokens := tokens + [Token(start, Keyword.ScalarType, Number(DigitsValue(whole) as real))];
      return true;
    }

    method MatchToken() returns (ok: bool)
      requires Valid()
      modifies this
      ensures Valid()
      ensures ok == WordScan(code, old(cur), symbols).Some?
      ensures ok ==> cur == WordScan(code, old(cur), symbols).value.next
      ensures tokens == old(tokens) + (if ok then WordScan(code, old(cur), symbols).value.emitted else [])
    {
      var start := cur.at;
      var word := TakeWhile(Word(symbols));
      if |word| == 0 {
        return false;
      }
      var symbol := Keywords.FindSymbol(symbols, word, 0);
      if symbol.Some? {
        tokens := tokens + [Token(start, symbol.value, Bare)];
      } else {
        tokens := tokens + [Token(start, Keyword.UserToken, Text(word))];
      }
      return true;
    }

    /** One turn of the loop: the matchers in order, each failure putting
        the cursor back where the turn started. */
    method MatchAny() returns (ok: bool)
      requires Valid()
      modifies this
      ensures Valid()
      ensures ok == FirstMatch(code, old(cur), symbols).Some?
      ensures ok ==> cur == FirstMatch(code, old(cur), symbols).value.next
      ensures !ok ==> cur == old(cur)
      ensures tokens == old(tokens) + (if ok then FirstMatch(code, old(cur), symbols).value.emitted else [])
    {
      var saved := cur;
      ok := MatchLiteral();
      if ok { return; }
      cur := saved;
      ok := MatchWhitespace();
      if ok { return; }
      cur := saved;
      ok := MatchComment();
      if ok { return; }
      cur := saved;
      ok := MatchLater();
    }

    /** The rest of the turn, from colour to word. */
    method MatchLater() returns (ok: bool)
      requires Valid()
      modifies this
      ensures Valid()
      ensures ok == LaterMatch(code, old(cur), symbols).Some?
      ensures ok ==> cur == LaterMatch(code, old(cur), symbols).value.next
      ensures !ok ==> cur == old(cur)
      ensures tokens == old(tokens) + (if ok then LaterMatch(code, old(cur), symbols).value.emitted else [])
    {
      var saved := cur;
      ok := MatchColor();
      if ok { return; }
      cur := saved;
      ok := MatchDelimitingSymbol();
      if ok { return; }
      cur := saved;
      ok := MatchNumber();
      if ok { return; }
      cur := saved;
      ok := MatchToken();
      if ok { return; }
      cur := saved;
    }

    /** The loop of `tokenizeInput`; it always reaches the end of the code. */
    method RunAll()
      requires Valid()
      modifies this
      ensures Valid() && cur.pos == |code|
      ensures tokens == old(tokens) + Run(code, old(cur), symbols)
    {
      ghost var whole := tokens + Run(code, cur, symbols);
      while cur.pos < |code|
        invariant Valid()
        invariant tokens + Run(code, cur, symbols) == whole
        decreases |code| - cur.pos
      {
        ghost var before := cur;
        ghost var sofar := tokens;
        EveryPositionMatches(code, cur, symbols);
        var ok := MatchAny();
        if !ok {
          // the source breaks out here; no input reaches it
          assert false;
        }
        RunStep(code, before, symbols, sofar, tokens, whole);
      }
    }
  }

  /** `tokenizeInput`. */
  method TokenizeInput(code: string) returns (tokens: seq<Token>)
    ensures tokens == Tokenize(code)
  {
    var t := new Tokenizer(code);
    t.RunAll();
    tokens := t.tokens;
  }
}
