/** The character scanner of the reader (kscm/scheme/read.c, port.c). */
module Scanner {
  import opened CStrings
  import opened Decimal
  import opened Syntax

  const TOKENS: nat := 1024
  const EXPR_LEN: nat := 64 * 1024  // room for the texts of words, each with a null character

  /** Ports end at a null character; the character that equals EOF ends them too. */
  predicate Ends(c: char) {
    c == '\0' || c == 255 as char
  }

  /** The variables of the scanner: the tokens made, the word it is in, the depth of parentheses, a
      decimal point seen, and whether a datum is complete. glued says that a quote mark came right
      behind a word: what follows then depends on what an earlier call left in the token buffer. */
  datatype Lex = Lex(made: seq<Token>, word: Token, stack: int, inWord: bool, isFloat: bool,
                     finished: bool, glued: bool)

  const START := Lex([], Mark(End), 0, false, false, false, false)

  function Add(x: Lex, kind: Kind): Lex {
    x.(made := x.made + [Mark(kind)])
  }

  /** The word ends. */
  function Close(x: Lex): Lex {
    if x.inWord then x.(made := x.made + [x.word], word := Mark(End), inWord := false) else x
  }

  /** Tokens made or begun. */
  function Size(x: Lex): nat {
    |x.made| + if x.inWord then 1 else 0
  }

  function Begin(x: Lex, kind: Kind, text: string): Lex {
    x.(word := Token(kind, text), inWord := true)
  }

  /** One more character of text; outside a word it lies before the text of the next one. */
  function Append(x: Lex, c: char): Lex {
    if x.inWord then x.(word := Token(x.word.kind, x.word.text + [c])) else x
  }

  function Retype(x: Lex, kind: Kind): Lex {
    x.(word := Token(kind, x.word.text))
  }

  /** A quote mark. */
  function AddQuote(x: Lex, kind: Kind): Lex {
    Add(x, kind).(glued := x.glued || x.inWord)
  }

  /** What # and the character behind it stand for; End is for nothing. */
  function SharpKind(d: char): Kind {
    match d
    case '(' => LeftSharpPar
    case 't' => True
    case 'f' => False
    case 'b' => Number2
    case 'o' => Number8
    case 'd' => Number10
    case 'x' => Number16
    case 'i' => Inexact
    case 'e' => Exact
    case _ => End
  }

  function Sharp(x: Lex, kind: Kind): Lex {
    if kind == End then x
    else Add(x, kind).(stack := if kind == LeftSharpPar then x.stack + 1 else x.stack)
  }

  function OnPoint(x: Lex): Lex {
    Append(
      if !x.inWord then Begin(x, Point, "")
      else if x.isFloat then Retype(x, SymbolWord)
      else if x.word.kind == NumberWord then x.(isFloat := true)
      else x, '.')
  }

  function OnOther(x: Lex, c: char): Lex {
    Append(
      if IsDigit(c) then
        if !x.inWord then Begin(x, NumberWord, "")
        else if x.word.kind == Point then Retype(x, NumberWord).(isFloat := true)
        else x
      else if IsPrint(c) then
        if !x.inWord then Begin(x, SymbolWord, "")
        else if x.word.kind == NumberWord then Retype(x, SymbolWord)
        else x
      else x, c)
  }

  /** White space. */
  function Blank(x: Lex): Lex {
    if x.inWord then Close(x).(isFloat := false, finished := x.stack == 0) else x
  }

  /** A left parenthesis takes the place of a word that it ends. */
  function Open(x: Lex): Lex {
    Add(x.(inWord := false, word := Mark(End)), LeftPar).(stack := x.stack + 1)
  }

  /** A right parenthesis; a number word it ends leaves isFloat as it is. */
  function Shut(x: Lex): Lex {
    Add(Close(x), RightPar).(stack := x.stack - 1, finished := x.stack == 1)
  }

  /** One turn of the loop on character c with d behind it, and the number of characters it takes. */
  function Step(x: Lex, c: char, d: char): (r: (Lex, nat))
    ensures 1 <= r.1 <= 2
  {
    if IsSpace(c) then
      (Blank(x), 1)
    else if c == '(' then
      (Open(x), 1)
    else if c == ')' then
      (Shut(x), 1)
    else if c == '#' then
      if x.inWord then (Append(x, '#'), 1) else (Sharp(x, SharpKind(d)), 2)
    else if c == '\'' then (AddQuote(x, Quote), 1)
    else if c == '`' then (AddQuote(x, BackQuote), 1)
    else if c == ',' then if d == '@' then (AddQuote(x, CommaAt), 2) else (AddQuote(x, Comma), 1)
    else if c == '@' then (if !x.inWord then Begin(x, SymbolWord, "") else x, 1)
    else if c == '.' then (OnPoint(x), 1)
    else (OnOther(x, c), 1)
  }

  /** The loop, until a datum is complete or the input ends, and where it leaves the port. */
  function Run(x: Lex, input: string, pos: nat): (Lex, nat)
    decreases |input| - pos
  {
    if Ends(At(input, pos)) then (x, pos + 1)
    else
      var (y, n) := Step(x, At(input, pos), At(input, pos + 1));
      if y.finished then (y, pos + n) else Run(y, input, pos + n)
  }

  function Finish(x: Lex): seq<Token> {
    Close(x).made + [Mark(End)]
  }

  /** The tokens from pos on. */
  function Scan(input: string, pos: nat): seq<Token> {
    Finish(Run(START, input, pos).0)
  }

  /** Strings and character constants are not part of the model. */
  predicate NoStrings(input: string) {
    forall i | 0 <= i < |input| ::
      input[i] != '"' && (input[i] == '#' ==> At(input, i + 1) != '\\')
  }

  // ---- The text buffer -----------------------------------------------------------------------

  /** Characters a turn puts into the text buffer: one of a word, or the null character that ends it. A
      parenthesis that a word is dropped for ends no text. */
  function TurnWrites(x: Lex, c: char): (n: nat)
    ensures n <= 1
  {
    if IsSpace(c) || c == ')' || c == '#' then if x.inWord then 1 else 0
    else if c == '(' || c == '\'' || c == '`' || c == ',' || c == '@' then 0
    else 1
  }

  /** And the whole loop, with the null character behind a word that the input ends. */
  function Writes(x: Lex, input: string, pos: nat): nat
    decreases |input| - pos
  {
    if Ends(At(input, pos)) then LastWrite(x)
    else
      var (y, n) := Step(x, At(input, pos), At(input, pos + 1));
      TurnWrites(x, At(input, pos)) + if y.finished then LastWrite(y) else Writes(y, input, pos + n)
  }

  function LastWrite(x: Lex): nat {
    if x.inWord then 1 else 0
  }

  /** A scan writes no more characters than it takes, and one. */
  lemma {:induction false} WritesBound(x: Lex, input: string, pos: nat)
    ensures Writes(x, input, pos) <= Run(x, input, pos).1 - pos + 1
    decreases |input| - pos
  {
    if !Ends(At(input, pos)) {
      var (y, n) := Step(x, At(input, pos), At(input, pos + 1));
      hide Step, TurnWrites;
      if !y.finished {
        WritesBound(y, input, pos + n);
      }
    }
  }

  // ---- Growth --------------------------------------------------------------------------------

  /** No token is dropped, and a quote mark glued to a word stays noted. */
  ghost predicate Grows(x: Lex, y: Lex) {
    Size(x) <= Size(y) && (x.glued ==> y.glued)
  }

  lemma SharpGrows(x: Lex, kind: Kind)
    ensures Grows(x, Sharp(x, kind))
  {
  }

  lemma WordGrows(x: Lex, c: char)
    ensures Grows(x, OnPoint(x)) && Grows(x, OnOther(x, c))
  {
  }

  lemma ParGrows(x: Lex)
    ensures Grows(x, Blank(x)) && Grows(x, Open(x)) && Grows(x, Shut(x))
  {
  }

  lemma StepGrows(x: Lex, c: char, d: char)
    ensures Grows(x, Step(x, c, d).0)
  {
    SharpGrows(x, SharpKind(d));
    WordGrows(x, c);
    ParGrows(x);
    hide Sharp, SharpKind, OnPoint, OnOther, IsSpace, Blank, Open, Shut;
  }

  lemma {:induction false} RunGrows(x: Lex, input: string, pos: nat)
    ensures Grows(x, Run(x, input, pos).0)
    decreases |input| - pos
  {
    if !Ends(At(input, pos)) {
      var (y, n) := Step(x, At(input, pos), At(input, pos + 1));
      StepGrows(x, At(input, pos), At(input, pos + 1));
      hide Step;
      RunGrows(y, input, pos + n);
    }
  }

  // ---- The machine ---------------------------------------------------------------------------

  /** A character stream: the tag counts characters in its upper bits. */
  class Port {
    const buf: string
    var tag: nat

    /** scheme_make_char_input_stream. */
    constructor (buf: string)
      ensures this.buf == buf && Position() == 0
    {
      this.buf := buf;
      tag := 0;
    }

    function Position(): nat
      reads this
    {
      tag / 4
    }

    /** scheme_port_get_char; a null character gives EOF, and is passed all the same. */
    method GetChar() returns (c: char)
      modifies this
      ensures Position() == old(Position()) + 1
      ensures if At(buf, old(Position())) == '\0' then c == 255 as char else c == At(buf, old(Position()))
    {
      c := At(buf, tag / 4);
      tag := tag + 4;
      if c == '\0' {
        c := 255 as char;
      }
    }
  }

  class Lexer {
    const tokens: array<Token>
    var i: nat
    var stack: int
    var inWord: bool
    var isFloat: bool
    var finished: bool
    var used: nat             // characters in the text buffer

    constructor (tokens: array<Token>)
      requires tokens.Length > 0
      ensures this.tokens == tokens && i < tokens.Length && View() == START && used == 0
    {
      this.tokens := tokens;
      i, stack, inWord, isFloat, finished, used := 0, 0, false, false, false, 0;
    }

    ghost function View(): Lex
      requires i < tokens.Length
      reads this, tokens
    {
      Lex(tokens[..i], if inWord then tokens[i] else Mark(End), stack, inWord, isFloat, finished, false)
    }

    method Put(kind: Kind)
      requires i + 1 < tokens.Length && !inWord
      modifies this`i, tokens
      ensures i == old(i) + 1 && View() == Add(old(View()), kind)
    {
      tokens[i] := Mark(kind);
      i := i + 1;
    }

    method CloseWord()
      requires i + 1 < tokens.Length || !inWord
      requires i < tokens.Length && used + LastWrite(View()) <= EXPR_LEN
      modifies this`i, this`inWord, this`used
      ensures i < tokens.Length && View() == Close(old(View())) && !inWord
      ensures used == old(used + LastWrite(View()))
    {
      if inWord {
        inWord := false;
        used := used + 1;
        i := i + 1;
        assert tokens[..i] == tokens[..i - 1] + [tokens[i - 1]];
      }
    }

    method BeginWord(kind: Kind)
      requires i < tokens.Length
      modifies this`inWord, tokens
      ensures View() == Begin(old(View()), kind, "")
    {
      tokens[i] := Token(kind, "");
      inWord := true;
      assert tokens[..i] == old(tokens[..i]);
    }

    method RetypeWord(kind: Kind)
      requires i < tokens.Length && inWord
      modifies tokens
      ensures View() == Retype(old(View()), kind)
    {
      tokens[i] := Token(kind, tokens[i].text);
      assert tokens[..i] == old(tokens[..i]);
    }

    method AppendChar(c: char)
      requires i < tokens.Length && used < EXPR_LEN
      modifies this`used, tokens
      ensures View() == Append(old(View()), c) && used == old(used) + 1
    {
      used := used + 1;
      if inWord {
        tokens[i] := Token(tokens[i].kind, tokens[i].text + [c]);
        assert tokens[..i] == old(tokens[..i]);
      }
    }

    method TakeSharp(d: char)
      requires i < tokens.Length && !inWord && Size(Sharp(View(), SharpKind(d))) < tokens.Length
      modifies this`i, this`stack, tokens
      ensures i < tokens.Length && View() == Sharp(old(View()), SharpKind(d))
    {
      match d
      case '(' =>
        Put(LeftSharpPar);
        stack := stack + 1;
      case 't' => Put(True);
      case 'f' => Put(False);
      case 'b' => Put(Number2);
      case 'o' => Put(Number8);
      case 'd' => Put(Number10);
      case 'x' => Put(Number16);
      case 'i' => Put(Inexact);
      case 'e' => Put(Exact);
      case _ =>
    }

    method TakePoint()
      requires i < tokens.Length && used < EXPR_LEN
      modifies this`inWord, this`isFloat, this`used, tokens
      ensures View() == OnPoint(old(View())) && used == old(used) + 1
    {
      if !inWord {
        BeginWord(Point);
      } else if isFloat {
        RetypeWord(SymbolWord);
      } else if tokens[i].kind == NumberWord {
        isFloat := true;
      }
      AppendChar('.');
    }

    method TakeOther(c: char)
      requires i < tokens.Length && used < EXPR_LEN
      modifies this`inWord, this`isFloat, this`used, tokens
      ensures View() == OnOther(old(View()), c) && used == old(used) + 1
    {
      if IsDigit(c) {
        if !inWord {
          BeginWord(NumberWord);
        } else if tokens[i].kind == Point {
          RetypeWord(NumberWord);
          isFloat := true;
        }
      } else if IsPrint(c) {
        if !inWord {
          BeginWord(SymbolWord);
        } else if tokens[i].kind == NumberWord {
          RetypeWord(SymbolWord);
        }
      }
      AppendChar(c);
    }

    method TakeBlank()
      requires i < tokens.Length && (inWord ==> i + 1 < tokens.Length) && used + LastWrite(View()) <= EXPR_LEN
      modifies this`i, this`inWord, this`isFloat, this`finished, this`used
      ensures i < tokens.Length && View() == Blank(old(View())) && used == old(used + LastWrite(View()))
    {
      if inWord {
        CloseWord();
        isFloat := false;
        finished := stack == 0;
      }
    }

    method TakeLeftPar()
      requires i + 1 < tokens.Length
      modifies this`i, this`inWord, this`stack, tokens
      ensures i < tokens.Length && View() == Open(old(View()))
    {
      inWord := false;
      Put(LeftPar);
      stack := stack + 1;
    }

    method TakeRightPar()
      requires i < tokens.Length && Size(View()) + 1 < tokens.Length && used + LastWrite(View()) <= EXPR_LEN
      modifies this`i, this`inWord, this`stack, this`finished, this`used, tokens
      ensures i < tokens.Length && View() == Shut(old(View())) && used == old(used + LastWrite(View()))
    {
      CloseWord();
      Put(RightPar);
      stack := stack - 1;
      finished := stack == 0;
    }

    /** The end of the loop: the last word is closed, and the tag for the end put behind it. */
    method Last() returns (n: nat)
      requires i < tokens.Length && Size(View()) < tokens.Length && used + LastWrite(View()) <= EXPR_LEN
      modifies this`i, this`inWord, this`used, tokens
      ensures n == |Finish(old(View()))| <= tokens.Length && tokens[..n] == Finish(old(View()))
    {
      CloseWord();
      ghost var made := tokens[..i];
      tokens[i] := Mark(End);
      n := i + 1;
      assert tokens[..n] == made + [Mark(End)];
    }

    /** One turn of the loop. again says that the character next is still to be processed. */
    method Turn(c: char, port: Port) returns (again: bool, next: char)
      requires i < tokens.Length
      requires c != '"' && !(c == '#' && At(port.buf, port.Position()) == '\\')
      requires var y := Step(View(), c, At(port.buf, port.Position())).0;
               !y.glued && Size(y) < tokens.Length && Size(View()) < tokens.Length
      requires used + TurnWrites(View(), c) <= EXPR_LEN
      modifies this`i, this`stack, this`inWord, this`isFloat, this`finished, this`used, tokens, port
      ensures i < tokens.Length && used == old(used + TurnWrites(View(), c))
      ensures var (y, n) := old(Step(View(), c, At(port.buf, port.Position())));
              View() == y && port.Position() == old(port.Position()) + n - 1 + (if again then 1 else 0)
      ensures again ==> finished == old(finished) && port.Position() == old(port.Position()) + 1
      ensures again ==>
        next == var d := old(At(port.buf, port.Position())); if d == '\0' then 255 as char else d
    {
      hide IsSpace, Sharp, OnPoint, OnOther;
      SharpGrows(View(), SharpKind(At(port.buf, port.Position())));
      again, next := false, c;
      if IsSpace(c) {
        TakeBlank();
        return;
      }
      match c
      case '(' =>
        TakeLeftPar();
      case ')' =>
        TakeRightPar();
      case '#' =>
        if inWord {
          AppendChar('#');
        } else {
          var d := port.GetChar();
          TakeSharp(d);
        }
      case '\'' => Put(Quote);
      case '`' => Put(BackQuote);
      case ',' =>
        next := port.GetChar();
        if next == '@' {
          Put(CommaAt);
        } else {
          Put(Comma);
          again := true;
        }
      case '@' =>
        if !inWord {
          BeginWord(SymbolWord);
        }
      case '.' => TakePoint();
      case _ => TakeOther(c);
    }
  }

  /** What the buffers must hold: a token of each kind that Scan finds, and no stale one; and the texts. */
  ghost predicate Fits(input: string, pos: nat) {
    |Scan(input, pos)| <= TOKENS && !Run(START, input, pos).0.glued && Writes(START, input, pos) <= EXPR_LEN
  }

  lemma ScanSize(input: string, pos: nat)
    ensures |Scan(input, pos)| == Size(Run(START, input, pos).0) + 1
  {
  }

  /** Scanning from start on, the loop is at p with `used` characters written. */
  ghost predicate On(input: string, start: nat, x: Lex, p: nat, used: nat) {
    Run(START, input, start) == Run(x, input, p) && Writes(START, input, start) == used + Writes(x, input, p)
  }

  lemma OnStart(input: string, start: nat)
    ensures On(input, start, START, start, 0)
  {
  }

  lemma OnEnd(input: string, start: nat, x: Lex, p: nat, used: nat)
    requires On(input, start, x, p, used) && Fits(input, start) && Ends(At(input, p))
    ensures Run(START, input, start) == (x, p + 1) && Size(x) < TOKENS && used + LastWrite(x) <= EXPR_LEN
  {
    ScanSize(input, start);
  }

  lemma OnTurn(input: string, start: nat, x: Lex, p: nat, used: nat)
    requires On(input, start, x, p, used) && Fits(input, start) && !Ends(At(input, p))
    ensures var (y, k) := Step(x, At(input, p), At(input, p + 1));
            var used' := used + TurnWrites(x, At(input, p));
            !y.glued && Size(x) <= Size(y) < TOKENS && used' <= EXPR_LEN &&
            if y.finished then Run(START, input, start) == (y, p + k) && used' + LastWrite(y) <= EXPR_LEN
            else On(input, start, y, p + k, used')
  {
    ScanSize(input, start);
    var (y, k) := Step(x, At(input, p), At(input, p + 1));
    StepGrows(x, At(input, p), At(input, p + 1));
    RunGrows(y, input, p + k);
    hide Step, Scan, TurnWrites;
  }

  lemma NotString(input: string, p: nat)
    requires NoStrings(input)
    ensures At(input, p) != '"' && !(At(input, p) == '#' && At(input, p + 1) == '\\')
  {
  }

  lemma FitsScan(input: string, start: nat)
    requires Fits(input, start)
    ensures Scan(input, start) == Finish(Run(START, input, start).0) && |Scan(input, start)| <= TOKENS
  {
  }

  /** _make_token_seq. */
  method MakeTokenSeq(port: Port, tokens: array<Token>) returns (n: nat)
    requires tokens.Length == TOKENS && NoStrings(port.buf) && Fits(port.buf, port.Position())
    modifies port, tokens
    ensures n == |Scan(port.buf, old(port.Position()))| <= TOKENS
    ensures tokens[..n] == Scan(port.buf, old(port.Position()))
    ensures port.Position() == Run(START, port.buf, old(port.Position())).1
  {
    hide Step, Run, Scan, Close, NoStrings, Size, Writes, TurnWrites, LastWrite, On, Fits, Finish;
    var lexer := new Lexer(tokens);
    var again, c := false, ' ';
    ghost var start := port.Position();
    ghost var p: nat := start;  // characters up to p are processed
    OnStart(port.buf, start);
    while true
      invariant fresh(lexer) && lexer.tokens == tokens && lexer.i < TOKENS && !lexer.finished
      invariant port.Position() == p + if again then 1 else 0
      invariant again ==> c == if At(port.buf, p) == '\0' then 255 as char else At(port.buf, p)
      invariant On(port.buf, start, lexer.View(), p, lexer.used)
      decreases |port.buf| - p
    {
      if !again {
        c := port.GetChar();
      }
      if c == 255 as char {
        OnEnd(port.buf, start, lexer.View(), p, lexer.used);
        break;
      }
      OnTurn(port.buf, start, lexer.View(), p, lexer.used);
      NotString(port.buf, p);
      ghost var k := Step(lexer.View(), c, At(port.buf, p + 1)).1;
      again, c := lexer.Turn(c, port);
      p := p + k;
      if lexer.finished {
        break;
      }
    }
    n := lexer.Last();
    FitsScan(port.buf, start);
  }
}
