/** The shell's scanner and parser as they work on the characters of one input line
    (user/shell.c), proved against the token grammar, and the cutting of the line into
    C strings. */
module Shell {
  import opened ShellGrammar

  // A word of the line: the characters from q up to eq.
  datatype Span = Span(q: nat, eq: nat)

  // What a parse method gives: a value, or the message of panic.
  datatype Outcome<T> = Done(value: T) | Panic(error: Error)

  predicate Blank(c: char) { c == ' ' || c == '\t' || c == '\r' || c == '\n' || c == '\U{B}' }

  predicate Symbol(c: char) { c in {'<', '|', '>', '&', ';', '(', ')'} }

  predicate WordChar(c: char) { c != '\0' && !Blank(c) && !Symbol(c) }

  // A C string does not hold its own terminator.
  predicate CLine(line: string) { forall i :: 0 <= i < |line| ==> line[i] != '\0' }

  // ---- Tokens of a line --------------------------------------------------------------------

  function Skip(line: string, i: nat): (r: nat)
    requires i <= |line|
    ensures i <= r <= |line| && (r < |line| ==> !Blank(line[r]))
    ensures forall k :: i <= k < r ==> Blank(line[k])
    decreases |line| - i
  {
    if i < |line| && Blank(line[i]) then Skip(line, i + 1) else i
  }

  function WordEnd(line: string, i: nat): (r: nat)
    requires i <= |line|
    ensures i <= r <= |line| && (r < |line| ==> Blank(line[r]) || Symbol(line[r]))
    ensures forall k :: i <= k < r ==> !Blank(line[k]) && !Symbol(line[k])
    decreases |line| - i
  {
    if i < |line| && !Blank(line[i]) && !Symbol(line[i]) then WordEnd(line, i + 1) else i
  }

  function Lex(line: string, i: nat): seq<Token<Span>>
    requires i <= |line|
    decreases |line| - i
  {
    var j := Skip(line, i);
    if j == |line| then []
    else if line[j] == '>' && j + 1 < |line| && line[j + 1] == '>' then [Sym('+')] + Lex(line, j + 2)
    else if Symbol(line[j]) then [Sym(line[j])] + Lex(line, j + 1)
    else [Word(Span(j, WordEnd(line, j)))] + Lex(line, WordEnd(line, j))
  }

  lemma LexSkip(line: string, i: nat)
    requires i <= |line|
    ensures Skip(line, Skip(line, i)) == Skip(line, i) && Lex(line, Skip(line, i)) == Lex(line, i)
  {
  }

  predicate Double(line: string, j: nat) { j + 1 < |line| && line[j] == '>' && line[j + 1] == '>' }

  lemma LexCases(line: string, i: nat)
    requires i <= |line|
    ensures var j := Skip(line, i);
            if j == |line| then Lex(line, i) == []
            else if Double(line, j) then Lex(line, i) == [Sym('+')] + Lex(line, j + 2)
            else if Symbol(line[j]) then Lex(line, i) == [Sym(line[j])] + Lex(line, j + 1)
            else Lex(line, i) == [Word(Span(j, WordEnd(line, j)))] + Lex(line, WordEnd(line, j))
  {
    hide Skip, WordEnd, Symbol;
  }

  lemma GreaterIsSymbol()
    ensures Symbol('>')
  {
  }

  lemma SymbolFacts(c: char)
    requires Symbol(c)
    ensures c != 'a' && c != '\0'
  {
  }

  // ---- The words found ------------------------------------------------------------------

  function Text(line: string, s: Span): string {
    if s.q <= s.eq <= |line| then line[s.q..s.eq] else ""
  }

  function Texts(line: string): Span -> string { s => Text(line, s) }

  predicate IsWord(w: string) { w != "" && forall i :: 0 <= i < |w| ==> WordChar(w[i]) }

  // A whole word of the line, ended by something that is not part of any word.
  predicate Whole(line: string, s: Span) {
    && s.q < s.eq <= |line|
    && (forall k :: s.q <= k < s.eq ==> WordChar(line[k]))
    && (s.eq < |line| ==> !WordChar(line[s.eq]))
  }

  function Wholes(line: string): Span -> bool { s => Whole(line, s) }

  lemma {:induction false} LexWhole(line: string, i: nat)
    requires i <= |line| && CLine(line)
    ensures AllToks(Lex(line, i), Wholes(line))
    decreases |line| - i
  {
    hide Lex, Skip, WordEnd, Blank, Symbol, Whole, CLine;
    var j := Skip(line, i);
    LexCases(line, i);
    if j == |line| {
    } else if Double(line, j) {
      LexWhole(line, j + 2);
      AllSplit([Sym('+')], Lex(line, j + 2), Wholes(line));
    } else if Symbol(line[j]) {
      LexWhole(line, j + 1);
      AllSplit([Sym(line[j])], Lex(line, j + 1), Wholes(line));
    } else {
      var k := WordEnd(line, j);
      WordGoesOn(line, j);
      LexWhole(line, k);
      AllSplit([Word(Span(j, k))], Lex(line, k), Wholes(line));
    }
  }

  lemma WordGoesOn(line: string, j: nat)
    requires j < |line| && CLine(line) && !Blank(line[j]) && !Symbol(line[j])
    ensures j < WordEnd(line, j) && Whole(line, Span(j, WordEnd(line, j)))
  {
  }

  // What the line means: the tree over the texts of its words.
  function Meaning(line: string): Result<Cmd<string>, string> {
    Parse(MapToks(Texts(line), Lex(line, 0)))
  }

  // ---- Printing --------------------------------------------------------------------------

  function Spelled(t: Token<string>): string {
    match t case Sym(c) => if c == '+' then ">>" else [c] case Word(w) => w
  }

  // A symbol of the language, or a word.
  predicate Proper(t: Token<string>) {
    match t case Sym(c) => c == '+' || Symbol(c) case Word(w) => IsWord(w)
  }

  function Spell(toks: seq<Token<string>>): string {
    if toks == [] then "" else Spelled(toks[0]) + " " + Spell(toks[1..])
  }

  predicate AllProper(toks: seq<Token<string>>) { forall i :: 0 <= i < |toks| ==> Proper(toks[i]) }

  // The tokens that start at i in the line, as texts.
  function TextsFrom(line: string, i: nat): seq<Token<string>>
    requires i <= |line|
  {
    MapToks(Texts(line), Lex(line, i))
  }

  // A printed tree: every operand in parentheses, a blank after every token.
  function Print(cmd: Cmd<string>): string { Spell(Printed(cmd)) }

  lemma {:induction false} WordEnds(line: string, i: nat, k: nat)
    requires i <= k < |line| && Blank(line[k])
    requires forall x :: i <= x < k ==> !Blank(line[x]) && !Symbol(line[x])
    ensures WordEnd(line, i) == k
    decreases k - i
  {
    if i < k { WordEnds(line, i + 1, k); }
  }

  lemma LexBlank(line: string, i: nat)
    requires i < |line| && Blank(line[i])
    ensures Lex(line, i) == Lex(line, i + 1)
  {
  }

  lemma MapCons(line: string, t: Token<Span>, rest: seq<Token<Span>>)
    ensures MapToks(Texts(line), [t] + rest) == [MapTok(Texts(line), t)] + MapToks(Texts(line), rest)
  {
  }

  lemma LexToken(line: string, i: nat, t: Token<string>)
    requires Proper(t) && i + |Spelled(t)| < |line|
    requires line[i..i + |Spelled(t)|] == Spelled(t) && line[i + |Spelled(t)|] == ' '
    ensures TextsFrom(line, i) == [t] + TextsFrom(line, i + |Spelled(t)| + 1)
  {
    hide MapToks;
    var k := i + |Spelled(t)|;
    assert forall x :: i <= x < k ==> line[x] == Spelled(t)[x - i];
    assert Skip(line, i) == i;
    LexBlank(line, k);
    if t.Word? {
      WordEnds(line, i, k);
      assert Lex(line, i) == [Word(Span(i, k))] + Lex(line, k);
      MapCons(line, Word(Span(i, k)), Lex(line, k));
    } else {
      assert Lex(line, i) == [Sym(t.c)] + Lex(line, k);
      MapCons(line, Sym(t.c), Lex(line, k));
    }
  }

  lemma {:induction false} LexSpell(line: string, i: nat, toks: seq<Token<string>>)
    requires i <= |line| && AllProper(toks) && line[i..] == Spell(toks)
    ensures TextsFrom(line, i) == toks
    decreases |toks|
  {
    hide Lex, Skip, TextsFrom, Proper, Spelled;
    if toks == [] {
      NoTokens(line);
    } else {
      var t, k := toks[0], i + |Spelled(toks[0])|;
      var all := Spelled(t) + " " + Spell(toks[1..]);
      assert line[i..] == all;
      assert line[k] == all[k - i];
      assert line[i..k] == all[..k - i];
      LexToken(line, i, t);
      assert line[k + 1..] == all[k + 1 - i..];
      LexSpell(line, k + 1, toks[1..]);
    }
  }

  lemma NoTokens(line: string)
    ensures TextsFrom(line, |line|) == []
  {
  }

  lemma ProperJoin(a: seq<Token<string>>, b: seq<Token<string>>)
    ensures AllProper(a + b) <==> AllProper(a) && AllProper(b)
  {
    var s := a + b;
    if AllProper(s) {
      assert forall i :: 0 <= i < |a| ==> a[i] == s[i];
      assert forall i :: 0 <= i < |b| ==> b[i] == s[|a| + i];
    }
  }

  lemma {:induction false} PlainProper(argv: seq<string>)
    requires forall i :: 0 <= i < |argv| ==> IsWord(argv[i])
    ensures AllProper(ArgsYield(Plain(argv)))
  {
    if argv != [] {
      PlainProper(argv[1..]);
      assert Plain(argv)[1..] == Plain(argv[1..]);
      ProperJoin([Word(argv[0])], ArgsYield(Plain(argv[1..])));
      assert ArgsYield(Plain(argv)) == [Word(argv[0])] + ArgsYield(Plain(argv[1..]));
    }
  }

  lemma BlockProper(d: Line<string>, rs: seq<Redirect<string>>)
    requires AllProper(LineYield(d)) && AllProper(RedirYield(rs))
    ensures AllProper(StageYield(Block(d, rs)))
  {
    hide LineYield, RedirYield;
    ProperJoin([Sym(')')], RedirYield(rs));
    ProperJoin(LineYield(d), [Sym(')')] + RedirYield(rs));
    ProperJoin([Sym('(')], LineYield(d) + ([Sym(')')] + RedirYield(rs)));
  }

  lemma LoneStage(d: Stage<string>)
    ensures LineYield(Last(One(d), 0)) == PipeYield(One(d)) == StageYield(d)
  {
    hide StageYield;
    NoneFirst(StageYield(d));
  }

  // A tree prints to symbols of the language and its own words.
  lemma {:induction false} PrintedProper(cmd: Cmd<string>)
    requires All(cmd, IsWord)
    ensures AllProper(Printed(cmd))
    decreases cmd, 0
  {
    hide AllProper, StageYield;
    match cmd
    case Exec(argv) =>
      PlainProper(argv);
      SimpleYield(Plain(argv));
      LoneStage(Simple([], Plain(argv)));
    case Redir(sub, to) =>
      PrintedProper(sub);
      OneRedir(to);
      BlockProper(Parens(sub), [to]);
      LoneStage(Block(Parens(sub), [to]));
    case Pipe(left, right) =>
      OperandProper(left);
      OperandProper(right);
      SymProper('|');
      var a, b := StageYield(Block(Parens(left), [])), StageYield(Block(Parens(right), []));
      LoneStage(Block(Parens(right), []));
      ProperJoin([Sym('|')], b);
      ProperJoin(a, [Sym('|')] + b);
      NoneFirst(a + ([Sym('|')] + b));
      assert Printed(cmd) == a + ([Sym('|')] + b) by { BarYield(left, right); }
    case List(left, right) =>
      OperandProper(left);
      OperandProper(right);
      SymProper(';');
      var a, b := StageYield(Block(Parens(left), [])), StageYield(Block(Parens(right), []));
      ProperJoin([Sym(';')], b);
      ProperJoin(a, [Sym(';')] + b);
      assert Printed(cmd) == a + ([Sym(';')] + b) by { ThenYield(left, right); }
    case Back(sub) =>
      OperandProper(sub);
      SymProper('&');
      var a := StageYield(Block(Parens(sub), []));
      ProperJoin(a, [Sym('&')]);
      assert Printed(cmd) == a + [Sym('&')] by { BackYield(sub); }
  }

  lemma SymProper(c: char)
    requires Symbol(c)
    ensures AllProper([Sym(c)])
  {
  }

  lemma {:induction false} OperandProper(cmd: Cmd<string>)
    requires All(cmd, IsWord)
    ensures AllProper(StageYield(Block(Parens(cmd), [])))
    decreases cmd, 1
  {
    PrintedProper(cmd);
    BlockProper(Parens(cmd), []);
  }

  lemma OneRedir(to: Redirect<string>)
    requires IsWord(to.file)
    ensures AllProper(RedirYield([to]))
  {
    assert RedirYield([to]) == [Sym(SymOf(to.kind)), Word(to.file)];
  }

  lemma SimpleYield(args: seq<Arg<string>>)
    ensures StageYield(Simple([], args)) == ArgsYield(args)
  {
  }

  lemma BarYield(left: Cmd<string>, right: Cmd<string>)
    ensures Printed(Pipe(left, right)) ==
            StageYield(Block(Parens(left), [])) + ([Sym('|')] + StageYield(Block(Parens(right), [])))
  {
    hide StageYield;
    var d := Bar(Block(Parens(left), []), One(Block(Parens(right), [])));
    NoneFirst(PipeYield(d));
    LoneStage(Block(Parens(right), []));
  }

  lemma ThenYield(left: Cmd<string>, right: Cmd<string>)
    ensures Printed(List(left, right)) ==
            StageYield(Block(Parens(left), [])) + ([Sym(';')] + StageYield(Block(Parens(right), [])))
  {
    hide StageYield;
    LoneStage(Block(Parens(left), []));
    LoneStage(Block(Parens(right), []));
    NoneFirst([Sym(';')] + StageYield(Block(Parens(right), [])));
  }

  lemma BackYield(sub: Cmd<string>)
    ensures Printed(Back(sub)) == StageYield(Block(Parens(sub), [])) + [Sym('&')]
  {
    hide StageYield;
    LoneStage(Block(Parens(sub), []));
    assert Ands<string>(1) == [Sym('&')];
  }

  // ---- What the symbols mean -------------------------------------------------------------------------

  // The last word of a line needs no blank.
  lemma LexLast(line: string, i: nat, w: string)
    requires i <= |line| && IsWord(w) && line[i..] == w
    ensures TextsFrom(line, i) == [Word(w)]
  {
    hide MapToks;
    assert forall x :: i <= x < |line| ==> line[x] == w[x - i];
    assert Skip(line, i) == i;
    WordToEnd(line, i);
    assert Lex(line, i) == [Word(Span(i, |line|))] + Lex(line, |line|);
    MapCons(line, Word(Span(i, |line|)), Lex(line, |line|));
    assert Text(line, Span(i, |line|)) == w;
    NoTokens(line);
  }

  lemma {:induction false} WordToEnd(line: string, i: nat)
    requires i <= |line| && forall x :: i <= x < |line| ==> !Blank(line[x]) && !Symbol(line[x])
    ensures WordEnd(line, i) == |line|
    decreases |line| - i
  {
    if i < |line| { WordToEnd(line, i + 1); }
  }

  lemma {:induction false} LexLine(line: string, i: nat, toks: seq<Token<string>>, w: string)
    requires i <= |line| && AllProper(toks) && IsWord(w) && line[i..] == Spell(toks) + w
    ensures TextsFrom(line, i) == toks + [Word(w)]
    decreases |toks|
  {
    hide Lex, Skip, TextsFrom, Proper, Spelled, IsWord;
    if toks == [] {
      assert Spell(toks) + w == w;
      LexLast(line, i, w);
    } else {
      var t, rest := toks[0], Spell(toks[1..]) + w;
      var k := i + |Spelled(t)|;
      Regroup(Spelled(t), Spell(toks[1..]), w);
      AfterToken(line, i, Spelled(t), rest);
      LexToken(line, i, t);
      LexLine(line, k + 1, toks[1..], w);
      assert toks + [Word(w)] == [t] + (toks[1..] + [Word(w)]);
    }
  }

  lemma Regroup(a: string, b: string, c: string)
    ensures (a + " " + b) + c == a + " " + (b + c)
  {
  }

  lemma AfterToken(line: string, i: nat, t: string, rest: string)
    requires i <= |line| && line[i..] == t + " " + rest
    ensures var k := i + |t|; k < |line| && line[i..k] == t && line[k] == ' ' && line[k + 1..] == rest
  {
    var all := t + " " + rest;
    var k := i + |t|;
    assert line[k] == line[i..][k - i];
    assert line[i..k] == all[..k - i];
    assert line[k + 1..] == line[i..][k + 1 - i..] == all[k + 1 - i..];
  }

  // A line of tokens with a blank after each but the last, which is a word.
  lemma MeaningOf(line: string, toks: seq<Token<string>>, w: string)
    requires AllProper(toks) && IsWord(w) && line == Spell(toks) + w
    ensures Meaning(line) == Parse(toks + [Word(w)])
  {
    hide Lex, Parse, AllProper, IsWord, Spell, MapToks;
    assert line[0..] == line;
    LexLine(line, 0, toks, w);
  }

  lemma SpellTwo(s: Token<string>, t: Token<string>)
    ensures Spell([s, t]) == Spelled(s) + " " + (Spelled(t) + " ")
  {
    assert [s, t][1..] == [t] && [t][1..] == [];
    assert Spell([t]) == Spelled(t) + " ";
  }

  // A word and a symbol before another word.
  lemma WordSymWord(a: string, c: char, b: string)
    requires IsWord(a) && IsWord(b) && (c == '+' || Symbol(c))
    ensures Meaning(a + " " + Spelled(Sym(c)) + " " + b) == Parse([Word(a), Sym(c), Word(b)])
  {
    hide Parse, Lex, IsWord, Meaning;
    var toks := [Word(a), Sym(c)];
    SpellTwo(Word(a), Sym(c));
    assert a + " " + Spelled(Sym(c)) + " " + b == Spell(toks) + b;
    MeaningOf(Spell(toks) + b, toks, b);
    assert toks + [Word(b)] == [Word(a), Sym(c), Word(b)];
  }

  // Parsing a word and a redirection.
  lemma ParseRedir(a: string, c: char, f: string)
    requires c in {'<', '>', '+'}
    ensures Parse([Word(a), Sym(c), Word(f)]) == Ok(Redir(Exec([a]), Redirect(KindOf(c), f)), [])
  {
    var toks: seq<Token<string>> := [Word(a), Sym(c), Word(f)];
    var rs := [Redirect(KindOf(c), f)];
    assert toks[1..] == [Sym(c), Word(f)] && toks[1..][2..] == [];
    assert ReadRedirs([], toks) == Ok([], toks);
    assert [] + rs == rs;
    assert ReadRedirs(rs, []) == Ok(rs, []);
    assert ReadRedirs([], toks[1..]) == ReadRedirs([] + rs, []);
    assert [] + [a] == [a];
    assert ReadArgs([], [], toks) == ReadArgs([a], rs, []) == Ok(Wrap(Exec([a]), rs), []);
    assert rs[..0] == [];
    assert Wrap(Exec([a]), rs) == Redir(Exec([a]), rs[0]);
    assert ReadExec(toks) == ReadArgs([], [], toks);
    Alone(toks, Redir(Exec([a]), rs[0]));
  }

  lemma Alone(toks: seq<Token<string>>, cmd: Cmd<string>)
    requires ReadExec(toks) == Ok(cmd, [])
    ensures ReadPipe(toks) == Ok(cmd, []) && ReadLine(toks) == Ok(cmd, []) && Parse(toks) == Ok(cmd, [])
  {
    hide ReadExec;
    assert ReadPipe(toks) == Ok(cmd, []);
    assert ReadBacks(cmd, []) == (cmd, []);
  }

  // A word before the end or a symbol that ends a command.
  lemma OneWord(a: string, rest: seq<Token<string>>)
    requires rest == [] || Head(rest, {'|', ')', '&', ';'})
    ensures ReadExec([Word(a)] + rest) == Ok(Exec([a]), rest)
  {
    var toks := [Word(a)] + rest;
    assert toks[1..] == rest && [] + [a] == [a];
    assert ReadRedirs<string>([], toks) == Ok([], toks) && ReadRedirs<string>([], rest) == Ok([], rest);
    assert ReadArgs<string>([], [], toks) == ReadArgs([a], [], rest) == Ok(Wrap(Exec([a]), []), rest);
  }

  /** What the operators do, on characters: "|" makes a pipe from left to right, ";" runs the
      left command and then the right one, and "&" puts the command before it in the background. */
  lemma OperatorsMean(a: string, b: string)
    requires IsWord(a) && IsWord(b)
    ensures Meaning(a + " | " + b) == Ok(Cmd.Pipe(Exec([a]), Exec([b])), [])
    ensures Meaning(a + " ; " + b) == Ok(List(Exec([a]), Exec([b])), [])
    ensures Meaning(a + " & ; " + b) == Ok(List(Back(Exec([a])), Exec([b])), [])
  {
    hide Parse, Lex, IsWord, Meaning;
    WordSymWord(a, '|', b);
    WordSymWord(a, ';', b);
    ParsePiped(a, b);
    ParseListed(a, b);
    ParseBacked(a, b);
    assert a + " " + "|" + " " + b == a + " | " + b;
    assert a + " " + ";" + " " + b == a + " ; " + b;
    var toks := [Word(a), Sym('&'), Sym(';')];
    SpellThree(Word(a), Sym('&'), Sym(';'));
    assert a + " & ; " + b == Spell(toks) + b;
    MeaningOf(a + " & ; " + b, toks, b) by { assert Proper(toks[0]) && Proper(toks[1]) && Proper(toks[2]); }
    assert toks + [Word(b)] == [Word(a), Sym('&'), Sym(';'), Word(b)];
  }

  // A word as a line of its own, before the end of a block.
  lemma WordLine(a: string, rest: seq<Token<string>>)
    requires rest == [] || Head(rest, {')'})
    ensures ReadLine([Word(a)] + rest) == Ok(Exec([a]), rest)
  {
    hide ReadExec;
    OneWord(a, rest);
    assert ReadPipe([Word(a)] + rest) == Ok(Exec([a]), rest);
    assert ReadBacks(Exec([a]), rest) == (Exec([a]), rest);
  }

  lemma ListLine(a: string, b: string, rest: seq<Token<string>>)
    requires Head(rest, {')'})
    ensures ReadLine([Word(a), Sym(';'), Word(b)] + rest) == Ok(List(Exec([a]), Exec([b])), rest)
  {
    hide ReadExec;
    var toks := [Word(a), Sym(';'), Word(b)] + rest;
    assert toks == [Word(a)] + toks[1..] && toks[1..][1..] == [Word(b)] + rest;
    OneWord(a, toks[1..]);
    WordLine(b, rest);
    assert ReadPipe(toks) == Ok(Exec([a]), toks[1..]);
    assert ReadBacks(Exec([a]), toks[1..]) == (Exec([a]), toks[1..]);
  }

  /** Parentheses make a list one stage of a pipe. */
  lemma BlocksMean(a: string, b: string, c: string)
    requires IsWord(a) && IsWord(b) && IsWord(c)
    ensures Meaning("( " + a + " ; " + b + " ) | " + c) ==
            Ok(Cmd.Pipe(List(Exec([a]), Exec([b])), Exec([c])), [])
  {
    hide Parse, Lex, IsWord, Meaning, Spell;
    var u, v := [Sym('('), Word(a), Sym(';')], [Word(b), Sym(')'), Sym('|')];
    SpellThree(u[0], u[1], u[2]);
    SpellThree(v[0], v[1], v[2]);
    SpellJoin(u, v);
    assert "( " + a + " ; " + b + " ) | " + c == Spell(u + v) + c;
    MeaningOf(Spell(u + v) + c, u + v, c) by {
      assert Proper(u[0]) && Proper(u[1]) && Proper(u[2]) && Proper(v[0]) && Proper(v[1]) && Proper(v[2]);
    }
    ParseBlocked(a, b, c);
    assert u + v + [Word(c)] == [Sym('('), Word(a), Sym(';'), Word(b), Sym(')'), Sym('|'), Word(c)];
  }

  lemma {:induction false} SpellJoin(u: seq<Token<string>>, v: seq<Token<string>>)
    ensures Spell(u + v) == Spell(u) + Spell(v)
  {
    if u == [] {
      assert u + v == v;
    } else {
      assert (u + v)[1..] == u[1..] + v;
      SpellJoin(u[1..], v);
      Regroup(Spelled(u[0]), Spell(u[1..]), Spell(v));
    }
  }

  lemma ParseBlocked(a: string, b: string, c: string)
    ensures Parse([Sym('('), Word(a), Sym(';'), Word(b), Sym(')'), Sym('|'), Word(c)]) ==
            Ok(Cmd.Pipe(List(Exec([a]), Exec([b])), Exec([c])), [])
  {
    var toks: seq<Token<string>> := [Sym('('), Word(a), Sym(';'), Word(b), Sym(')'), Sym('|'), Word(c)];
    var rest := [Sym(')'), Sym('|'), Word(c)];
    var list := List(Exec([a]), Exec([b]));
    assert toks[1..] == [Word(a), Sym(';'), Word(b)] + rest;
    ListLine(a, b, rest);
    assert ReadRedirs([], rest[1..]) == Ok([], rest[1..]);
    assert ReadBlock(toks) == Ok(list, rest[1..]);
    assert rest[1..][1..] == [Word(c)] + [];
    OneWord(c, []);
    Alone([Word(c)] + [], Exec([c]));
    hide ReadExec, ReadBlock;
    var cmd := Cmd.Pipe(list, Exec([c]));
    assert ReadExec(toks) == Ok(list, rest[1..]) by { BlockExec(toks); }
    assert ReadPipe(toks) == Ok(cmd, []);
    assert ReadBacks(cmd, []) == (cmd, []);
  }

  lemma BlockExec(toks: seq<Token<string>>)
    requires Head(toks, {'('})
    ensures ReadExec(toks) == ReadBlock(toks)
  {
  }

  /** Every blank separates two words of one command. */
  lemma BlanksSeparate(a: string, c: char, b: string)
    requires IsWord(a) && IsWord(b) && c in {' ', '\t', '\r', '\n', '\U{B}'}
    ensures Meaning(a + [c] + b) == Ok(Exec([a, b]), [])
  {
    hide MapToks, ReadLine;
    var line, k := a + [c] + b, |a|;
    assert forall x :: 0 <= x < k ==> line[x] == a[x];
    assert Skip(line, 0) == 0;
    WordEnds(line, 0, k);
    assert line[0..k] == a && line[k + 1..] == b;
    assert Lex(line, 0) == [Word(Span(0, k))] + Lex(line, k);
    LexBlank(line, k);
    MapCons(line, Word(Span(0, k)), Lex(line, k));
    LexLast(line, k + 1, b);
    assert Text(line, Span(0, k)) == a;
    ParseWords(a, b);
    assert [Word(a)] + [Word(b)] == [Word(a), Word(b)];
  }

  lemma ParseWords(a: string, b: string)
    ensures Parse([Word(a), Word(b)]) == Ok(Exec([a, b]), [])
  {
    var toks: seq<Token<string>> := [Word(a), Word(b)];
    assert toks[1..] == [Word(b)] && toks[1..][1..] == [];
    assert [] + [a] == [a] && [a] + [b] == [a, b];
    assert ReadRedirs<string>([], toks) == Ok([], toks) && ReadRedirs<string>([], toks[1..]) == Ok([], toks[1..]);
    assert ReadRedirs<string>([], []) == Ok([], []);
    assert ReadArgs([a], [], toks[1..]) == ReadArgs([a, b], [], []) == Ok(Exec([a, b]), []);
    assert ReadArgs([], [], toks) == ReadArgs([a], [], toks[1..]);
    assert ReadExec(toks) == Ok(Exec([a, b]), []);
    Alone(toks, Exec([a, b]));
  }

  lemma SpellThree(s: Token<string>, t: Token<string>, u: Token<string>)
    ensures Spell([s, t, u]) == Spelled(s) + " " + (Spelled(t) + " " + (Spelled(u) + " "))
  {
    assert [s, t, u][1..] == [t, u];
    SpellTwo(t, u);
  }

  lemma ParsePiped(a: string, b: string)
    ensures Parse([Word(a), Sym('|'), Word(b)]) == Ok(Cmd.Pipe(Exec([a]), Exec([b])), [])
  {
    hide ReadExec;
    var toks: seq<Token<string>> := [Word(a), Sym('|'), Word(b)];
    assert toks == [Word(a)] + toks[1..];
    OneWord(a, toks[1..]);
    OneWord(b, []);
    assert toks[1..][1..] == [Word(b)] + [];
    Alone([Word(b)] + [], Exec([b]));
    var cmd := Cmd.Pipe(Exec([a]), Exec([b]));
    assert ReadPipe(toks) == Ok(cmd, []);
    assert ReadBacks(cmd, []) == (cmd, []);
  }

  lemma ParseListed(a: string, b: string)
    ensures Parse([Word(a), Sym(';'), Word(b)]) == Ok(List(Exec([a]), Exec([b])), [])
  {
    hide ReadExec;
    var toks: seq<Token<string>> := [Word(a), Sym(';'), Word(b)];
    assert toks == [Word(a)] + toks[1..];
    OneWord(a, toks[1..]);
    OneWord(b, []);
    assert toks[1..][1..] == [Word(b)] + [];
    Alone([Word(b)] + [], Exec([b]));
    assert ReadPipe(toks) == Ok(Exec([a]), toks[1..]);
    assert ReadBacks(Exec([a]), toks[1..]) == (Exec([a]), toks[1..]);
  }

  lemma ParseBacked(a: string, b: string)
    ensures Parse([Word(a), Sym('&'), Sym(';'), Word(b)]) == Ok(List(Back(Exec([a])), Exec([b])), [])
  {
    hide ReadExec;
    var toks: seq<Token<string>> := [Word(a), Sym('&'), Sym(';'), Word(b)];
    assert toks == [Word(a)] + toks[1..];
    OneWord(a, toks[1..]);
    OneWord(b, []);
    var rest := toks[1..][1..];
    assert rest == [Sym(';'), Word(b)] && rest[1..] == [Word(b)] + [];
    Alone([Word(b)] + [], Exec([b]));
    assert ReadPipe(toks) == Ok(Exec([a]), toks[1..]);
    assert ReadBacks(Back(Exec([a])), rest) == (Back(Exec([a])), rest);
    assert ReadBacks(Exec([a]), toks[1..]) == (Back(Exec([a])), rest);
  }

  /** What redirections do, on characters: "<" opens the file for reading as descriptor 0,
      ">" creates or empties it and ">>" creates it, both for writing as descriptor 1. */
  lemma RedirectsMean(a: string, f: string)
    requires IsWord(a) && IsWord(f)
    ensures Meaning(a + " < " + f) == Ok(Redir(Exec([a]), Redirect(In, f)), []) && Mode(In) == 0x000 && Fd(In) == 0
    ensures Meaning(a + " > " + f) == Ok(Redir(Exec([a]), Redirect(Out, f)), []) && Mode(Out) == 0x441 && Fd(Out) == 1
    ensures Meaning(a + " >> " + f) == Ok(Redir(Exec([a]), Redirect(Append, f)), [])
    ensures Mode(Append) == 0x041 && Fd(Append) == 1
  {
    hide Parse, Lex, IsWord, Meaning;
    WordSymWord(a, '<', f);
    WordSymWord(a, '>', f);
    WordSymWord(a, '+', f);
    ParseRedir(a, '<', f);
    ParseRedir(a, '>', f);
    ParseRedir(a, '+', f);
    assert a + " " + "<" + " " + f == a + " < " + f;
    assert a + " " + ">" + " " + f == a + " > " + f;
    assert a + " " + ">>" + " " + f == a + " >> " + f;
  }

  /** The round trip: a tree of words with no blanks and no symbols comes back from its
      printing if and only if no command in it has more than nine words. */
  lemma RoundTrip(cmd: Cmd<string>)
    requires All(cmd, IsWord)
    ensures Meaning(Print(cmd)) == Ok(cmd, []) <==> AtMostNine(cmd)
  {
    hide Lex, Spell, Printed, Parse;
    PrintedProper(cmd);
    LexSpell(Print(cmd), 0, Printed(cmd));
    PrintParse(cmd);
  }

  /** Whatever line was understood, printing what it means and reading that gives the same
      meaning: blanks and superfluous parentheses carry none. */
  lemma Normalise(line: string)
    requires CLine(line) && Meaning(line).Ok?
    ensures Meaning(Print(Meaning(line).value)) == Meaning(line)
  {
    hide Lex, Parse, Print, Whole, IsWord, MapToks;
    var toks := Lex(line, 0);
    MapParse(Texts(line), toks);
    LexWhole(line, 0);
    TextsProper(line, toks);
    ParseAll(MapToks(Texts(line), toks), IsWord);
    ParsePrintParse(MapToks(Texts(line), toks));
    var cmd := Meaning(line).value;
    PrintedProper(cmd);
    LexSpell(Print(cmd), 0, Printed(cmd)) by { PrintIs(cmd); }
  }

  lemma PrintIs(cmd: Cmd<string>)
    ensures Print(cmd)[0..] == Spell(Printed(cmd))
  {
  }

  lemma TextsProper(line: string, toks: seq<Token<Span>>)
    requires AllToks(toks, Wholes(line))
    ensures AllToks(MapToks(Texts(line), toks), IsWord)
  {
    forall i | 0 <= i < |toks| && toks[i].Word? ensures IsWord(Text(line, toks[i].w)) {
      assert Wholes(line)(toks[i].w);
    }
  }

  // ---- The scanner and the parser on characters --------------------------------------------

  method SkipBlanks(line: string, from: nat) returns (s: nat)
    requires from <= |line|
    ensures s == Skip(line, from)
  {
    s := from;
    while s < |line| && Blank(line[s])
      invariant from <= s <= |line| && Skip(line, s) == Skip(line, from)
    {
      s := s + 1;
    }
  }

  function TokenOf(tok: char, q: nat, eq: nat): Token<Span> {
    if tok == 'a' then Word(Span(q, eq)) else Sym(tok)
  }

  /** gettoken: '\0' at the end of the line, 'a' for a word, '+' for ">>", otherwise the
      symbol itself. */
  method GetToken(line: string, ps: nat) returns (tok: char, q: nat, eq: nat, next: nat)
    requires ps <= |line| && CLine(line)
    ensures ps <= q <= eq <= next <= |line|
    ensures tok == '\0' <==> Lex(line, ps) == []
    ensures tok != '\0' ==> ps < next && Lex(line, ps) == [TokenOf(tok, q, eq)] + Lex(line, next)
  {
    hide Lex, Skip, WordEnd, Blank, Symbol, Whole, CLine;
    var s := SkipBlanks(line, ps);
    LexCases(line, ps);
    q := s;
    if s == |line| {
      tok := '\0';
    } else if Symbol(line[s]) && line[s] != '>' {
      SymbolFacts(line[s]);
      tok := line[s];
      s := s + 1;
    } else if line[s] == '>' {
      assert Symbol('>') by { GreaterIsSymbol(); }
      tok := line[s];
      s := s + 1;
      if s < |line| && line[s] == '>' {
        tok := '+';
        s := s + 1;
      }
    } else {
      tok := 'a';
      WordGoesOn(line, s);
      s := SkipWord(line, s);
    }
    eq := s;
    next := SkipBlanks(line, s);
    LexSkip(line, s);
  }

  method SkipWord(line: string, from: nat) returns (s: nat)
    requires from <= |line|
    ensures s == WordEnd(line, from)
  {
    s := from;
    while s < |line| && !Blank(line[s]) && !Symbol(line[s])
      invariant from <= s <= |line| && WordEnd(line, s) == WordEnd(line, from)
    {
      s := s + 1;
    }
  }

  // The tokens a set of symbol characters can start: '>' also starts ">>".
  function Starts(cs: set<char>): set<char> { if '>' in cs then cs + {'+'} else cs }

  method Peek(line: string, ps: nat, toks: set<char>) returns (yes: bool, next: nat)
    requires ps <= |line| && (forall c :: c in toks ==> Symbol(c))
    ensures ps <= next <= |line| && Lex(line, next) == Lex(line, ps)
    ensures yes <==> Head(Lex(line, ps), Starts(toks))
  {
    next := SkipBlanks(line, ps);
    LexSkip(line, ps);
    yes := next < |line| && line[next] in toks;
  }

  // A parse method does what the token parser does from the same place.
  ghost predicate Agrees<T>(line: string, spec: Result<T, Span>, from: nat, got: Outcome<T>, next: nat) {
    match spec
    case Ok(value, rest) => got == Done(value) && from <= next <= |line| && Lex(line, next) == rest
    case Err(e) => got == Panic(e)
  }

  method ParseRedirs(line: string, ps: nat, sofar: seq<Redirect<Span>>)
    returns (r: Outcome<seq<Redirect<Span>>>, next: nat)
    requires ps <= |line| && CLine(line)
    ensures Agrees(line, ReadRedirs(sofar, Lex(line, ps)), ps, r, next)
  {
    hide Lex, Starts;
    var rs := sofar;
    var more;
    more, next := Peek(line, ps, {'<', '>'});
    RedirStarts();
    while more
      invariant ps <= next <= |line|
      invariant ReadRedirs(rs, Lex(line, next)) == ReadRedirs(sofar, Lex(line, ps))
      invariant more <==> Head(Lex(line, next), {'<', '>', '+'})
      decreases |line| - next
    {
      ghost var toks := Lex(line, next);
      var tok, q, eq;
      tok, q, eq, next := GetToken(line, next);
      var kind := KindOf(tok);
      tok, q, eq, next := GetToken(line, next);
      if tok != 'a' { return Panic(MissingFile), next; }
      assert toks[2..] == Lex(line, next);
      rs := rs + [Redirect(kind, Span(q, eq))];
      more, next := Peek(line, next, {'<', '>'});
    }
    return Done(rs), next;
  }

  lemma RedirStarts()
    ensures Starts({'<', '>'}) == {'<', '>', '+'} && Starts({'(' }) == {'('} && Starts({')'}) == {')'}
    ensures Starts({'|'}) == {'|'} && Starts({'&'}) == {'&'} && Starts({';'}) == {';'}
    ensures Starts({'|', ')', '&', ';'}) == {'|', ')', '&', ';'}
  {
  }

  method ParseBlock(line: string, ps: nat) returns (r: Outcome<Cmd<Span>>, next: nat)
    requires ps <= |line| && CLine(line) && Head(Lex(line, ps), {'('})
    ensures Agrees(line, ReadBlock(Lex(line, ps)), ps, r, next)
    decreases |line| - ps, 0
  {
    hide Lex, Starts, ReadLine, ReadRedirs, Wrap;
    RedirStarts();
    var _, _, _, start := GetToken(line, ps);
    r, next := ParseLine(line, start);
    if r.Panic? { return; }
    var close;
    close, next := Peek(line, next, {')'});
    if !close { return Panic(MissingParen), next; }
    var _, _, _, after := GetToken(line, next);
    var rs;
    rs, next := ParseRedirs(line, after, []);
    if rs.Panic? { return Panic(rs.error), next; }
    r := Done(Wrap(r.value, rs.value));
  }

  /** parseexec: the exec node keeps growing inside the redirections wrapped around it, so
      the words and the redirections are gathered and put together at the end. */
  method ParseExec(line: string, ps: nat) returns (r: Outcome<Cmd<Span>>, next: nat)
    requires ps <= |line| && CLine(line)
    ensures Agrees(line, ReadExec(Lex(line, ps)), ps, r, next)
    decreases |line| - ps, 1
  {
    hide Lex, Starts, ReadBlock, ReadRedirs, ReadArgs;
    RedirStarts();
    var block;
    block, next := Peek(line, ps, {'('});
    if block {
      r, next := ParseBlock(line, next);
      return;
    }
    var rs;
    rs, next := ParseRedirs(line, next, []);
    if rs.Panic? { return Panic(rs.error), next; }
    r, next := ParseArgs(line, next, rs.value);
  }

  method ParseArgs(line: string, ps: nat, rs0: seq<Redirect<Span>>) returns (r: Outcome<Cmd<Span>>, next: nat)
    requires ps <= |line| && CLine(line)
    ensures Agrees(line, ReadArgs([], rs0, Lex(line, ps)), ps, r, next)
  {
    hide Lex, Starts, ReadRedirs, Wrap;
    RedirStarts();
    var argv, rs := [], rs0;
    var stop;
    stop, next := Peek(line, ps, {'|', ')', '&', ';'});
    while !stop
      invariant ps <= next <= |line|
      invariant ReadArgs(argv, rs, Lex(line, next)) == ReadArgs([], rs0, Lex(line, ps))
      invariant stop <==> Head(Lex(line, next), {'|', ')', '&', ';'})
      decreases |line| - next
    {
      var tok, q, eq, at := GetToken(line, next);
      if tok == '\0' { break; }
      if tok != 'a' { return Panic(Syntax), at; }
      if |argv| + 1 >= MAXARGS { return Panic(TooManyArgs), at; }
      argv := argv + [Span(q, eq)];
      var more;
      more, at := ParseRedirs(line, at, rs);
      if more.Panic? { return Panic(more.error), at; }
      rs := more.value;
      stop, next := Peek(line, at, {'|', ')', '&', ';'});
    }
    return Done(Wrap(Exec(argv), rs)), next;
  }

  method ParsePipe(line: string, ps: nat) returns (r: Outcome<Cmd<Span>>, next: nat)
    requires ps <= |line| && CLine(line)
    ensures Agrees(line, ReadPipe(Lex(line, ps)), ps, r, next)
    decreases |line| - ps, 2
  {
    hide Lex, Starts, ReadExec;
    RedirStarts();
    r, next := ParseExec(line, ps);
    if r.Panic? { return; }
    var bar;
    bar, next := Peek(line, next, {'|'});
    if bar {
      var _, _, _, start := GetToken(line, next);
      var right;
      right, next := ParsePipe(line, start);
      if right.Panic? { return right, next; }
      r := Done(Pipe(r.value, right.value));
    }
  }

  method ParseBacks(line: string, ps: nat, cmd0: Cmd<Span>) returns (cmd: Cmd<Span>, next: nat)
    requires ps <= |line| && CLine(line)
    ensures ps <= next <= |line| && (cmd, Lex(line, next)) == ReadBacks(cmd0, Lex(line, ps))
  {
    hide Lex, Starts;
    RedirStarts();
    cmd := cmd0;
    var back;
    back, next := Peek(line, ps, {'&'});
    while back
      invariant ps <= next <= |line|
      invariant ReadBacks(cmd, Lex(line, next)) == ReadBacks(cmd0, Lex(line, ps))
      invariant back <==> Head(Lex(line, next), {'&'})
      decreases |line| - next
    {
      var _, _, _, at := GetToken(line, next);
      cmd := Back(cmd);
      back, next := Peek(line, at, {'&'});
    }
  }

  method ParseLine(line: string, ps: nat) returns (r: Outcome<Cmd<Span>>, next: nat)
    requires ps <= |line| && CLine(line)
    ensures Agrees(line, ReadLine(Lex(line, ps)), ps, r, next)
    decreases |line| - ps, 3
  {
    hide Lex, Starts, ReadPipe, ReadBacks;
    RedirStarts();
    r, next := ParsePipe(line, ps);
    if r.Panic? { return; }
    var cmd;
    cmd, next := ParseBacks(line, next, r.value);
    var more;
    more, next := Peek(line, next, {';'});
    if more {
      var _, _, _, start := GetToken(line, next);
      var right;
      right, next := ParseLine(line, start);
      if right.Panic? { return right, next; }
      cmd := List(cmd, right.value);
    }
    r := Done(cmd);
  }

  // ---- Cutting the line into C strings ----------------------------------------------------

  // The positions nulterminate clears.
  function Ends(cmd: Cmd<Span>): set<nat> {
    match cmd
    case Exec(argv) => set i | 0 <= i < |argv| :: argv[i].eq
    case Redir(sub, to) => Ends(sub) + {to.file.eq}
    case Pipe(left, right) => Ends(left) + Ends(right)
    case List(left, right) => Ends(left) + Ends(right)
    case Back(sub) => Ends(sub)
  }

  ghost predicate Cut(was: string, now: string, ends: set<nat>) {
    |now| == |was| && forall i :: 0 <= i < |was| ==> now[i] == if i in ends then '\0' else was[i]
  }

  method NulTerminate(buf: array<char>, cmd: Cmd<Span>)
    requires forall e :: e in Ends(cmd) ==> e < buf.Length
    modifies buf
    ensures Cut(old(buf[..]), buf[..], Ends(cmd))
    decreases cmd
  {
    match cmd
    case Exec(argv) =>
      for i := 0 to |argv|
        invariant Cut(old(buf[..]), buf[..], set j | 0 <= j < i :: argv[j].eq)
      {
        assert argv[i].eq in Ends(cmd);
        buf[argv[i].eq] := '\0';
      }
    case Redir(sub, to) =>
      assert Ends(sub) <= Ends(cmd) && to.file.eq in Ends(cmd);
      NulTerminate(buf, sub);
      buf[to.file.eq] := '\0';
    case Pipe(left, right) =>
      assert Ends(left) <= Ends(cmd) && Ends(right) <= Ends(cmd);
      NulTerminate(buf, left);
      NulTerminate(buf, right);
    case List(left, right) =>
      assert Ends(left) <= Ends(cmd) && Ends(right) <= Ends(cmd);
      NulTerminate(buf, left);
      NulTerminate(buf, right);
    case Back(sub) =>
      assert Ends(sub) <= Ends(cmd);
      NulTerminate(buf, sub);
  }

  // The C string that starts at i.
  function CString(buf: string, i: nat): string
    decreases |buf| - i
  {
    if i >= |buf| || buf[i] == '\0' then "" else [buf[i]] + CString(buf, i + 1)
  }

  function CStrings(buf: string): Span -> string { (s: Span) => CString(buf, s.q) }

  // The buffer holds the line, its terminator, and whatever follows.
  predicate HoldsLine(buf: string, line: string) {
    |line| < |buf| && buf[..|line|] == line && buf[|line|] == '\0' && CLine(line)
  }

  lemma {:induction false} CStringIs(buf: string, q: nat, eq: nat)
    requires q <= eq < |buf| && buf[eq] == '\0' && forall k :: q <= k < eq ==> buf[k] != '\0'
    ensures CString(buf, q) == buf[q..eq]
    decreases eq - q
  {
    if q < eq { CStringIs(buf, q + 1, eq); }
  }

  // Only characters outside every word are cleared, so each word stands where it stood.
  lemma WordStands(was: string, now: string, line: string, ends: set<nat>, s: Span)
    requires HoldsLine(was, line) && Whole(line, s) && s.eq in ends && Cut(was, now, ends)
    requires forall e :: e in ends ==> e <= |line| && (e < |line| ==> !WordChar(line[e]))
    ensures CString(now, s.q) == Text(line, s)
  {
    forall k | s.q <= k < s.eq ensures now[k] == line[k] {
      assert was[..|line|][k] == line[k];
    }
    CStringIs(now, s.q, s.eq);
    assert now[s.q..s.eq] == line[s.q..s.eq];
  }

  lemma {:induction false} EndsOutside(line: string, cmd: Cmd<Span>)
    requires All(cmd, Wholes(line))
    ensures forall e :: e in Ends(cmd) ==> e <= |line| && (e < |line| ==> !WordChar(line[e]))
  {
    match cmd
    case Exec(argv) => assert forall i :: 0 <= i < |argv| ==> Wholes(line)(argv[i]);
    case Redir(sub, to) => EndsOutside(line, sub); assert Wholes(line)(to.file);
    case Pipe(left, right) => EndsOutside(line, left); EndsOutside(line, right);
    case List(left, right) => EndsOutside(line, left); EndsOutside(line, right);
    case Back(sub) => EndsOutside(line, sub);
  }

  lemma {:induction false} StringsOf(was: string, now: string, line: string, ends: set<nat>, cmd: Cmd<Span>)
    requires HoldsLine(was, line) && Cut(was, now, ends) && All(cmd, Wholes(line)) && Ends(cmd) <= ends
    requires forall e :: e in ends ==> e <= |line| && (e < |line| ==> !WordChar(line[e]))
    ensures MapCmd(CStrings(now), cmd) == MapCmd(Texts(line), cmd)
  {
    hide HoldsLine, Cut, WordChar, Whole, CString, Text;
    match cmd
    case Exec(argv) =>
      forall i | 0 <= i < |argv| ensures CStrings(now)(argv[i]) == Texts(line)(argv[i]) {
        assert Wholes(line)(argv[i]);
        assert argv[i].eq in Ends(cmd);
        WordStands(was, now, line, ends, argv[i]);
      }
      assert MapWords(CStrings(now), argv) == MapWords(Texts(line), argv);
    case Redir(sub, to) =>
      StringsOf(was, now, line, ends, sub);
      assert Wholes(line)(to.file) && to.file.eq in Ends(cmd);
      WordStands(was, now, line, ends, to.file);
    case Pipe(left, right) =>
      StringsOf(was, now, line, ends, left);
      StringsOf(was, now, line, ends, right);
    case List(left, right) =>
      StringsOf(was, now, line, ends, left);
      StringsOf(was, now, line, ends, right);
    case Back(sub) =>
      StringsOf(was, now, line, ends, sub);
  }

  method StrLen(buf: array<char>) returns (n: nat)
    requires exists i :: 0 <= i < buf.Length && buf[i] == '\0'
    ensures n < buf.Length && HoldsLine(buf[..], buf[..n])
  {
    n := 0;
    while buf[n] != '\0'
      invariant n < buf.Length && forall k :: 0 <= k < n ==> buf[k] != '\0'
      decreases buf.Length - n
    {
      n := n + 1;
    }
  }

  /** parsecmd: what is left in memory when it returns is the meaning of the line: the C
      string at every argv and file pointer is its word. A line that is not a command is
      left as it was. */
  method ParseCmd(buf: array<char>, ghost line: string) returns (r: Outcome<Cmd<Span>>)
    requires HoldsLine(buf[..], line)
    modifies buf
    ensures r.Panic? <==> Meaning(line).Err?
    ensures r.Panic? ==> buf[..] == old(buf[..]) && Meaning(line) == Err(r.error)
    ensures r.Done? ==> Meaning(line) == Ok(MapCmd(CStrings(buf[..]), r.value), [])
    ensures r.Done? ==> Cut(old(buf[..]), buf[..], Ends(r.value))
  {
    hide Lex, ReadLine, CStrings, Texts, HoldsLine, MapCmd, Cut, Whole;
    TerminatorIn(buf[..], line);
    var n := StrLen(buf);
    SameLine(buf[..], line, buf[..n]);
    var text := buf[..n];
    LexWhole(line, 0);
    MapParse(Texts(line), Lex(line, 0));
    var end: nat;
    r, end := ParseLine(text, 0);
    if r.Panic? { return; }
    LexSkip(text, end);
    end := SkipBlanks(text, end);
    NothingLeft(text, end);
    if end != |text| { return Panic(Leftovers); }
    ParseAll(Lex(line, 0), Wholes(line));
    EndsOutside(line, r.value);
    NulTerminate(buf, r.value);
    StringsOf(old(buf[..]), buf[..], line, Ends(r.value), r.value);
  }

  lemma NothingLeft(line: string, i: nat)
    requires i <= |line| && Skip(line, i) == i
    ensures i == |line| <==> Lex(line, i) == []
  {
  }

  lemma TerminatorIn(buf: string, line: string)
    requires HoldsLine(buf, line)
    ensures |line| < |buf| && buf[|line|] == '\0' && CLine(line)
  {
  }

  lemma SameLine(buf: string, a: string, b: string)
    requires HoldsLine(buf, a) && HoldsLine(buf, b)
    ensures a == b
  {
    assert forall k :: 0 <= k < |a| ==> buf[..|a|][k] == buf[k];
    assert forall k :: 0 <= k < |b| ==> buf[..|b|][k] == buf[k];
  }
}
