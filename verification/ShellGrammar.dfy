/** The command language of the shell (user/shell.c), once the line is cut into tokens:
    the grammar, the recursive-descent parser as functions on tokens, and the proof that
    the parser accepts exactly the grammar. W is what stands for a word: a pair of
    positions in the line, or its text. */
module ShellGrammar {

  // A symbol is its own character, except that '+' stands for ">>".
  datatype Token<W> = Sym(c: char) | Word(w: W)

  datatype Kind = In | Out | Append

  datatype Redirect<W> = Redirect(kind: Kind, file: W)

  datatype Cmd<W> =
    | Exec(argv: seq<W>)
    | Redir(sub: Cmd<W>, to: Redirect<W>)
    | Pipe(left: Cmd<W>, right: Cmd<W>)
    | List(left: Cmd<W>, right: Cmd<W>)
    | Back(sub: Cmd<W>)

  datatype Error = MissingFile | MissingParen | Syntax | TooManyArgs | Leftovers

  datatype Result<T, W> = Ok(value: T, rest: seq<Token<W>>) | Err(error: Error)

  const MAXARGS: nat := 10

  predicate Head<W>(toks: seq<Token<W>>, cs: set<char>) {
    toks != [] && toks[0].Sym? && toks[0].c in cs
  }

  function KindOf(c: char): Kind { if c == '<' then In else if c == '>' then Out else Append }

  // How a redirection opens its file: O_RDONLY, O_WRONLY | O_CREATE | O_TRUNC, O_WRONLY | O_CREATE.
  function Mode(k: Kind): nat { match k case In => 0 case Out => 0x1 + 0x40 + 0x400 case Append => 0x1 + 0x40 }

  // The descriptor that the file takes the place of.
  function Fd(k: Kind): nat { if k == In then 0 else 1 }

  function SymOf(k: Kind): char { match k case In => '<' case Out => '>' case Append => '+' }

  // Redirections wrap a command one by one, the last one outermost.
  function Wrap<W>(cmd: Cmd<W>, rs: seq<Redirect<W>>): Cmd<W> {
    if rs == [] then cmd else Redir(Wrap(cmd, rs[..|rs| - 1]), rs[|rs| - 1])
  }

  function Backs<W>(cmd: Cmd<W>, n: nat): Cmd<W> {
    if n == 0 then cmd else Back(Backs(cmd, n - 1))
  }

  // ---- The grammar: derivations, the tokens they yield, the tree they mean -------------

  /** line ::= pipe '&'* [';' line] */
  datatype Line<W> = Last(pipe: Pipeline<W>, backs: nat) | Then(pipe: Pipeline<W>, backs: nat, line: Line<W>)

  /** pipe ::= stage ['|' pipe] */
  datatype Pipeline<W> = One(stage: Stage<W>) | Bar(stage: Stage<W>, pipe: Pipeline<W>)

  /** stage ::= '(' line ')' redirect* | redirect* (word redirect*)* */
  datatype Stage<W> = Block(line: Line<W>, rs: seq<Redirect<W>>) | Simple(rs: seq<Redirect<W>>, args: seq<Arg<W>>)

  datatype Arg<W> = Arg(w: W, rs: seq<Redirect<W>>)

  function RedirYield<W>(rs: seq<Redirect<W>>): seq<Token<W>> {
    if rs == [] then [] else [Sym(SymOf(rs[0].kind)), Word(rs[0].file)] + RedirYield(rs[1..])
  }

  function ArgsYield<W>(args: seq<Arg<W>>): seq<Token<W>> {
    if args == [] then [] else [Word(args[0].w)] + (RedirYield(args[0].rs) + ArgsYield(args[1..]))
  }

  function Ands<W>(n: nat): seq<Token<W>> {
    if n == 0 then [] else [Sym('&')] + Ands(n - 1)
  }

  function StageYield<W>(d: Stage<W>): seq<Token<W>> {
    match d
    case Block(line, rs) => [Sym('(')] + (LineYield(line) + ([Sym(')')] + RedirYield(rs)))
    case Simple(rs, args) => RedirYield(rs) + ArgsYield(args)
  }

  function PipeYield<W>(d: Pipeline<W>): seq<Token<W>> {
    match d
    case One(stage) => StageYield(stage)
    case Bar(stage, pipe) => StageYield(stage) + ([Sym('|')] + PipeYield(pipe))
  }

  function LineYield<W>(d: Line<W>): seq<Token<W>> {
    match d
    case Last(pipe, backs) => PipeYield(pipe) + Ands(backs)
    case Then(pipe, backs, line) => PipeYield(pipe) + (Ands(backs) + ([Sym(';')] + LineYield(line)))
  }

  function ArgWords<W>(args: seq<Arg<W>>): seq<W> {
    if args == [] then [] else [args[0].w] + ArgWords(args[1..])
  }

  function ArgRedirs<W>(args: seq<Arg<W>>): seq<Redirect<W>> {
    if args == [] then [] else args[0].rs + ArgRedirs(args[1..])
  }

  function StageTree<W>(d: Stage<W>): Cmd<W> {
    match d
    case Block(line, rs) => Wrap(LineTree(line), rs)
    case Simple(rs, args) => Wrap(Exec(ArgWords(args)), rs + ArgRedirs(args))
  }

  function PipeTree<W>(d: Pipeline<W>): Cmd<W> {
    match d
    case One(stage) => StageTree(stage)
    case Bar(stage, pipe) => Pipe(StageTree(stage), PipeTree(pipe))
  }

  function LineTree<W>(d: Line<W>): Cmd<W> {
    match d
    case Last(pipe, backs) => Backs(PipeTree(pipe), backs)
    case Then(pipe, backs, line) => List(Backs(PipeTree(pipe), backs), LineTree(line))
  }

  // No command has more than nine words.
  predicate StageGood<W>(d: Stage<W>) {
    match d
    case Block(line, _) => LineGood(line)
    case Simple(_, args) => |args| < MAXARGS
  }

  predicate PipeGood<W>(d: Pipeline<W>) {
    StageGood(d.stage) && (d.Bar? ==> PipeGood(d.pipe))
  }

  predicate LineGood<W>(d: Line<W>) {
    PipeGood(d.pipe) && (d.Then? ==> LineGood(d.line))
  }

  // ---- The parser ----------------------------------------------------------------------

  function ReadRedirs<W>(rs: seq<Redirect<W>>, toks: seq<Token<W>>): (r: Result<seq<Redirect<W>>, W>)
    ensures r.Ok? ==> |r.rest| <= |toks| && !Head(r.rest, {'<', '>', '+'})
    decreases |toks|
  {
    if !Head(toks, {'<', '>', '+'}) then Ok(rs, toks)
    else if |toks| < 2 || !toks[1].Word? then Err(MissingFile)
    else ReadRedirs(rs + [Redirect(KindOf(toks[0].c), toks[1].w)], toks[2..])
  }

  function ReadArgs<W>(argv: seq<W>, rs: seq<Redirect<W>>, toks: seq<Token<W>>): (r: Result<Cmd<W>, W>)
    ensures r.Ok? ==> |r.rest| <= |toks|
    decreases |toks|
  {
    if toks == [] || Head(toks, {'|', ')', '&', ';'}) then Ok(Wrap(Exec(argv), rs), toks)
    else if toks[0].Sym? then Err(Syntax)
    else if |argv| + 1 >= MAXARGS then Err(TooManyArgs)
    else
      match ReadRedirs(rs, toks[1..])
      case Err(e) => Err(e)
      case Ok(rs', rest) => ReadArgs(argv + [toks[0].w], rs', rest)
  }

  function ReadBlock<W>(toks: seq<Token<W>>): (r: Result<Cmd<W>, W>)
    requires Head(toks, {'('})
    ensures r.Ok? ==> |r.rest| <= |toks|
    decreases |toks|, 0
  {
    match ReadLine(toks[1..])
    case Err(e) => Err(e)
    case Ok(cmd, rest) =>
      if !Head(rest, {')'}) then Err(MissingParen)
      else
        match ReadRedirs([], rest[1..])
        case Err(e) => Err(e)
        case Ok(rs, rest') => Ok(Wrap(cmd, rs), rest')
  }

  function ReadExec<W>(toks: seq<Token<W>>): (r: Result<Cmd<W>, W>)
    ensures r.Ok? ==> |r.rest| <= |toks|
    decreases |toks|, 1
  {
    if Head(toks, {'('}) then ReadBlock(toks)
    else
      match ReadRedirs([], toks)
      case Err(e) => Err(e)
      case Ok(rs, rest) => ReadArgs([], rs, rest)
  }

  function ReadPipe<W>(toks: seq<Token<W>>): (r: Result<Cmd<W>, W>)
    ensures r.Ok? ==> |r.rest| <= |toks|
    decreases |toks|, 2
  {
    match ReadExec(toks)
    case Err(e) => Err(e)
    case Ok(cmd, rest) =>
      if !Head(rest, {'|'}) then Ok(cmd, rest)
      else
        match ReadPipe(rest[1..])
        case Err(e) => Err(e)
        case Ok(right, rest') => Ok(Pipe(cmd, right), rest')
  }

  function ReadBacks<W>(cmd: Cmd<W>, toks: seq<Token<W>>): (r: (Cmd<W>, seq<Token<W>>))
    ensures |r.1| <= |toks| && !Head(r.1, {'&'})
    decreases |toks|
  {
    if Head(toks, {'&'}) then ReadBacks(Back(cmd), toks[1..]) else (cmd, toks)
  }

  function ReadLine<W>(toks: seq<Token<W>>): (r: Result<Cmd<W>, W>)
    ensures r.Ok? ==> |r.rest| <= |toks|
    decreases |toks|, 3
  {
    match ReadPipe(toks)
    case Err(e) => Err(e)
    case Ok(cmd0, rest0) =>
      var (cmd, rest) := ReadBacks(cmd0, rest0);
      if !Head(rest, {';'}) then Ok(cmd, rest)
      else
        match ReadLine(rest[1..])
        case Err(e) => Err(e)
        case Ok(right, rest') => Ok(List(cmd, right), rest')
  }

  function Parse<W>(toks: seq<Token<W>>): Result<Cmd<W>, W> {
    match ReadLine(toks)
    case Err(e) => Err(e)
    case Ok(cmd, rest) => if rest == [] then Ok(cmd, []) else Err(Leftovers)
  }

  // ---- Regrouping sequences ---------------------------------------------------------------

  lemma Glue2<T>(a: seq<T>, b: seq<T>, c: seq<T>)
    ensures a + (b + c) == (a + b) + c
  {
  }

  lemma Glue3<T>(a: seq<T>, b: seq<T>, c: seq<T>, d: seq<T>)
    ensures a + (b + (c + d)) == (a + (b + c)) + d
  {
  }

  lemma Glue4<T>(a: seq<T>, b: seq<T>, c: seq<T>, d: seq<T>, e: seq<T>)
    ensures a + (b + (c + (d + e))) == (a + (b + (c + d))) + e
  {
    Glue3(b, c, d, e);
    Glue2(a, b + (c + d), e);
  }

  lemma First<W>(toks: seq<Token<W>>, c: char)
    requires Head(toks, {c})
    ensures toks == [Sym(c)] + toks[1..]
  {
  }

  lemma Uncons<T>(s: seq<T>)
    requires s != []
    ensures s == [s[0]] + s[1..]
  {
  }

  lemma NoneFirst<T>(s: seq<T>)
    ensures [] + s == s && s + [] == s
  {
  }

  // ---- Everything parsed has a derivation ------------------------------------------------

  lemma {:induction false} RedirsSound<W>(rs: seq<Redirect<W>>, toks: seq<Token<W>>) returns (more: seq<Redirect<W>>)
    requires ReadRedirs(rs, toks).Ok?
    ensures ReadRedirs(rs, toks).value == rs + more
    ensures toks == RedirYield(more) + ReadRedirs(rs, toks).rest
    decreases |toks|
  {
    if !Head(toks, {'<', '>', '+'}) {
      more := [];
      assert rs + more == rs;
    } else {
      var d := Redirect(KindOf(toks[0].c), toks[1].w);
      var tail := RedirsSound(rs + [d], toks[2..]);
      more := [d] + tail;
      assert more[1..] == tail;
      Glue2(rs, [d], tail);
      Glue2([toks[0], toks[1]], RedirYield(tail), ReadRedirs(rs, toks).rest);
      assert toks == [toks[0], toks[1]] + toks[2..];
    }
  }

  lemma {:induction false} ArgsSound<W>(argv: seq<W>, rs: seq<Redirect<W>>, toks: seq<Token<W>>)
    returns (args: seq<Arg<W>>)
    requires ReadArgs(argv, rs, toks).Ok? && |argv| < MAXARGS
    ensures ReadArgs(argv, rs, toks).value == Wrap(Exec(argv + ArgWords(args)), rs + ArgRedirs(args))
    ensures toks == ArgsYield(args) + ReadArgs(argv, rs, toks).rest
    ensures |argv| + |args| < MAXARGS
    decreases |toks|
  {
    hide ReadRedirs, Wrap, RedirYield;
    if toks == [] || Head(toks, {'|', ')', '&', ';'}) {
      args := [];
      NoneFirst(argv);
      NoneFirst(rs);
    } else {
      var w := toks[0].w;
      var read := ReadRedirs(rs, toks[1..]);
      var mine := RedirsSound(rs, toks[1..]);
      var tail := ArgsSound(argv + [w], read.value, read.rest);
      args := [Arg(w, mine)] + tail;
      assert args[1..] == tail;
      Glue2(argv, [w], ArgWords(tail));
      Glue2(rs, mine, ArgRedirs(tail));
      Uncons(toks);
      Glue3([toks[0]], RedirYield(mine), ArgsYield(tail), ReadArgs(argv, rs, toks).rest);
    }
  }

  lemma {:induction false} BacksSound<W>(cmd: Cmd<W>, toks: seq<Token<W>>) returns (n: nat)
    ensures ReadBacks(cmd, toks).0 == Backs(cmd, n)
    ensures toks == Ands(n) + ReadBacks(cmd, toks).1
    decreases |toks|
  {
    if Head(toks, {'&'}) {
      var m := BacksSound(Back(cmd), toks[1..]);
      n := m + 1;
      BackFirst(cmd, m);
      assert toks == [Sym('&')] + toks[1..];
    } else {
      n := 0;
    }
  }

  lemma {:induction false} BackFirst<W>(cmd: Cmd<W>, n: nat)
    ensures Backs(Back(cmd), n) == Backs(cmd, n + 1)
  {
    if n > 0 { BackFirst(cmd, n - 1); }
  }

  lemma {:induction false} ExecSound<W>(toks: seq<Token<W>>) returns (d: Stage<W>)
    requires ReadExec(toks).Ok?
    ensures StageGood(d) && StageTree(d) == ReadExec(toks).value
    ensures toks == StageYield(d) + ReadExec(toks).rest
    decreases |toks|, 1
  {
    hide ReadRedirs, Wrap, RedirYield, ReadArgs, ArgsYield, ArgWords, ArgRedirs, ReadLine, LineYield, LineTree,
        LineGood;
    if Head(toks, {'('}) {
      var inner := LineSound(toks[1..]);
      var rest := ReadLine(toks[1..]).rest;
      var rs := RedirsSound([], rest[1..]);
      d := Block(inner, rs);
      NoneFirst(rs);
      First(toks, '(');
      First(rest, ')');
      Glue4([Sym('(')], LineYield(inner), [Sym(')')], RedirYield(rs), ReadExec(toks).rest);
    } else {
      var read := ReadRedirs([], toks);
      var rs := RedirsSound([], toks);
      var args := ArgsSound([], read.value, read.rest);
      d := Simple(rs, args);
      NoneFirst(rs);
      NoneFirst(ArgWords(args));
      Glue2(RedirYield(rs), ArgsYield(args), ReadExec(toks).rest);
    }
  }

  lemma {:induction false} PipeSound<W>(toks: seq<Token<W>>) returns (d: Pipeline<W>)
    requires ReadPipe(toks).Ok?
    ensures PipeGood(d) && PipeTree(d) == ReadPipe(toks).value
    ensures toks == PipeYield(d) + ReadPipe(toks).rest
    decreases |toks|, 2
  {
    hide ReadExec, StageYield, StageTree, StageGood;
    var stage := ExecSound(toks);
    var rest := ReadExec(toks).rest;
    if Head(rest, {'|'}) {
      var pipe := PipeSound(rest[1..]);
      d := Bar(stage, pipe);
      First(rest, '|');
      Glue3(StageYield(stage), [Sym('|')], PipeYield(pipe), ReadPipe(toks).rest);
    } else {
      d := One(stage);
    }
  }

  /** Soundness: a line parsed is derived by the grammar, and its tree is the one the
      derivation means. */
  lemma {:induction false} LineSound<W>(toks: seq<Token<W>>) returns (d: Line<W>)
    requires ReadLine(toks).Ok?
    ensures LineGood(d) && LineTree(d) == ReadLine(toks).value
    ensures toks == LineYield(d) + ReadLine(toks).rest
    decreases |toks|, 3
  {
    hide ReadPipe, PipeYield, PipeTree, PipeGood, ReadBacks, Ands, Backs;
    var pipe := PipeSound(toks);
    var read := ReadPipe(toks);
    var n := BacksSound(read.value, read.rest);
    var rest := ReadBacks(read.value, read.rest).1;
    if Head(rest, {';'}) {
      var line := LineSound(rest[1..]);
      d := Then(pipe, n, line);
      First(rest, ';');
      Glue4(PipeYield(pipe), Ands(n), [Sym(';')], LineYield(line), ReadLine(toks).rest);
    } else {
      d := Last(pipe, n);
      Glue2(PipeYield(pipe), Ands(n), rest);
    }
  }

  // ---- Every derivation is parsed --------------------------------------------------------

  predicate Stops<W>(rest: seq<Token<W>>, cs: set<char>) { rest == [] || Head(rest, cs) }

  lemma {:induction false} RedirsComplete<W>(rs: seq<Redirect<W>>, more: seq<Redirect<W>>, rest: seq<Token<W>>)
    requires !Head(rest, {'<', '>', '+'})
    ensures ReadRedirs(rs, RedirYield(more) + rest) == Ok(rs + more, rest)
    decreases |more|
  {
    var toks := RedirYield(more) + rest;
    if more == [] {
      assert toks == rest && rs + more == rs;
    } else {
      RedirsComplete(rs + [more[0]], more[1..], rest);
      assert toks == [Sym(SymOf(more[0].kind)), Word(more[0].file)] + (RedirYield(more[1..]) + rest);
      assert toks[2..] == RedirYield(more[1..]) + rest;
      assert rs + [more[0]] + more[1..] == rs + more;
    }
  }

  lemma {:induction false} ArgsComplete<W>(argv: seq<W>, rs: seq<Redirect<W>>, args: seq<Arg<W>>, rest: seq<Token<W>>)
    requires Stops(rest, {'|', ')', '&', ';'}) && |argv| + |args| < MAXARGS
    ensures ReadArgs(argv, rs, ArgsYield(args) + rest) ==
            Ok(Wrap(Exec(argv + ArgWords(args)), rs + ArgRedirs(args)), rest)
    ensures !Head(ArgsYield(args) + rest, {'<', '>', '+'})
    decreases |args|
  {
    hide ReadRedirs, Wrap, RedirYield;
    var toks := ArgsYield(args) + rest;
    if args == [] {
      NoneFirst(rest);
      NoneFirst(argv);
      NoneFirst(rs);
    } else {
      var w, mine, tail := args[0].w, args[0].rs, args[1..];
      ArgsComplete(argv + [w], rs + mine, tail, rest);
      RedirsComplete(rs, mine, ArgsYield(tail) + rest);
      Glue3([Word(w)], RedirYield(mine), ArgsYield(tail), rest);
      assert toks[1..] == RedirYield(mine) + (ArgsYield(tail) + rest);
      Glue2(argv, [w], ArgWords(tail));
      Glue2(rs, mine, ArgRedirs(tail));
    }
  }

  lemma {:induction false} BacksComplete<W>(cmd: Cmd<W>, n: nat, rest: seq<Token<W>>)
    requires !Head(rest, {'&'})
    ensures ReadBacks(cmd, Ands(n) + rest) == (Backs(cmd, n), rest)
    decreases n
  {
    var toks := Ands(n) + rest;
    if n == 0 {
      assert toks == rest;
    } else {
      BacksComplete(Back(cmd), n - 1, rest);
      BackFirst(cmd, n - 1);
      assert toks[1..] == Ands(n - 1) + rest;
    }
  }

  lemma {:induction false} ExecComplete<W>(d: Stage<W>, rest: seq<Token<W>>)
    requires StageGood(d) && Stops(rest, {'|', ')', '&', ';'})
    ensures ReadExec(StageYield(d) + rest) == Ok(StageTree(d), rest)
    decreases d
  {
    hide ReadRedirs, Wrap, RedirYield, ReadArgs, ArgsYield, ArgWords, ArgRedirs, ReadLine, LineYield, LineTree,
        LineGood;
    var toks := StageYield(d) + rest;
    match d
    case Block(line, rs) =>
      var after := [Sym(')')] + (RedirYield(rs) + rest);
      LineComplete(line, after);
      Glue4([Sym('(')], LineYield(line), [Sym(')')], RedirYield(rs), rest);
      assert toks[1..] == LineYield(line) + after;
      assert after[1..] == RedirYield(rs) + rest;
      RedirsComplete([], rs, rest);
      NoneFirst(rs);
    case Simple(rs, args) =>
      ArgsComplete([], rs, args, rest);
      RedirsComplete([], rs, ArgsYield(args) + rest);
      Glue2(RedirYield(rs), ArgsYield(args), rest);
      NoneFirst(rs);
      NoneFirst(ArgWords(args));
      SimpleHead(rs, args, rest);
  }

  lemma SimpleHead<W>(rs: seq<Redirect<W>>, args: seq<Arg<W>>, rest: seq<Token<W>>)
    requires Stops(rest, {'|', ')', '&', ';'})
    ensures !Head(RedirYield(rs) + (ArgsYield(args) + rest), {'('})
  {
    if rs == [] && args == [] {
      assert RedirYield(rs) + (ArgsYield(args) + rest) == rest;
    }
  }

  lemma {:induction false} PipeComplete<W>(d: Pipeline<W>, rest: seq<Token<W>>)
    requires PipeGood(d) && Stops(rest, {')', '&', ';'})
    ensures ReadPipe(PipeYield(d) + rest) == Ok(PipeTree(d), rest)
    decreases d
  {
    hide ReadExec, StageYield, StageTree, StageGood;
    match d
    case One(stage) =>
      ExecComplete(stage, rest);
    case Bar(stage, pipe) =>
      var after := [Sym('|')] + (PipeYield(pipe) + rest);
      ExecComplete(stage, after);
      PipeComplete(pipe, rest);
      Glue3(StageYield(stage), [Sym('|')], PipeYield(pipe), rest);
      assert after[1..] == PipeYield(pipe) + rest;
  }

  /** Completeness: a derivation of at most nine words a command, followed by a ')' or
      nothing, is read back as its tree, and what follows is left. */
  lemma {:induction false} LineComplete<W>(d: Line<W>, rest: seq<Token<W>>)
    requires LineGood(d) && Stops(rest, {')'})
    ensures ReadLine(LineYield(d) + rest) == Ok(LineTree(d), rest)
    decreases d
  {
    hide ReadPipe, PipeYield, PipeTree, PipeGood, ReadBacks, Ands, Backs;
    match d
    case Last(pipe, backs) =>
      var after := Ands(backs) + rest;
      AndsHead(backs, rest);
      PipeComplete(pipe, after);
      BacksComplete(PipeTree(pipe), backs, rest);
      Glue2(PipeYield(pipe), Ands(backs), rest);
    case Then(pipe, backs, line) =>
      var tail := [Sym(';')] + (LineYield(line) + rest);
      var after := Ands(backs) + tail;
      AndsHead(backs, tail);
      PipeComplete(pipe, after);
      BacksComplete(PipeTree(pipe), backs, tail);
      LineComplete(line, rest);
      Glue4(PipeYield(pipe), Ands(backs), [Sym(';')], LineYield(line), rest);
      assert tail[1..] == LineYield(line) + rest;
  }

  lemma AndsHead<W>(n: nat, rest: seq<Token<W>>)
    requires Stops(rest, {')', ';'})
    ensures Stops(Ands(n) + rest, {')', '&', ';'})
  {
    if n == 0 { assert Ands(n) + rest == rest; }
  }

  /** The parser accepts exactly the lines of the grammar, and gives each its tree. */
  lemma ParseIff<W>(toks: seq<Token<W>>, cmd: Cmd<W>)
    ensures Parse(toks) == Ok(cmd, []) <==>
              exists d: Line<W> :: LineGood(d) && LineYield(d) == toks && LineTree(d) == cmd
  {
    if Parse(toks) == Ok(cmd, []) {
      var d := LineSound(toks);
      assert LineYield(d) + [] == LineYield(d);
    }
    if d: Line<W> :| LineGood(d) && LineYield(d) == toks && LineTree(d) == cmd {
      LineComplete(d, []);
      assert toks + [] == toks;
    }
  }

  /** The grammar is unambiguous: one token sequence means one tree. */
  lemma Unambiguous<W>(d: Line<W>, e: Line<W>)
    requires LineGood(d) && LineGood(e) && LineYield(d) == LineYield(e)
    ensures LineTree(d) == LineTree(e)
  {
    LineComplete(d, []);
    LineComplete(e, []);
  }

  // ---- Printing --------------------------------------------------------------------------

  // The derivation that puts every operand in parentheses.
  function Parens<W>(cmd: Cmd<W>): Line<W> {
    match cmd
    case Exec(argv) => Last(One(Simple([], Plain(argv))), 0)
    case Redir(sub, to) => Last(One(Block(Parens(sub), [to])), 0)
    case Pipe(left, right) => Last(Bar(Block(Parens(left), []), One(Block(Parens(right), []))), 0)
    case List(left, right) => Then(One(Block(Parens(left), [])), 0, Last(One(Block(Parens(right), [])), 0))
    case Back(sub) => Last(One(Block(Parens(sub), [])), 1)
  }

  function Plain<W>(argv: seq<W>): (args: seq<Arg<W>>)
    ensures |args| == |argv|
  {
    if argv == [] then [] else [Arg(argv[0], [])] + Plain(argv[1..])
  }

  function Printed<W>(cmd: Cmd<W>): seq<Token<W>> { LineYield(Parens(cmd)) }

  predicate AtMostNine<W>(cmd: Cmd<W>) {
    match cmd
    case Exec(argv) => |argv| <= 9
    case Redir(sub, _) => AtMostNine(sub)
    case Pipe(left, right) => AtMostNine(left) && AtMostNine(right)
    case List(left, right) => AtMostNine(left) && AtMostNine(right)
    case Back(sub) => AtMostNine(sub)
  }

  lemma {:induction false} ParensTree<W>(cmd: Cmd<W>)
    ensures LineTree(Parens(cmd)) == cmd
    ensures LineGood(Parens(cmd)) <==> AtMostNine(cmd)
  {
    match cmd
    case Exec(argv) =>
      PlainArgs(argv);
      OneTree(Simple([], Plain(argv)));
    case Redir(sub, to) =>
      ParensTree(sub);
      WrapOne(sub, to);
      OneTree(Block(Parens(sub), [to]));
    case Pipe(left, right) => ParensTree(left); ParensTree(right); BlockTree(left); BlockTree(right);
    case List(left, right) => ParensTree(left); ParensTree(right); BlockTree(left); BlockTree(right);
    case Back(sub) =>
      ParensTree(sub);
      BlockTree(sub);
      assert Backs(sub, 1) == Back(Backs(sub, 0));
  }

  lemma BlockTree<W>(cmd: Cmd<W>)
    ensures var d := Block(Parens(cmd), []);
            && PipeTree(One(d)) == StageTree(d) == LineTree(Parens(cmd))
            && (PipeGood(One(d)) <==> StageGood(d)) && (StageGood(d) <==> LineGood(Parens(cmd)))
  {
  }

  lemma OneTree<W>(d: Stage<W>)
    ensures LineTree(Last(One(d), 0)) == StageTree(d) && (LineGood(Last(One(d), 0)) <==> StageGood(d))
  {
  }

  lemma WrapOne<W>(cmd: Cmd<W>, to: Redirect<W>)
    ensures Wrap(cmd, [to]) == Redir(cmd, to)
  {
    assert [to][..0] == [];
  }

  lemma {:induction false} PlainArgs<W>(argv: seq<W>)
    ensures ArgWords(Plain(argv)) == argv && ArgRedirs(Plain(argv)) == []
    ensures |Plain(argv)| == |argv|
  {
    if argv != [] {
      PlainArgs(argv[1..]);
      assert Plain(argv)[1..] == Plain(argv[1..]);
    }
  }

  /** Every tree with at most nine words a command comes back from its printing, and no
      other tree does. */
  lemma PrintParse<W>(cmd: Cmd<W>)
    ensures Parse(Printed(cmd)) == Ok(cmd, []) <==> AtMostNine(cmd)
  {
    ParensTree(cmd);
    if AtMostNine(cmd) {
      LineComplete(Parens(cmd), []);
      assert Printed(cmd) + [] == Printed(cmd);
    } else if Parse(Printed(cmd)) == Ok(cmd, []) {
      var d := LineSound(Printed(cmd));
      LineNine(d);
    }
  }

  lemma {:induction false} LineNine<W>(d: Line<W>)
    requires LineGood(d)
    ensures AtMostNine(LineTree(d))
    decreases d
  {
    PipeNine(d.pipe);
    BacksNine(PipeTree(d.pipe), d.backs);
    if d.Then? { LineNine(d.line); }
  }

  lemma {:induction false} PipeNine<W>(d: Pipeline<W>)
    requires PipeGood(d)
    ensures AtMostNine(PipeTree(d))
    decreases d
  {
    match d.stage {
      case Block(line, rs) => LineNine(line); WrapNine(LineTree(line), rs);
      case Simple(rs, args) => WordCount(args); WrapNine(Exec(ArgWords(args)), rs + ArgRedirs(args));
    }
    if d.Bar? { PipeNine(d.pipe); }
  }

  lemma {:induction false} WordCount<W>(args: seq<Arg<W>>)
    ensures |ArgWords(args)| == |args|
  {
    if args != [] { WordCount(args[1..]); }
  }

  lemma {:induction false} WrapNine<W>(cmd: Cmd<W>, rs: seq<Redirect<W>>)
    requires AtMostNine(cmd)
    ensures AtMostNine(Wrap(cmd, rs))
  {
    if rs != [] { WrapNine(cmd, rs[..|rs| - 1]); }
  }

  lemma {:induction false} BacksNine<W>(cmd: Cmd<W>, n: nat)
    requires AtMostNine(cmd)
    ensures AtMostNine(Backs(cmd, n))
  {
    if n > 0 { BacksNine(cmd, n - 1); }
  }

  /** Whatever was parsed, printing the tree and parsing again changes nothing. */
  lemma ParsePrintParse<W>(toks: seq<Token<W>>)
    requires Parse(toks).Ok?
    ensures Parse(Printed(Parse(toks).value)) == Parse(toks)
  {
    var d := LineSound(toks);
    LineNine(d);
    PrintParse(Parse(toks).value);
  }

  // ---- The words of a tree are words of the line ------------------------------------------

  predicate All<W>(cmd: Cmd<W>, p: W -> bool) {
    match cmd
    case Exec(argv) => forall i :: 0 <= i < |argv| ==> p(argv[i])
    case Redir(sub, to) => All(sub, p) && p(to.file)
    case Pipe(left, right) => All(left, p) && All(right, p)
    case List(left, right) => All(left, p) && All(right, p)
    case Back(sub) => All(sub, p)
  }

  predicate AllFiles<W>(rs: seq<Redirect<W>>, p: W -> bool) {
    forall i :: 0 <= i < |rs| ==> p(rs[i].file)
  }

  predicate AllToks<W>(toks: seq<Token<W>>, p: W -> bool) {
    forall i :: 0 <= i < |toks| && toks[i].Word? ==> p(toks[i].w)
  }

  lemma AllSplit<W>(a: seq<Token<W>>, b: seq<Token<W>>, p: W -> bool)
    ensures AllToks(a + b, p) <==> AllToks(a, p) && AllToks(b, p)
  {
    var s := a + b;
    if AllToks(s, p) {
      assert forall i :: 0 <= i < |a| ==> a[i] == s[i];
      assert forall i :: 0 <= i < |b| ==> b[i] == s[|a| + i];
    }
  }

  lemma {:induction false} RedirsAll<W>(rs: seq<Redirect<W>>, p: W -> bool)
    ensures AllToks(RedirYield(rs), p) <==> AllFiles(rs, p)
  {
    if rs != [] {
      var head: seq<Token<W>> := [Sym(SymOf(rs[0].kind)), Word(rs[0].file)];
      RedirsAll(rs[1..], p);
      AllSplit(head, RedirYield(rs[1..]), p);
      assert head[1].Word?;
      assert AllFiles(rs, p) <==> p(rs[0].file) && AllFiles(rs[1..], p);
    }
  }

  lemma {:induction false} ArgsAll<W>(args: seq<Arg<W>>, p: W -> bool)
    requires AllToks(ArgsYield(args), p)
    ensures All(Exec(ArgWords(args)), p) && AllFiles(ArgRedirs(args), p)
  {
    if args != [] {
      var head: seq<Token<W>> := [Word(args[0].w)];
      AllSplit(head, RedirYield(args[0].rs) + ArgsYield(args[1..]), p);
      AllSplit(RedirYield(args[0].rs), ArgsYield(args[1..]), p);
      assert head[0].Word?;
      RedirsAll(args[0].rs, p);
      ArgsAll(args[1..], p);
    }
  }

  lemma {:induction false} WrapAll<W>(cmd: Cmd<W>, rs: seq<Redirect<W>>, p: W -> bool)
    requires All(cmd, p) && AllFiles(rs, p)
    ensures All(Wrap(cmd, rs), p)
  {
    if rs != [] { WrapAll(cmd, rs[..|rs| - 1], p); }
  }

  lemma {:induction false} BacksAll<W>(cmd: Cmd<W>, n: nat, p: W -> bool)
    requires All(cmd, p)
    ensures All(Backs(cmd, n), p)
  {
    if n > 0 { BacksAll(cmd, n - 1, p); }
  }

  lemma {:induction false} StageAll<W>(d: Stage<W>, p: W -> bool)
    requires AllToks(StageYield(d), p)
    ensures All(StageTree(d), p)
    decreases d
  {
    hide AllToks, AllFiles, RedirYield, ArgsYield, All;
    match d
    case Block(line, rs) =>
      AllSplit([Sym('(')], LineYield(line) + ([Sym(')')] + RedirYield(rs)), p);
      AllSplit(LineYield(line), [Sym(')')] + RedirYield(rs), p);
      AllSplit([Sym(')')], RedirYield(rs), p);
      LineAll(line, p);
      RedirsAll(rs, p);
      WrapAll(LineTree(line), rs, p);
    case Simple(rs, args) =>
      AllSplit(RedirYield(rs), ArgsYield(args), p);
      RedirsAll(rs, p);
      ArgsAll(args, p);
      FilesJoin(rs, ArgRedirs(args), p);
      WrapAll(Exec(ArgWords(args)), rs + ArgRedirs(args), p);
  }

  lemma FilesJoin<W>(a: seq<Redirect<W>>, b: seq<Redirect<W>>, p: W -> bool)
    requires AllFiles(a, p) && AllFiles(b, p)
    ensures AllFiles(a + b, p)
  {
  }

  lemma {:induction false} PipeAll<W>(d: Pipeline<W>, p: W -> bool)
    requires AllToks(PipeYield(d), p)
    ensures All(PipeTree(d), p)
    decreases d
  {
    hide AllToks, StageYield, StageTree;
    if d.Bar? {
      AllSplit(StageYield(d.stage), [Sym('|')] + PipeYield(d.pipe), p);
      AllSplit([Sym('|')], PipeYield(d.pipe), p);
      PipeAll(d.pipe, p);
    }
    StageAll(d.stage, p);
  }

  lemma {:induction false} LineAll<W>(d: Line<W>, p: W -> bool)
    requires AllToks(LineYield(d), p)
    ensures All(LineTree(d), p)
    decreases d
  {
    hide AllToks, PipeYield, PipeTree, Ands, Backs;
    if d.Then? {
      AllSplit(PipeYield(d.pipe), Ands(d.backs) + ([Sym(';')] + LineYield(d.line)), p);
      AllSplit(Ands(d.backs), [Sym(';')] + LineYield(d.line), p);
      AllSplit([Sym(';')], LineYield(d.line), p);
      LineAll(d.line, p);
    } else {
      AllSplit(PipeYield(d.pipe), Ands(d.backs), p);
    }
    PipeAll(d.pipe, p);
    BacksAll(PipeTree(d.pipe), d.backs, p);
  }

  // Whatever holds of every word of the line holds of every word of the tree.
  lemma ParseAll<W>(toks: seq<Token<W>>, p: W -> bool)
    requires Parse(toks).Ok? && AllToks(toks, p)
    ensures All(Parse(toks).value, p)
  {
    var d := LineSound(toks);
    NoneFirst(LineYield(d));
    LineAll(d, p);
  }

  // ---- The parser does not look into words ------------------------------------------------

  function MapTok<A, B>(f: A -> B, t: Token<A>): Token<B> {
    match t case Sym(c) => Sym(c) case Word(w) => Word(f(w))
  }

  function MapToks<A, B>(f: A -> B, toks: seq<Token<A>>): (r: seq<Token<B>>)
    ensures |r| == |toks| && forall i :: 0 <= i < |r| ==> r[i] == MapTok(f, toks[i])
  {
    seq(|toks|, i requires 0 <= i < |toks| => MapTok(f, toks[i]))
  }

  function MapRedirs<A, B>(f: A -> B, rs: seq<Redirect<A>>): (r: seq<Redirect<B>>)
    ensures |r| == |rs| && forall i :: 0 <= i < |r| ==> r[i] == Redirect(rs[i].kind, f(rs[i].file))
  {
    seq(|rs|, i requires 0 <= i < |rs| => Redirect(rs[i].kind, f(rs[i].file)))
  }

  function MapWords<A, B>(f: A -> B, ws: seq<A>): (r: seq<B>)
    ensures |r| == |ws| && forall i :: 0 <= i < |r| ==> r[i] == f(ws[i])
  {
    seq(|ws|, i requires 0 <= i < |ws| => f(ws[i]))
  }

  function MapCmd<A, B>(f: A -> B, cmd: Cmd<A>): Cmd<B> {
    match cmd
    case Exec(argv) => Exec(MapWords(f, argv))
    case Redir(sub, to) => Redir(MapCmd(f, sub), Redirect(to.kind, f(to.file)))
    case Pipe(left, right) => Pipe(MapCmd(f, left), MapCmd(f, right))
    case List(left, right) => List(MapCmd(f, left), MapCmd(f, right))
    case Back(sub) => Back(MapCmd(f, sub))
  }

  function MapResult<A, B>(f: A -> B, r: Result<Cmd<A>, A>): Result<Cmd<B>, B> {
    match r case Ok(cmd, rest) => Ok(MapCmd(f, cmd), MapToks(f, rest)) case Err(e) => Err(e)
  }

  lemma MapDrop<A, B>(f: A -> B, toks: seq<Token<A>>, k: nat)
    requires k <= |toks|
    ensures MapToks(f, toks)[k..] == MapToks(f, toks[k..])
  {
  }

  lemma MapHead<A, B>(f: A -> B, toks: seq<Token<A>>, cs: set<char>)
    ensures Head(MapToks(f, toks), cs) <==> Head(toks, cs)
  {
  }

  lemma MapRedirsAppend<A, B>(f: A -> B, rs: seq<Redirect<A>>, d: Redirect<A>)
    ensures MapRedirs(f, rs + [d]) == MapRedirs(f, rs) + [Redirect(d.kind, f(d.file))]
  {
  }

  lemma MapWordsAppend<A, B>(f: A -> B, ws: seq<A>, w: A)
    ensures MapWords(f, ws + [w]) == MapWords(f, ws) + [f(w)]
  {
  }

  lemma {:induction false} MapWrap<A, B>(f: A -> B, cmd: Cmd<A>, rs: seq<Redirect<A>>)
    ensures MapCmd(f, Wrap(cmd, rs)) == Wrap(MapCmd(f, cmd), MapRedirs(f, rs))
  {
    if rs != [] {
      var init := rs[..|rs| - 1];
      MapWrap(f, cmd, init);
      assert MapRedirs(f, init) == MapRedirs(f, rs)[..|rs| - 1];
    }
  }

  lemma {:induction false} MapReadRedirs<A, B>(f: A -> B, rs: seq<Redirect<A>>, toks: seq<Token<A>>)
    ensures ReadRedirs(MapRedirs(f, rs), MapToks(f, toks)) ==
            match ReadRedirs(rs, toks)
            case Ok(rs', rest) => Ok(MapRedirs(f, rs'), MapToks(f, rest))
            case Err(e) => Err(e)
    decreases |toks|
  {
    hide MapToks, MapRedirs;
    MapHead(f, toks, {'<', '>', '+'});
    if Head(toks, {'<', '>', '+'}) && |toks| >= 2 && toks[1].Word? {
      var d := Redirect(KindOf(toks[0].c), toks[1].w);
      MapReadRedirs(f, rs + [d], toks[2..]);
      MapDrop(f, toks, 2);
      MapRedirsAppend(f, rs, d);
    }
  }

  lemma {:induction false} MapReadArgs<A, B>(f: A -> B, argv: seq<A>, rs: seq<Redirect<A>>, toks: seq<Token<A>>)
    ensures ReadArgs(MapWords(f, argv), MapRedirs(f, rs), MapToks(f, toks)) == MapResult(f, ReadArgs(argv, rs, toks))
    decreases |toks|
  {
    hide MapToks, MapRedirs, ReadRedirs, Wrap;
    MapHead(f, toks, {'|', ')', '&', ';'});
    if toks == [] || Head(toks, {'|', ')', '&', ';'}) {
      MapWrap(f, Exec(argv), rs);
    } else if toks[0].Word? && |argv| + 1 < MAXARGS {
      MapDrop(f, toks, 1);
      MapReadRedirs(f, rs, toks[1..]);
      MapWordsAppend(f, argv, toks[0].w);
      var read := ReadRedirs(rs, toks[1..]);
      if read.Ok? { MapReadArgs(f, argv + [toks[0].w], read.value, read.rest); }
    }
  }

  lemma {:induction false} MapReadExec<A, B>(f: A -> B, toks: seq<Token<A>>)
    ensures ReadExec(MapToks(f, toks)) == MapResult(f, ReadExec(toks))
    decreases |toks|, 1
  {
    hide MapToks, MapRedirs, ReadRedirs, ReadArgs, ReadLine, Wrap;
    MapHead(f, toks, {'('});
    assert MapRedirs(f, []) == [] && MapWords(f, []) == [];
    if Head(toks, {'('}) {
      MapDrop(f, toks, 1);
      MapReadLine(f, toks[1..]);
      var inner := ReadLine(toks[1..]);
      if inner.Ok? {
        MapHead(f, inner.rest, {')'});
        if Head(inner.rest, {')'}) {
          MapDrop(f, inner.rest, 1);
          MapReadRedirs(f, [], inner.rest[1..]);
          var read := ReadRedirs([], inner.rest[1..]);
          if read.Ok? { MapWrap(f, inner.value, read.value); }
        }
      }
    } else {
      MapReadRedirs(f, [], toks);
      var read := ReadRedirs([], toks);
      if read.Ok? { MapReadArgs(f, [], read.value, read.rest); }
    }
  }

  lemma {:induction false} MapReadPipe<A, B>(f: A -> B, toks: seq<Token<A>>)
    ensures ReadPipe(MapToks(f, toks)) == MapResult(f, ReadPipe(toks))
    decreases |toks|, 2
  {
    hide MapToks, ReadExec;
    MapReadExec(f, toks);
    var left := ReadExec(toks);
    if left.Ok? {
      MapHead(f, left.rest, {'|'});
      if Head(left.rest, {'|'}) {
        MapDrop(f, left.rest, 1);
        MapReadPipe(f, left.rest[1..]);
      }
    }
  }

  lemma {:induction false} MapReadBacks<A, B>(f: A -> B, cmd: Cmd<A>, toks: seq<Token<A>>)
    ensures ReadBacks(MapCmd(f, cmd), MapToks(f, toks)) ==
            (MapCmd(f, ReadBacks(cmd, toks).0), MapToks(f, ReadBacks(cmd, toks).1))
    decreases |toks|
  {
    hide MapToks;
    MapHead(f, toks, {'&'});
    if Head(toks, {'&'}) {
      MapDrop(f, toks, 1);
      MapReadBacks(f, Back(cmd), toks[1..]);
    }
  }

  lemma {:induction false} MapReadLine<A, B>(f: A -> B, toks: seq<Token<A>>)
    ensures ReadLine(MapToks(f, toks)) == MapResult(f, ReadLine(toks))
    decreases |toks|, 3
  {
    hide MapToks, ReadPipe, ReadBacks;
    MapReadPipe(f, toks);
    var first := ReadPipe(toks);
    if first.Ok? {
      MapReadBacks(f, first.value, first.rest);
      var rest := ReadBacks(first.value, first.rest).1;
      MapHead(f, rest, {';'});
      if Head(rest, {';'}) {
        MapDrop(f, rest, 1);
        MapReadLine(f, rest[1..]);
      }
    }
  }

  /** Renaming the words of a line renames the words of its tree and changes nothing else,
      and a line that fails keeps its error. */
  lemma MapParse<A, B>(f: A -> B, toks: seq<Token<A>>)
    ensures Parse(MapToks(f, toks)) == MapResult(f, Parse(toks))
  {
    MapReadLine(f, toks);
    assert MapToks(f, []) == [];
  }
}
