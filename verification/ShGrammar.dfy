/** The command language of user/sh.c as values: tokens, the grammar over
    them, and a printer that puts every sub-command in parentheses. */
module ShGrammar {
  datatype Cmd<W> =
    | Exec(argv: seq<W>)
    | Redir(cmd: Cmd<W>, file: W, mode: nat, fd: nat)
    | Pipe(left: Cmd<W>, right: Cmd<W>)
    | List(left: Cmd<W>, right: Cmd<W>)
    | Back(cmd: Cmd<W>)

  const MAXARGS := 10
  const O_RDONLY := 0
  const O_WRONLY_CREATE := 0x201
  const O_WRONLY_CREATE_TRUNC := 0x601

  predicate IsSpace(c: char) { c == ' ' || c == '\t' || c == '\r' || c == '\n' || c == '\U{0b}' }

  predicate IsSymbol(c: char) { c == '<' || c == '|' || c == '>' || c == '&' || c == ';' || c == '(' || c == ')' }

  predicate IsWordChar(c: char) { !IsSpace(c) && !IsSymbol(c) && c != '\0' }

  // --- tokens ---

  datatype Tok = Sym(c: char) | More | Word(w: string)   // More is `>>`

  // The length of the longest word that s starts with.
  function WordLen(s: string): (n: nat)
    ensures n <= |s| && (forall k :: 0 <= k < n ==> IsWordChar(s[k])) && (n < |s| ==> !IsWordChar(s[n]))
  {
    if s != "" && IsWordChar(s[0]) then 1 + WordLen(s[1..]) else 0
  }

  predicate NoNul(s: string) { '\0' !in s }

  function Lex(s: string): (ts: seq<Tok>)
    requires NoNul(s)
    ensures WordsOk(ts)
    decreases |s|
  {
    if s == "" then []
    else if IsSpace(s[0]) then Lex(s[1..])
    else if s[0] == '>' && |s| > 1 && s[1] == '>' then [More] + Lex(s[2..])
    else if IsSymbol(s[0]) then [Sym(s[0])] + Lex(s[1..])
    else [Word(s[..WordLen(s)])] + Lex(s[WordLen(s)..])
  }

  predicate IsWord(w: string) { w != "" && forall k :: 0 <= k < |w| ==> IsWordChar(w[k]) }

  predicate WordsOk(ts: seq<Tok>) { forall i :: 0 <= i < |ts| && ts[i].Word? ==> IsWord(ts[i].w) }

  // --- grammar ---

  datatype Result = Ok(cmd: Cmd<string>, rest: seq<Tok>) | Panic

  datatype Redirection<W> = Redirection(file: W, mode: nat, fd: nat)

  datatype Redirections = Redirections(rs: seq<Redirection<string>>, rest: seq<Tok>) | NoFile

  // Redirections wrapped around a command, the first one innermost.
  function Wrap<W>(c: Cmd<W>, rs: seq<Redirection<W>>): Cmd<W> {
    if rs == [] then c
    else
      var r := rs[|rs| - 1];
      Redir(Wrap(c, rs[..|rs| - 1]), r.file, r.mode, r.fd)
  }

  lemma {:induction false} WrapWellFormed(c: Cmd<string>, rs: seq<Redirection<string>>)
    ensures WellFormed(c) && RedirectionsOk(rs) ==> WellFormed(Wrap(c, rs))
    decreases |rs|
  {
    if rs != [] {
      WrapWellFormed(c, rs[..|rs| - 1]);
    }
  }

  predicate IsRedir(t: Tok) { t == Sym('<') || t == Sym('>') || t == More }

  function RedirOf(t: Tok, file: string): Redirection<string>
    requires IsRedir(t)
  {
    if t == Sym('<') then Redirection(file, O_RDONLY, 0)
    else if t == Sym('>') then Redirection(file, O_WRONLY_CREATE_TRUNC, 1)
    else Redirection(file, O_WRONLY_CREATE, 1)
  }

  function Redirs(rs: seq<Redirection<string>>, ts: seq<Tok>): (r: Redirections)
    ensures r.Redirections? ==>
      |r.rest| <= |ts| && (WordsOk(ts) && RedirectionsOk(rs) ==> WordsOk(r.rest) && RedirectionsOk(r.rs))
    decreases |ts|
  {
    if ts == [] || !IsRedir(ts[0]) then Redirections(rs, ts)
    else if |ts| < 2 || !ts[1].Word? then NoFile
    else Redirs(rs + [RedirOf(ts[0], ts[1].w)], ts[2..])
  }

  predicate EndsArgs(t: Tok) { t == Sym('|') || t == Sym(')') || t == Sym('&') || t == Sym(';') }

  function Args(argv: seq<string>, rs: seq<Redirection<string>>, ts: seq<Tok>): (r: Result)
    ensures r.Ok? ==> |r.rest| <= |ts|
    ensures r.Ok? && WordsOk(ts) && RedirectionsOk(rs) && ArgsOk(argv) ==> WellFormed(r.cmd) && WordsOk(r.rest)
    decreases |ts|
  {
    if ts == [] || EndsArgs(ts[0]) then (WrapWellFormed(Exec(argv), rs); Ok(Wrap(Exec(argv), rs), ts))
    else if !ts[0].Word? || |argv| + 1 >= MAXARGS then Panic
    else
      match Redirs(rs, ts[1..])
      case NoFile => Panic
      case Redirections(rs', ts') => Args(argv + [ts[0].w], rs', ts')
  }

  function Simple(ts: seq<Tok>): (r: Result)
    ensures r.Ok? ==> |r.rest| <= |ts|
    ensures r.Ok? && WordsOk(ts) ==> WellFormed(r.cmd) && WordsOk(r.rest)
    decreases |ts|, 1
  {
    if ts != [] && ts[0] == Sym('(') then
      match Line(ts[1..])
      case Panic => Panic
      case Ok(c, ts') =>
        if ts' == [] || ts'[0] != Sym(')') then Panic
        else
          match Redirs([], ts'[1..])
          case NoFile => Panic
          case Redirections(rs, ts'') => (WrapWellFormed(c, rs); Ok(Wrap(c, rs), ts''))
    else
      match Redirs([], ts)
      case NoFile => Panic
      case Redirections(rs, ts') => Args([], rs, ts')
  }

  function Pipeline(ts: seq<Tok>): (r: Result)
    ensures r.Ok? ==> |r.rest| <= |ts|
    ensures r.Ok? && WordsOk(ts) ==> WellFormed(r.cmd) && WordsOk(r.rest)
    decreases |ts|, 2
  {
    match Simple(ts)
    case Panic => Panic
    case Ok(c, ts') =>
      if ts' == [] || ts'[0] != Sym('|') then Ok(c, ts')
      else
        match Pipeline(ts'[1..])
        case Panic => Panic
        case Ok(d, ts'') => Ok(Pipe(c, d), ts'')
  }

  function Backs(c: Cmd<string>, ts: seq<Tok>): (r: Result)
    ensures r.Ok? && |r.rest| <= |ts| && (r.rest == [] || r.rest[0] != Sym('&'))
    ensures WordsOk(ts) && WellFormed(c) ==> WellFormed(r.cmd) && WordsOk(r.rest)
    decreases |ts|
  {
    if ts == [] || ts[0] != Sym('&') then Ok(c, ts) else Backs(Back(c), ts[1..])
  }

  function Line(ts: seq<Tok>): (r: Result)
    ensures r.Ok? ==> |r.rest| <= |ts|
    ensures r.Ok? && WordsOk(ts) ==> WellFormed(r.cmd) && WordsOk(r.rest)
    decreases |ts|, 3
  {
    match Pipeline(ts)
    case Panic => Panic
    case Ok(c, ts') =>
      var b := Backs(c, ts');
      if b.rest == [] || b.rest[0] != Sym(';') then b
      else
        match Line(b.rest[1..])
        case Panic => Panic
        case Ok(d, ts'') => Ok(List(b.cmd, d), ts'')
  }

  datatype Parsed = Tree(cmd: Cmd<string>) | Syntax

  // parsecmd
  function Parse(s: string): (r: Parsed)
    requires NoNul(s)
    ensures r.Tree? ==> WellFormed(r.cmd)
  {
    match Line(Lex(s))
    case Panic => Syntax
    case Ok(c, rest) => if rest == [] then Tree(c) else Syntax
  }

  // --- the trees the shell can build ---

  predicate RedirectionOk(file: string, mode: nat, fd: nat) {
    && IsWord(file)
    && (|| (mode == O_RDONLY && fd == 0) || (mode == O_WRONLY_CREATE_TRUNC && fd == 1)
        || (mode == O_WRONLY_CREATE && fd == 1))
  }

  predicate RedirectionsOk(rs: seq<Redirection<string>>) {
    forall i :: 0 <= i < |rs| ==> RedirectionOk(rs[i].file, rs[i].mode, rs[i].fd)
  }

  predicate ArgsOk(argv: seq<string>) {
    |argv| < MAXARGS && forall i :: 0 <= i < |argv| ==> IsWord(argv[i])
  }

  predicate WellFormed(c: Cmd<string>) {
    match c
    case Exec(argv) => ArgsOk(argv)
    case Redir(d, file, mode, fd) => WellFormed(d) && RedirectionOk(file, mode, fd)
    case Pipe(l, r) => WellFormed(l) && WellFormed(r)
    case List(l, r) => WellFormed(l) && WellFormed(r)
    case Back(d) => WellFormed(d)
  }

  // --- printer ---

  // Printing is done from the right: each function puts a tree in front of
  // the text, or the tokens, that come after it.

  function PrintOp(mode: nat): string {
    if mode == O_RDONLY then "<" else if mode == O_WRONLY_CREATE_TRUNC then ">" else ">>"
  }

  function PrintArgs(argv: seq<string>, s: string): string {
    if argv == [] then s else argv[0] + (" " + PrintArgs(argv[1..], s))
  }

  function PrintBlock(c: Cmd<string>, s: string): string
    decreases c, 1
  {
    "(" + PrintOnto(c, ")" + s)
  }

  function PrintOnto(c: Cmd<string>, s: string): string
    decreases c, 0
  {
    match c
    case Exec(argv) => PrintArgs(argv, s)
    case Redir(d, file, mode, fd) => PrintBlock(d, PrintOp(mode) + (file + (" " + s)))
    case Pipe(l, r) => PrintBlock(l, "|" + PrintBlock(r, s))
    case List(l, r) => PrintBlock(l, ";" + PrintBlock(r, s))
    case Back(d) => PrintBlock(d, "&" + s)
  }

  function Print(c: Cmd<string>): string { PrintOnto(c, "") }

  function OpTok(mode: nat): Tok {
    if mode == O_RDONLY then Sym('<') else if mode == O_WRONLY_CREATE_TRUNC then Sym('>') else More
  }

  function ArgToks(argv: seq<string>, ts: seq<Tok>): seq<Tok> {
    if argv == [] then ts else [Word(argv[0])] + ArgToks(argv[1..], ts)
  }

  function BlockToks(c: Cmd<string>, ts: seq<Tok>): seq<Tok>
    decreases c, 1
  {
    [Sym('(')] + Toks(c, [Sym(')')] + ts)
  }

  function Toks(c: Cmd<string>, ts: seq<Tok>): seq<Tok>
    decreases c, 0
  {
    match c
    case Exec(argv) => ArgToks(argv, ts)
    case Redir(d, file, mode, fd) => BlockToks(d, [OpTok(mode)] + ([Word(file)] + ts))
    case Pipe(l, r) => BlockToks(l, [Sym('|')] + BlockToks(r, ts))
    case List(l, r) => BlockToks(l, [Sym(';')] + BlockToks(r, ts))
    case Back(d) => BlockToks(d, [Sym('&')] + ts)
  }

  // --- the tokens of a printed tree ---

  lemma LexSym(c: char, s: string)
    requires IsSymbol(c) && NoNul(s) && (c == '>' ==> s == "" || s[0] != '>')
    ensures NoNul([c] + s) && Lex([c] + s) == [Sym(c)] + Lex(s)
  {
    assert ([c] + s)[1..] == s;
  }

  lemma LexMore(s: string)
    requires NoNul(s)
    ensures NoNul(">>" + s) && Lex(">>" + s) == [More] + Lex(s)
  {
    assert (">>" + s)[2..] == s;
  }

  lemma WordLenOf(w: string, s: string)
    requires (forall k :: 0 <= k < |w| ==> IsWordChar(w[k])) && s != "" && !IsWordChar(s[0])
    ensures WordLen(w + s) == |w|
  {
    assert (w + s)[|w|] == s[0];
  }

  lemma LexSpace(s: string)
    requires NoNul(s)
    ensures NoNul(" " + s) && Lex(" " + s) == Lex(s)
  {
    assert (" " + s)[1..] == s;
  }

  lemma LexWord(w: string, s: string)
    requires IsWord(w) && NoNul(s)
    ensures NoNul(w + (" " + s)) && Lex(w + (" " + s)) == [Word(w)] + Lex(s)
  {
    LexSpace(s);
    var rest := " " + s;
    WordLenOf(w, rest);
    assert (w + rest)[0] == w[0] && IsWordChar(w[0]);
    assert (w + rest)[..|w|] == w && (w + rest)[|w|..] == rest;
  }

  lemma LexOp(file: string, mode: nat, fd: nat, s: string)
    requires RedirectionOk(file, mode, fd) && NoNul(s) && s != "" && s[0] == file[0]
    ensures NoNul(PrintOp(mode) + s) && Lex(PrintOp(mode) + s) == [OpTok(mode)] + Lex(s)
  {
    hide Lex, NoNul;
    assert IsWordChar(file[0]);
    if mode == O_RDONLY {
      LexSym('<', s);
    } else if mode == O_WRONLY_CREATE_TRUNC {
      LexSym('>', s);
    } else {
      LexMore(s);
    }
  }

  lemma LexRedir(file: string, mode: nat, fd: nat, s: string)
    requires RedirectionOk(file, mode, fd) && NoNul(s)
    ensures NoNul(PrintOp(mode) + (file + (" " + s)))
    ensures Lex(PrintOp(mode) + (file + (" " + s))) == [OpTok(mode)] + ([Word(file)] + Lex(s))
  {
    hide Lex, NoNul, PrintOp, OpTok, IsWordChar;
    LexWord(file, s);
    LexOp(file, mode, fd, file + (" " + s));
  }

  lemma {:induction false} LexArgs(argv: seq<string>, s: string)
    requires (forall i :: 0 <= i < |argv| ==> IsWord(argv[i])) && NoNul(s)
    ensures NoNul(PrintArgs(argv, s)) && Lex(PrintArgs(argv, s)) == ArgToks(argv, Lex(s))
  {
    hide Lex, NoNul, IsWord;
    if argv != [] {
      LexArgs(argv[1..], s);
      LexWord(argv[0], PrintArgs(argv[1..], s));
    }
  }

  lemma {:induction false} LexBlock(c: Cmd<string>, s: string)
    requires WellFormed(c) && NoNul(s)
    ensures NoNul(PrintBlock(c, s)) && Lex(PrintBlock(c, s)) == BlockToks(c, Lex(s))
    decreases c, 1
  {
    hide Lex, NoNul, PrintOnto, Toks, WellFormed;
    LexSym(')', s);
    LexPrint(c, ")" + s);
    LexSym('(', PrintOnto(c, ")" + s));
  }

  lemma {:induction false} LexPrint(c: Cmd<string>, s: string)
    requires WellFormed(c) && NoNul(s)
    ensures NoNul(PrintOnto(c, s)) && Lex(PrintOnto(c, s)) == Toks(c, Lex(s))
    decreases c, 0
  {
    hide Lex, NoNul, PrintBlock, BlockToks, PrintOp, OpTok, RedirectionOk;
    match c
    case Exec(argv) =>
      LexArgs(argv, s);
    case Redir(d, file, mode, fd) =>
      LexRedir(file, mode, fd, s);
      LexBlock(d, PrintOp(mode) + (file + (" " + s)));
    case Pipe(l, r) =>
      LexBlock(r, s);
      LexSym('|', PrintBlock(r, s));
      LexBlock(l, "|" + PrintBlock(r, s));
    case List(l, r) =>
      LexBlock(r, s);
      LexSym(';', PrintBlock(r, s));
      LexBlock(l, ";" + PrintBlock(r, s));
    case Back(d) =>
      LexSym('&', s);
      LexBlock(d, "&" + s);
  }

  // --- parsing the tokens of a tree ---

  lemma RedirsStop(rs: seq<Redirection<string>>, ts: seq<Tok>)
    requires ts == [] || !IsRedir(ts[0])
    ensures Redirs(rs, ts) == Redirections(rs, ts)
  {
  }

  lemma ArgToksStart(argv: seq<string>, rest: seq<Tok>)
    requires rest == [] || rest[0] == Sym(')')
    ensures var ts := ArgToks(argv, rest); ts == [] || (!IsRedir(ts[0]) && ts[0] != Sym('('))
  {
  }

  lemma {:induction false} ArgsOfToks(argv: seq<string>, more: seq<string>, rest: seq<Tok>)
    requires ArgsOk(argv + more) && (rest == [] || rest[0] == Sym(')'))
    ensures Args(argv, [], ArgToks(more, rest)) == Ok(Exec(argv + more), rest)
    decreases |more|
  {
    hide Redirs, IsWord;
    if more == [] {
      assert argv + more == argv;
    } else {
      var ts, tail := ArgToks(more, rest), ArgToks(more[1..], rest);
      assert ts[0] == Word(more[0]) && ts[1..] == tail;
      ArgToksStart(more[1..], rest);
      RedirsStop([], tail);
      assert argv + more == (argv + [more[0]]) + more[1..];
      ArgsOfToks(argv + [more[0]], more[1..], rest);
    }
  }

  lemma SimpleOfArgs(argv: seq<string>, rest: seq<Tok>)
    requires ArgsOk(argv) && (rest == [] || rest[0] == Sym(')'))
    ensures Simple(ArgToks(argv, rest)) == Ok(Exec(argv), rest)
  {
    hide Redirs, Args, ArgToks, IsWord;
    ArgsOfToks([], argv, rest);
    assert [] + argv == argv;
    ArgToksStart(argv, rest);
    RedirsStop([], ArgToks(argv, rest));
  }

  lemma {:induction false} SimpleOfBlock(c: Cmd<string>, rest: seq<Tok>)
    requires WellFormed(c)
    ensures Simple(BlockToks(c, rest)) ==
      match Redirs([], rest) case NoFile => Panic case Redirections(rs, ts) => Ok(Wrap(c, rs), ts)
    decreases c, 1
  {
    hide Toks, Line, Redirs, Args, WellFormed;
    var tail := [Sym(')')] + rest;
    var ts := BlockToks(c, rest);
    assert ts[1..] == Toks(c, tail) && tail[1..] == rest;
    LineOfToks(c, tail);
  }

  // A block that no redirection follows.
  lemma {:induction false} PlainBlock(c: Cmd<string>, rest: seq<Tok>)
    requires WellFormed(c) && (rest == [] || !IsRedir(rest[0]))
    ensures Simple(BlockToks(c, rest)) == Ok(c, rest)
    decreases c, 2
  {
    hide Simple, BlockToks, Redirs, WellFormed;
    SimpleOfBlock(c, rest);
    RedirsStop([], rest);
  }

  lemma LineOfSimple(ts: seq<Tok>, c: Cmd<string>, rest: seq<Tok>)
    requires Simple(ts) == Ok(c, rest) && (rest == [] || rest[0] == Sym(')'))
    ensures Pipeline(ts) == Line(ts) == Ok(c, rest)
  {
    hide Simple;
    assert Pipeline(ts) == Ok(c, rest);
  }

  lemma LineOfPipe(l: seq<Tok>, c: Cmd<string>, r: seq<Tok>, d: Cmd<string>, rest: seq<Tok>)
    requires Simple(l) == Ok(c, [Sym('|')] + r) && Pipeline(r) == Ok(d, rest) && (rest == [] || rest[0] == Sym(')'))
    ensures Line(l) == Ok(Pipe(c, d), rest)
  {
    hide Simple;
    assert ([Sym('|')] + r)[1..] == r;
    assert Pipeline(l) == Ok(Pipe(c, d), rest);
  }

  lemma LineOfList(l: seq<Tok>, c: Cmd<string>, r: seq<Tok>, d: Cmd<string>, rest: seq<Tok>)
    requires Simple(l) == Ok(c, [Sym(';')] + r) && Line(r) == Ok(d, rest)
    ensures Line(l) == Ok(List(c, d), rest)
  {
    hide Simple;
    var ts := [Sym(';')] + r;
    assert ts[1..] == r;
    assert Pipeline(l) == Ok(c, ts) && Backs(c, ts) == Ok(c, ts);
  }

  lemma LineOfBack(ts: seq<Tok>, c: Cmd<string>, rest: seq<Tok>)
    requires Simple(ts) == Ok(c, [Sym('&')] + rest) && (rest == [] || rest[0] == Sym(')'))
    ensures Line(ts) == Ok(Back(c), rest)
  {
    hide Simple;
    var tail := [Sym('&')] + rest;
    assert tail[1..] == rest;
    assert Pipeline(ts) == Ok(c, tail) && Backs(Back(c), rest) == Ok(Back(c), rest);
  }

  lemma RedirOfTok(c: Cmd<string>, file: string, mode: nat, fd: nat, rest: seq<Tok>)
    requires RedirectionOk(file, mode, fd) && (rest == [] || !IsRedir(rest[0]))
    ensures var r := Redirs([], [OpTok(mode)] + ([Word(file)] + rest));
      r.Redirections? && Wrap(c, r.rs) == Redir(c, file, mode, fd) && r.rest == rest
  {
    var ts := [OpTok(mode)] + ([Word(file)] + rest);
    var r := RedirOf(OpTok(mode), file);
    assert ts[0] == OpTok(mode) && ts[1] == Word(file) && ts[2..] == rest;
    assert [] + [r] == [r] && [r][..0] == [];
    RedirsStop([r], rest);
    assert Redirs([], ts) == Redirs([r], rest);
  }

  lemma {:induction false} LineOfToks(c: Cmd<string>, rest: seq<Tok>)
    requires WellFormed(c) && (rest == [] || rest[0] == Sym(')'))
    ensures Line(Toks(c, rest)) == Ok(c, rest)
    decreases c, 0
  {
    hide Simple, Pipeline, Line, Redirs, BlockToks, RedirectionOk, ArgToks, OpTok;
    match c
    case Exec(argv) =>
      SimpleOfArgs(argv, rest);
      LineOfSimple(Toks(c, rest), c, rest);
    case Redir(d, file, mode, fd) =>
      SimpleOfBlock(d, [OpTok(mode)] + ([Word(file)] + rest));
      RedirOfTok(d, file, mode, fd, rest);
      LineOfSimple(Toks(c, rest), c, rest);
    case Pipe(l, r) =>
      PlainBlock(r, rest);
      LineOfSimple(BlockToks(r, rest), r, rest);
      PlainBlock(l, [Sym('|')] + BlockToks(r, rest));
      LineOfPipe(Toks(c, rest), l, BlockToks(r, rest), r, rest);
    case List(l, r) =>
      PlainBlock(r, rest);
      LineOfSimple(BlockToks(r, rest), r, rest);
      PlainBlock(l, [Sym(';')] + BlockToks(r, rest));
      LineOfList(Toks(c, rest), l, BlockToks(r, rest), r, rest);
    case Back(d) =>
      PlainBlock(d, [Sym('&')] + rest);
      LineOfBack(Toks(c, rest), d, rest);
  }

  // parsecmd undoes the printer, on every tree the shell can build.
  lemma RoundTrip(c: Cmd<string>)
    requires WellFormed(c)
    ensures NoNul(Print(c)) && Parse(Print(c)) == Tree(c)
  {
    LexPrint(c, "");
    LineOfToks(c, []);
  }

  // Printing what was parsed and parsing it again gives the same tree.
  lemma ParseIsStable(s: string)
    requires NoNul(s) && Parse(s).Tree?
    ensures NoNul(Print(Parse(s).cmd)) && Parse(Print(Parse(s).cmd)) == Parse(s)
  {
    RoundTrip(Parse(s).cmd);
  }
}
