/** What a command line of user/sh.c means, apart from how it is parsed: its
    syntax with parentheses and redirections where they were written, what that
    syntax is spelled like, and the tree it stands for. */
module ShSyntax {
  import opened ShGrammar

  // --- syntax ---

  datatype Item = Arg(w: string) | On(r: Redirection<string>)

  datatype Src =
    | Plain(items: seq<Item>)                                   // arguments and redirections in any order
    | Group(line: Src, rs: seq<Redirection<string>>)            // ( line ) redirections
    | Piped(left: Src, right: Src)
    | Amp(left: Src)
    | Semi(left: Src, right: Src)

  // How tightly the operators bind.
  predicate IsSimple(x: Src)
    decreases x, 0
  {
    x.Plain? || (x.Group? && IsLine(x.line))
  }

  predicate IsPipe(x: Src)
    decreases x, 1
  {
    if x.Piped? then IsSimple(x.left) && IsPipe(x.right) else IsSimple(x)
  }

  predicate IsAmped(x: Src)
    decreases x, 2
  {
    if x.Amp? then IsAmped(x.left) else IsPipe(x)
  }

  predicate IsLine(x: Src)
    decreases x, 3
  {
    if x.Semi? then IsAmped(x.left) && IsLine(x.right) else IsAmped(x)
  }

  lemma AmpedIsLine(x: Src)
    requires IsAmped(x)
    ensures IsLine(x)
  {
    assert !x.Amp? ==> IsPipe(x);
    assert IsPipe(x) && !x.Piped? ==> IsSimple(x);
  }

  function ArgsIn(items: seq<Item>): seq<string> {
    if items == [] then [] else (if items[0].Arg? then [items[0].w] else []) + ArgsIn(items[1..])
  }

  function RedsIn(items: seq<Item>): seq<Redirection<string>> {
    if items == [] then [] else (if items[0].On? then [items[0].r] else []) + RedsIn(items[1..])
  }

  // Words are words, and no command has too many arguments.
  predicate Wf(x: Src) {
    match x
    case Plain(items) => ArgsOk(ArgsIn(items)) && RedirectionsOk(RedsIn(items))
    case Group(l, rs) => Wf(l) && RedirectionsOk(rs)
    case Piped(l, r) => Wf(l) && Wf(r)
    case Amp(l) => Wf(l)
    case Semi(l, r) => Wf(l) && Wf(r)
  }

  function Meaning(x: Src): Cmd<string> {
    match x
    case Plain(items) => Wrap(Exec(ArgsIn(items)), RedsIn(items))
    case Group(l, rs) => Wrap(Meaning(l), rs)
    case Piped(l, r) => Pipe(Meaning(l), Meaning(r))
    case Amp(l) => Back(Meaning(l))
    case Semi(l, r) => List(Meaning(l), Meaning(r))
  }

  function RedToks(rs: seq<Redirection<string>>, ts: seq<Tok>): seq<Tok> {
    if rs == [] then ts else [OpTok(rs[0].mode)] + ([Word(rs[0].file)] + RedToks(rs[1..], ts))
  }

  function ItemToks(items: seq<Item>, ts: seq<Tok>): seq<Tok> {
    if items == [] then ts
    else
      match items[0]
      case Arg(w) => [Word(w)] + ItemToks(items[1..], ts)
      case On(r) => [OpTok(r.mode)] + ([Word(r.file)] + ItemToks(items[1..], ts))
  }

  // The tokens of x in front of ts.
  function Written(x: Src, ts: seq<Tok>): seq<Tok> {
    match x
    case Plain(items) => ItemToks(items, ts)
    case Group(l, rs) => [Sym('(')] + Written(l, [Sym(')')] + RedToks(rs, ts))
    case Piped(l, r) => Written(l, [Sym('|')] + Written(r, ts))
    case Amp(l) => Written(l, [Sym('&')] + ts)
    case Semi(l, r) => Written(l, [Sym(';')] + Written(r, ts))
  }

  // --- what is written is parsed as what it means ---

  // What may come after a part.
  predicate EndsLine(ts: seq<Tok>) { ts == [] || ts[0] == Sym(')') }
  predicate EndsAmped(ts: seq<Tok>) { EndsLine(ts) || ts[0] == Sym(';') }
  predicate EndsPipe(ts: seq<Tok>) { EndsAmped(ts) || ts[0] == Sym('&') }
  predicate EndsSimple(ts: seq<Tok>) { EndsPipe(ts) || ts[0] == Sym('|') }

  lemma RedirOfOp(r: Redirection<string>)
    requires RedirectionOk(r.file, r.mode, r.fd)
    ensures IsRedir(OpTok(r.mode)) && RedirOf(OpTok(r.mode), r.file) == r
  {
  }

  lemma RedirsUnfold(rs: seq<Redirection<string>>, r: Redirection<string>, ts: seq<Tok>)
    requires RedirectionOk(r.file, r.mode, r.fd)
    ensures Redirs(rs, [OpTok(r.mode)] + ([Word(r.file)] + ts)) == Redirs(rs + [r], ts)
  {
    RedirOfOp(r);
    var all := [OpTok(r.mode)] + ([Word(r.file)] + ts);
    assert all[0] == OpTok(r.mode) && all[1] == Word(r.file) && all[2..] == ts;
  }

  lemma {:induction false} RedirsOfToks(rs0: seq<Redirection<string>>, rs: seq<Redirection<string>>, ts: seq<Tok>)
    requires RedirectionsOk(rs) && (ts == [] || !IsRedir(ts[0]))
    ensures Redirs(rs0, RedToks(rs, ts)) == Redirections(rs0 + rs, ts)
    decreases |rs|
  {
    hide Redirs, OpTok, RedirectionOk;
    if rs == [] {
      RedirsStop(rs0, ts);
      assert rs0 + rs == rs0;
    } else {
      RedirsUnfold(rs0, rs[0], RedToks(rs[1..], ts));
      RedirsOfToks(rs0 + [rs[0]], rs[1..], ts);
      assert rs0 + rs == (rs0 + [rs[0]]) + rs[1..];
    }
  }

  // parseexec from the redirections before the next argument on.
  function ItemsAt(argv: seq<string>, rs: seq<Redirection<string>>, ts: seq<Tok>): Result {
    match Redirs(rs, ts)
    case NoFile => Panic
    case Redirections(rs', ts') => Args(argv, rs', ts')
  }

  lemma ItemsAtWord(argv: seq<string>, rs: seq<Redirection<string>>, w: string, ts: seq<Tok>)
    requires |argv| + 1 < MAXARGS
    ensures ItemsAt(argv, rs, [Word(w)] + ts) == ItemsAt(argv + [w], rs, ts)
  {
    var all := [Word(w)] + ts;
    assert all[0] == Word(w) && all[1..] == ts;
    RedirsStop(rs, all);
  }

  lemma ConsArg(w: string, more: seq<Item>, argv: seq<string>)
    ensures argv + ArgsIn([Arg(w)] + more) == (argv + [w]) + ArgsIn(more)
    ensures RedsIn([Arg(w)] + more) == RedsIn(more) && ArgsIn([Arg(w)] + more) == [w] + ArgsIn(more)
  {
    assert ([Arg(w)] + more)[1..] == more;
  }

  lemma ConsOn(r: Redirection<string>, more: seq<Item>, rs: seq<Redirection<string>>)
    ensures rs + RedsIn([On(r)] + more) == (rs + [r]) + RedsIn(more)
    ensures ArgsIn([On(r)] + more) == ArgsIn(more) && RedsIn([On(r)] + more) == [r] + RedsIn(more)
  {
    assert ([On(r)] + more)[1..] == more;
  }

  lemma {:induction false} ItemsOfToks(argv: seq<string>, rs: seq<Redirection<string>>, items: seq<Item>, ts: seq<Tok>)
    requires |argv| + |ArgsIn(items)| < MAXARGS && RedirectionsOk(RedsIn(items)) && EndsSimple(ts)
    ensures ItemsAt(argv, rs, ItemToks(items, ts)) == Ok(Wrap(Exec(argv + ArgsIn(items)), rs + RedsIn(items)), ts)
    decreases |items|
  {
    if items == [] {
      RedirsStop(rs, ts);
      assert argv + ArgsIn(items) == argv && rs + RedsIn(items) == rs;
    } else {
      hide ItemsAt, Redirs, Args, OpTok, RedirectionOk, Wrap, ArgsIn, RedsIn;
      var more, after := items[1..], ItemToks(items[1..], ts);
      assert items == [items[0]] + more;
      match items[0]
      case Arg(w) =>
        ConsArg(w, more, argv);
        ItemsAtWord(argv, rs, w, after);
        ItemsOfToks(argv + [w], rs, more, ts);
      case On(r) =>
        ConsOn(r, more, rs);
        assert ([r] + RedsIn(more))[0] == r && ([r] + RedsIn(more))[1..] == RedsIn(more);
        ItemsAtRedir(argv, rs, r, after);
        ItemsOfToks(argv, rs + [r], more, ts);
    }
  }

  lemma ItemsAtRedir(argv: seq<string>, rs: seq<Redirection<string>>, r: Redirection<string>, ts: seq<Tok>)
    requires RedirectionOk(r.file, r.mode, r.fd)
    ensures ItemsAt(argv, rs, [OpTok(r.mode)] + ([Word(r.file)] + ts)) == ItemsAt(argv, rs + [r], ts)
  {
    hide Redirs, Args;
    RedirsUnfold(rs, r, ts);
  }

  lemma SimpleIsItems(ts: seq<Tok>)
    requires ts == [] || ts[0] != Sym('(')
    ensures Simple(ts) == ItemsAt([], [], ts)
  {
  }

  lemma ItemToksStart(items: seq<Item>, ts: seq<Tok>)
    requires EndsSimple(ts)
    ensures var all := ItemToks(items, ts); all == [] || all[0] != Sym('(')
  {
  }

  lemma SimpleOfGroup(ts: seq<Tok>, c: Cmd<string>, rs: seq<Redirection<string>>, rest: seq<Tok>)
    requires Line(ts) == Ok(c, [Sym(')')] + RedToks(rs, rest)) && RedirectionsOk(rs) && EndsSimple(rest)
    ensures Simple([Sym('(')] + ts) == Ok(Wrap(c, rs), rest)
  {
    hide Line, Args, Redirs, RedirectionOk;
    var all, tail := [Sym('(')] + ts, [Sym(')')] + RedToks(rs, rest);
    assert all[1..] == ts && tail[1..] == RedToks(rs, rest);
    RedirsOfToks([], rs, rest);
    assert [] + rs == rs;
  }

  lemma {:induction false} SimpleOfWritten(x: Src, ts: seq<Tok>)
    requires IsSimple(x) && Wf(x) && EndsSimple(ts)
    ensures Simple(Written(x, ts)) == Ok(Meaning(x), ts)
    decreases x, 0
  {
    hide Simple, Line, ItemsAt, RedirectionOk;
    match x
    case Plain(items) =>
      ItemsOfToks([], [], items, ts);
      assert [] + ArgsIn(items) == ArgsIn(items) && [] + RedsIn(items) == RedsIn(items);
      ItemToksStart(items, ts);
      SimpleIsItems(ItemToks(items, ts));
    case Group(l, rs) =>
      LineOfWritten(l, [Sym(')')] + RedToks(rs, ts));
      SimpleOfGroup(Written(l, [Sym(')')] + RedToks(rs, ts)), Meaning(l), rs, ts);
  }

  lemma PipelineOf(ts: seq<Tok>, c: Cmd<string>, rest: seq<Tok>)
    requires Simple(ts) == Ok(c, rest)
    ensures EndsPipe(rest) ==> Pipeline(ts) == Ok(c, rest)
    ensures forall r :: rest == [Sym('|')] + r && Pipeline(r).Ok? ==>
      Pipeline(ts) == Ok(Pipe(c, Pipeline(r).cmd), Pipeline(r).rest)
  {
    hide Simple;
    forall r | rest == [Sym('|')] + r && Pipeline(r).Ok?
      ensures Pipeline(ts) == Ok(Pipe(c, Pipeline(r).cmd), Pipeline(r).rest)
    {
      assert rest[1..] == r;
    }
  }

  lemma {:induction false} PipelineOfWritten(x: Src, ts: seq<Tok>)
    requires IsPipe(x) && Wf(x) && EndsPipe(ts)
    ensures Pipeline(Written(x, ts)) == Ok(Meaning(x), ts)
    decreases x, 1
  {
    hide Simple, Pipeline;
    if x.Piped? {
      PipelineOfWritten(x.right, ts);
      var after := [Sym('|')] + Written(x.right, ts);
      SimpleOfWritten(x.left, after);
      PipelineOf(Written(x, ts), Meaning(x.left), after);
    } else {
      SimpleOfWritten(x, ts);
      PipelineOf(Written(x, ts), Meaning(x), ts);
    }
  }

  // The pipeline under the `&`s, and the `&`s.
  lemma {:induction false} BacksOfWritten(x: Src, ts: seq<Tok>)
    requires IsAmped(x) && Wf(x) && EndsPipe(ts)
    ensures var p := Pipeline(Written(x, ts)); p.Ok? && Backs(p.cmd, p.rest) == Backs(Meaning(x), ts)
    decreases x, 2
  {
    hide Pipeline;
    if x.Amp? {
      var after := [Sym('&')] + ts;
      assert after[1..] == ts;
      BacksOfWritten(x.left, after);
    } else {
      PipelineOfWritten(x, ts);
    }
  }

  lemma LineOf(ts: seq<Tok>, c: Cmd<string>, rest: seq<Tok>)
    requires var p := Pipeline(ts); p.Ok? && Backs(p.cmd, p.rest) == Backs(c, rest)
    ensures EndsLine(rest) ==> Line(ts) == Ok(c, rest)
    ensures forall r :: rest == [Sym(';')] + r && Line(r).Ok? ==> Line(ts) == Ok(List(c, Line(r).cmd), Line(r).rest)
  {
    hide Pipeline;
    forall r | rest == [Sym(';')] + r && Line(r).Ok? ensures Line(ts) == Ok(List(c, Line(r).cmd), Line(r).rest) {
      assert rest[1..] == r && Backs(c, rest) == Ok(c, rest);
    }
  }

  lemma {:induction false} LineOfWritten(x: Src, ts: seq<Tok>)
    requires IsLine(x) && Wf(x) && EndsLine(ts)
    ensures Line(Written(x, ts)) == Ok(Meaning(x), ts)
    decreases x, 3
  {
    hide Pipeline, Backs, Line;
    if x.Semi? {
      LineOfWritten(x.right, ts);
      var after := [Sym(';')] + Written(x.right, ts);
      BacksOfWritten(x.left, after);
      LineOf(Written(x, ts), Meaning(x.left), after);
    } else {
      BacksOfWritten(x, ts);
      LineOf(Written(x, ts), Meaning(x), ts);
    }
  }

  // --- whatever is parsed was written so ---

  lemma {:induction false} RedirsWritten(rs: seq<Redirection<string>>, ts: seq<Tok>)
    returns (more: seq<Redirection<string>>)
    requires WordsOk(ts) && Redirs(rs, ts).Redirections?
    ensures RedirectionsOk(more) && Redirs(rs, ts).rs == rs + more && RedToks(more, Redirs(rs, ts).rest) == ts
    ensures WordsOk(Redirs(rs, ts).rest)
    decreases |ts|
  {
    if ts == [] || !IsRedir(ts[0]) {
      more := [];
    } else {
      var r := RedirOf(ts[0], ts[1].w);
      more := RedirsWritten(rs + [r], ts[2..]);
      assert rs + ([r] + more) == (rs + [r]) + more;
      more := [r] + more;
      assert OpTok(r.mode) == ts[0];
      assert ts == [ts[0]] + ([Word(ts[1].w)] + ts[2..]);
    }
  }

  // The items spell out ts up to where ItemsAt stops, and are what it finds.
  ghost predicate SpeltBy(argv: seq<string>, rs: seq<Redirection<string>>, ts: seq<Tok>, items: seq<Item>) {
    var r := ItemsAt(argv, rs, ts);
    && r.Ok? && r.cmd == Wrap(Exec(argv + ArgsIn(items)), rs + RedsIn(items)) && ItemToks(items, r.rest) == ts
    && WordsOk(r.rest) && RedirectionsOk(RedsIn(items)) && |argv| + |ArgsIn(items)| < MAXARGS
    && forall i :: 0 <= i < |ArgsIn(items)| ==> IsWord(ArgsIn(items)[i])
  }

  lemma {:induction false} ItemsWritten(argv: seq<string>, rs: seq<Redirection<string>>, ts: seq<Tok>)
    returns (items: seq<Item>)
    requires WordsOk(ts) && ItemsAt(argv, rs, ts).Ok? && |argv| < MAXARGS
    ensures SpeltBy(argv, rs, ts, items)
    decreases |ts|
  {
    if ts == [] || EndsArgs(ts[0]) {
      items := [];
      RedirsStop(rs, ts);
      assert argv + ArgsIn(items) == argv && rs + RedsIn(items) == rs;
    } else {
      hide ItemsAt, SpeltBy;
      if IsRedir(ts[0]) {
        RedirStep(argv, rs, ts);
        var r := RedirOf(ts[0], ts[1].w);
        items := ItemsWritten(argv, rs + [r], ts[2..]);
        SpeltByOn(argv, rs, ts, items);
        items := [On(r)] + items;
      } else {
        WordStep(argv, rs, ts);
        items := ItemsWritten(argv + [ts[0].w], rs, ts[1..]);
        SpeltByArg(argv, rs, ts, items);
        items := [Arg(ts[0].w)] + items;
      }
    }
  }

  lemma SpeltByOn(argv: seq<string>, rs: seq<Redirection<string>>, ts: seq<Tok>, more: seq<Item>)
    requires |ts| >= 2 && IsRedir(ts[0]) && ts[1].Word? && IsWord(ts[1].w)
    requires ItemsAt(argv, rs, ts) == ItemsAt(argv, rs + [RedirOf(ts[0], ts[1].w)], ts[2..])
    requires SpeltBy(argv, rs + [RedirOf(ts[0], ts[1].w)], ts[2..], more)
    ensures SpeltBy(argv, rs, ts, [On(RedirOf(ts[0], ts[1].w))] + more)
  {
    hide ItemsAt, RedirectionOk, Wrap, ArgsIn, RedsIn, ItemToks, IsWord;
    var r := RedirOf(ts[0], ts[1].w);
    ConsOn(r, more, rs);
    RedirOk(ts[0], ts[1].w);
    hide RedirOf, OpTok;
    ToksOfOn(r, more, ItemsAt(argv, rs, ts).rest);
    assert ts == [ts[0]] + ([Word(ts[1].w)] + ts[2..]);
  }

  lemma SpeltByArg(argv: seq<string>, rs: seq<Redirection<string>>, ts: seq<Tok>, more: seq<Item>)
    requires ts != [] && ts[0].Word? && IsWord(ts[0].w)
    requires ItemsAt(argv, rs, ts) == ItemsAt(argv + [ts[0].w], rs, ts[1..])
    requires SpeltBy(argv + [ts[0].w], rs, ts[1..], more)
    ensures SpeltBy(argv, rs, ts, [Arg(ts[0].w)] + more)
  {
    hide ItemsAt, RedirectionOk, Wrap, ArgsIn, RedsIn, ItemToks, IsWord;
    ConsArg(ts[0].w, more, argv);
    ToksOfArg(ts[0].w, more, ItemsAt(argv, rs, ts).rest);
    assert ts == [ts[0]] + ts[1..];
  }

  lemma ToksOfArg(w: string, more: seq<Item>, ts: seq<Tok>)
    ensures ItemToks([Arg(w)] + more, ts) == [Word(w)] + ItemToks(more, ts)
  {
    assert ([Arg(w)] + more)[1..] == more;
  }

  lemma ToksOfOn(r: Redirection<string>, more: seq<Item>, ts: seq<Tok>)
    ensures ItemToks([On(r)] + more, ts) == [OpTok(r.mode)] + ([Word(r.file)] + ItemToks(more, ts))
  {
    assert ([On(r)] + more)[1..] == more;
  }

  lemma RedirOk(t: Tok, file: string)
    requires IsRedir(t) && IsWord(file)
    ensures var r := RedirOf(t, file); r.file == file && RedirectionOk(r.file, r.mode, r.fd) && OpTok(r.mode) == t
  {
  }

  lemma RedirStep(argv: seq<string>, rs: seq<Redirection<string>>, ts: seq<Tok>)
    requires WordsOk(ts) && ts != [] && IsRedir(ts[0]) && ItemsAt(argv, rs, ts).Ok?
    ensures |ts| >= 2 && ts[1].Word? && ItemsAt(argv, rs, ts) == ItemsAt(argv, rs + [RedirOf(ts[0], ts[1].w)], ts[2..])
  {
  }

  lemma WordStep(argv: seq<string>, rs: seq<Redirection<string>>, ts: seq<Tok>)
    requires ts != [] && !EndsArgs(ts[0]) && !IsRedir(ts[0]) && ItemsAt(argv, rs, ts).Ok?
    ensures ts[0].Word? && |argv| + 1 < MAXARGS && ItemsAt(argv, rs, ts) == ItemsAt(argv + [ts[0].w], rs, ts[1..])
  {
    RedirsStop(rs, ts);
  }

  lemma {:induction false} SimpleWritten(ts: seq<Tok>) returns (x: Src)
    requires WordsOk(ts) && Simple(ts).Ok?
    ensures IsSimple(x) && Wf(x) && Meaning(x) == Simple(ts).cmd && Written(x, Simple(ts).rest) == ts
    decreases |ts|, 0
  {
    if ts != [] && ts[0] == Sym('(') {
      hide Line, Redirs, RedirectionOk;
      var l := LineWritten(ts[1..]);
      var mid := Line(ts[1..]).rest;
      assert WordsOk(mid);
      var rs := RedirsWritten([], mid[1..]);
      assert [] + rs == rs;
      x := Group(l, rs);
      assert mid == [Sym(')')] + mid[1..] && ts == [Sym('(')] + ts[1..];
    } else {
      hide Simple, ItemsAt, RedirectionOk;
      SimpleIsItems(ts);
      var items := ItemsWritten([], [], ts);
      assert [] + ArgsIn(items) == ArgsIn(items) && [] + RedsIn(items) == RedsIn(items);
      x := Plain(items);
    }
  }

  lemma {:induction false} PipelineWritten(ts: seq<Tok>) returns (x: Src)
    requires WordsOk(ts) && Pipeline(ts).Ok?
    ensures IsPipe(x) && Wf(x) && Meaning(x) == Pipeline(ts).cmd && Written(x, Pipeline(ts).rest) == ts
    decreases |ts|, 1
  {
    hide Simple;
    x := SimpleWritten(ts);
    var mid := Simple(ts).rest;
    if mid != [] && mid[0] == Sym('|') {
      var r := PipelineWritten(mid[1..]);
      x := Piped(x, r);
      assert mid == [Sym('|')] + mid[1..];
    }
  }

  lemma {:induction false} BacksWritten(y: Src, ts: seq<Tok>) returns (x: Src)
    requires IsAmped(y) && Wf(y)
    ensures var r := Backs(Meaning(y), ts);
      IsAmped(x) && Wf(x) && Meaning(x) == r.cmd && Written(x, r.rest) == Written(y, ts)
    decreases |ts|
  {
    if ts == [] || ts[0] != Sym('&') {
      x := y;
    } else {
      assert ts == [Sym('&')] + ts[1..];
      x := BacksWritten(Amp(y), ts[1..]);
    }
  }

  lemma {:induction false} LineWritten(ts: seq<Tok>) returns (x: Src)
    requires WordsOk(ts) && Line(ts).Ok?
    ensures IsLine(x) && Wf(x) && Meaning(x) == Line(ts).cmd && Written(x, Line(ts).rest) == ts
    decreases |ts|, 2
  {
    hide Pipeline, Backs;
    var y := PipelineWritten(ts);
    var p := Pipeline(ts);
    x := BacksWritten(y, p.rest);
    var b := Backs(p.cmd, p.rest);
    if b.rest != [] && b.rest[0] == Sym(';') {
      var r := LineWritten(b.rest[1..]);
      x := Semi(x, r);
      assert b.rest == [Sym(';')] + b.rest[1..];
    } else {
      AmpedIsLine(x);
    }
  }

  // --- nothing is lost and nothing is made up ---

  // The tokens a tree is made of: its words and its operators.
  function TokensOf(c: Cmd<string>): multiset<Tok> {
    match c
    case Exec(argv) => Words(argv)
    case Redir(d, file, mode, fd) => TokensOf(d) + multiset{OpTok(mode), Word(file)}
    case Pipe(l, r) => TokensOf(l) + multiset{Sym('|')} + TokensOf(r)
    case List(l, r) => TokensOf(l) + multiset{Sym(';')} + TokensOf(r)
    case Back(d) => TokensOf(d) + multiset{Sym('&')}
  }

  function Words(argv: seq<string>): multiset<Tok> {
    if argv == [] then multiset{} else multiset{Word(argv[0])} + Words(argv[1..])
  }

  function RedTokens(rs: seq<Redirection<string>>): multiset<Tok> {
    if rs == [] then multiset{} else multiset{OpTok(rs[0].mode), Word(rs[0].file)} + RedTokens(rs[1..])
  }

  // All tokens but the parentheses.
  function Bare(ts: seq<Tok>): multiset<Tok> {
    multiset(ts)[Sym('(') := 0][Sym(')') := 0]
  }

  // 1 if u is t
  function One(u: Tok, t: Tok): nat { if u == t then 1 else 0 }

  function IsParen(t: Tok): bool { t == Sym('(') || t == Sym(')') }

  // How often each token t occurs, part by part.
  lemma BareCons(u: Tok, ts: seq<Tok>, t: Tok)
    ensures Bare([u] + ts)[t] == (if IsParen(u) then 0 else One(u, t)) + Bare(ts)[t]
  {
    assert multiset([u] + ts) == multiset{u} + multiset(ts);
  }

  lemma BareRedir(r: Redirection<string>, ts: seq<Tok>, t: Tok)
    ensures Bare([OpTok(r.mode)] + ([Word(r.file)] + ts))[t] == One(OpTok(r.mode), t) + One(Word(r.file), t) + Bare(ts)[t]
  {
    hide Bare;
    BareCons(Word(r.file), ts, t);
    BareCons(OpTok(r.mode), [Word(r.file)] + ts, t);
  }

  lemma WordsCons(w: string, argv: seq<string>, t: Tok)
    ensures Words([w] + argv)[t] == One(Word(w), t) + Words(argv)[t]
  {
    assert ([w] + argv)[1..] == argv;
  }

  lemma RedTokensCons(r: Redirection<string>, rs: seq<Redirection<string>>, t: Tok)
    ensures RedTokens([r] + rs)[t] == One(OpTok(r.mode), t) + One(Word(r.file), t) + RedTokens(rs)[t]
  {
    hide OpTok;
    assert ([r] + rs)[1..] == rs;
  }

  lemma {:induction false} BareItems(items: seq<Item>, ts: seq<Tok>, t: Tok)
    ensures Bare(ItemToks(items, ts))[t] == Words(ArgsIn(items))[t] + RedTokens(RedsIn(items))[t] + Bare(ts)[t]
    decreases |items|
  {
    if items != [] {
      hide Bare, OpTok, ArgsIn, RedsIn, Words, RedTokens, One, ItemToks;
      var more := items[1..];
      assert items == [items[0]] + more;
      BareItems(more, ts, t);
      match items[0]
      case Arg(w) =>
        ToksOfArg(w, more, ts);
        BareCons(Word(w), ItemToks(more, ts), t);
        ConsArg(w, more, []);
        WordsCons(w, ArgsIn(more), t);
      case On(r) =>
        ToksOfOn(r, more, ts);
        BareRedir(r, ItemToks(more, ts), t);
        ConsOn(r, more, []);
        RedTokensCons(r, RedsIn(more), t);
    }
  }

  lemma {:induction false} BareReds(rs: seq<Redirection<string>>, ts: seq<Tok>, t: Tok)
    ensures Bare(RedToks(rs, ts))[t] == RedTokens(rs)[t] + Bare(ts)[t]
    decreases |rs|
  {
    if rs != [] {
      var r, more := rs[0], rs[1..];
      assert rs == [r] + more && RedToks(rs, ts) == [OpTok(r.mode)] + ([Word(r.file)] + RedToks(more, ts));
      hide Bare, OpTok, RedTokens, RedToks, One;
      BareReds(more, ts, t);
      BareRedir(r, RedToks(more, ts), t);
      RedTokensCons(r, more, t);
    }
  }

  lemma ConsSnoc<T>(rs: seq<T>, r: T)
    requires rs != []
    ensures rs + [r] == [rs[0]] + (rs[1..] + [r]) && rs == [rs[0]] + rs[1..]
  {
  }

  lemma {:induction false} RedTokensLast(rs: seq<Redirection<string>>, r: Redirection<string>, t: Tok)
    ensures RedTokens(rs + [r])[t] == RedTokens(rs)[t] + One(OpTok(r.mode), t) + One(Word(r.file), t)
    decreases |rs|
  {
    hide RedTokens, OpTok, One;
    if rs == [] {
      assert rs + [r] == [r] + rs;
      RedTokensCons(r, rs, t);
    } else {
      ConsSnoc(rs, r);
      var more, last := rs[1..], rs[1..] + [r];
      RedTokensLast(more, r, t);
      RedTokensCons(rs[0], last, t);
      RedTokensCons(rs[0], more, t);
    }
  }

  lemma WrapLast(c: Cmd<string>, rs: seq<Redirection<string>>)
    requires rs != []
    ensures var k := |rs| - 1;
      rs == rs[..k] + [rs[k]] && Wrap(c, rs) == Redir(Wrap(c, rs[..k]), rs[k].file, rs[k].mode, rs[k].fd)
  {
  }

  lemma TokensOfRedir(d: Cmd<string>, r: Redirection<string>, t: Tok)
    ensures TokensOf(Redir(d, r.file, r.mode, r.fd))[t] == TokensOf(d)[t] + One(OpTok(r.mode), t) + One(Word(r.file), t)
  {
  }

  lemma {:induction false} TokensOfWrap(c: Cmd<string>, rs: seq<Redirection<string>>, t: Tok)
    ensures TokensOf(Wrap(c, rs))[t] == TokensOf(c)[t] + RedTokens(rs)[t]
    decreases |rs|
  {
    if rs != [] {
      hide RedTokens, OpTok, Wrap, TokensOf, One;
      WrapLast(c, rs);
      var k := |rs| - 1;
      var most, last := rs[..k], rs[k];
      TokensOfWrap(c, most, t);
      RedTokensLast(most, last, t);
      TokensOfRedir(Wrap(c, most), last, t);
    }
  }

  lemma {:induction false} BareWritten(x: Src, ts: seq<Tok>, t: Tok)
    ensures Bare(Written(x, ts))[t] == TokensOf(Meaning(x))[t] + Bare(ts)[t]
    decreases x, 1
  {
    hide Bare, Words, RedTokens, Wrap, ItemToks, RedToks, ArgsIn, RedsIn, OpTok;
    match x
    case Plain(items) =>
      BareItems(items, ts, t);
      TokensOfWrap(Exec(ArgsIn(items)), RedsIn(items), t);
    case Group(l, rs) =>
      BareGroup(x, ts, t);
    case Piped(l, r) =>
      BareWritten(r, ts, t);
      BareCons(Sym('|'), Written(r, ts), t);
      BareWritten(l, [Sym('|')] + Written(r, ts), t);
    case Amp(l) =>
      BareCons(Sym('&'), ts, t);
      BareWritten(l, [Sym('&')] + ts, t);
    case Semi(l, r) =>
      BareWritten(r, ts, t);
      BareCons(Sym(';'), Written(r, ts), t);
      BareWritten(l, [Sym(';')] + Written(r, ts), t);
  }

  lemma {:induction false} BareGroup(x: Src, ts: seq<Tok>, t: Tok)
    requires x.Group?
    ensures Bare(Written(x, ts))[t] == TokensOf(Meaning(x))[t] + Bare(ts)[t]
    decreases x, 0
  {
    hide Bare, RedTokens, Wrap, RedToks, TokensOf;
    var l, rs := x.line, x.rs;
    BareReds(rs, ts, t);
    BareCons(Sym(')'), RedToks(rs, ts), t);
    BareWritten(l, [Sym(')')] + RedToks(rs, ts), t);
    BareCons(Sym('('), Written(l, [Sym(')')] + RedToks(rs, ts)), t);
    TokensOfWrap(Meaning(l), rs, t);
  }

  // The words, redirections, pipes, lists and backgrounds of the tree of an
  // accepted text are those of its tokens, each as often.
  lemma NothingLost(s: string)
    requires NoNul(s) && Parse(s).Tree?
    ensures TokensOf(Parse(s).cmd) == multiset(Lex(s))[Sym('(') := 0][Sym(')') := 0]
  {
    var x := LineWritten(Lex(s));
    forall t: Tok ensures TokensOf(Parse(s).cmd)[t] == Bare(Lex(s))[t] {
      BareWritten(x, [], t);
      assert Bare([]) == multiset{};
    }
  }

  // --- a printer that writes parentheses only where they are needed ---

  // The command inside the redirections around c, and those redirections.
  function Inner<W>(c: Cmd<W>): Cmd<W> { if c.Redir? then Inner(c.cmd) else c }

  function Outer<W>(c: Cmd<W>): seq<Redirection<W>> {
    if c.Redir? then Outer(c.cmd) + [Redirection(c.file, c.mode, c.fd)] else []
  }

  // Arguments and redirections in their orders, mixed as `pick` says: true
  // takes the next redirection, and once pick ends all arguments come first.
  function Mix(argv: seq<string>, rs: seq<Redirection<string>>, pick: seq<bool>): seq<Item>
    decreases |argv| + |rs|
  {
    if argv == [] && rs == [] then []
    else if rs == [] || (argv != [] && (pick == [] || !pick[0])) then
      [Arg(argv[0])] + Mix(argv[1..], rs, if pick == [] then [] else pick[1..])
    else [On(rs[0])] + Mix(argv, rs[1..], if pick == [] then [] else pick[1..])
  }

  type Picks = (seq<string>, seq<Redirection<string>>) -> seq<bool>

  // c where the grammar wants a simple command, a pipeline, a pipeline with
  // `&`s or a line (levels 0 to 3), in parentheses if c binds less tightly.
  function Layout(c: Cmd<string>, level: nat, pick: Picks): Src
    decreases c, 0
  {
    match c
    case Exec(argv) => Plain(Mix(argv, [], pick(argv, [])))
    case Redir(d, _, _, _) =>
      if Inner(d).Exec? then Plain(Mix(Inner(d).argv, Outer(c), pick(Inner(d).argv, Outer(c))))
      else Group(InnerLayout(d, pick), Outer(c))
    case Pipe(l, r) => Enclosed(level < 1, Piped(Layout(l, 0, pick), Layout(r, 1, pick)))
    case Back(d) => Enclosed(level < 2, Amp(Layout(d, 2, pick)))
    case List(l, r) => Enclosed(level < 3, Semi(Layout(l, 2, pick), Layout(r, 3, pick)))
  }

  function InnerLayout(c: Cmd<string>, pick: Picks): Src
    decreases c, 1
  {
    if c.Redir? then InnerLayout(c.cmd, pick) else Layout(c, 3, pick)
  }

  function Enclosed(b: bool, x: Src): Src { if b then Group(x, []) else x }

  predicate IsAt(x: Src, level: nat) {
    if level == 0 then IsSimple(x) else if level == 1 then IsPipe(x) else if level == 2 then IsAmped(x) else IsLine(x)
  }

  lemma Loosens(x: Src, level: nat)
    ensures IsSimple(x) ==> IsAt(x, level)
    ensures IsPipe(x) && level >= 1 ==> IsAt(x, level)
    ensures IsAmped(x) && level >= 2 ==> IsAt(x, level)
  {
    if IsAmped(x) {
      AmpedIsLine(x);
    }
  }

  lemma {:induction false} MixIs(argv: seq<string>, rs: seq<Redirection<string>>, pick: seq<bool>)
    ensures ArgsIn(Mix(argv, rs, pick)) == argv && RedsIn(Mix(argv, rs, pick)) == rs
    decreases |argv| + |rs|
  {
    if argv == [] && rs == [] {
    } else {
      hide ArgsIn, RedsIn;
      var rest := if pick == [] then [] else pick[1..];
      if rs == [] || (argv != [] && (pick == [] || !pick[0])) {
        MixIs(argv[1..], rs, rest);
        ConsArg(argv[0], Mix(argv[1..], rs, rest), []);
        assert argv == [] + [argv[0]] + argv[1..];
      } else {
        MixIs(argv, rs[1..], rest);
        ConsOn(rs[0], Mix(argv, rs[1..], rest), []);
        assert rs == [rs[0]] + rs[1..];
      }
    }
  }

  lemma {:induction false} WrapInner(c: Cmd<string>)
    ensures Wrap(Inner(c), Outer(c)) == c && (c.Redir? ==> Outer(c) != [])
    ensures WellFormed(c) ==> WellFormed(Inner(c)) && RedirectionsOk(Outer(c))
  {
    hide RedirectionOk, ArgsOk;
    if c.Redir? {
      WrapInner(c.cmd);
      var rs := Outer(c);
      assert rs[..|rs| - 1] == Outer(c.cmd);
    }
  }

  lemma {:induction false} InnerOfWrap(c: Cmd<string>, rs: seq<Redirection<string>>)
    ensures Inner(Wrap(c, rs)) == Inner(c)
    ensures Wrap(c, rs).Redir? <==> rs != [] || c.Redir?
    decreases |rs|
  {
    if rs != [] {
      InnerOfWrap(c, rs[..|rs| - 1]);
    }
  }

  lemma PlainLayout(argv: seq<string>, rs: seq<Redirection<string>>, pick: seq<bool>)
    requires ArgsOk(argv) && RedirectionsOk(rs)
    ensures var x := Plain(Mix(argv, rs, pick)); Wf(x) && Meaning(x) == Wrap(Exec(argv), rs)
  {
    hide ArgsOk, RedirectionsOk, Wrap;
    MixIs(argv, rs, pick);
  }

  // The layout of a tree stands for that tree.
  lemma {:induction false} LayoutMeans(c: Cmd<string>, level: nat, pick: Picks)
    requires WellFormed(c)
    ensures var x := Layout(c, level, pick); IsAt(x, level) && Wf(x) && Meaning(x) == c
    decreases c, 0
  {
    hide ArgsOk, RedirectionOk, Mix, ArgsIn, RedsIn;
    var x := Layout(c, level, pick);
    match c
    case Exec(argv) =>
      PlainLayout(argv, [], pick(argv, []));
      Loosens(x, level);
    case Redir(d, _, _, _) =>
      WrapInner(c);
      assert Inner(c) == Inner(d);
      if Inner(d).Exec? {
        PlainLayout(Inner(d).argv, Outer(c), pick(Inner(d).argv, Outer(c)));
      } else {
        InnerLayoutMeans(d, pick);
      }
      Loosens(x, level);
    case Pipe(l, r) =>
      LayoutMeans(l, 0, pick);
      LayoutMeans(r, 1, pick);
      EnclosedMeans(x, Piped(Layout(l, 0, pick), Layout(r, 1, pick)), 1, level);
    case Back(d) =>
      LayoutMeans(d, 2, pick);
      EnclosedMeans(x, Amp(Layout(d, 2, pick)), 2, level);
    case List(l, r) =>
      LayoutMeans(l, 2, pick);
      LayoutMeans(r, 3, pick);
      EnclosedMeans(x, Semi(Layout(l, 2, pick), Layout(r, 3, pick)), 3, level);
  }

  lemma EnclosedMeans(x: Src, y: Src, own: nat, level: nat)
    requires 1 <= own <= 3 && IsAt(y, own) && Wf(y) && x == Enclosed(level < own, y)
    ensures IsAt(x, level) && Wf(x) && Meaning(x) == Meaning(y)
  {
    Loosens(y, 3);
    Loosens(y, level);
    Loosens(Group(y, []), level);
  }

  lemma {:induction false} InnerLayoutMeans(c: Cmd<string>, pick: Picks)
    requires WellFormed(c)
    ensures var x := InnerLayout(c, pick); IsLine(x) && Wf(x) && Meaning(x) == Inner(c)
    decreases c, 1
  {
    hide Layout, ArgsOk, RedirectionOk;
    if c.Redir? {
      InnerLayoutMeans(c.cmd, pick);
    } else {
      LayoutMeans(c, 3, pick);
    }
  }

  // Pairs of parentheses
  function Groups(x: Src): nat {
    match x
    case Plain(_) => 0
    case Group(l, _) => 1 + Groups(l)
    case Piped(l, r) => Groups(l) + Groups(r)
    case Amp(l) => Groups(l)
    case Semi(l, r) => Groups(l) + Groups(r)
  }

  lemma {:induction false} InnerGroups(c: Cmd<string>, pick: Picks)
    ensures InnerLayout(c, pick) == Layout(Inner(c), 3, pick)
    ensures !Inner(c).Redir?
  {
    if c.Redir? {
      InnerGroups(c.cmd, pick);
    }
  }

  lemma LayoutOfRedir(c: Cmd<string>, level: nat, pick: Picks)
    requires c.Redir?
    ensures Groups(Layout(c, level, pick)) == if Inner(c).Exec? then 0 else 1 + Groups(Layout(Inner(c), 3, pick))
  {
    hide Mix;
    InnerGroups(c.cmd, pick);
  }

  lemma PartsAt(x: Src, level: nat)
    requires IsAt(x, level)
    ensures x.Group? ==> IsLine(x.line)
    ensures x.Piped? ==> level >= 1 && IsSimple(x.left) && IsPipe(x.right)
    ensures x.Amp? ==> level >= 2 && IsAmped(x.left)
    ensures x.Semi? ==> level >= 3 && IsAmped(x.left) && IsLine(x.right)
  {
    assert level >= 3 && !x.Semi? ==> IsAmped(x);
    assert IsAmped(x) && !x.Amp? ==> IsPipe(x);
    assert IsPipe(x) && !x.Piped? ==> IsSimple(x);
  }

  // No way of writing a tree has fewer parentheses.
  lemma {:induction false} FewestParentheses(x: Src, level: nat, pick: Picks)
    requires IsAt(x, level)
    ensures Groups(Layout(Meaning(x), level, pick)) <= Groups(x)
    decreases x
  {
    hide Mix, Outer, IsSimple, IsPipe, IsAmped, IsLine;
    PartsAt(x, level);
    match x
    case Plain(items) =>
      InnerOfWrap(Exec(ArgsIn(items)), RedsIn(items));
      var c := Meaning(x);
      if c.Redir? {
        LayoutOfRedir(c, level, pick);
      }
    case Group(l, rs) =>
      FewestParentheses(l, 3, pick);
      InnerOfWrap(Meaning(l), rs);
      var c, d := Meaning(x), Meaning(l);
      if d.Redir? {
        LayoutOfRedir(d, 3, pick);
      }
      if c.Redir? {
        LayoutOfRedir(c, level, pick);
      }
    case Piped(l, r) =>
      FewestParentheses(l, 0, pick);
      FewestParentheses(r, 1, pick);
    case Amp(l) =>
      FewestParentheses(l, 2, pick);
    case Semi(l, r) =>
      FewestParentheses(l, 2, pick);
      FewestParentheses(r, 3, pick);
  }

  // --- text ---

  function Text(t: Tok): string {
    match t
    case Sym(c) => [c]
    case More => ">>"
    case Word(w) => w
  }

  predicate IsTok(t: Tok) {
    match t
    case Sym(c) => IsSymbol(c)
    case More => true
    case Word(w) => IsWord(w)
  }

  // Tokens that would run together.
  predicate Sticks(t: Tok, u: Tok) { (t.Word? && u.Word?) || (t == Sym('>') && (u == Sym('>') || u == More)) }

  predicate Blank(s: string) { forall k :: 0 <= k < |s| ==> IsSpace(s[k]) }

  // Tokens with the given blanks before, between and after them.
  predicate Spaced(ts: seq<Tok>, gaps: seq<string>) {
    && |gaps| == |ts| + 1 && Blank(gaps[0])
    && (ts != [] ==> IsTok(ts[0]) && (|ts| > 1 && Sticks(ts[0], ts[1]) ==> gaps[1] != "") && Spaced(ts[1..], gaps[1..]))
  }

  function Spell(ts: seq<Tok>, gaps: seq<string>): string
    requires |gaps| == |ts| + 1
  {
    if ts == [] then gaps[0] else gaps[0] + (Text(ts[0]) + Spell(ts[1..], gaps[1..]))
  }

  lemma {:induction false} LexBlank(b: string, s: string)
    requires Blank(b) && NoNul(s)
    ensures NoNul(b + s) && Lex(b + s) == Lex(s)
    decreases |b|
  {
    if b == "" {
      assert b + s == s;
    } else {
      LexBlank(b[1..], s);
      assert (b + s)[1..] == b[1..] + s && (b + s)[0] == b[0];
      assert NoNul(b + s) by {
        assert b + s == [b[0]] + (b[1..] + s);
      }
    }
  }

  // t is followed by something that ends it.
  predicate Parted(t: Tok, s: string) {
    s == "" || if t.Word? then !IsWordChar(s[0]) else t == Sym('>') ==> s[0] != '>'
  }

  lemma LexTok(t: Tok, s: string)
    requires IsTok(t) && NoNul(s) && Parted(t, s)
    ensures NoNul(Text(t) + s) && Lex(Text(t) + s) == [t] + Lex(s)
  {
    match t
    case Sym(c) => LexSym(c, s);
    case More => LexMore(s);
    case Word(w) =>
      WordEnds(w, s);
      assert (w + s)[0] == w[0] && IsWordChar(w[0]);
      assert (w + s)[..|w|] == w && (w + s)[|w|..] == s;
  }

  lemma WordEnds(w: string, s: string)
    requires IsWord(w) && (s == "" || !IsWordChar(s[0]))
    ensures WordLen(w + s) == |w|
  {
    assert forall k :: 0 <= k < |w| ==> (w + s)[k] == w[k];
    assert s != "" ==> (w + s)[|w|] == s[0];
  }

  lemma SpellingParts(t: Tok, ts: seq<Tok>, gaps: seq<string>)
    requires Spaced(ts, gaps) && (ts != [] && Sticks(t, ts[0]) ==> gaps[0] != "")
    ensures Parted(t, Spell(ts, gaps))
  {
    var s := Spell(ts, gaps);
    if gaps[0] != "" {
      assert s[0] == gaps[0][0];
    } else if ts != [] {
      assert s[0] == Text(ts[0])[0];
    }
  }

  // However it is spaced, a spelling has its tokens.
  lemma {:induction false} LexOfSpelling(ts: seq<Tok>, gaps: seq<string>)
    requires Spaced(ts, gaps)
    ensures NoNul(Spell(ts, gaps)) && Lex(Spell(ts, gaps)) == ts
    decreases |ts|
  {
    if ts == [] {
      LexBlank(gaps[0], "");
      assert gaps[0] + "" == gaps[0];
    } else {
      hide Lex, NoNul, Text;
      var after := Spell(ts[1..], gaps[1..]);
      LexOfSpelling(ts[1..], gaps[1..]);
      SpellingParts(ts[0], ts[1..], gaps[1..]);
      LexTok(ts[0], after);
      LexBlank(gaps[0], Text(ts[0]) + after);
      assert [ts[0]] + ts[1..] == ts;
    }
  }

  // And every text is a spelling of its tokens.
  lemma {:induction false} SpellingOfLex(s: string) returns (gaps: seq<string>)
    requires NoNul(s)
    ensures Spaced(Lex(s), gaps) && Spell(Lex(s), gaps) == s
    decreases |s|
  {
    if s == "" {
      gaps := [""];
    } else if IsSpace(s[0]) {
      gaps := SpellingOfLex(s[1..]);
      WiderGap(s[0], Lex(s[1..]), gaps);
      gaps := [[s[0]] + gaps[0]] + gaps[1..];
      assert s == [s[0]] + s[1..];
    } else {
      var t := Lex(s)[0];
      var n := |Text(t)|;
      FirstTok(s);
      var more := SpellingOfLex(s[n..]);
      assert Lex(s)[1..] == Lex(s[n..]);
      if Lex(s[n..]) != [] && more[0] == "" {
        assert s[n..][0] == Text(Lex(s[n..])[0])[0];
      }
      gaps := [""] + more;
      assert gaps[1..] == more && gaps[1] == more[0];
      assert "" + (Text(t) + s[n..]) == s;
    }
  }

  lemma WiderGap(c: char, ts: seq<Tok>, gaps: seq<string>)
    requires IsSpace(c) && Spaced(ts, gaps)
    ensures var wide := [[c] + gaps[0]] + gaps[1..]; Spaced(ts, wide) && Spell(ts, wide) == [c] + Spell(ts, gaps)
  {
    var wide := [[c] + gaps[0]] + gaps[1..];
    assert wide[1..] == gaps[1..] && (|ts| > 0 ==> wide[1] == gaps[1]);
    if ts != [] {
      var after := Text(ts[0]) + Spell(ts[1..], gaps[1..]);
      assert ([c] + gaps[0]) + after == [c] + (gaps[0] + after);
    }
  }

  lemma FirstTok(s: string)
    requires NoNul(s) && s != "" && !IsSpace(s[0])
    ensures Lex(s) != [] && var t := Lex(s)[0]; var n := |Text(t)|;
      && IsTok(t) && 0 < n <= |s| && s[..n] == Text(t) && Parted(t, s[n..]) && Lex(s) == [t] + Lex(s[n..])
  {
    if !IsSymbol(s[0]) {
      assert IsWordChar(s[0]);
      var n := WordLen(s);
      assert n > 0 && (n < |s| ==> s[n..][0] == s[n]);
    }
  }

  // --- the main results ---

  // Text s, spaced by the gaps, is a way of writing x.
  ghost predicate Writes(x: Src, gaps: seq<string>, s: string) {
    IsLine(x) && Wf(x) && Spaced(Written(x, []), gaps) && Spell(Written(x, []), gaps) == s
  }

  // parsecmd accepts exactly the texts that are a way of writing something,
  // and gives them the tree it stands for.
  lemma ParseIffWritten(s: string, c: Cmd<string>)
    requires NoNul(s)
    ensures Parse(s) == Tree(c) <==> exists x, gaps :: Writes(x, gaps, s) && Meaning(x) == c
  {
    if Parse(s) == Tree(c) {
      var x := LineWritten(Lex(s));
      var gaps := SpellingOfLex(s);
      assert Writes(x, gaps, s) && Meaning(x) == c;
    }
    forall x, gaps | Writes(x, gaps, s) && Meaning(x) == c ensures Parse(s) == Tree(c) {
      LexOfSpelling(Written(x, []), gaps);
      LineOfWritten(x, []);
    }
  }

  predicate AreToks(ts: seq<Tok>) { forall i :: 0 <= i < |ts| ==> IsTok(ts[i]) }

  lemma {:induction false} RedToksAreToks(rs: seq<Redirection<string>>, ts: seq<Tok>)
    requires RedirectionsOk(rs) && AreToks(ts)
    ensures AreToks(RedToks(rs, ts))
    decreases |rs|
  {
    if rs != [] {
      RedToksAreToks(rs[1..], ts);
    }
  }

  lemma {:induction false} ItemToksAreToks(items: seq<Item>, ts: seq<Tok>)
    requires (forall i :: 0 <= i < |ArgsIn(items)| ==> IsWord(ArgsIn(items)[i])) && RedirectionsOk(RedsIn(items))
    requires AreToks(ts)
    ensures AreToks(ItemToks(items, ts))
    decreases |items|
  {
    if items != [] {
      hide IsWord, ArgsIn, RedsIn;
      var more := items[1..];
      assert items == [items[0]] + more;
      match items[0]
      case Arg(w) =>
        ConsArg(w, more, []);
        assert ([w] + ArgsIn(more))[0] == w && ([w] + ArgsIn(more))[1..] == ArgsIn(more);
        ItemToksAreToks(more, ts);
      case On(r) =>
        ConsOn(r, more, []);
        assert ([r] + RedsIn(more))[0] == r && ([r] + RedsIn(more))[1..] == RedsIn(more);
        ItemToksAreToks(more, ts);
    }
  }

  lemma {:induction false} WrittenAreToks(x: Src, ts: seq<Tok>)
    requires Wf(x) && AreToks(ts)
    ensures AreToks(Written(x, ts))
    decreases x
  {
    hide RedirectionOk, IsWord;
    match x
    case Plain(items) => ItemToksAreToks(items, ts);
    case Group(l, rs) =>
      RedToksAreToks(rs, ts);
      WrittenAreToks(l, [Sym(')')] + RedToks(rs, ts));
    case Piped(l, r) =>
      WrittenAreToks(r, ts);
      WrittenAreToks(l, [Sym('|')] + Written(r, ts));
    case Amp(l) => WrittenAreToks(l, [Sym('&')] + ts);
    case Semi(l, r) =>
      WrittenAreToks(r, ts);
      WrittenAreToks(l, [Sym(';')] + Written(r, ts));
  }

  lemma {:induction false} BlanksSpace(ts: seq<Tok>, gaps: seq<string>)
    requires AreToks(ts) && |gaps| == |ts| + 1 && forall i :: 0 <= i < |gaps| ==> Blank(gaps[i]) && gaps[i] != ""
    ensures Spaced(ts, gaps)
    decreases |ts|
  {
    if ts != [] {
      BlanksSpace(ts[1..], gaps[1..]);
    }
  }

  // The round trip of the second printer: fewest parentheses, any mixture of
  // arguments and redirections, any blanks between tokens.
  lemma LayoutRoundTrip(c: Cmd<string>, pick: Picks, gaps: seq<string>)
    requires WellFormed(c) && |gaps| == |Written(Layout(c, 3, pick), [])| + 1
    requires forall i :: 0 <= i < |gaps| ==> Blank(gaps[i]) && gaps[i] != ""
    ensures var s := Spell(Written(Layout(c, 3, pick), []), gaps); NoNul(s) && Parse(s) == Tree(c)
  {
    var x := Layout(c, 3, pick);
    LayoutMeans(c, 3, pick);
    WrittenAreToks(x, []);
    BlanksSpace(Written(x, []), gaps);
    LexOfSpelling(Written(x, []), gaps);
    LineOfWritten(x, []);
  }
}
