/** The parser of user/sh.c over its text buffer: a cursor into the buffer,
    words kept as pairs of positions, and nulterminate writing in place. */
module Sh {
  import opened ShGrammar
  import opened ShSyntax
  import opened Blocks

  datatype Span = Span(from: nat, to: nat)

  // A maximal run of word characters.
  ghost predicate IsToken(text: string, w: Span) {
    && w.from < w.to <= |text|
    && (forall k :: w.from <= k < w.to ==> IsWordChar(text[k]))
    && (w.to < |text| ==> !IsWordChar(text[w.to]))
  }

  ghost predicate Tokens(text: string, c: Cmd<Span>) {
    match c
    case Exec(argv) => forall i :: 0 <= i < |argv| ==> IsToken(text, argv[i])
    case Redir(d, file, _, _) => Tokens(text, d) && IsToken(text, file)
    case Pipe(l, r) => Tokens(text, l) && Tokens(text, r)
    case List(l, r) => Tokens(text, l) && Tokens(text, r)
    case Back(d) => Tokens(text, d)
  }

  ghost predicate TokensIn(text: string, rs: seq<Redirection<Span>>) {
    forall i :: 0 <= i < |rs| ==> IsToken(text, rs[i].file)
  }

  // The words behind the positions.
  ghost function Read(text: string, w: Span): string {
    if w.from <= w.to <= |text| then text[w.from..w.to] else ""
  }

  ghost function Reads(text: string,
                       ws: seq<Span>): seq<string> { seq(|ws|, i requires 0 <= i < |ws| => Read(text, ws[i])) }

  ghost function ReadRedir(text: string,
                           r: Redirection<Span>): Redirection<string> { Redirection(Read(text, r.file), r.mode, r.fd) }

  ghost function ReadRedirs(text: string, rs: seq<Redirection<Span>>): seq<Redirection<string>> {
    seq(|rs|, i requires 0 <= i < |rs| => ReadRedir(text, rs[i]))
  }

  ghost function TreeOf(text: string, c: Cmd<Span>): Cmd<string> {
    match c
    case Exec(argv) => Exec(Reads(text, argv))
    case Redir(d, file, mode, fd) => Redir(TreeOf(text, d), Read(text, file), mode, fd)
    case Pipe(l, r) => Pipe(TreeOf(text, l), TreeOf(text, r))
    case List(l, r) => List(TreeOf(text, l), TreeOf(text, r))
    case Back(d) => Back(TreeOf(text, d))
  }

  lemma {:induction false} TreeOfWrap(text: string, c: Cmd<Span>, rs: seq<Redirection<Span>>)
    ensures TreeOf(text, Wrap(c, rs)) == Wrap(TreeOf(text, c), ReadRedirs(text, rs))
    ensures Tokens(text, c) && TokensIn(text, rs) ==> Tokens(text, Wrap(c, rs))
    decreases |rs|
  {
    if rs != [] {
      var init := rs[..|rs| - 1];
      TreeOfWrap(text, c, init);
      assert ReadRedirs(text, rs)[..|rs| - 1] == ReadRedirs(text, init);
    }
  }

  // What the parser has found is what the grammar finds in the rest of the text.
  ghost predicate Found(text: string, pos: nat, r: Option<Cmd<Span>>, want: Result)
    requires pos <= |text| && NoNul(text)
  {
    match r
    case None => want == Panic
    case Some(c) => Tokens(text, c) && want == Ok(TreeOf(text, c), Lex(text[pos..]))
  }

  function First(t: Tok): char {
    match t
    case Sym(c) => c
    case More => '>'
    case Word(w) => if w == "" then ' ' else w[0]
  }

  // The tokens at a position that holds no space.
  lemma LexAt(text: string, s: nat)
    requires NoNul(text) && s < |text| && !IsSpace(text[s])
    ensures text[s] != '\0'
    ensures text[s] == '>' && s + 1 < |text| && text[s + 1] == '>' ==> Lex(text[s..]) == [More] + Lex(text[s + 2..])
    ensures IsSymbol(text[s]) && !(text[s] == '>' && s + 1 < |text| && text[s + 1] == '>') ==>
      Lex(text[s..]) == [Sym(text[s])] + Lex(text[s + 1..])
  {
    assert text[s..][1..] == text[s + 1..];
    assert s + 1 < |text| ==> text[s..][2..] == text[s + 2..];
  }

  lemma LexNothing()
    ensures Lex("") == []
  {
  }

  lemma LexWordAt(text: string, w: Span)
    requires NoNul(text) && IsToken(text, w)
    ensures Lex(text[w.from..]) == [Word(text[w.from..w.to])] + Lex(text[w.to..])
  {
    var s := text[w.from..];
    var n := WordLen(s);
    assert s[0] == text[w.from] && IsWordChar(text[w.from]);
    assert w.to < |text| ==> s[w.to - w.from] == text[w.to];
    assert n == w.to - w.from;
    assert s[..n] == text[w.from..w.to] && s[n..] == text[w.to..];
  }

  // A word never starts with a symbol.
  lemma WordFirst(text: string, s: nat)
    requires NoNul(text) && s <= |text|
    ensures var ts := Lex(text[s..]); ts != [] && ts[0].Word? ==> !IsSymbol(First(ts[0]))
  {
    var ts := Lex(text[s..]);
    assert WordsOk(ts);
  }

  // ts is redirection r followed by rest.
  ghost predicate RedirAt(ts: seq<Tok>, r: Redirection<string>, rest: seq<Tok>) {
    |ts| >= 2 && IsRedir(ts[0]) && ts[1].Word? && r == RedirOf(ts[0], ts[1].w) && rest == ts[2..]
  }

  lemma SimpleIsArgs(ts: seq<Tok>)
    requires ts == [] || ts[0] != Sym('(')
    ensures Simple(ts) == match Redirs([], ts) case NoFile => Panic case Redirections(rs, ts') => Args([], rs, ts')
  {
  }

  // --- C strings ---

  // The string a pointer to position i reads as.
  function CString(s: string, i: nat): (r: string)
    ensures NoNul(r)
    decreases |s| - i
  {
    if i >= |s| || s[i] == '\0' then "" else [s[i]] + CString(s, i + 1)
  }

  lemma {:induction false} CStringIs(s: string, i: nat, n: nat)
    requires i <= n < |s| && s[n] == '\0' && NoNul(s[i..n])
    ensures CString(s, i) == s[i..n]
    decreases n - i
  {
    if i < n {
      assert s[i..n][0] == s[i] && s[i + 1..n] == s[i..n][1..];
      CStringIs(s, i + 1, n);
    }
  }

  ghost function CStrings(s: string,
                          ws: seq<Span>): seq<string> { seq(|ws|, i requires 0 <= i < |ws| => CString(s, ws[i].from)) }

  // The command tree as its users see it, through C strings.
  ghost function CTree(s: string, c: Cmd<Span>): Cmd<string> {
    match c
    case Exec(argv) => Exec(CStrings(s, argv))
    case Redir(d, file, mode, fd) => Redir(CTree(s, d), CString(s, file.from), mode, fd)
    case Pipe(l, r) => Pipe(CTree(s, l), CTree(s, r))
    case List(l, r) => List(CTree(s, l), CTree(s, r))
    case Back(d) => Back(CTree(s, d))
  }

  // The positions nulterminate writes.
  ghost function Ends(c: Cmd<Span>): set<nat> {
    match c
    case Exec(argv) => set i | 0 <= i < |argv| :: argv[i].to
    case Redir(d, file, _, _) => Ends(d) + {file.to}
    case Pipe(l, r) => Ends(l) + Ends(r)
    case List(l, r) => Ends(l) + Ends(r)
    case Back(d) => Ends(d)
  }

  // No word of the tree is cut: every position written is past a word's end.
  lemma {:induction false} EndsAreOutside(text: string, c: Cmd<Span>)
    requires Tokens(text, c)
    ensures forall e :: e in Ends(c) ==> e <= |text| && (e < |text| ==> !IsWordChar(text[e]))
  {
    match c
    case Exec(argv) =>
      forall e | e in Ends(c) ensures e <= |text| && (e < |text| ==> !IsWordChar(text[e])) {
        var i :| 0 <= i < |argv| && argv[i].to == e;
        assert IsToken(text, argv[i]);
      }
    case Redir(d, _, _, _) => EndsAreOutside(text, d);
    case Pipe(l, r) => EndsAreOutside(text, l); EndsAreOutside(text, r);
    case List(l, r) => EndsAreOutside(text, l); EndsAreOutside(text, r);
    case Back(d) => EndsAreOutside(text, d);
  }

  // The buffer with NULs at some positions past words.
  ghost predicate Cut(text: string, s: string, ends: set<nat>) {
    && |text| < |s|
    && (forall k :: 0 <= k < |text| && k !in ends ==> s[k] == text[k])
    && (forall e :: e in ends ==> e <= |text| && s[e] == '\0' && (e < |text| ==> !IsWordChar(text[e])))
  }

  lemma WordReadsBack(text: string, s: string, ends: set<nat>, w: Span)
    requires Cut(text, s, ends) && IsToken(text, w) && w.to in ends
    ensures CString(s, w.from) == Read(text, w)
  {
    forall k | w.from <= k < w.to ensures s[k] == text[k] && text[k] != '\0' {
      assert IsWordChar(text[k]);
    }
    assert s[w.from..w.to] == text[w.from..w.to];
    CStringIs(s, w.from, w.to);
  }

  lemma {:induction false} TreeReadsBack(text: string, s: string, ends: set<nat>, c: Cmd<Span>)
    requires Cut(text, s, ends) && Tokens(text, c) && Ends(c) <= ends
    ensures CTree(s, c) == TreeOf(text, c)
  {
    match c
    case Exec(argv) =>
      forall i | 0 <= i < |argv| ensures CString(s, argv[i].from) == Read(text, argv[i]) {
        assert argv[i].to in Ends(c);
        WordReadsBack(text, s, ends, argv[i]);
      }
      assert CStrings(s, argv) == Reads(text, argv);
    case Redir(d, file, _, _) =>
      TreeReadsBack(text, s, ends, d);
      WordReadsBack(text, s, ends, file);
    case Pipe(l, r) =>
      TreeReadsBack(text, s, ends, l);
      TreeReadsBack(text, s, ends, r);
    case List(l, r) =>
      TreeReadsBack(text, s, ends, l);
      TreeReadsBack(text, s, ends, r);
    case Back(d) =>
      TreeReadsBack(text, s, ends, d);
  }

  ghost predicate Cleared(before: string, after: string, ends: set<nat>) {
    |after| == |before| && forall k :: 0 <= k < |after| ==> after[k] == if k in ends then '\0' else before[k]
  }

  // nulterminate
  method NulTerminate(buf: array<char>, c: Cmd<Span>)
    requires forall e :: e in Ends(c) ==> e < buf.Length
    modifies buf
    ensures Cleared(old(buf[..]), buf[..], Ends(c))
    decreases c
  {
    match c
    case Exec(argv) =>
      for i := 0 to |argv|
        invariant Cleared(old(buf[..]), buf[..], set j | 0 <= j < i :: argv[j].to)
      {
        assert argv[i].to in Ends(c) && argv[i].to < buf.Length;
        buf[argv[i].to] := '\0';
      }
    case Redir(d, file, _, _) =>
      assert file.to in Ends(c) && forall e :: e in Ends(d) ==> e in Ends(c);
      assert file.to < buf.Length;
      NulTerminate(buf, d);
      buf[file.to] := '\0';
    case Pipe(l, r) =>
      assert forall e :: e in Ends(l) || e in Ends(r) ==> e in Ends(c);
      NulTerminate(buf, l);
      NulTerminate(buf, r);
    case List(l, r) =>
      assert forall e :: e in Ends(l) || e in Ends(r) ==> e in Ends(c);
      NulTerminate(buf, l);
      NulTerminate(buf, r);
    case Back(d) =>
      assert forall e :: e in Ends(d) ==> e in Ends(c);
      NulTerminate(buf, d);
  }

  class Parser {
    const buf: array<char>
    const es: nat
    ghost const text: string
    var pos: nat

    ghost predicate Valid()
      reads this, buf
    {
      && pos <= es < buf.Length && es == |text| && NoNul(text)
      && buf[..es] == text && buf[es] == '\0'
    }

    constructor (b: array<char>, n: nat)
      requires n < b.Length && b[n] == '\0' && NoNul(b[..n])
      ensures Valid() && buf == b && es == n && text == b[..n] && pos == 0
    {
      buf, es, text, pos := b, n, b[..n], 0;
    }

    // The tokens from position i on.
    ghost function From(i: nat): seq<Tok>
      requires i <= |text| && NoNul(text)
    {
      Lex(text[i..])
    }

    method SkipSpaces()
      requires Valid()
      modifies this`pos
      ensures Valid() && old(pos) <= pos && From(pos) == From(old(pos)) && (pos < es ==> !IsSpace(text[pos]))
    {
      while pos < es && IsSpace(buf[pos])
        invariant Valid() && old(pos) <= pos && From(pos) == From(old(pos))
      {
        assert buf[pos] == text[pos] && text[pos..][1..] == text[pos + 1..];
        pos := pos + 1;
      }
      assert pos < es ==> buf[pos] == text[pos];
    }

    method Peek(toks: string) returns (b: bool)
      requires Valid() && (forall c :: c in toks ==> IsSymbol(c))
      modifies this`pos
      ensures Valid() && old(pos) <= pos && From(pos) == From(old(pos))
      ensures b <==> From(pos) != [] && First(From(pos)[0]) in toks
      ensures From(pos) == [] <==> pos == es
    {
      SkipSpaces();
      b := buf[pos] != '\0' && buf[pos] in toks;
    }

    method GetToken() returns (tok: char, q: nat, eq: nat)
      requires Valid()
      modifies this`pos
      ensures Valid() && old(pos) <= pos && (tok != '\0' ==> old(pos) < pos)
      ensures tok == '\0' ==> From(old(pos)) == [] == From(pos)
      ensures tok == 'a' ==> IsToken(text, Span(q, eq)) && From(old(pos)) == [Word(text[q..eq])] + From(pos)
      ensures tok == '+' ==> From(old(pos)) == [More] + From(pos)
      ensures tok !in {'\0', 'a', '+'} ==> IsSymbol(tok) && From(old(pos)) == [Sym(tok)] + From(pos)
    {
      hide Lex;
      SkipSpaces();
      var s := pos;
      q := s;
      tok := buf[s];
      if s < es {
        assert buf[s] == text[s] && (s + 1 < es ==> buf[s + 1] == text[s + 1]);
        LexAt(text, s);
      } else {
        LexNothing();
        assert text[s..] == "";
      }
      match tok {
        case '\0' =>
        case '|' | '(' | ')' | ';' | '&' | '<' =>
          s := s + 1;
        case '>' =>
          s := s + 1;
          if buf[s] == '>' {
            tok := '+';
            s := s + 1;
          }
        case _ =>
          tok := 'a';
          while s < es && !IsSpace(buf[s]) && !IsSymbol(buf[s])
            invariant q <= s <= es
            invariant forall k :: q <= k < s ==> IsWordChar(text[k])
          {
            assert buf[s] == text[s];
            s := s + 1;
          }
          assert s < es ==> buf[s] == text[s];
          LexWordAt(text, Span(q, s));
      }
      eq := s;
      pos := s;
      SkipSpaces();
    }

    // One redirection of parseredirs.
    method ParseRedir() returns (r: Option<Redirection<Span>>)
      requires Valid() && From(pos) != [] && IsRedir(From(pos)[0])
      modifies this`pos
      ensures Valid() && old(pos) < pos
      ensures match r
        case Some(d) => IsToken(text, d.file) && RedirAt(From(old(pos)), ReadRedir(text, d), From(pos))
        case None => |From(old(pos))| < 2 || !From(old(pos))[1].Word?
    {
      hide Lex;
      var tok, _, _ := GetToken();
      var tok2, q, eq := GetToken();
      if tok2 != 'a' {
        return None;
      }
      match tok {
        case '<' =>
          r := Some(Redirection(Span(q, eq), O_RDONLY, 0));
        case '>' =>
          r := Some(Redirection(Span(q, eq), O_WRONLY_CREATE_TRUNC, 1));
        case _ =>
          r := Some(Redirection(Span(q, eq), O_WRONLY_CREATE, 1));
      }
    }

    // parseredirs. The exec node is filled in while redirections pile up around
    // it, so they are kept as a list until it is complete.
    method ParseRedirs(rs0: seq<Redirection<Span>>) returns (ok: bool, rs: seq<Redirection<Span>>)
      requires Valid() && TokensIn(text, rs0)
      modifies this`pos
      ensures Valid() && old(pos) <= pos && TokensIn(text, rs)
      ensures Redirs(ReadRedirs(text, rs0), From(old(pos))) ==
        if ok then Redirections(ReadRedirs(text, rs), From(pos)) else NoFile
    {
      hide Lex;
      rs := rs0;
      var more := Peek("<>");
      while more
        invariant Valid() && old(pos) <= pos && TokensIn(text, rs)
        invariant Redirs(ReadRedirs(text, rs0), From(old(pos))) == Redirs(ReadRedirs(text, rs), From(pos))
        invariant more <==> From(pos) != [] && First(From(pos)[0]) in "<>"
        decreases es - pos
      {
        WordFirst(text, pos);
        var d := ParseRedir();
        if d == None {
          return false, rs;
        }
        ghost var rs1 := rs;
        rs := rs + [d.value];
        assert ReadRedirs(text, rs) == ReadRedirs(text, rs1) + [ReadRedir(text, d.value)];
        more := Peek("<>");
      }
      WordFirst(text, pos);
      ok := true;
    }

    // parseexec
    method ParseExec() returns (r: Option<Cmd<Span>>)
      requires Valid()
      modifies this`pos
      ensures Valid() && old(pos) <= pos && Found(text, pos, r, Simple(From(old(pos))))
      decreases es - pos, 1
    {
      hide Lex;
      var block := Peek("(");
      WordFirst(text, pos);
      if block {
        r := ParseBlock();
        return;
      }
      r := ParseArgs();
    }

    // The rest of parseexec, after the test for a block.
    method ParseArgs() returns (r: Option<Cmd<Span>>)
      requires Valid() && (From(pos) == [] || From(pos)[0] != Sym('('))
      modifies this`pos
      ensures Valid() && old(pos) <= pos && Found(text, pos, r, Simple(From(old(pos))))
    {
      hide Lex, Redirs, Simple, Wrap, Line;
      SimpleIsArgs(From(pos));
      var argv := [];
      var ok, rs := ParseRedirs([]);
      assert ReadRedirs(text, []) == [] && Reads(text, []) == [];
      if !ok {
        return None;
      }
      var stop := Peek("|)&;");
      while !stop
        invariant Valid() && old(pos) <= pos && TokensIn(text, rs) && |argv| < MAXARGS
        invariant forall i :: 0 <= i < |argv| ==> IsToken(text, argv[i])
        invariant Simple(From(old(pos))) == Args(Reads(text, argv), ReadRedirs(text, rs), From(pos))
        invariant stop <==> From(pos) != [] && First(From(pos)[0]) in "|)&;"
        decreases es - pos
      {
        WordFirst(text, pos);
        var tok, q, eq := GetToken();
        if tok == '\0' {
          break;
        }
        if tok != 'a' {
          return None;
        }
        ghost var argv1 := argv;
        argv := argv + [Span(q, eq)];
        assert Reads(text, argv) == Reads(text, argv1) + [text[q..eq]];
        if |argv| >= MAXARGS {
          return None;
        }
        ok, rs := ParseRedirs(rs);
        if !ok {
          return None;
        }
        stop := Peek("|)&;");
      }
      WordFirst(text, pos);
      TreeOfWrap(text, Exec(argv), rs);
      r := Some(Wrap(Exec(argv), rs));
    }

    // parseblock
    method ParseBlock() returns (r: Option<Cmd<Span>>)
      requires Valid()
      modifies this`pos
      ensures Valid() && old(pos) <= pos
      ensures if From(old(pos)) != [] && From(old(pos))[0] ==
        Sym('(') then Found(text, pos, r, Simple(From(old(pos)))) else r == None
      decreases es - pos, 0
    {
      hide Lex, Args, Redirs, Line;
      var open := Peek("(");
      WordFirst(text, pos);
      if !open {
        return None;
      }
      var _, _, _ := GetToken();
      ghost var inside := pos;
      var c := ParseLine();
      if c == None {
        return None;
      }
      var close := Peek(")");
      WordFirst(text, pos);
      if !close {
        return None;
      }
      var _, _, _ := GetToken();
      var ok, rs := ParseRedirs([]);
      assert ReadRedirs(text, []) == [];
      if !ok {
        return None;
      }
      TreeOfWrap(text, c.value, rs);
      r := Some(Wrap(c.value, rs));
    }

    // parsepipe
    method ParsePipe() returns (r: Option<Cmd<Span>>)
      requires Valid()
      modifies this`pos
      ensures Valid() && old(pos) <= pos && Found(text, pos, r, Pipeline(From(old(pos))))
      decreases es - pos, 2
    {
      hide Lex, Simple;
      r := ParseExec();
      if r == None {
        return;
      }
      var bar := Peek("|");
      WordFirst(text, pos);
      if bar {
        var _, _, _ := GetToken();
        var right := ParsePipe();
        r := if right == None then None else Some(Pipe(r.value, right.value));
      }
    }

    // parseline
    method ParseLine() returns (r: Option<Cmd<Span>>)
      requires Valid()
      modifies this`pos
      ensures Valid() && old(pos) <= pos && Found(text, pos, r, Line(From(old(pos))))
      decreases es - pos, 3
    {
      hide Lex, Pipeline;
      r := ParsePipe();
      if r == None {
        return;
      }
      ghost var c, at := r.value, pos;
      var amp := Peek("&");
      while amp
        invariant Valid() && at <= pos && r.Some? && Tokens(text, r.value)
        invariant Backs(TreeOf(text, c), From(at)) == Backs(TreeOf(text, r.value), From(pos))
        invariant amp <==> From(pos) != [] && First(From(pos)[0]) in "&"
        decreases es - pos
      {
        WordFirst(text, pos);
        var _, _, _ := GetToken();
        r := Some(Back(r.value));
        amp := Peek("&");
      }
      WordFirst(text, pos);
      var semi := Peek(";");
      WordFirst(text, pos);
      if semi {
        var _, _, _ := GetToken();
        var right := ParseLine();
        r := if right == None then None else Some(List(r.value, right.value));
      }
    }
  }

  method Strlen(b: array<char>) returns (n: nat)
    requires '\0' in b[..]
    ensures n < b.Length && b[n] == '\0' && NoNul(b[..n])
  {
    n := 0;
    while b[n] != '\0'
      invariant n < b.Length && NoNul(b[..n])
      decreases b.Length - n
    {
      var i :| 0 <= i < b.Length && b[..][i] == '\0';
      n := n + 1;
    }
  }

  // parsecmd: None is a syntax error; otherwise the tree, read through the
  // buffer it leaves behind, is the one the grammar gives to the command line.
  method ParseCmd(b: array<char>) returns (r: Option<Cmd<Span>>)
    requires '\0' in b[..]
    modifies b
    ensures Parse(CString(old(b[..]), 0)) == match r case None => Syntax case Some(c) => Parsed.Tree(CTree(b[..], c))
    // the tree has the words and operators of the line, each as often
    ensures r.Some? ==> TokensOf(CTree(b[..], r.value)) == Bare(Lex(CString(old(b[..]), 0)))
  {
    hide Lex, Line, TokensOf;
    var n := Strlen(b);
    ghost var s := b[..];
    CStringIs(s, 0, n);
    var p := new Parser(b, n);
    r := p.ParseLine();
    assert p.text[0..] == p.text == CString(s, 0);
    if r == None {
      return;
    }
    var _ := p.Peek("");
    if p.pos != n {
      return None;
    }
    EndsAreOutside(p.text, r.value);
    NulTerminate(b, r.value);
    TreeReadsBack(p.text, b[..], Ends(r.value), r.value);
    NothingLost(p.text);
  }
}
