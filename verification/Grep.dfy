/** The regular expressions of user/grep.c. A C string is the sequence of its
    characters before the NUL. */
module Grep {
  datatype Class = Any | Lit(c: char)
  datatype Item = One(m: Class) | Star(m: Class)

  // `end` says that a match must reach the end of the text.
  datatype Pattern = Pattern(items: seq<Item>, end: bool)

  function ClassOf(c: char): Class { if c == '.' then Any else Lit(c) }

  predicate Accepts(m: Class, c: char) { m == Any || m == Lit(c) }

  // A pattern without its `^`. A `*` belongs to the character before it, and
  // `$` is special only at the very end.
  function PatternOf(re: string): Pattern {
    if re == "" then Pattern([], false)
    else if |re| > 1 && re[1] == '*' then
      var rest := PatternOf(re[2..]);
      rest.(items := [Star(ClassOf(re[0]))] + rest.items)
    else if re == "$" then Pattern([], true)
    else
      var rest := PatternOf(re[1..]);
      rest.(items := [One(ClassOf(re[0]))] + rest.items)
  }

  // --- patterns and how they are written ---

  function CharOf(m: Class): char { if m == Any then '.' else m.c }

  function Written(i: Item): string { if i.Star? then [CharOf(i.m), '*'] else [CharOf(i.m)] }

  function Render(p: Pattern): string
    decreases |p.items|
  {
    if p.items == [] then (if p.end then "$" else "") else Written(p.items[0]) + Render(p.(items := p.items[1..]))
  }

  // What can be written: a dot only as a wildcard, a star only first or after
  // a starred character, and no plain `$` at the very end.
  predicate Writable(p: Pattern) {
    && (forall i :: 0 <= i < |p.items| ==> p.items[i].m != Lit('.'))
    && (forall i :: 0 < i < |p.items| && p.items[i].m == Lit('*') ==> p.items[i - 1].Star?)
    && (p.items != [] && p.items[|p.items| - 1] == One(Lit('$')) ==> p.end)
  }

  function Cons(i: Item, p: Pattern): Pattern { p.(items := [i] + p.items) }

  lemma RenderCons(i: Item, p: Pattern)
    ensures Render(Cons(i, p)) == Written(i) + Render(p)
  {
    assert ([i] + p.items)[1..] == p.items;
  }

  // i can be written in front of p.
  predicate Joins(i: Item, p: Pattern) {
    && i.m != Lit('.') && (i.One? && p.items != [] ==> p.items[0].m != Lit('*'))
    && (p.items == [] && i == One(Lit('$')) ==> p.end)
  }

  lemma WritableCons(i: Item, p: Pattern)
    ensures Writable(Cons(i, p)) <==> Writable(p) && Joins(i, p)
  {
    var all := [i] + p.items;
    assert forall k :: 0 <= k < |p.items| ==> all[k + 1] == p.items[k];
    assert p.items != [] ==> all[|all| - 1] == p.items[|p.items| - 1];
    assert Cons(i, p).items == all && all[0] == i;
    if Writable(Cons(i, p)) {
      forall k | 0 <= k < |p.items| ensures p.items[k].m != Lit('.') {
        assert all[k + 1].m != Lit('.');
      }
      forall k | 0 < k < |p.items| && p.items[k].m == Lit('*') ensures p.items[k - 1].Star? {
        assert all[k + 1].m == Lit('*');
      }
      assert p.items != [] && p.items[0].m == Lit('*') ==> all[1].m == Lit('*');
    }
  }

  lemma PatternCons(i: Item, p: Pattern)
    requires PatternOf(Render(p)) == p && Joins(i, p)
    ensures PatternOf(Written(i) + Render(p)) == Cons(i, p)
  {
    RenderStart(p);
    var rest := Render(p);
    var re := Written(i) + rest;
    assert re[0] == CharOf(i.m) && ClassOf(re[0]) == i.m;
    assert re[|Written(i)|..] == rest;
    if i.One? && rest != "" {
      assert re[1] == rest[0] != '*' && |re| > 1;
    }
  }

  lemma RenderStart(p: Pattern)
    ensures p.items != [] ==> Render(p) != "" && Render(p)[0] == CharOf(p.items[0].m)
    ensures p.items == [] ==> Render(p) == if p.end then "$" else ""
  {
  }

  // Exactly the patterns that can be written are read back from what is written,
  lemma {:induction false} PatternOfRender(p: Pattern)
    requires Writable(p)
    ensures PatternOf(Render(p)) == p
    decreases |p.items|
  {
    if p.items != [] {
      hide Writable, PatternOf, Render;
      var i, q := p.items[0], p.(items := p.items[1..]);
      assert p == Cons(i, q);
      WritableCons(i, q);
      PatternOfRender(q);
      PatternCons(i, q);
      RenderCons(i, q);
    }
  }

  // and every string is a way of writing one.
  lemma {:induction false} RenderOfPattern(re: string)
    ensures Render(PatternOf(re)) == re && Writable(PatternOf(re))
    decreases |re|
  {
    if re != "" && (re != "$") {
      var star := |re| > 1 && re[1] == '*';
      var rest := if star then re[2..] else re[1..];
      var i := if star then Star(ClassOf(re[0])) else One(ClassOf(re[0]));
      assert re == Written(i) + rest && PatternOf(re) == Cons(i, PatternOf(rest));
      hide Writable, PatternOf, Render;
      RenderOfPattern(rest);
      RenderStart(PatternOf(rest));
      assert !star && rest != "" ==> rest[0] == re[1] != '*';
      assert !star && rest == "" ==> re == [re[0]];
      RenderCons(i, PatternOf(rest));
      WritableCons(i, PatternOf(rest));
    }
  }

  // --- what a pattern denotes ---

  ghost predicate AllAccepted(m: Class, s: string) { forall i :: 0 <= i < |s| ==> Accepts(m, s[i]) }

  // The language of a sequence of items.
  ghost predicate In(items: seq<Item>, s: string) {
    if items == [] then s == ""
    else
      match items[0]
      case One(m) => s != "" && Accepts(m, s[0]) && In(items[1..], s[1..])
      case Star(m) => exists k :: 0 <= k <= |s| && AllAccepted(m, s[..k]) && In(items[1..], s[k..])
  }

  // Some prefix of the text is in the language; all of it, if anchored.
  ghost predicate MatchesPrefix(p: Pattern, text: string) {
    exists j :: 0 <= j <= |text| && (p.end ==> j == |text|) && In(p.items, text[..j])
  }

  // Some substring of the text is in the language.
  ghost predicate Matches(re: string, text: string) {
    if re != "" && re[0] == '^' then MatchesPrefix(PatternOf(re[1..]), text)
    else exists i, j ::
      0 <= i <= j <= |text| && (PatternOf(re).end ==> j == |text|) && In(PatternOf(re).items, text[i..j])
  }

  // --- the steps of the matcher ---

  ghost predicate StarReaches(m: Class, text: string, k: nat) {
    k <= |text| && AllAccepted(m, text[..k])
  }

  lemma OneStep(p: Pattern, m: Class, rest: seq<Item>, text: string)
    requires p.items == [One(m)] + rest
    ensures MatchesPrefix(p, text) <==> text != "" && Accepts(m, text[0]) && MatchesPrefix(p.(items := rest), text[1..])
  {
    assert p.items[1..] == rest;
    var q := p.(items := rest);
    if MatchesPrefix(p, text) {
      var j :| 0 <= j <= |text| && (p.end ==> j == |text|) && In(p.items, text[..j]);
      assert text[..j][1..] == text[1..][..j - 1];
      assert In(q.items, text[1..][..j - 1]);
    }
    if text != "" && Accepts(m, text[0]) && MatchesPrefix(q, text[1..]) {
      var j :| 0 <= j <= |text[1..]| && (q.end ==> j == |text[1..]|) && In(q.items, text[1..][..j]);
      assert text[..j + 1][1..] == text[1..][..j];
      assert In(p.items, text[..j + 1]);
    }
  }

  lemma StarStep(p: Pattern, m: Class, rest: seq<Item>, text: string)
    requires p.items == [Star(m)] + rest
    ensures MatchesPrefix(p, text) <==>
      exists k :: 0 <= k <= |text| && StarReaches(m, text, k) && MatchesPrefix(p.(items := rest), text[k..])
  {
    assert p.items[1..] == rest;
    var q := p.(items := rest);
    if MatchesPrefix(p, text) {
      var j :| 0 <= j <= |text| && (p.end ==> j == |text|) && In(p.items, text[..j]);
      var s := text[..j];
      var k :| 0 <= k <= |s| && AllAccepted(m, s[..k]) && In(p.items[1..], s[k..]);
      assert s[..k] == text[..k] && s[k..] == text[k..][..j - k];
      assert StarReaches(m, text, k) && In(q.items, text[k..][..j - k]);
    }
    if exists k :: 0 <= k <= |text| && StarReaches(m, text, k) && MatchesPrefix(q, text[k..]) {
      var k :| 0 <= k <= |text| && StarReaches(m, text, k) && MatchesPrefix(q, text[k..]);
      var j :| 0 <= j <= |text[k..]| && (q.end ==> j == |text[k..]|) && In(q.items, text[k..][..j]);
      var s := text[..k + j];
      assert s[..k] == text[..k] && s[k..] == text[k..][..j];
      assert In(p.items, s);
    }
  }

  lemma MatchesSomewhere(re: string, text: string)
    requires re == "" || re[0] != '^'
    ensures Matches(re, text) <==> exists i :: 0 <= i <= |text| && MatchesPrefix(PatternOf(re), text[i..])
  {
    var p := PatternOf(re);
    if Matches(re, text) {
      var i, j :| 0 <= i <= j <= |text| && (p.end ==> j == |text|) && In(p.items, text[i..j]);
      assert text[i..][..j - i] == text[i..j];
      assert MatchesPrefix(p, text[i..]);
    }
    if exists i :: 0 <= i <= |text| && MatchesPrefix(p, text[i..]) {
      var i :| 0 <= i <= |text| && MatchesPrefix(p, text[i..]);
      var j :| 0 <= j <= |text[i..]| && (p.end ==> j == |text[i..]|) && In(p.items, text[i..][..j]);
      assert text[i..][..j] == text[i..i + j];
      assert In(p.items, text[i..i + j]);
    }
  }

  // matchhere
  method MatchHere(re: string, text: string) returns (b: bool)
    ensures b <==> MatchesPrefix(PatternOf(re), text)
    decreases |re|, 0
  {
    if re == "" {
      assert In([], text[..0]);
      return true;
    }
    if |re| > 1 && re[1] == '*' {
      b := MatchStar(re[0], re[2..], text);
      StarStep(PatternOf(re), ClassOf(re[0]), PatternOf(re[2..]).items, text);
      return;
    }
    if re[0] == '$' && |re| == 1 {
      assert re == "$";
      assert text[..|text|] == text;
      return text == "";
    }
    OneStep(PatternOf(re), ClassOf(re[0]), PatternOf(re[1..]).items, text);
    if text != "" && (re[0] == '.' || re[0] == text[0]) {
      b := MatchHere(re[1..], text[1..]);
      return;
    }
    return false;
  }

  // matchstar
  method MatchStar(c: char, re: string, text: string) returns (b: bool)
    ensures b <==>
      exists k :: 0 <= k <= |text| && StarReaches(ClassOf(c), text, k) && MatchesPrefix(PatternOf(re), text[k..])
    decreases |re|, 1
  {
    var i := 0;
    while true
      invariant 0 <= i <= |text| && StarReaches(ClassOf(c), text, i)
      invariant forall k :: 0 <= k < i ==> !MatchesPrefix(PatternOf(re), text[k..])
      decreases |text| - i
    {
      b := MatchHere(re, text[i..]);
      if b {
        return;
      }
      if !(i < |text| && (text[i] == c || c == '.')) {
        break;
      }
      i := i + 1;
    }
    b := false;
  }

  // match
  method Match(re: string, text: string) returns (b: bool)
    ensures b <==> Matches(re, text)
  {
    if re != "" && re[0] == '^' {
      b := MatchHere(re[1..], text);
      return;
    }
    MatchesSomewhere(re, text);
    var i := 0;
    while true
      invariant 0 <= i <= |text|
      invariant forall k :: 0 <= k < i ==> !MatchesPrefix(PatternOf(re), text[k..])
      decreases |text| - i
    {
      b := MatchHere(re, text[i..]);
      if b {
        return;
      }
      if i == |text| {
        break;
      }
      i := i + 1;
    }
    b := false;
  }
}
