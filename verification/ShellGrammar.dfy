/**
  The grammar of the shell, apart from its parser: concrete syntax trees over tokens, and the proof that parsecmd makes
  tree t of a line if and only if the grammar derives the tokens of the line with tree t.
 */
module ShellGrammar {
  import opened Shell

  // ---------------------------------------------------------------- tokens

  datatype Item = S(c: char) | App | W(text: string)

  function ItemOf(s: string, g: Got): Item {
    match g.tok case Sym(c) => S(c) case Twice => App case _ => W(TextOf(s, g.span))
  }

  /** The tokens of s from i on. */
  function Lex(s: string, i: nat): seq<Item>
    requires i <= |s|
    decreases |s| - i
  {
    var g := GetTok(s, i);
    if g.tok.End? then [] else [ItemOf(s, g)] + Lex(s, g.next)
  }

  /** The first token begins with one of these characters. */
  predicate Starts(l: seq<Item>, toks: string) {
    l != [] && match l[0] case S(c) => c in toks case App => '>' in toks case W(_) => false
  }

  // ---------------------------------------------------------------- the grammar

  datatype Rd = Rd(mode: Mode, file: string)

  datatype Arg = Arg(word: string, redirs: seq<Rd>)

  /** redirection* (word redirection*)*, or ( line ) redirection* */
  datatype Atom = Simple(lead: seq<Rd>, args: seq<Arg>) | Block(line: Line, after: seq<Rd>)

  /** atom [| pipeline] */
  datatype Pipeline = Last(atom: Atom) | Into(atom: Atom, next: Pipeline)

  /** pipeline &* [; line] */
  datatype Line = Final(pipe: Pipeline, backs: nat) | Then(pipe: Pipeline, backs: nat, next: Line)

  function OpItem(m: Mode): Item { match m case Read => S('<') case Write => S('>') case Append => App }

  function RdToks(rs: seq<Rd>): seq<Item> {
    if rs == [] then [] else [OpItem(rs[0].mode), W(rs[0].file)] + RdToks(rs[1..])
  }

  function ArgToks(args: seq<Arg>): seq<Item> {
    if args == [] then [] else [W(args[0].word)] + RdToks(args[0].redirs) + ArgToks(args[1..])
  }

  function Ands(k: nat): seq<Item> { seq(k, _ => S('&')) }

  function AtomToks(a: Atom): seq<Item>
    decreases a
  {
    match a
    case Simple(lead, args) => RdToks(lead) + ArgToks(args)
    case Block(line, after) => [S('(')] + LineToks(line) + [S(')')] + RdToks(after)
  }

  function PipeToks(p: Pipeline): seq<Item>
    decreases p
  {
    match p
    case Last(a) => AtomToks(a)
    case Into(a, next) => AtomToks(a) + [S('|')] + PipeToks(next)
  }

  function LineToks(l: Line): seq<Item>
    decreases l
  {
    match l
    case Final(p, k) => PipeToks(p) + Ands(k)
    case Then(p, k, next) => PipeToks(p) + Ands(k) + [S(';')] + LineToks(next)
  }

  // ---------------------------------------------------------------- what a derivation stands for

  function WrapAll(c: Cmd<string>, rs: seq<Rd>): Cmd<string>
    decreases |rs|
  {
    if rs == [] then c else WrapAll(Redir(c, rs[0].file, rs[0].mode), rs[1..])
  }

  function ArgWords(args: seq<Arg>): seq<string> { if args == [] then [] else [args[0].word] + ArgWords(args[1..]) }

  function ArgRds(args: seq<Arg>): seq<Rd> { if args == [] then [] else args[0].redirs + ArgRds(args[1..]) }

  function Backed(c: Cmd<string>, k: nat): Cmd<string> { if k == 0 then c else Back(Backed(c, k - 1)) }

  function AtomTree(a: Atom): Cmd<string>
    decreases a
  {
    match a
    case Simple(lead, args) => WrapAll(Exec(ArgWords(args)), lead + ArgRds(args))
    case Block(line, after) => WrapAll(LineTree(line), after)
  }

  function PipeTree(p: Pipeline): Cmd<string>
    decreases p
  {
    match p
    case Last(a) => AtomTree(a)
    case Into(a, next) => Pipe(AtomTree(a), PipeTree(next))
  }

  function LineTree(l: Line): Cmd<string>
    decreases l
  {
    match l
    case Final(p, k) => Backed(PipeTree(p), k)
    case Then(p, k, next) => List(Backed(PipeTree(p), k), LineTree(next))
  }

  /** Fewer than MAXARGS arguments everywhere. */
  predicate AtomOk(a: Atom)
    decreases a
  {
    match a case Simple(_, args) => |args| < MAXARGS case Block(line, _) => LineOk(line)
  }

  predicate PipeOk(p: Pipeline)
    decreases p
  {
    AtomOk(p.atom) && (p.Into? ==> PipeOk(p.next))
  }

  predicate LineOk(l: Line)
    decreases l
  {
    PipeOk(l.pipe) && (l.Then? ==> LineOk(l.next))
  }

  // ---------------------------------------------------------------- tokens and characters

  lemma LexSkip(s: string, i: nat)
    requires i <= |s|
    ensures Lex(s, Skip(s, i)) == Lex(s, i) && GetTok(s, Skip(s, i)) == GetTok(s, i) && Skip(s, Skip(s, i)) == Skip(s, i)
  {
    SkipTwice(s, i);
  }

  lemma SkipTwice(s: string, i: nat)
    requires i <= |s|
    ensures Skip(s, Skip(s, i)) == Skip(s, i)
  {}

  lemma LexNext(s: string, i: nat)
    requires i <= |s|
    ensures var g := GetTok(s, i);
            && g.next <= |s| && (Lex(s, i) == [] <==> g.tok.End?)
            && (Lex(s, i) != [] ==> i < g.next && Lex(s, i)[0] == ItemOf(s, g) && Lex(s, i)[1..] == Lex(s, g.next))
            && (g.tok.Sym? ==> IsSymbol(g.tok.c)) && Skip(s, g.next) == g.next
  {
    var g := GetTok(s, i);
    SkipTwice(s, TokAt(s, Skip(s, i)).1);
  }

  predicate AllSymbols(toks: string) { forall k :: 0 <= k < |toks| ==> IsSymbol(toks[k]) }

  /** peek looks at the first token. */
  lemma PeekIs(s: string, i: nat, toks: string)
    requires i <= |s| && AllSymbols(toks)
    ensures PeekAt(s, Skip(s, i), toks) <==> Starts(Lex(s, i), toks)
  {
    LexNext(s, i);
    var j := Skip(s, i);
    if j < |s| && s[j] in toks {
      assert IsSymbol(s[j]);
    }
  }

  // ---------------------------------------------------------------- what is parsed is derived

  function RdsOf(s: string, rs: seq<Redirection>): (r: seq<Rd>)
    ensures |r| == |rs| && forall i :: 0 <= i < |rs| ==> r[i] == Rd(rs[i].mode, TextOf(s, rs[i].file))
  {
    seq(|rs|, i requires 0 <= i < |rs| => Rd(rs[i].mode, TextOf(s, rs[i].file)))
  }

  lemma {:induction false} StringsWrap(s: string, c: Cmd<Span>, rs: seq<Redirection>)
    ensures Strings(s, Wrap(c, rs)) == WrapAll(Strings(s, c), RdsOf(s, rs))
    decreases |rs|
  {
    if rs != [] {
      StringsWrap(s, Redir(c, rs[0].file, rs[0].mode), rs[1..]);
      assert RdsOf(s, rs)[1..] == RdsOf(s, rs[1..]);
    }
  }

  lemma {:induction false} RedirSound(s: string, i: nat)
    requires i <= |s| && Text(s) && RedirList(s, i).Ok?
    ensures var r := RedirList(s, i); Lex(s, i) == RdToks(RdsOf(s, r.value)) + Lex(s, r.pos) && !Starts(Lex(s, r.pos), "<>")
    decreases |s| - i
  {
    hide GetTok, Skip, Text, RedirsOk, IsWord, Lex;
    var r, p := RedirList(s, i), Skip(s, i);
    PeekIs(s, i, "<>");
    LexSkip(s, i);
    if PeekAt(s, p, "<>") {
      var g := GetTok(s, p);
      LexNext(s, p);
      var f := GetTok(s, g.next);
      LexNext(s, g.next);
      RedirSound(s, f.next);
      var more := RedirList(s, f.next);
      var r1 := Redirection(f.span, ModeOf(g.tok));
      assert r.value == [r1] + more.value;
      assert RdsOf(s, r.value)[1..] == RdsOf(s, more.value);
      assert Lex(s, p) == [ItemOf(s, g)] + ([ItemOf(s, f)] + Lex(s, f.next));
    }
  }

  /** A place where a command without parentheses ends. */
  predicate AfterAtom(l: seq<Item>) { l == [] || Starts(l, "|)&;") }

  lemma ArgsMore(a: Arg, more: seq<Arg>, tail: seq<Item>)
    ensures ArgToks([a] + more) + tail == [W(a.word)] + (RdToks(a.redirs) + (ArgToks(more) + tail))
    ensures ArgWords([a] + more) == [a.word] + ArgWords(more) && ArgRds([a] + more) == a.redirs + ArgRds(more)
  {
    assert ([a] + more)[1..] == more;
  }

  lemma SpansMore(s: string, argv: seq<Span>, w: Span, redirs: seq<Redirection>, rs: seq<Redirection>, words: seq<string>, rds: seq<Rd>)
    ensures Texts(s, argv + [w]) + words == Texts(s, argv) + ([TextOf(s, w)] + words)
    ensures RdsOf(s, redirs + rs) + rds == RdsOf(s, redirs) + (RdsOf(s, rs) + rds)
  {}

  lemma {:induction false} ExecSound(s: string, argv: seq<Span>, redirs: seq<Redirection>, i: nat) returns (args: seq<Arg>)
    requires i <= |s| && Text(s) && RedirsOk(s, redirs) && ArgsOk(s, argv) && ExecArgs(s, argv, redirs, i).Ok? && |argv| < MAXARGS
    ensures var r := ExecArgs(s, argv, redirs, i);
            && Lex(s, i) == ArgToks(args) + Lex(s, r.pos) && AfterAtom(Lex(s, r.pos)) && |argv| + |args| < MAXARGS
            && Strings(s, r.value) == WrapAll(Exec(Texts(s, argv) + ArgWords(args)), RdsOf(s, redirs) + ArgRds(args))
    decreases |s| - i
  {
    hide GetTok, Skip, Text, RedirsOk, IsWord, ArgsOk, Lex, RedirList, WrapAll, Wrap, ExecArgs, Strings, ArgToks, ArgWords, ArgRds, Texts, RdToks, TextOf;
    var p := Skip(s, i);
    ExecArgsIs(s, argv, redirs, i);
    PeekIs(s, i, "|)&;");
    LexSkip(s, i);
    var g := GetTok(s, p);
    LexNext(s, p);
    if PeekAt(s, p, "|)&;") || g.tok.End? {
      args := [];
      LexEnd(s, p);
      StringsWrap(s, Exec(argv), redirs);
      StringsExec(s, argv);
      NoMore(Texts(s, argv), RdsOf(s, redirs));
    } else {
      RedirSound(s, g.next);
      var rs, n := RedirList(s, g.next).value, RedirList(s, g.next).pos;
      var more := ExecSound(s, argv + [g.span], redirs + rs, n);
      var a := Arg(TextOf(s, g.span), RdsOf(s, rs));
      args := [a] + more;
      ArgsMore(a, more, Lex(s, ExecArgs(s, argv, redirs, i).pos));
      SpansMore(s, argv, g.span, redirs, rs, ArgWords(more), ArgRds(more));
    }
  }

  lemma StringsExec(s: string, argv: seq<Span>)
    ensures Strings(s, Exec(argv)) == Exec(Texts(s, argv))
  {}

  lemma NoMore(words: seq<string>, rds: seq<Rd>)
    ensures ArgToks([]) == [] && words + ArgWords([]) == words && rds + ArgRds([]) == rds
  {}

  lemma LexEnd(s: string, p: nat)
    requires p <= |s|
    ensures GetTok(s, p).tok.End? ==> Lex(s, p) == [] == Lex(s, GetTok(s, p).next)
  {
    if GetTok(s, p).tok.End? {
      LexNext(s, GetTok(s, p).next);
    }
  }

  lemma AtomSound(s: string, i: nat) returns (a: Atom)
    requires i <= |s| && Text(s) && ParseExec(s, i).Ok?
    ensures var r := ParseExec(s, i); Lex(s, i) == AtomToks(a) + Lex(s, r.pos) && AtomOk(a) && Strings(s, r.value) == AtomTree(a)
    decreases |s| - i, 1
  {
    hide GetTok, Skip, Text, RedirsOk, ArgsOk, SpansOk, Lex, RedirList, ExecArgs, ParseBlock, ParsePipe, ParseLine, WrapAll, Strings, RdToks, ArgToks, ArgWords, ArgRds, LineToks, LineTree, LineOk;
    var p := Skip(s, i);
    PeekIs(s, i, "(");
    LexSkip(s, i);
    if PeekAt(s, p, "(") {
      a := BlockSound(s, p);
    } else {
      RedirSound(s, p);
      var rs, n := RedirList(s, p).value, RedirList(s, p).pos;
      NoArgs(s);
      var args := ExecSound(s, [], rs, n);
      a := Simple(RdsOf(s, rs), args);
      assert Texts(s, []) + ArgWords(args) == ArgWords(args);
    }
  }

  lemma BlockSound(s: string, i: nat) returns (a: Atom)
    requires i < |s| && Text(s) && s[i] == '(' && ParseBlock(s, i).Ok?
    ensures var r := ParseBlock(s, i); Lex(s, i) == AtomToks(a) + Lex(s, r.pos) && AtomOk(a) && Strings(s, r.value) == AtomTree(a)
    decreases |s| - i, 0
  {
    hide GetTok, Skip, Text, RedirsOk, ArgsOk, SpansOk, Lex, RedirList, ExecArgs, ParseExec, ParsePipe, ParseLine, Wrap, WrapAll, Strings, RdToks, LineToks, LineTree, LineOk;
    var g := GetTok(s, i);
    OpenParen(s, i);
    LexNext(s, i);
    var line := LineSound(s, g.next);
    var c, m := ParseLine(s, g.next).value, ParseLine(s, g.next).pos;
    PeekIs(s, m, ")");
    LexSkip(s, m);
    var p := Skip(s, m);
    LexNext(s, p);
    var h := GetTok(s, p);
    RedirSound(s, h.next);
    var rs, n := RedirList(s, h.next).value, RedirList(s, h.next).pos;
    StringsWrap(s, c, rs);
    a := Block(line, RdsOf(s, rs));
    BlockToks(line, RdsOf(s, rs), Lex(s, n));
  }

  lemma OpenParen(s: string, i: nat)
    requires i < |s| && s[i] == '('
    ensures GetTok(s, i).tok == Sym('(') && i < GetTok(s, i).next
  {
    SkipNone(s, i);
  }

  lemma BlockToks(line: Line, after: seq<Rd>, tail: seq<Item>)
    ensures AtomToks(Block(line, after)) + tail == [S('(')] + (LineToks(line) + ([S(')')] + (RdToks(after) + tail)))
  {}

  lemma PipeSound(s: string, i: nat) returns (d: Pipeline)
    requires i <= |s| && Text(s) && ParsePipe(s, i).Ok?
    ensures var r := ParsePipe(s, i); Lex(s, i) == PipeToks(d) + Lex(s, r.pos) && PipeOk(d) && Strings(s, r.value) == PipeTree(d)
    decreases |s| - i, 2
  {
    hide GetTok, Skip, Text, SpansOk, Lex, RedirList, ExecArgs, ParseExec, ParseBlock, ParseLine, AtomToks, AtomTree, AtomOk;
    var a := AtomSound(s, i);
    var c, m := ParseExec(s, i).value, ParseExec(s, i).pos;
    var p := Skip(s, m);
    PeekIs(s, m, "|");
    LexSkip(s, m);
    if PeekAt(s, p, "|") {
      LexNext(s, p);
      var next := PipeSound(s, GetTok(s, p).next);
      d := Into(a, next);
      IntoToks(a, next, Lex(s, ParsePipe(s, i).pos));
    } else {
      d := Last(a);
    }
  }

  lemma IntoToks(a: Atom, next: Pipeline, tail: seq<Item>)
    ensures PipeToks(Into(a, next)) + tail == AtomToks(a) + ([S('|')] + (PipeToks(next) + tail))
  {}

  lemma {:induction false} BackedIn(c: Cmd<string>, k: nat)
    ensures Backed(Back(c), k) == Backed(c, k + 1)
  {
    if k > 0 {
      BackedIn(c, k - 1);
    }
  }

  lemma {:induction false} BacksSound(s: string, c: Cmd<Span>, i: nat) returns (k: nat)
    requires i <= |s| && Text(s)
    ensures var b := Backs(s, c, i); Lex(s, i) == Ands(k) + Lex(s, b.1) && Strings(s, b.0) == Backed(Strings(s, c), k) && Skip(s, b.1) == b.1
    decreases |s| - i
  {
    hide GetTok, Skip, Text, SpansOk, Lex;
    var p := Skip(s, i);
    PeekIs(s, i, "&");
    LexSkip(s, i);
    if PeekAt(s, p, "&") {
      LexNext(s, p);
      var n := GetTok(s, p).next;
      var more := BacksSound(s, Back(c), n);
      k := more + 1;
      BackedIn(Strings(s, c), more);
      assert Ands(k) == [S('&')] + Ands(more);
      assert Lex(s, p) == [S('&')] + Lex(s, n);
    } else {
      k := 0;
    }
  }

  lemma LineSound(s: string, i: nat) returns (d: Line)
    requires i <= |s| && Text(s) && ParseLine(s, i).Ok?
    ensures var r := ParseLine(s, i); Lex(s, i) == LineToks(d) + Lex(s, r.pos) && LineOk(d) && Strings(s, r.value) == LineTree(d)
    decreases |s| - i, 3
  {
    hide GetTok, Skip, Text, SpansOk, Lex, RedirList, ExecArgs, ParseExec, ParseBlock, ParsePipe, Backs, PipeToks, PipeTree, PipeOk, Ands, Backed;
    var p := PipeSound(s, i);
    var c, m := ParsePipe(s, i).value, ParsePipe(s, i).pos;
    var k := BacksSound(s, c, m);
    var b := Backs(s, c, m);
    PeekIs(s, b.1, ";");
    if PeekAt(s, b.1, ";") {
      LexNext(s, b.1);
      var next := LineSound(s, GetTok(s, b.1).next);
      d := Then(p, k, next);
      ThenToks(p, k, next, Lex(s, ParseLine(s, i).pos));
    } else {
      d := Final(p, k);
      FinalToks(p, k, Lex(s, b.1));
    }
  }

  lemma ThenToks(p: Pipeline, k: nat, next: Line, tail: seq<Item>)
    ensures LineToks(Then(p, k, next)) + tail == PipeToks(p) + (Ands(k) + ([S(';')] + (LineToks(next) + tail)))
  {}

  lemma FinalToks(p: Pipeline, k: nat, tail: seq<Item>)
    ensures LineToks(Final(p, k)) + tail == PipeToks(p) + (Ands(k) + tail)
  {}

  // ---------------------------------------------------------------- what is derived is parsed

  lemma First(s: string, i: nat, x: Item, l: seq<Item>)
    requires i <= |s| && Lex(s, i) == [x] + l
    ensures var g := GetTok(s, i); !g.tok.End? && ItemOf(s, g) == x && i < g.next <= |s| && Lex(s, g.next) == l && (x.W? <==> g.tok.Word?)
  {
    hide GetTok, Lex;
    LexNext(s, i);
    assert ([x] + l)[1..] == l;
  }

  lemma RdMore(r: Rd, more: seq<Rd>, tail: seq<Item>)
    ensures RdToks([r] + more) + tail == [OpItem(r.mode)] + ([W(r.file)] + (RdToks(more) + tail))
  {
    assert ([r] + more)[1..] == more;
  }

  lemma {:induction false} RedirComplete(s: string, i: nat, rs: seq<Rd>, rest: seq<Item>)
    requires i <= |s| && Text(s) && Lex(s, i) == RdToks(rs) + rest && !Starts(rest, "<>")
    ensures var r := RedirList(s, i); r.Ok? && RdsOf(s, r.value) == rs && Lex(s, r.pos) == rest
    decreases |rs|
  {
    hide GetTok, Skip, Text, RedirsOk, IsWord, Lex, TextOf, RdToks;
    var p := Skip(s, i);
    PeekIs(s, i, "<>");
    LexSkip(s, i);
    if rs == [] {
      NoRds(rest);
    } else {
      assert [rs[0]] + rs[1..] == rs;
      RdMore(rs[0], rs[1..], rest);
      First(s, p, OpItem(rs[0].mode), [W(rs[0].file)] + (RdToks(rs[1..]) + rest));
      var g := GetTok(s, p);
      First(s, g.next, W(rs[0].file), RdToks(rs[1..]) + rest);
      var f := GetTok(s, g.next);
      RedirComplete(s, f.next, rs[1..], rest);
      assert RdsOf(s, RedirList(s, p).value) == rs;
    }
  }

  lemma NoRds(rest: seq<Item>)
    ensures RdToks([]) + rest == rest
  {}

  /** The tokens of arguments do not begin with a redirection. */
  lemma ArgsStart(args: seq<Arg>, rest: seq<Item>)
    requires AfterAtom(rest)
    ensures !Starts(ArgToks(args) + rest, "<>") && !Starts(ArgToks(args) + rest, "(")
    ensures args != [] ==> !Starts(ArgToks(args) + rest, "|)&;")
  {
    if args != [] {
      assert [args[0]] + args[1..] == args;
      ArgsMore(args[0], args[1..], rest);
    } else {
      assert ArgToks(args) + rest == rest;
    }
  }

  lemma {:induction false} ExecComplete(s: string, argv: seq<Span>, redirs: seq<Redirection>, i: nat, args: seq<Arg>, rest: seq<Item>)
    requires i <= |s| && Text(s) && RedirsOk(s, redirs) && ArgsOk(s, argv) && |argv| + |args| < MAXARGS
    requires Lex(s, i) == ArgToks(args) + rest && AfterAtom(rest)
    ensures var r := ExecArgs(s, argv, redirs, i);
            && r.Ok? && Lex(s, r.pos) == rest
            && Strings(s, r.value) == WrapAll(Exec(Texts(s, argv) + ArgWords(args)), RdsOf(s, redirs) + ArgRds(args))
    decreases |args|
  {
    hide GetTok, Skip, Text, RedirsOk, IsWord, ArgsOk, Lex, RedirList, WrapAll, Wrap, ExecArgs, Strings, ArgToks, ArgWords, ArgRds, Texts, RdToks, TextOf;
    var p := Skip(s, i);
    ExecArgsIs(s, argv, redirs, i);
    PeekIs(s, i, "|)&;");
    LexSkip(s, i);
    if args == [] {
      NoMore(Texts(s, argv), RdsOf(s, redirs));
      LexNext(s, p);
      LexEnd(s, p);
      StringsWrap(s, Exec(argv), redirs);
      StringsExec(s, argv);
    } else {
      var a, more := args[0], args[1..];
      assert [a] + more == args;
      ArgsStart(args, rest);
      ArgsMore(a, more, rest);
      First(s, p, W(a.word), RdToks(a.redirs) + (ArgToks(more) + rest));
      var g := GetTok(s, p);
      ArgsStart(more, rest);
      RedirComplete(s, g.next, a.redirs, ArgToks(more) + rest);
      var rs, n := RedirList(s, g.next).value, RedirList(s, g.next).pos;
      ExecComplete(s, argv + [g.span], redirs + rs, n, more, rest);
      SpansMore(s, argv, g.span, redirs, rs, ArgWords(more), ArgRds(more));
    }
  }

  lemma AtomComplete(s: string, i: nat, a: Atom, rest: seq<Item>)
    requires i <= |s| && Text(s) && AtomOk(a) && Lex(s, i) == AtomToks(a) + rest && AfterAtom(rest)
    ensures var r := ParseExec(s, i); r.Ok? && Lex(s, r.pos) == rest && Strings(s, r.value) == AtomTree(a)
    decreases a
  {
    hide GetTok, Skip, Text, RedirsOk, ArgsOk, SpansOk, Lex, RedirList, ExecArgs, ParseBlock, ParsePipe, ParseLine, WrapAll, Strings, RdToks, ArgToks, ArgWords, ArgRds, LineToks, LineTree, LineOk, Starts, AfterAtom;
    var p := Skip(s, i);
    PeekIs(s, i, "(");
    LexSkip(s, i);
    match a {
      case Block(line, after) =>
        BlockToks(line, after, rest);
        StartsWith('(', LineToks(line) + ([S(')')] + (RdToks(after) + rest)), "(");
        BlockComplete(s, p, line, after, rest);
      case Simple(lead, args) =>
        assert Lex(s, i) == RdToks(lead) + (ArgToks(args) + rest);
        ArgsStart(args, rest);
        LeadStart(lead, ArgToks(args) + rest);
        RedirComplete(s, p, lead, ArgToks(args) + rest);
        var rs, n := RedirList(s, p).value, RedirList(s, p).pos;
        NoArgs(s);
        ExecComplete(s, [], rs, n, args, rest);
        assert Texts(s, []) + ArgWords(args) == ArgWords(args);
    }
  }

  lemma StartsWith(c: char, l: seq<Item>, toks: string)
    ensures Starts([S(c)] + l, toks) <==> c in toks
  {}

  lemma LeadStart(lead: seq<Rd>, l: seq<Item>)
    requires !Starts(l, "(")
    ensures !Starts(RdToks(lead) + l, "(")
  {
    if lead == [] {
      assert RdToks(lead) + l == l;
    } else {
      assert [lead[0]] + lead[1..] == lead;
      RdMore(lead[0], lead[1..], l);
    }
  }

  lemma BlockComplete(s: string, i: nat, line: Line, after: seq<Rd>, rest: seq<Item>)
    requires i < |s| && Text(s) && s[i] == '(' && LineOk(line) && AfterAtom(rest)
    requires Lex(s, i) == [S('(')] + (LineToks(line) + ([S(')')] + (RdToks(after) + rest)))
    ensures var r := ParseBlock(s, i); r.Ok? && Lex(s, r.pos) == rest && Strings(s, r.value) == WrapAll(LineTree(line), after)
    decreases line, 1
  {
    hide GetTok, Skip, Text, RedirsOk, SpansOk, Lex, RedirList, ParseExec, ParsePipe, ParseLine, Wrap, WrapAll, Strings, RdToks, LineToks, LineTree, LineOk;
    First(s, i, S('('), LineToks(line) + ([S(')')] + (RdToks(after) + rest)));
    var g := GetTok(s, i);
    LineComplete(s, g.next, line, [S(')')] + (RdToks(after) + rest));
    var c, m := ParseLine(s, g.next).value, ParseLine(s, g.next).pos;
    PeekIs(s, m, ")");
    LexSkip(s, m);
    var p := Skip(s, m);
    First(s, p, S(')'), RdToks(after) + rest);
    var h := GetTok(s, p);
    RedirComplete(s, h.next, after, rest);
    StringsWrap(s, c, RedirList(s, h.next).value);
  }

  predicate AfterPipe(l: seq<Item>) { l == [] || Starts(l, ")&;") }

  predicate AfterLine(l: seq<Item>) { l == [] || Starts(l, ")") }

  lemma PipeComplete(s: string, i: nat, d: Pipeline, rest: seq<Item>)
    requires i <= |s| && Text(s) && PipeOk(d) && Lex(s, i) == PipeToks(d) + rest && AfterPipe(rest)
    ensures var r := ParsePipe(s, i); r.Ok? && Lex(s, r.pos) == rest && Strings(s, r.value) == PipeTree(d)
    decreases d
  {
    hide GetTok, Skip, Text, SpansOk, Lex, RedirList, ExecArgs, ParseExec, ParseBlock, ParseLine, AtomToks, AtomTree, AtomOk;
    match d {
      case Last(a) =>
        AtomComplete(s, i, a, rest);
        var m := ParseExec(s, i).pos;
        PeekIs(s, m, "|");
        LexSkip(s, m);
      case Into(a, next) =>
        IntoToks(a, next, rest);
        AtomComplete(s, i, a, [S('|')] + (PipeToks(next) + rest));
        var m := ParseExec(s, i).pos;
        PeekIs(s, m, "|");
        LexSkip(s, m);
        First(s, Skip(s, m), S('|'), PipeToks(next) + rest);
        PipeComplete(s, GetTok(s, Skip(s, m)).next, next, rest);
    }
  }

  lemma {:induction false} BacksComplete(s: string, c: Cmd<Span>, i: nat, k: nat, rest: seq<Item>)
    requires i <= |s| && Text(s) && Lex(s, i) == Ands(k) + rest && !Starts(rest, "&")
    ensures var b := Backs(s, c, i); Lex(s, b.1) == rest && Strings(s, b.0) == Backed(Strings(s, c), k) && Skip(s, b.1) == b.1
    decreases k
  {
    hide GetTok, Skip, Text, SpansOk, Lex;
    var p := Skip(s, i);
    PeekIs(s, i, "&");
    LexSkip(s, i);
    if k == 0 {
      assert Ands(k) + rest == rest;
    } else {
      assert Ands(k) + rest == [S('&')] + (Ands(k - 1) + rest);
      First(s, p, S('&'), Ands(k - 1) + rest);
      BacksComplete(s, Back(c), GetTok(s, p).next, k - 1, rest);
      BackedIn(Strings(s, c), k - 1);
    }
  }

  lemma AndsStart(k: nat, l: seq<Item>)
    requires l == [] || Starts(l, ");")
    ensures AfterPipe(Ands(k) + l) && !Starts(l, "&")
  {
    if k == 0 {
      assert Ands(k) + l == l;
    }
  }

  lemma LineComplete(s: string, i: nat, d: Line, rest: seq<Item>)
    requires i <= |s| && Text(s) && LineOk(d) && Lex(s, i) == LineToks(d) + rest && AfterLine(rest)
    ensures var r := ParseLine(s, i); r.Ok? && Lex(s, r.pos) == rest && Strings(s, r.value) == LineTree(d)
    decreases d, 0
  {
    hide GetTok, Skip, Text, SpansOk, Lex, RedirList, ExecArgs, ParseExec, ParseBlock, ParsePipe, Backs, PipeToks, PipeTree, PipeOk, Ands, Backed;
    match d {
      case Final(p, k) =>
        FinalToks(p, k, rest);
        AndsStart(k, rest);
        PipeComplete(s, i, p, Ands(k) + rest);
        var c, m := ParsePipe(s, i).value, ParsePipe(s, i).pos;
        BacksComplete(s, c, m, k, rest);
        PeekIs(s, Backs(s, c, m).1, ";");
      case Then(p, k, next) =>
        var l := [S(';')] + (LineToks(next) + rest);
        ThenToks(p, k, next, rest);
        AndsStart(k, l);
        PipeComplete(s, i, p, Ands(k) + l);
        var c, m := ParsePipe(s, i).value, ParsePipe(s, i).pos;
        BacksComplete(s, c, m, k, l);
        var b := Backs(s, c, m);
        PeekIs(s, b.1, ";");
        First(s, b.1, S(';'), LineToks(next) + rest);
        LineComplete(s, GetTok(s, b.1).next, next, rest);
    }
  }

  // ---------------------------------------------------------------- the parser decides the grammar

  /** d derives the tokens of s and stands for t. */
  ghost predicate Derives(d: Line, s: string, t: Cmd<string>) {
    LineOk(d) && LineToks(d) == Lex(s, 0) && LineTree(d) == t
  }

  /** parsecmd makes t of s if and only if the grammar does. */
  lemma GrammarExact(s: string, t: Cmd<string>)
    requires Text(s)
    ensures ParseCmd(s).Ok? && Strings(s, ParseCmd(s).value) == t <==> exists d :: Derives(d, s, t)
  {
    hide ParseLine, Lex, Strings, LineToks, LineTree, LineOk, Skip, GetTok, SpansOk;
    if ParseCmd(s).Ok? && Strings(s, ParseCmd(s).value) == t {
      var d := LineSound(s, 0);
      AllRead(s, ParseLine(s, 0).pos);
      assert LineToks(d) + [] == LineToks(d);
      assert Derives(d, s, t);
    }
    if exists d :: Derives(d, s, t) {
      var d :| Derives(d, s, t);
      assert LineToks(d) + [] == LineToks(d);
      LineComplete(s, 0, d, []);
      AllRead(s, ParseLine(s, 0).pos);
    }
  }

  lemma AllRead(s: string, m: nat)
    requires m <= |s|
    ensures Skip(s, m) == |s| <==> Lex(s, m) == []
  {}

  /** The grammar gives a line at most one tree. */
  lemma Unambiguous(s: string, d: Line, e: Line, t: Cmd<string>, u: Cmd<string>)
    requires Text(s) && Derives(d, s, t) && Derives(e, s, u)
    ensures t == u
  {
    GrammarExact(s, t);
    GrammarExact(s, u);
  }
}
