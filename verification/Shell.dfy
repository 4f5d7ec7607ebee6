/**
  The command parser of user/sh.c.  The buffer is the sequence of characters before its NUL; the char pointers of the
  source are positions in it, and words are spans of positions until nulterminate ends them in place.
 */
module Shell {

  const MAXARGS := 10

  datatype Mode = Read | Write | Append

  datatype Cmd<W> =
    | Exec(argv: seq<W>)
    | Redir(cmd: Cmd<W>, file: W, mode: Mode)
    | Pipe(left: Cmd<W>, right: Cmd<W>)
    | List(left: Cmd<W>, right: Cmd<W>)
    | Back(cmd: Cmd<W>)

  datatype Span = Span(q: nat, eq: nat)

  datatype Error = NoFile | MissingParen | Syntax | TooManyArgs | Leftovers

  datatype Res<T> = Ok(value: T, pos: nat) | Err(error: Error)

  // ---------------------------------------------------------------- characters and tokens

  predicate IsSpace(c: char) { c == ' ' || c == '\t' || c == '\r' || c == '\n' || c == 11 as char }

  predicate IsSymbol(c: char) { c == '<' || c == '|' || c == '>' || c == '&' || c == ';' || c == '(' || c == ')' }

  predicate IsWordChar(c: char) { !IsSpace(c) && !IsSymbol(c) && c != '\0' }

  /** A C string: no NUL inside. */
  predicate Text(s: string) { forall i :: 0 <= i < |s| ==> s[i] != '\0' }

  function Skip(s: string, i: nat): (j: nat)
    requires i <= |s|
    ensures i <= j <= |s| && (j < |s| ==> !IsSpace(s[j])) && forall k :: i <= k < j ==> IsSpace(s[k])
    decreases |s| - i
  {
    if i < |s| && IsSpace(s[i]) then Skip(s, i + 1) else i
  }

  function WordEnd(s: string, i: nat): (j: nat)
    requires i <= |s|
    ensures i <= j <= |s| && (j < |s| ==> IsSpace(s[j]) || IsSymbol(s[j])) && forall k :: i <= k < j ==> !IsSpace(s[k]) && !IsSymbol(s[k])
    decreases |s| - i
  {
    if i < |s| && !IsSpace(s[i]) && !IsSymbol(s[i]) then WordEnd(s, i + 1) else i
  }

  /** What gettoken returns: 0, a symbol, + for >>, or a word. */
  datatype Tok = End | Sym(c: char) | Twice | Word

  /** gettoken at a position that is not white space: the token and its end. */
  function TokAt(s: string, j: nat): (Tok, nat)
    requires j <= |s|
  {
    if j == |s| then (End, j)
    else if s[j] == '>' then (if j + 1 < |s| && s[j + 1] == '>' then (Twice, j + 2) else (Sym('>'), j + 1))
    else if IsSymbol(s[j]) then (Sym(s[j]), j + 1)
    else (Word, WordEnd(s, j))
  }

  datatype Got = Got(tok: Tok, span: Span, next: nat)

  function GetTok(s: string, i: nat): (g: Got)
    requires i <= |s|
    ensures i <= g.span.q <= g.span.eq <= g.next <= |s| && (!g.tok.End? ==> g.span.q < g.span.eq)
    ensures g.tok.Word? && Text(s) ==> IsWord(s, g.span)
  {
    var j := Skip(s, i);
    var t := TokAt(s, j);
    Got(t.0, Span(j, t.1), Skip(s, t.1))
  }

  /** The span is a whole word: word characters, and none after them. */
  predicate IsWord(s: string, w: Span) {
    && w.q < w.eq <= |s| && (forall k :: w.q <= k < w.eq ==> IsWordChar(s[k]))
    && (w.eq < |s| ==> !IsWordChar(s[w.eq]))
  }

  // ---------------------------------------------------------------- the parser as functions

  datatype Redirection = Redirection(file: Span, mode: Mode)

  function ModeOf(t: Tok): Mode { if t == Twice then Append else if t == Sym('<') then Read else Write }

  function Wrap(cmd: Cmd<Span>, rs: seq<Redirection>): Cmd<Span>
    decreases |rs|
  {
    if rs == [] then cmd else Wrap(Redir(cmd, rs[0].file, rs[0].mode), rs[1..])
  }

  ghost predicate RedirsOk(s: string, rs: seq<Redirection>) { forall i :: 0 <= i < |rs| ==> IsWord(s, rs[i].file) }

  ghost predicate SpansOk(s: string, c: Cmd<Span>) {
    match c
    case Exec(argv) => forall i :: 0 <= i < |argv| ==> IsWord(s, argv[i])
    case Redir(d, w, _) => SpansOk(s, d) && IsWord(s, w)
    case Pipe(l, r) => SpansOk(s, l) && SpansOk(s, r)
    case List(l, r) => SpansOk(s, l) && SpansOk(s, r)
    case Back(d) => SpansOk(s, d)
  }

  lemma {:induction false} WrapOk(s: string, c: Cmd<Span>, rs: seq<Redirection>)
    requires SpansOk(s, c) && RedirsOk(s, rs)
    ensures SpansOk(s, Wrap(c, rs))
    decreases |rs|
  {
    if rs != [] {
      WrapOk(s, Redir(c, rs[0].file, rs[0].mode), rs[1..]);
    }
  }

  predicate PeekAt(s: string, j: nat, toks: string) { j < |s| && s[j] in toks }

  function RedirList(s: string, i: nat): (r: Res<seq<Redirection>>)
    requires i <= |s| && Text(s)
    ensures r.Ok? ==> i <= r.pos <= |s| && RedirsOk(s, r.value)
    decreases |s| - i
  {
    var p := Skip(s, i);
    if !PeekAt(s, p, "<>") then Ok([], p)
    else
      var g := GetTok(s, p);
      var f := GetTok(s, g.next);
      if !f.tok.Word? then Err(NoFile)
      else
        match RedirList(s, f.next)
        case Err(e) => Err(e)
        case Ok(rs, n) => Ok([Redirection(f.span, ModeOf(g.tok))] + rs, n)
  }

  ghost predicate ArgsOk(s: string, argv: seq<Span>) { forall i :: 0 <= i < |argv| ==> IsWord(s, argv[i]) }

  /** The loop of parseexec. */
  function ExecArgs(s: string, argv: seq<Span>, redirs: seq<Redirection>, i: nat): (r: Res<Cmd<Span>>)
    requires i <= |s| && Text(s) && RedirsOk(s, redirs) && ArgsOk(s, argv)
    ensures r.Ok? ==> i <= r.pos <= |s| && SpansOk(s, r.value)
    decreases |s| - i
  {
    var p := Skip(s, i);
    WrapOk(s, Exec(argv), redirs);
    if PeekAt(s, p, "|)&;") then Ok(Wrap(Exec(argv), redirs), p)
    else
      var g := GetTok(s, p);
      if g.tok.End? then Ok(Wrap(Exec(argv), redirs), g.next)
      else if !g.tok.Word? then Err(Syntax)
      else if |argv| + 1 >= MAXARGS then Err(TooManyArgs)
      else
        match RedirList(s, g.next)
        case Err(e) => Err(e)
        case Ok(rs, n) => ExecArgs(s, argv + [g.span], redirs + rs, n)
  }

  function ParseExec(s: string, i: nat): (r: Res<Cmd<Span>>)
    requires i <= |s| && Text(s)
    ensures r.Ok? ==> i <= r.pos <= |s| && SpansOk(s, r.value)
    decreases |s| - i, 1
  {
    var p := Skip(s, i);
    if PeekAt(s, p, "(") then ParseBlock(s, p)
    else
      match RedirList(s, p)
      case Err(e) => Err(e)
      case Ok(rs, n) => ExecArgs(s, [], rs, n)
  }

  function ParseBlock(s: string, i: nat): (r: Res<Cmd<Span>>)
    requires i < |s| && Text(s) && s[i] == '('
    ensures r.Ok? ==> i <= r.pos <= |s| && SpansOk(s, r.value)
    decreases |s| - i, 0
  {
    match ParseLine(s, GetTok(s, i).next)
    case Err(e) => Err(e)
    case Ok(c, m) =>
      var p := Skip(s, m);
      if !PeekAt(s, p, ")") then Err(MissingParen)
      else
        match RedirList(s, GetTok(s, p).next)
        case Err(e) => Err(e)
        case Ok(rs, n) => WrapOk(s, c, rs); Ok(Wrap(c, rs), n)
  }

  function ParsePipe(s: string, i: nat): (r: Res<Cmd<Span>>)
    requires i <= |s| && Text(s)
    ensures r.Ok? ==> i <= r.pos <= |s| && SpansOk(s, r.value)
    decreases |s| - i, 2
  {
    match ParseExec(s, i)
    case Err(e) => Err(e)
    case Ok(c, m) =>
      var p := Skip(s, m);
      if !PeekAt(s, p, "|") then Ok(c, p)
      else
        match ParsePipe(s, GetTok(s, p).next)
        case Err(e) => Err(e)
        case Ok(d, n) => Ok(Pipe(c, d), n)
  }

  /** The loop of parseline over &. */
  function Backs(s: string, c: Cmd<Span>, i: nat): (r: (Cmd<Span>, nat))
    requires i <= |s| && Text(s)
    ensures i <= r.1 <= |s| && (SpansOk(s, c) ==> SpansOk(s, r.0))
    decreases |s| - i
  {
    var p := Skip(s, i);
    if PeekAt(s, p, "&") then Backs(s, Back(c), GetTok(s, p).next) else (c, p)
  }

  function ParseLine(s: string, i: nat): (r: Res<Cmd<Span>>)
    requires i <= |s| && Text(s)
    ensures r.Ok? ==> i <= r.pos <= |s| && SpansOk(s, r.value)
    decreases |s| - i, 3
  {
    match ParsePipe(s, i)
    case Err(e) => Err(e)
    case Ok(c, m) =>
      var b := Backs(s, c, m);
      if !PeekAt(s, b.1, ";") then Ok(b.0, b.1)
      else
        match ParseLine(s, GetTok(s, b.1).next)
        case Err(e) => Err(e)
        case Ok(d, n) => Ok(List(b.0, d), n)
  }

  function ParseCmd(s: string): (r: Res<Cmd<Span>>)
    requires Text(s)
    ensures r.Ok? ==> SpansOk(s, r.value)
  {
    match ParseLine(s, 0)
    case Err(e) => Err(e)
    case Ok(c, m) => if Skip(s, m) == |s| then Ok(c, |s|) else Err(Leftovers)
  }

  // ---------------------------------------------------------------- printing and parsing back

  predicate WordOk(w: string) { w != "" && forall i :: 0 <= i < |w| ==> IsWordChar(w[i]) }

  /** Command trees the shell can hold: real words and fewer than MAXARGS arguments. */
  ghost predicate TreeOk(t: Cmd<string>) {
    match t
    case Exec(argv) => |argv| < MAXARGS && forall i :: 0 <= i < |argv| ==> WordOk(argv[i])
    case Redir(d, w, _) => TreeOk(d) && WordOk(w)
    case Pipe(l, r) => TreeOk(l) && TreeOk(r)
    case List(l, r) => TreeOk(l) && TreeOk(r)
    case Back(d) => TreeOk(d)
  }

  function PrintArgs(argv: seq<string>): string {
    if argv == [] then "" else if |argv| == 1 then argv[0] else argv[0] + " " + PrintArgs(argv[1..])
  }

  function Op(m: Mode): string { match m case Read => "<" case Write => ">" case Append => ">>" }

  function Paren(t: Cmd<string>): string
    decreases t, 1
  {
    "(" + Print(t) + ")"
  }

  function Print(t: Cmd<string>): string
    decreases t, 0
  {
    match t
    case Exec(argv) => PrintArgs(argv)
    case Redir(d, w, m) => Paren(d) + Op(m) + w
    case Pipe(l, r) => Paren(l) + "|" + Paren(r)
    case List(l, r) => Paren(l) + ";" + Paren(r)
    case Back(d) => Paren(d) + "&"
  }

  function TextOf(s: string, w: Span): string { if w.q <= w.eq <= |s| then s[w.q..w.eq] else "" }

  function Texts(s: string, argv: seq<Span>): seq<string> { seq(|argv|, i requires 0 <= i < |argv| => TextOf(s, argv[i])) }

  /** The tree with the words themselves. */
  function Strings(s: string, c: Cmd<Span>): Cmd<string> {
    match c
    case Exec(argv) => Exec(Texts(s, argv))
    case Redir(d, w, m) => Redir(Strings(s, d), TextOf(s, w), m)
    case Pipe(l, r) => Pipe(Strings(s, l), Strings(s, r))
    case List(l, r) => List(Strings(s, l), Strings(s, r))
    case Back(d) => Back(Strings(s, d))
  }

  predicate Here(s: string, i: nat, w: string) { i + |w| <= |s| && s[i..i + |w|] == w }

  lemma Split2(s: string, i: nat, a: string, b: string)
    requires Here(s, i, a + b)
    ensures Here(s, i, a) && Here(s, i + |a|, b)
  {
    var w := a + b;
    assert s[i..i + |a|] == s[i..i + |w|][..|a|] == a;
    assert s[i + |a|..i + |a| + |b|] == s[i..i + |w|][|a|..] == b;
  }

  /** A position where a printed command ends. */
  predicate Stop(s: string, i: nat) { i <= |s| && (i == |s| || s[i] == ')') }

  lemma SkipNone(s: string, i: nat)
    requires i <= |s| && (i < |s| ==> !IsSpace(s[i]))
    ensures Skip(s, i) == i
  {}

  /** A symbol other than > is a token of one character. */
  lemma SymTok(s: string, i: nat)
    requires i + 1 <= |s| && IsSymbol(s[i]) && s[i] != '>' && (i + 1 < |s| ==> !IsSpace(s[i + 1]))
    ensures GetTok(s, i) == Got(Sym(s[i]), Span(i, i + 1), i + 1)
  {}

  lemma {:induction false} WordEndIs(s: string, i: nat, n: nat)
    requires i + n <= |s| && (forall k :: i <= k < i + n ==> IsWordChar(s[k])) && (i + n < |s| ==> !IsWordChar(s[i + n]) && s[i + n] != '\0')
    ensures WordEnd(s, i) == i + n
    decreases n
  {}

  /** A word, followed by one space or by none. */
  lemma WordTok(s: string, i: nat, w: string, next: nat)
    requires Text(s) && WordOk(w) && Here(s, i, w) && next <= |s|
    requires next == i + |w| || (next == i + |w| + 1 && s[i + |w|] == ' ')
    requires next < |s| ==> !IsSpace(s[next]) && (next == i + |w| ==> IsSymbol(s[next]))
    ensures GetTok(s, i) == Got(Word, Span(i, i + |w|), next) && TextOf(s, Span(i, i + |w|)) == w
    ensures i < |s| && IsWordChar(s[i])
  {
    forall k | i <= k < i + |w| ensures IsWordChar(s[k]) {
      assert s[k] == w[k - i];
    }
    WordEndIs(s, i, |w|);
    SkipNone(s, i);
    SkipNone(s, next);
  }

  lemma NoRedirs(s: string, n: nat)
    requires Text(s) && n <= |s| && (n < |s| ==> !IsSpace(s[n]) && s[n] != '<' && s[n] != '>')
    ensures RedirList(s, n) == Ok([], n)
  {}

  lemma ExecStep(s: string, argv: seq<Span>, i: nat, w: Span, n: nat)
    requires Text(s) && ArgsOk(s, argv) && i < |s| && IsWordChar(s[i]) && |argv| + 1 < MAXARGS
    requires GetTok(s, i) == Got(Word, w, n) && RedirList(s, n) == Ok([], n)
    ensures ArgsOk(s, argv + [w]) && ExecArgs(s, argv, [], i) == ExecArgs(s, argv + [w], [], n)
  {}

  lemma HereEmpty(s: string, n: nat)
    requires n <= |s|
    ensures Here(s, n, "")
  {}

  /** One word of a printed list, and the space after it. */
  lemma NextArg(s: string, argv: seq<Span>, i: nat, args: seq<string>) returns (n: nat)
    requires Text(s) && ArgsOk(s, argv) && args != [] && |argv| + |args| < MAXARGS && (forall k :: 0 <= k < |args| ==> WordOk(args[k]))
    requires Here(s, i, PrintArgs(args)) && Stop(s, i + |PrintArgs(args)|)
    ensures i + |args[0]| <= n <= |s| && n + |PrintArgs(args[1..])| == i + |PrintArgs(args)| && Here(s, n, PrintArgs(args[1..]))
    ensures TextOf(s, Span(i, i + |args[0]|)) == args[0] && ArgsOk(s, argv + [Span(i, i + |args[0]|)])
    ensures ExecArgs(s, argv, [], i) == ExecArgs(s, argv + [Span(i, i + |args[0]|)], [], n)
  {
    hide GetTok, RedirList, WordEnd, TokAt, ExecArgs, Here, Text, WordOk, TextOf, ArgsOk;
    var w := args[0];
    n := i + |w|;
    if |args| > 1 {
      Split2(s, i, w + " ", PrintArgs(args[1..]));
      Split2(s, i, w, " ");
      CharAt(s, n, " ");
      FirstChar(s, n + 1, args[1..]);
      WordTok(s, i, w, n + 1);
      n := n + 1;
    } else {
      HereEmpty(s, n);
      WordTok(s, i, w, n);
      assert args[1..] == [];
    }
    NoRedirs(s, n);
    ExecStep(s, argv, i, Span(i, i + |w|), n);
  }

  /** The loop of parseexec reads a list of printed words. */
  lemma {:induction false} ArgsParse(s: string, argv: seq<Span>, i: nat, args: seq<string>)
    requires Text(s) && ArgsOk(s, argv) && |argv| + |args| < MAXARGS && (forall k :: 0 <= k < |args| ==> WordOk(args[k]))
    requires Here(s, i, PrintArgs(args)) && Stop(s, i + |PrintArgs(args)|)
    ensures var r := ExecArgs(s, argv, [], i);
            r.Ok? && r.pos == i + |PrintArgs(args)| && Strings(s, r.value) == Exec(Texts(s, argv) + args)
    decreases |args|
  {
    hide ExecArgs, PrintArgs, Here, ArgsOk, TextOf, WordOk, Text;
    if args == [] {
      ArgsEnd(s, argv, i);
      assert Texts(s, argv) + args == Texts(s, argv);
    } else {
      var n := NextArg(s, argv, i, args);
      var w := Span(i, i + |args[0]|);
      ArgsParse(s, argv + [w], n, args[1..]);
      assert Texts(s, argv + [w]) == Texts(s, argv) + [args[0]];
      assert Texts(s, argv) + [args[0]] + args[1..] == Texts(s, argv) + args;
    }
  }

  lemma ArgsEnd(s: string, argv: seq<Span>, i: nat)
    requires Text(s) && ArgsOk(s, argv) && Stop(s, i + |PrintArgs([])|)
    ensures ExecArgs(s, argv, [], i) == Ok(Exec(argv), i) && PrintArgs([]) == []
  {}

  lemma FirstChar(s: string, i: nat, args: seq<string>)
    requires args != [] && WordOk(args[0]) && Here(s, i, PrintArgs(args))
    ensures i < |s| && IsWordChar(s[i])
  {}

  // ---------------------------------------------------------------- the round trip

  /** ParseLine reads t from i, up to j. */
  ghost predicate Reads(s: string, r: Res<Cmd<Span>>, t: Cmd<string>, j: nat) {
    r.Ok? && r.pos == j && Strings(s, r.value) == t
  }

  lemma CharAt(s: string, i: nat, w: string)
    requires Here(s, i, w) && w != ""
    ensures i < |s| && s[i] == w[0]
  {}

  /** The character at which a printed command begins or, if it is empty, the one after it. */
  lemma PrintStart(s: string, i: nat, t: Cmd<string>)
    requires TreeOk(t) && Here(s, i, Print(t)) && Stop(s, i + |Print(t)|)
    ensures i == |s| || s[i] == ')' || s[i] == '(' || IsWordChar(s[i])
    ensures !t.Exec? ==> i < |s| && s[i] == '('
    ensures t.Exec? ==> i == |s| || s[i] == ')' || IsWordChar(s[i])
  {
    if t.Exec? {
      if t.argv != [] {
        FirstChar(s, i, t.argv);
      }
    } else {
      PrintHead(t);
      CharAt(s, i, Print(t));
    }
  }

  lemma PrintHead(t: Cmd<string>)
    requires !t.Exec?
    ensures Print(t) != "" && Print(t)[0] == '('
  {}

  lemma ParenAt(s: string, i: nat, t: Cmd<string>)
    requires Here(s, i, Paren(t))
    ensures i < |s| && s[i] == '(' && Here(s, i + 1, Print(t)) && i + 1 + |Print(t)| < |s| && s[i + 1 + |Print(t)|] == ')'
    ensures |Paren(t)| == |Print(t)| + 2
  {
    Split2(s, i, "(" + Print(t), ")");
    Split2(s, i, "(", Print(t));
    CharAt(s, i, "(");
    CharAt(s, i + 1 + |Print(t)|, ")");
  }

  /** A parenthesised command, the character after it not being white space. */
  lemma BlockAt(s: string, i: nat, t: Cmd<string>, rs: seq<Redirection>, n: nat)
    requires Text(s) && TreeOk(t) && Here(s, i, Paren(t)) && i + 1 <= |s| && Reads(s, ParseLine(s, i + 1), t, i + 1 + |Print(t)|)
    requires var j := i + |Paren(t)|; j <= |s| && (j < |s| ==> !IsSpace(s[j])) && RedirList(s, j) == Ok(rs, n)
    ensures ParseExec(s, i) == Ok(Wrap(ParseLine(s, i + 1).value, rs), n)
  {
    hide ParseExec, ParseLine, RedirList, Wrap, Paren, Print, Here, Text, TreeOk, Strings;
    ParenAt(s, i, t);
    PrintStart(s, i + 1, t);
    BlockStep(s, i, i + 1 + |Print(t)|, rs, n);
  }

  lemma BlockStep(s: string, i: nat, m: nat, rs: seq<Redirection>, n: nat)
    requires Text(s) && i + 1 < |s| && s[i] == '(' && !IsSpace(s[i + 1]) && m < |s| && s[m] == ')' && (m + 1 < |s| ==> !IsSpace(s[m + 1]))
    requires ParseLine(s, i + 1).Ok? && ParseLine(s, i + 1).pos == m && RedirList(s, m + 1) == Ok(rs, n)
    ensures ParseExec(s, i) == Ok(Wrap(ParseLine(s, i + 1).value, rs), n)
  {
    hide ParseLine, RedirList, ExecArgs, Wrap, Text, SpansOk, RedirsOk;
    SymTok(s, i);
    SymTok(s, m);
    SkipNone(s, i);
    SkipNone(s, m);
    assert ParseBlock(s, i) == Ok(Wrap(ParseLine(s, i + 1).value, rs), n);
  }

  lemma PipeDone(s: string, i: nat)
    requires i <= |s| && Text(s) && ParseExec(s, i).Ok?
    requires var j := ParseExec(s, i).pos; j < |s| ==> !IsSpace(s[j]) && s[j] != '|'
    ensures ParsePipe(s, i) == ParseExec(s, i)
  {}

  lemma LineDone(s: string, i: nat)
    requires i <= |s| && Text(s) && ParsePipe(s, i).Ok? && Stop(s, ParsePipe(s, i).pos)
    ensures ParseLine(s, i) == ParsePipe(s, i)
  {
    hide ParsePipe, ParseBlock, ParseExec, ExecArgs, RedirList;
    SkipNone(s, ParsePipe(s, i).pos);
  }

  lemma LineOfExec(s: string, i: nat)
    requires i <= |s| && Text(s) && ParseExec(s, i).Ok? && Stop(s, ParseExec(s, i).pos)
    ensures ParseLine(s, i) == ParseExec(s, i)
  {}

  lemma ExecParses(s: string, i: nat, args: seq<string>)
    requires Text(s) && TreeOk(Exec(args)) && Here(s, i, PrintArgs(args)) && Stop(s, i + |PrintArgs(args)|)
    ensures Reads(s, ParseLine(s, i), Exec(args), i + |PrintArgs(args)|)
  {
    hide ParsePipe, ParseBlock, ParseLine, ExecArgs, RedirList, PrintArgs;
    assert Print(Exec(args)) == PrintArgs(args);
    PrintStart(s, i, Exec(args));
    SkipNone(s, i);
    NoRedirs(s, i);
    ArgsParse(s, [], i, args);
    assert Texts(s, []) + args == args;
    LineOfExec(s, i);
  }

  lemma OpTok(s: string, j: nat, m: Mode)
    requires Here(s, j, Op(m)) && j + |Op(m)| < |s| && IsWordChar(s[j + |Op(m)|])
    ensures PeekAt(s, j, "<>") && !IsSpace(s[j]) && GetTok(s, j).next == j + |Op(m)| && ModeOf(GetTok(s, j).tok) == m
  {}

  lemma RedirAt(s: string, j: nat, w: string, m: Mode)
    requires Text(s) && WordOk(w) && Here(s, j, Op(m) + w) && Stop(s, j + |Op(m)| + |w|)
    ensures var e := j + |Op(m)| + |w|;
            && RedirList(s, j) == Ok([Redirection(Span(e - |w|, e), m)], e)
            && TextOf(s, Span(e - |w|, e)) == w && j < |s| && !IsSpace(s[j])
  {
    hide GetTok, Here, Text, WordOk, Op, RedirsOk, TextOf;
    var k, e := j + |Op(m)|, j + |Op(m)| + |w|;
    Split2(s, j, Op(m), w);
    WordTok(s, k, w, e);
    OpTok(s, j, m);
    SkipNone(s, j);
    NoRedirs(s, e);
    var rs := [Redirection(Span(k, e), m)];
    assert rs + [] == rs;
  }

  lemma RedirParses(s: string, i: nat, d: Cmd<string>, w: string, m: Mode)
    requires Text(s) && TreeOk(Redir(d, w, m)) && Here(s, i, Print(Redir(d, w, m))) && Stop(s, i + |Print(Redir(d, w, m))|)
    requires i + 1 <= |s| && Reads(s, ParseLine(s, i + 1), d, i + 1 + |Print(d)|)
    ensures Reads(s, ParseLine(s, i), Redir(d, w, m), i + |Print(Redir(d, w, m))|)
  {
    hide ParsePipe, ParseBlock, ParseExec, ParseLine, ExecArgs, RedirList, Paren;
    assert Paren(d) + Op(m) + w == Paren(d) + (Op(m) + w);
    Split2(s, i, Paren(d), Op(m) + w);
    var j := i + |Paren(d)|;
    RedirAt(s, j, w, m);
    var e := j + |Op(m)| + |w|;
    BlockAt(s, i, d, [Redirection(Span(e - |w|, e), m)], e);
    LineOfExec(s, i);
  }

  /** A parenthesised command followed by c. */
  lemma ParenThen(s: string, i: nat, t: Cmd<string>)
    requires Text(s) && TreeOk(t) && Here(s, i, Paren(t)) && i + 1 <= |s| && Reads(s, ParseLine(s, i + 1), t, i + 1 + |Print(t)|)
    requires var j := i + |Paren(t)|; j <= |s| && (j < |s| ==> IsSymbol(s[j]) && s[j] != '<' && s[j] != '>')
    ensures Reads(s, ParseExec(s, i), t, i + |Paren(t)|)
  {
    hide ParsePipe, ParseBlock, ParseExec, ParseLine, ExecArgs, RedirList, Paren, Print;
    NoRedirs(s, i + |Paren(t)|);
    BlockAt(s, i, t, [], i + |Paren(t)|);
  }

  lemma PipeParses(s: string, i: nat, l: Cmd<string>, r: Cmd<string>)
    requires Text(s) && TreeOk(Pipe(l, r)) && Here(s, i, Print(Pipe(l, r))) && Stop(s, i + |Print(Pipe(l, r))|)
    requires i + |Paren(l)| + 2 <= |s|
    requires Reads(s, ParseLine(s, i + 1), l, i + 1 + |Print(l)|)
    requires Reads(s, ParseLine(s, i + |Paren(l)| + 2), r, i + |Paren(l)| + 2 + |Print(r)|)
    ensures Reads(s, ParseLine(s, i), Pipe(l, r), i + |Print(Pipe(l, r))|)
  {
    hide ParseBlock, ParseExec, ParsePipe, ParseLine, ExecArgs, RedirList, Paren, Print, Here, Text;
    var j := i + |Paren(l)|;
    PrintPipe(l, r);
    TwoParens(s, i, l, "|", r);
    ParenThen(s, i, l);
    ParenThen(s, j + 1, r);
    PipeDone(s, j + 1);
    PipeStep(s, i, j);
    LineDone(s, i);
  }

  lemma PipeStep(s: string, i: nat, j: nat)
    requires Text(s) && i <= |s| && j + 1 < |s| && s[j] == '|' && !IsSpace(s[j + 1])
    requires ParseExec(s, i).Ok? && ParseExec(s, i).pos == j && ParsePipe(s, j + 1).Ok?
    ensures ParsePipe(s, i) == Ok(Pipe(ParseExec(s, i).value, ParsePipe(s, j + 1).value), ParsePipe(s, j + 1).pos)
  {
    hide ParseBlock, ParseExec, ParseLine, ExecArgs, RedirList, Text;
    SkipNone(s, j);
    SymTok(s, j);
  }

  lemma PrintPipe(l: Cmd<string>, r: Cmd<string>)
    ensures Print(Pipe(l, r)) == Paren(l) + "|" + Paren(r) && |Print(Pipe(l, r))| == |Paren(l)| + 1 + |Paren(r)|
    ensures Print(List(l, r)) == Paren(l) + ";" + Paren(r) && |Print(List(l, r))| == |Paren(l)| + 1 + |Paren(r)|
    ensures |Paren(l)| == |Print(l)| + 2 && |Paren(r)| == |Print(r)| + 2
  {}

  lemma PrintRedir(d: Cmd<string>, w: string, m: Mode)
    ensures Print(Redir(d, w, m)) == Paren(d) + (Op(m) + w) && Print(Back(d)) == Paren(d) + "&"
    ensures |Print(Redir(d, w, m))| == |Paren(d)| + |Op(m)| + |w| && |Print(Back(d))| == |Paren(d)| + 1 && |Paren(d)| == |Print(d)| + 2
  {}

  lemma TwoParens(s: string, i: nat, l: Cmd<string>, c: string, r: Cmd<string>)
    requires Here(s, i, Paren(l) + c + Paren(r)) && |c| == 1
    ensures Here(s, i, Paren(l)) && Here(s, i + |Paren(l)| + 1, Paren(r))
    ensures i + |Paren(l)| + 1 < |s| && s[i + |Paren(l)|] == c[0] && s[i + |Paren(l)| + 1] == '('
  {
    hide Print;
    Split2(s, i, Paren(l) + c, Paren(r));
    Split2(s, i, Paren(l), c);
    CharAt(s, i + |Paren(l)|, c);
    ParenAt(s, i + |Paren(l)| + 1, r);
  }

  lemma ListParses(s: string, i: nat, l: Cmd<string>, r: Cmd<string>)
    requires Text(s) && TreeOk(List(l, r)) && Here(s, i, Print(List(l, r))) && Stop(s, i + |Print(List(l, r))|)
    requires i + |Paren(l)| + 2 <= |s|
    requires Reads(s, ParseLine(s, i + 1), l, i + 1 + |Print(l)|)
    requires Reads(s, ParseLine(s, i + |Paren(l)| + 2), r, i + |Paren(l)| + 2 + |Print(r)|)
    ensures Reads(s, ParseLine(s, i), List(l, r), i + |Print(List(l, r))|)
  {
    hide ParseBlock, ParseExec, ParsePipe, ParseLine, ExecArgs, RedirList, Paren, Print, Here, Text;
    var j := i + |Paren(l)|;
    PrintPipe(l, r);
    TwoParens(s, i, l, ";", r);
    ParenThen(s, i, l);
    PipeDone(s, i);
    ParenThen(s, j + 1, r);
    LineOfExec(s, j + 1);
    ListStep(s, i, j);
  }

  lemma ListStep(s: string, i: nat, j: nat)
    requires Text(s) && i <= |s| && j + 1 < |s| && s[j] == ';' && !IsSpace(s[j + 1])
    requires ParsePipe(s, i).Ok? && ParsePipe(s, i).pos == j && ParseLine(s, j + 1).Ok?
    ensures ParseLine(s, i) == Ok(List(ParsePipe(s, i).value, ParseLine(s, j + 1).value), ParseLine(s, j + 1).pos)
  {
    hide ParseBlock, ParseExec, ParsePipe, ExecArgs, RedirList, Text;
    SkipNone(s, j);
    SymTok(s, j);
    assert Backs(s, ParsePipe(s, i).value, j) == (ParsePipe(s, i).value, j);
  }

  lemma BackParses(s: string, i: nat, d: Cmd<string>)
    requires Text(s) && TreeOk(Back(d)) && Here(s, i, Print(Back(d))) && Stop(s, i + |Print(Back(d))|)
    requires i + 1 <= |s| && Reads(s, ParseLine(s, i + 1), d, i + 1 + |Print(d)|)
    ensures Reads(s, ParseLine(s, i), Back(d), i + |Print(Back(d))|)
  {
    hide ParseBlock, ParseExec, ParsePipe, ParseLine, ExecArgs, RedirList, Paren, Print, Here, Text;
    var j := i + |Paren(d)|;
    PrintRedir(d, "", Read);
    Split2(s, i, Paren(d), "&");
    CharAt(s, j, "&");
    ParenThen(s, i, d);
    PipeDone(s, i);
    BackStep(s, i, j);
  }

  lemma BackStep(s: string, i: nat, j: nat)
    requires Text(s) && i <= |s| && j < |s| && s[j] == '&' && Stop(s, j + 1)
    requires ParsePipe(s, i).Ok? && ParsePipe(s, i).pos == j
    ensures ParseLine(s, i) == Ok(Back(ParsePipe(s, i).value), j + 1)
  {
    hide ParseBlock, ParseExec, ParsePipe, ExecArgs, RedirList, Text, SpansOk;
    SkipNone(s, j);
    SymTok(s, j);
    SkipNone(s, j + 1);
    var c := ParsePipe(s, i).value;
    assert Backs(s, Back(c), j + 1) == (Back(c), j + 1);
    assert Backs(s, c, j) == (Back(c), j + 1);
  }

  /** What is printed is read back, wherever it stands. */
  lemma {:induction false} LineParses(s: string, i: nat, t: Cmd<string>)
    requires Text(s) && TreeOk(t) && Here(s, i, Print(t)) && Stop(s, i + |Print(t)|)
    ensures Reads(s, ParseLine(s, i), t, i + |Print(t)|)
    decreases t
  {
    hide ParseLine, Reads, Print, Paren, Here, Text, PrintArgs;
    match t {
      case Exec(argv) =>
        PrintExec(argv);
        ExecParses(s, i, argv);
      case Redir(d, w, m) =>
        PrintRedir(d, w, m);
        Split2(s, i, Paren(d), Op(m) + w);
        ParenAt(s, i, d);
        LineParses(s, i + 1, d);
        RedirParses(s, i, d, w, m);
      case Pipe(l, r) =>
        PrintPipe(l, r);
        TwoReads(s, i, l, "|", r);
        LineParses(s, i + 1, l);
        LineParses(s, i + |Paren(l)| + 2, r);
        PipeParses(s, i, l, r);
      case List(l, r) =>
        PrintPipe(l, r);
        TwoReads(s, i, l, ";", r);
        LineParses(s, i + 1, l);
        LineParses(s, i + |Paren(l)| + 2, r);
        ListParses(s, i, l, r);
      case Back(d) =>
        PrintRedir(d, "", Read);
        Split2(s, i, Paren(d), "&");
        ParenAt(s, i, d);
        LineParses(s, i + 1, d);
        BackParses(s, i, d);
    }
  }

  lemma PrintExec(argv: seq<string>)
    ensures Print(Exec(argv)) == PrintArgs(argv)
  {}

  /** Where the commands inside two pairs of parentheses stand. */
  lemma TwoReads(s: string, i: nat, l: Cmd<string>, c: string, r: Cmd<string>)
    requires Here(s, i, Paren(l) + c + Paren(r)) && |c| == 1
    ensures Here(s, i + 1, Print(l)) && Stop(s, i + 1 + |Print(l)|) && |Paren(l)| == |Print(l)| + 2
    ensures Here(s, i + |Paren(l)| + 2, Print(r)) && Stop(s, i + |Paren(l)| + 2 + |Print(r)|) && i + |Paren(l)| + 2 <= |s|
  {
    hide Print, Paren, Here;
    TwoParens(s, i, l, c, r);
    ParenAt(s, i, l);
    ParenAt(s, i + |Paren(l)| + 1, r);
  }

  lemma {:induction false} ArgsText(args: seq<string>)
    requires forall k :: 0 <= k < |args| ==> WordOk(args[k])
    ensures Text(PrintArgs(args))
    decreases |args|
  {
    if |args| > 1 {
      ArgsText(args[1..]);
    }
  }

  lemma {:induction false} PrintText(t: Cmd<string>)
    requires TreeOk(t)
    ensures Text(Print(t)) && Text(Paren(t))
  {
    match t {
      case Exec(argv) => ArgsText(argv);
      case Redir(d, w, m) => PrintText(d);
      case Pipe(l, r) => PrintText(l); PrintText(r);
      case List(l, r) => PrintText(l); PrintText(r);
      case Back(d) => PrintText(d);
    }
  }

  /** Round trip: every command tree is what parsecmd makes of its printing, with all input consumed. */
  lemma RoundTrip(t: Cmd<string>)
    requires TreeOk(t)
    ensures Text(Print(t)) && ParseCmd(Print(t)).Ok? && Strings(Print(t), ParseCmd(Print(t)).value) == t
  {
    hide ParseLine, Print, TreeOk, Text, Strings;
    var s := Print(t);
    PrintText(t);
    assert s[0..0 + |s|] == s;
    LineParses(s, 0, t);
    SkipNone(s, |s|);
  }

  // ---------------------------------------------------------------- the parser's code

  method SkipSpace(s: string, i: nat) returns (j: nat)
    requires i <= |s|
    ensures j == Skip(s, i)
  {
    j := i;
    while j < |s| && IsSpace(s[j])
      invariant i <= j <= |s| && Skip(s, i) == Skip(s, j)
    {
      j := j + 1;
    }
  }

  method PeekTok(s: string, i: nat, toks: string) returns (j: nat, r: bool)
    requires i <= |s|
    ensures j == Skip(s, i) && r == PeekAt(s, j, toks)
  {
    j := SkipSpace(s, i);
    r := j < |s| && s[j] in toks;
  }

  method GetToken(s: string, i: nat) returns (ret: Tok, w: Span, next: nat)
    requires i <= |s|
    ensures Got(ret, w, next) == GetTok(s, i)
  {
    hide Skip, IsSpace, IsSymbol;
    var j := SkipSpace(s, i);
    var q := j;
    if j == |s| {
      ret := End;
    } else if s[j] == '>' {
      ret, j := Sym('>'), j + 1;
      if j < |s| && s[j] == '>' {
        ret, j := Twice, j + 1;
      }
    } else if IsSymbol(s[j]) {
      ret, j := Sym(s[j]), j + 1;
    } else {
      ret := Word;
      while j < |s| && !IsSpace(s[j]) && !IsSymbol(s[j])
        invariant q <= j <= |s| && WordEnd(s, q) == WordEnd(s, j)
      {
        j := j + 1;
      }
    }
    w := Span(q, j);
    next := SkipSpace(s, j);
  }

  /** A list of redirections goes on as RedirList says. */
  ghost function Prepend(rs: seq<Redirection>, r: Res<seq<Redirection>>): Res<seq<Redirection>> {
    match r case Err(e) => Err(e) case Ok(more, n) => Ok(rs + more, n)
  }

  lemma {:induction false} WrapMore(c: Cmd<Span>, rs: seq<Redirection>, r: Redirection)
    ensures Wrap(c, rs + [r]) == Redir(Wrap(c, rs), r.file, r.mode)
    decreases |rs|
  {
    if rs == [] {
      assert [r][1..] == [];
    } else {
      assert (rs + [r])[1..] == rs[1..] + [r];
      WrapMore(Redir(c, rs[0].file, rs[0].mode), rs[1..], r);
    }
  }

  method ParseRedirs(s: string, cmd: Cmd<Span>, i: nat) returns (r: Res<Cmd<Span>>, ghost rs: seq<Redirection>)
    requires i <= |s| && Text(s)
    ensures match RedirList(s, i) case Err(e) => r == Err(e) case Ok(l, n) => rs == l && r == Ok(Wrap(cmd, l), n)
  {
    hide RedirList, Text, Wrap, GetTok, Skip;
    var c, p := cmd, i;
    rs := [];
    var more;
    p, more := PeekTok(s, p, "<>");
    SkipFirst(s, i);
    NoneYet(cmd, RedirList(s, i));
    while more
      invariant i <= p <= |s| && p == Skip(s, p) && more == PeekAt(s, p, "<>") && c == Wrap(cmd, rs)
      invariant RedirList(s, i) == Prepend(rs, RedirList(s, p))
      decreases |s| - p
    {
      var tok, w, n := GetToken(s, p);
      var tok2, f, n2 := GetToken(s, n);
      if tok2 != Word {
        NoFileAt(s, p);
        return Err(NoFile), rs;
      }
      var m := ModeOf(tok);
      ghost var r1 := Redirection(f, m);
      WrapMore(cmd, rs, r1);
      PrependMore(s, rs, p, r1, n2);
      c := match m case Read => Redir(c, f, Read) case Write => Redir(c, f, Write) case Append => Redir(c, f, Append);
      rs := rs + [r1];
      p, more := PeekTok(s, n2, "<>");
      SkipFirst(s, n2);
    }
    RedirsEnd(s, p, rs);
    r := Ok(c, p);
  }

  lemma NoFileAt(s: string, p: nat)
    requires Text(s) && p <= |s| && Skip(s, p) == p && PeekAt(s, p, "<>") && !GetTok(s, GetTok(s, p).next).tok.Word?
    ensures RedirList(s, p) == Err(NoFile)
  {}

  lemma NoneYet(c: Cmd<Span>, r: Res<seq<Redirection>>)
    ensures Prepend([], r) == r && Wrap(c, []) == c
  {
    if r.Ok? {
      assert [] + r.value == r.value;
    }
  }

  lemma RedirsEnd(s: string, p: nat, rs: seq<Redirection>)
    requires Text(s) && p <= |s| && Skip(s, p) == p && !PeekAt(s, p, "<>")
    ensures Prepend(rs, RedirList(s, p)) == Ok(rs, p)
  {
    assert rs + [] == rs;
  }

  lemma SkipFirst(s: string, i: nat)
    requires i <= |s| && Text(s)
    ensures Skip(s, Skip(s, i)) == Skip(s, i) && RedirList(s, i) == RedirList(s, Skip(s, i))
  {}

  lemma PrependMore(s: string, rs: seq<Redirection>, p: nat, r1: Redirection, n: nat)
    requires Text(s) && p <= |s| && Skip(s, p) == p && PeekAt(s, p, "<>") && GetTok(s, GetTok(s, p).next).tok.Word?
    requires r1 == Redirection(GetTok(s, GetTok(s, p).next).span, ModeOf(GetTok(s, p).tok)) && n == GetTok(s, GetTok(s, p).next).next
    ensures Prepend(rs, RedirList(s, p)) == Prepend(rs + [r1], RedirList(s, n))
  {
    match RedirList(s, n)
    case Err(_) =>
    case Ok(more, _) => assert rs + ([r1] + more) == rs + [r1] + more;
  }

  /** The exec command below the redirections gets its arguments. */
  function SetArgs(c: Cmd<Span>, argv: seq<Span>): Cmd<Span> {
    match c
    case Redir(d, w, m) => Redir(SetArgs(d, argv), w, m)
    case _ => Exec(argv)
  }

  lemma {:induction false} SetArgsWrap(c: Cmd<Span>, argv: seq<Span>, rs: seq<Redirection>)
    ensures SetArgs(Wrap(c, rs), argv) == Wrap(SetArgs(c, argv), rs)
    decreases |rs|
  {
    if rs != [] {
      SetArgsWrap(Redir(c, rs[0].file, rs[0].mode), argv, rs[1..]);
    }
  }

  lemma {:induction false} WrapTwice(c: Cmd<Span>, a: seq<Redirection>, b: seq<Redirection>)
    ensures Wrap(Wrap(c, a), b) == Wrap(c, a + b)
    decreases |a|
  {
    if a == [] {
      assert a + b == b;
    } else {
      WrapTwice(Redir(c, a[0].file, a[0].mode), a[1..], b);
      assert (a + b)[1..] == a[1..] + b;
    }
  }

  method ParseExecCmd(s: string, i: nat) returns (r: Res<Cmd<Span>>)
    requires i <= |s| && Text(s)
    ensures r == ParseExec(s, i)
    decreases |s| - i, 1
  {
    hide RedirList, Text, Wrap, ParseBlock, ParseLine, RedirsOk, ArgsOk, SpansOk;
    var p, b := PeekTok(s, i, "(");
    if b {
      r := ParseBlockCmd(s, p);
      return;
    }
    r := ParseWords(s, p);
  }

  /** parseexec when there is no parenthesis. */
  method ParseWords(s: string, i: nat) returns (r: Res<Cmd<Span>>)
    requires i <= |s| && Text(s)
    ensures r == match RedirList(s, i) case Err(e) => Err(e) case Ok(rs, n) => ExecArgs(s, [], rs, n)
  {
    hide RedirList, Text, Wrap, ExecArgs, RedirsOk, ArgsOk, SpansOk, GetTok, Skip, SetArgs, IsWord;
    var ret, argv := Exec([]), [];
    var rd, rs := ParseRedirs(s, ret, i);
    if rd.Err? {
      return Err(rd.error);
    }
    ghost var redirs := rs;
    NoArgs(s);
    var p := rd.pos;
    ret := rd.value;
    while true
      invariant p <= |s| && RedirsOk(s, redirs) && ArgsOk(s, argv) && ret == Wrap(Exec([]), redirs)
      invariant (match RedirList(s, i) case Err(e) => Err(e) case Ok(rs, n) => ExecArgs(s, [], rs, n)) == ExecArgs(s, argv, redirs, p)
      decreases |s| - p
    {
      SetArgsWrap(Exec([]), argv, redirs);
      ExecArgsIs(s, argv, redirs, p);
      var j, stop := PeekTok(s, p, "|)&;");
      if stop {
        return Ok(SetArgs(ret, argv), j);
      }
      var tok, w, n := GetToken(s, j);
      if tok == End {
        return Ok(SetArgs(ret, argv), n);
      }
      if tok != Word {
        return Err(Syntax);
      }
      argv := argv + [w];
      if |argv| >= MAXARGS {
        return Err(TooManyArgs);
      }
      rd, rs := ParseRedirs(s, ret, n);
      if rd.Err? {
        return Err(rd.error);
      }
      MoreArgs(s, argv[..|argv| - 1], w, redirs, rs);
      WrapTwice(Exec([]), redirs, rs);
      ret, p, redirs := rd.value, rd.pos, redirs + rs;
    }
  }

  lemma NoArgs(s: string)
    ensures ArgsOk(s, [])
  {}

  lemma MoreArgs(s: string, argv: seq<Span>, w: Span, redirs: seq<Redirection>, rs: seq<Redirection>)
    requires ArgsOk(s, argv) && IsWord(s, w) && RedirsOk(s, redirs) && RedirsOk(s, rs)
    ensures ArgsOk(s, argv + [w]) && RedirsOk(s, redirs + rs)
  {}

  /** ExecArgs, unfolded once. */
  lemma ExecArgsIs(s: string, argv: seq<Span>, redirs: seq<Redirection>, i: nat)
    requires i <= |s| && Text(s) && RedirsOk(s, redirs) && ArgsOk(s, argv)
    ensures var p := Skip(s, i);
            var g := GetTok(s, p);
            && SetArgs(Exec([]), argv) == Exec(argv)
            && (g.tok.Word? ==> IsWord(s, g.span))
            && ArgsOk(s, if g.tok.Word? then argv + [g.span] else argv)
            && (RedirList(s, g.next).Ok? ==> RedirsOk(s, redirs + RedirList(s, g.next).value))
            && ExecArgs(s, argv, redirs, i) ==
               if PeekAt(s, p, "|)&;") then Ok(Wrap(Exec(argv), redirs), p)
               else if g.tok.End? then Ok(Wrap(Exec(argv), redirs), g.next)
               else if !g.tok.Word? then Err(Syntax)
               else if |argv| + 1 >= MAXARGS then Err(TooManyArgs)
               else match RedirList(s, g.next) case Err(e) => Err(e) case Ok(rs, n) => ExecArgs(s, argv + [g.span], redirs + rs, n)
  {}

  method ParseBlockCmd(s: string, i: nat) returns (r: Res<Cmd<Span>>)
    requires i < |s| && Text(s) && s[i] == '('
    ensures r == ParseBlock(s, i)
    decreases |s| - i, 0
  {
    hide RedirList, Text, Wrap, ParseLine, ParseExec, SpansOk, RedirsOk;
    var tok, w, n := GetToken(s, i);
    SkipNone(s, i);
    var c := ParseLineCmd(s, n);
    if c.Err? {
      return c;
    }
    var p, b := PeekTok(s, c.pos, ")");
    if !b {
      return Err(MissingParen);
    }
    tok, w, n := GetToken(s, p);
    ghost var rs;
    r, rs := ParseRedirs(s, c.value, n);
  }

  method ParsePipeCmd(s: string, i: nat) returns (r: Res<Cmd<Span>>)
    requires i <= |s| && Text(s)
    ensures r == ParsePipe(s, i)
    decreases |s| - i, 2
  {
    hide RedirList, Text, Wrap, ParseLine, ParseExec, ParseBlock, SpansOk;
    r := ParseExecCmd(s, i);
    if r.Err? {
      return;
    }
    var p, b := PeekTok(s, r.pos, "|");
    if b {
      var tok, w, n := GetToken(s, p);
      var d := ParsePipeCmd(s, n);
      r := if d.Err? then d else Ok(Pipe(r.value, d.value), d.pos);
    } else {
      r := Ok(r.value, p);
    }
  }

  method ParseLineCmd(s: string, i: nat) returns (r: Res<Cmd<Span>>)
    requires i <= |s| && Text(s)
    ensures r == ParseLine(s, i)
    decreases |s| - i, 3
  {
    hide RedirList, Text, Wrap, ParsePipe, ParseExec, ParseBlock, SpansOk;
    r := ParsePipeCmd(s, i);
    if r.Err? {
      return;
    }
    var c, p := r.value, r.pos;
    var b;
    p, b := PeekTok(s, p, "&");
    BacksSkip(s, c, r.pos);
    while b
      invariant i <= p <= |s| && p == Skip(s, p) && b == PeekAt(s, p, "&") && Backs(s, r.value, r.pos) == Backs(s, c, p)
      decreases |s| - p
    {
      var tok, w, n := GetToken(s, p);
      c := Back(c);
      p, b := PeekTok(s, n, "&");
      BacksSkip(s, c, n);
    }
    p, b := PeekTok(s, p, ";");
    if b {
      var tok, w, n := GetToken(s, p);
      var d := ParseLineCmd(s, n);
      r := if d.Err? then d else Ok(List(c, d.value), d.pos);
    } else {
      r := Ok(c, p);
    }
  }

  lemma BacksSkip(s: string, c: Cmd<Span>, i: nat)
    requires i <= |s| && Text(s)
    ensures Skip(s, Skip(s, i)) == Skip(s, i) && Backs(s, c, i) == Backs(s, c, Skip(s, i))
  {}

  // ---------------------------------------------------------------- nulterminate

  /** The positions at which nulterminate writes. */
  ghost predicate Ends(c: Cmd<Span>, k: int) {
    match c
    case Exec(argv) => exists i :: 0 <= i < |argv| && argv[i].eq == k
    case Redir(d, w, _) => Ends(d, k) || w.eq == k
    case Pipe(l, r) => Ends(l, k) || Ends(r, k)
    case List(l, r) => Ends(l, k) || Ends(r, k)
    case Back(d) => Ends(d, k)
  }

  ghost predicate Within(c: Cmd<Span>, n: nat) { forall k :: Ends(c, k) ==> 0 <= k < n }

  method Nulterminate(c: Cmd<Span>, buf: array<char>)
    requires Within(c, buf.Length)
    modifies buf
    ensures forall k :: 0 <= k < buf.Length ==> buf[k] == if Ends(c, k) then '\0' else old(buf[k])
    decreases c
  {
    match c {
      case Exec(argv) =>
        var i := 0;
        while i < |argv|
          invariant 0 <= i <= |argv|
          invariant forall k :: 0 <= k < buf.Length ==> buf[k] == if exists j :: 0 <= j < i && argv[j].eq == k then '\0' else old(buf[k])
        {
          assert Ends(c, argv[i].eq);
          buf[argv[i].eq] := '\0';
          i := i + 1;
        }
      case Redir(d, w, _) =>
        assert forall k :: Ends(d, k) ==> Ends(c, k);
        assert Ends(c, w.eq);
        Nulterminate(d, buf);
        buf[w.eq] := '\0';
      case Pipe(l, r) =>
        assert forall k :: Ends(l, k) || Ends(r, k) ==> Ends(c, k);
        Nulterminate(l, buf);
        Nulterminate(r, buf);
      case List(l, r) =>
        assert forall k :: Ends(l, k) || Ends(r, k) ==> Ends(c, k);
        Nulterminate(l, buf);
        Nulterminate(r, buf);
      case Back(d) =>
        assert forall k :: Ends(d, k) ==> Ends(c, k);
        Nulterminate(d, buf);
    }
  }

  /** A word ends where no word has a character. */
  lemma {:induction false} EndsOutside(s: string, c: Cmd<Span>, k: int)
    requires SpansOk(s, c) && Ends(c, k)
    ensures 0 <= k <= |s| && (k < |s| ==> !IsWordChar(s[k]))
  {
    match c {
      case Exec(argv) =>
      case Redir(d, w, _) => if Ends(d, k) { EndsOutside(s, d, k); }
      case Pipe(l, r) => if Ends(l, k) { EndsOutside(s, l, k); } else { EndsOutside(s, r, k); }
      case List(l, r) => if Ends(l, k) { EndsOutside(s, l, k); } else { EndsOutside(s, r, k); }
      case Back(d) => EndsOutside(s, d, k);
    }
  }

  /** Every word of the tree is now a C string in the buffer. */
  ghost predicate Terminated(s: string, c: Cmd<Span>, buf: seq<char>)
    requires |buf| == |s| + 1
  {
    forall w: Span :: IsWord(s, w) ==> buf[w.q..w.eq] == s[w.q..w.eq] && (Ends(c, w.eq) ==> buf[w.eq] == '\0')
  }

  /** parsecmd on the buffer, which holds s and its NUL: the parse, with every word ended in place and intact. */
  method ParseBuffer(s: string, buf: array<char>) returns (r: Res<Cmd<Span>>)
    requires Text(s) && buf.Length == |s| + 1 && buf[..|s|] == s && buf[|s|] == '\0'
    modifies buf
    ensures r == ParseCmd(s)
    ensures r.Ok? ==> Terminated(s, r.value, buf[..])
    ensures r.Err? ==> buf[..] == old(buf[..])
  {
    hide ParseLine, SpansOk, Text, Ends, Terminated;
    var line := ParseLineCmd(s, 0);
    if line.Err? {
      return line;
    }
    var p, b := PeekTok(s, line.pos, "");
    if p != |s| {
      return Err(Leftovers);
    }
    var c := line.value;
    forall k | Ends(c, k) ensures 0 <= k < buf.Length {
      EndsOutside(s, c, k);
    }
    Nulterminate(c, buf);
    forall k | 0 <= k < |s| ensures buf[..][k] == if Ends(c, k) then '\0' else s[k] {
      assert old(buf[..|s|])[k] == s[k];
    }
    WordsTerminated(s, c, buf[..]);
    r := Ok(c, |s|);
  }

  lemma WordsTerminated(s: string, c: Cmd<Span>, buf: seq<char>)
    requires SpansOk(s, c) && |buf| == |s| + 1 && buf[|s|] == '\0' && forall k :: 0 <= k < |s| ==> buf[k] == if Ends(c, k) then '\0' else s[k]
    ensures Terminated(s, c, buf)
  {
    forall w: Span | IsWord(s, w) ensures buf[w.q..w.eq] == s[w.q..w.eq] && (Ends(c, w.eq) ==> buf[w.eq] == '\0') {
      forall k | w.q <= k < w.eq ensures buf[k] == s[k] {
        if Ends(c, k) {
          EndsOutside(s, c, k);
        }
      }
    }
  }
}
