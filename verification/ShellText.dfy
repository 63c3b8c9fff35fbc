/**
  From the text of a line to its command, user/sh.c: the parser works on spans of the line, a reader on words. Both
  ways of parsing agree, so a line of text is accepted exactly when its tokens are a line of the command language, and
  it stands for the tree of that line.
 */
module ShellText {
  import opened ShellGrammar
  import opened ShellLexing
  import opened ShellTyped

  // ---------- parsing spans and parsing words agree ----------

  /** What the parser left of the line, as it reads. */
  function Reading(line: string, r: Result<(Cmd, seq<Tok>)>): Result<(Command<string>, seq<Token<string>>)> {
    match r
    case Panic => Panic
    case Ok(v) => Ok((TreeOf(line, v.0), TokTexts(line, v.1)))
  }

  function WordTexts(line: string, argv: seq<Span>): seq<string> {
    seq(|argv|, i requires 0 <= i < |argv| => WordText(line, argv[i]))
  }

  lemma TextsFrom(line: string, ts: seq<Tok>, k: nat)
    requires k <= |ts|
    ensures TokTexts(line, ts)[k..] == TokTexts(line, ts[k..])
  {
  }

  lemma StartText(line: string, ts: seq<Tok>)
    ensures forall c :: StartsWith(TokTexts(line, ts), c) == StartsWith(ts, c)
    ensures StartsRedir(TokTexts(line, ts)) == StartsRedir(ts) && EndsExec(TokTexts(line, ts)) == EndsExec(ts)
    ensures |TokTexts(line, ts)| == |ts|
    ensures |ts| > 0 ==> TokTexts(line, ts)[0] == TokText(line, ts[0])
    ensures |ts| > 1 ==> TokTexts(line, ts)[1] == TokText(line, ts[1])
  {
  }

  lemma {:induction false} RedirsText(line: string, c: Cmd, ts: seq<Tok>)
    ensures Redirs(TreeOf(line, c), TokTexts(line, ts)) == Reading(line, Redirs(c, ts))
    decreases |ts|
  {
    hide TokTexts, StartsWith, StartsRedir;
    StartText(line, ts);
    if StartsRedir(ts) && |ts| >= 2 && ts[1].Word? {
      TextsFrom(line, ts, 2);
      RedirsText(line, Redir(c, ts[1].w, ModeOf(ts[0]), FdOf(ts[0])), ts[2..]);
    }
  }

  lemma {:induction false} WithArgsText(line: string, c: Cmd, argv: seq<Span>)
    ensures TreeOf(line, WithArgs(c, argv)) == WithArgs(TreeOf(line, c), WordTexts(line, argv))
  {
    if c.Redir? { WithArgsText(line, c.cmd, argv); }
  }

  lemma {:induction false} ArgsText(line: string, ret: Cmd, argv: seq<Span>, ts: seq<Tok>)
    ensures Args(TreeOf(line, ret), WordTexts(line, argv), TokTexts(line, ts)) == Reading(line, Args(ret, argv, ts))
    decreases |ts|
  {
    hide TokTexts, StartsWith, StartsRedir, EndsExec, TreeOf, Redirs, WithArgs;
    StartText(line, ts);
    if |ts| == 0 || EndsExec(ts) {
      WithArgsText(line, ret, argv);
    } else if ts[0].Word? && |argv| + 1 < MAXARGS {
      TextsFrom(line, ts, 1);
      RedirsText(line, ret, ts[1..]);
      if Redirs(ret, ts[1..]).Ok? {
        var v := Redirs(ret, ts[1..]).value;
        ArgsText(line, v.0, argv + [ts[0].w], v.1);
        assert WordTexts(line, argv + [ts[0].w]) == WordTexts(line, argv) + [WordText(line, ts[0].w)];
      }
    }
  }

  lemma {:induction false} ExecText(line: string, ts: seq<Tok>)
    ensures ParseExec(TokTexts(line, ts)) == Reading(line, ParseExec(ts))
    decreases |ts|, 0
  {
    hide TokTexts, StartsWith, Redirs, Args, ParseLine;
    StartText(line, ts);
    if StartsWith(ts, '(') {
      StartSize(ts, '(');
      TextsFrom(line, ts, 1);
      LineText(line, ts[1..]);
      if ParseLine(ts[1..]).Ok? {
        var v := ParseLine(ts[1..]).value;
        StartText(line, v.1);
        if StartsWith(v.1, ')') {
          StartSize(v.1, ')');
          TextsFrom(line, v.1, 1);
          RedirsText(line, v.0, v.1[1..]);
        }
      }
    } else {
      assert TreeOf(line, Exec([])) == Exec([]) && WordTexts(line, []) == [];
      RedirsText(line, Exec([]), ts);
      if Redirs(Exec([]), ts).Ok? {
        var v := Redirs(Exec([]), ts).value;
        ArgsText(line, v.0, [], v.1);
      }
    }
  }

  lemma StartSize(ts: seq<Tok>, c: char)
    requires StartsWith(ts, c)
    ensures |ts| > 0
  {
  }

  lemma {:induction false} PipeText(line: string, ts: seq<Tok>)
    ensures ParsePipe(TokTexts(line, ts)) == Reading(line, ParsePipe(ts))
    decreases |ts|, 1
  {
    hide TokTexts, StartsWith, ParseExec;
    ExecText(line, ts);
    if ParseExec(ts).Ok? {
      var v := ParseExec(ts).value;
      StartText(line, v.1);
      if StartsWith(v.1, '|') {
        StartSize(v.1, '|');
        TextsFrom(line, v.1, 1);
        PipeText(line, v.1[1..]);
      }
    }
  }

  lemma {:induction false} BacksText(line: string, c: Cmd, ts: seq<Tok>)
    ensures Ok(Backs(TreeOf(line, c), TokTexts(line, ts))) == Reading(line, Ok(Backs(c, ts)))
    decreases |ts|
  {
    hide TokTexts, StartsWith;
    StartText(line, ts);
    if StartsWith(ts, '&') {
      StartSize(ts, '&');
      TextsFrom(line, ts, 1);
      BacksText(line, Back(c), ts[1..]);
    }
  }

  lemma {:induction false} LineText(line: string, ts: seq<Tok>)
    ensures ParseLine(TokTexts(line, ts)) == Reading(line, ParseLine(ts))
    decreases |ts|, 2
  {
    hide TokTexts, StartsWith, ParsePipe, Backs;
    PipeText(line, ts);
    if ParsePipe(ts).Ok? {
      var v := ParsePipe(ts).value;
      BacksText(line, v.0, v.1);
      var b := Backs(v.0, v.1);
      StartText(line, b.1);
      if StartsWith(b.1, ';') {
        StartSize(b.1, ';');
        TextsFrom(line, b.1, 1);
        LineText(line, b.1[1..]);
      }
    }
  }

  // ---------- lines of text ----------

  /** The tokens of a text, as they read. */
  function TokensOf(text: string): seq<Token<string>> { TokTexts(text, Lex(text, 0)) }

  /** What the shell makes of a text. */
  function CommandOf(text: string): Result<Command<string>> {
    match ParseTokens(Lex(text, 0))
    case Panic => Panic
    case Ok(c) => Ok(TreeOf(text, c))
  }

  lemma CommandOfTokens(text: string)
    ensures CommandOf(text) == ParseTokens(TokensOf(text))
  {
    LineText(text, Lex(text, 0));
    StartText(text, []);
  }

  /** The text is the line x, written out with any blanks. */
  ghost predicate Writes(text: string, x: Line<string>) {
    Fits(x) && exists ps, last :: WritesAs(text, x, ps, last)
  }

  predicate WritesAs(text: string, x: Line<string>, ps: seq<Piece>, last: string) {
    text == Written(ps, last) && Apart(ps, last) && ToksIn(ps) == LineToks(x)
  }

  lemma WrittenTokens(text: string, x: Line<string>, ps: seq<Piece>, last: string)
    requires WritesAs(text, x, ps, last)
    ensures TokensOf(text) == LineToks(x)
  {
    hide Lex, LineToks, Apart, Written;
    assert text[0..] == text;
    WrittenLexes(text, 0, ps, last);
  }

  /** A line of the language, written out, stands for its tree. */
  lemma WrittenParses(text: string, x: Line<string>)
    requires Writes(text, x)
    ensures CommandOf(text) == Ok(LineTree(x))
  {
    hide TokensOf, CommandOf, WritesAs, LineToks, LineTree, ParseTokens;
    var ps, last :| WritesAs(text, x, ps, last);
    WrittenTokens(text, x, ps, last);
    CommandOfTokens(text);
    TypedParses(x, TokensOf(text));
  }

  /** A text that parses is some line of the language written out. */
  lemma ParsedIsWritten(text: string) returns (x: Line<string>)
    requires CommandOf(text).Ok?
    ensures Writes(text, x)
  {
    hide Lex, LineToks, Apart, Written, TokensOf, CommandOf, ParseTokens, Typed;
    CommandOfTokens(text);
    ParsesExactly(TokensOf(text));
    x :| Typed(x, TokensOf(text));
    var ps, last := EveryText(text, 0);
    assert text[0..] == text;
    WrittenLexes(text, 0, ps, last);
    assert Fits(x) && ToksIn(ps) == LineToks(x) by { TypedTokens(text, x, ps); }
    assert WritesAs(text, x, ps, last);
  }

  lemma TypedTokens(text: string, x: Line<string>, ps: seq<Piece>)
    requires Typed(x, TokensOf(text)) && TokTexts(text, Lex(text, 0)) == ToksIn(ps)
    ensures Fits(x) && ToksIn(ps) == LineToks(x)
  {
    hide Lex, LineToks, TokTexts;
  }

  /** Any text whatever: it parses exactly when it is a line of the language, and then to that line's tree. */
  lemma ParsesExactlyTheLanguage(text: string)
    ensures CommandOf(text).Ok? <==> exists x: Line<string> :: Writes(text, x)
    ensures forall x: Line<string> :: Writes(text, x) ==> CommandOf(text) == Ok(LineTree(x))
  {
    hide CommandOf, LineTree, Writes;
    forall x: Line<string> | Writes(text, x)
      ensures CommandOf(text) == Ok(LineTree(x))
    {
      WrittenParses(text, x);
    }
    if CommandOf(text).Ok? {
      var x := ParsedIsWritten(text);
    }
  }

  // ---------- a line for every tree ----------

  /** The three redirections: input from a file, output to a new file, output to the end of one. */
  predicate IsForm(mode: nat, fd: nat) {
    (mode == O_RDONLY && fd == 0) || (mode == O_WRONLY_CREATE_TRUNC && fd == 1) || (mode == O_WRONLY_CREATE && fd == 1)
  }

  function FormOf(mode: nat): Form {
    if mode == O_RDONLY then In else if mode == O_WRONLY_CREATE_TRUNC then Out else Appending
  }

  /** Fewer than MAXARGS words in an exec, all of them plain, and only the three redirections. */
  predicate Renderable(t: Command<string>) {
    match t
    case Exec(argv) => |argv| < MAXARGS && forall i :: 0 <= i < |argv| ==> PlainWord(argv[i])
    case Redir(c, f, mode, fd) => Renderable(c) && PlainWord(f) && IsForm(mode, fd)
    case Pipe(l, r) => Renderable(l) && Renderable(r)
    case List(l, r) => Renderable(l) && Renderable(r)
    case Back(c) => Renderable(c)
  }

  function Unredirected(argv: seq<string>): (r: seq<Arg<string>>)
    ensures |r| == |argv|
  {
    seq(|argv|, i requires 0 <= i < |argv| => Arg(argv[i], []))
  }

  /** The tree as a line: every command below the top in parentheses. */
  function LineOf(t: Command<string>): Line<string> {
    match t
    case Exec(argv) => End(Last(Simple([], Unredirected(argv))), 0)
    case Redir(c, f, mode, fd) => End(Last(Group(LineOf(c), [Into(FormOf(mode), f)])), 0)
    case Pipe(l, r) => End(Bar(Group(LineOf(l), []), Last(Group(LineOf(r), []))), 0)
    case List(l, r) => Semi(Last(Group(LineOf(l), [])), 0, End(Last(Group(LineOf(r), [])), 0))
    case Back(c) => End(Last(Group(LineOf(c), [])), 1)
  }

  lemma Grouped(x: Line<string>, t: Command<string>)
    requires Fits(x) && LineTree(x) == t
    ensures PipesFit(Last(Group(x, []))) && PipesTree(Last(Group(x, []))) == t
  {
  }

  lemma {:induction false} NoneRedirected(argv: seq<string>)
    ensures AllInto(Unredirected(argv)) == []
    decreases |argv|
  {
    if |argv| > 0 {
      assert Unredirected(argv)[1..] == Unredirected(argv[1..]);
      NoneRedirected(argv[1..]);
    }
  }

  lemma ExecLine(argv: seq<string>)
    requires |argv| < MAXARGS
    ensures Fits(LineOf(Exec(argv))) && LineTree(LineOf(Exec(argv))) == Exec(argv)
  {
    var p := Simple([], Unredirected(argv));
    NoneRedirected(argv);
    assert [] + AllInto(Unredirected(argv)) == [];
    assert WordsOf(Unredirected(argv)) == argv;
    assert PartTree(p) == Exec(argv) && PipesTree(Last(p)) == Exec(argv) && PipesFit(Last(p));
  }

  lemma {:induction false} LineOfTree(t: Command<string>)
    requires Renderable(t)
    ensures Fits(LineOf(t)) && LineTree(LineOf(t)) == t
  {
    match t
    case Exec(argv) =>
      ExecLine(argv);
    case Redir(c, f, mode, fd) =>
      LineOfTree(c);
      FirstInnermost(c, [Into(FormOf(mode), f)]);
      assert PartTree(Group(LineOf(c), [Into(FormOf(mode), f)])) == t;
    case Pipe(l, r) =>
      LineOfTree(l);
      LineOfTree(r);
      Grouped(LineOf(l), l);
      Grouped(LineOf(r), r);
    case List(l, r) =>
      LineOfTree(l);
      LineOfTree(r);
      Grouped(LineOf(l), l);
      Grouped(LineOf(r), r);
    case Back(c) =>
      LineOfTree(c);
      Grouped(LineOf(c), c);
      assert Backed(PipesTree(Last(Group(LineOf(c), []))), 1) == t;
  }

  predicate AllPlain(ts: seq<Token<string>>) { forall i :: 0 <= i < |ts| ==> PlainTok(ts[i]) }

  lemma {:induction false} WordsPlain(ws: seq<string>)
    requires forall i :: 0 <= i < |ws| ==> PlainWord(ws[i])
    ensures AllPlain(ArgsToks(Unredirected(ws)))
    decreases |ws|
  {
    hide PlainWord;
    if |ws| > 0 {
      assert Unredirected(ws)[1..] == Unredirected(ws[1..]);
      WordsPlain(ws[1..]);
      assert IntosToks(Unredirected(ws)[0].after) == [];
    }
  }

  lemma BlockPlain(x: Line<string>)
    requires AllPlain(LineToks(x))
    ensures AllPlain(PartToks(Group(x, [])))
  {
    hide LineToks, PlainWord;
  }

  lemma PairPlain(a: Part<string>, b: Part<string>)
    requires AllPlain(PartToks(a)) && AllPlain(PartToks(b))
    ensures AllPlain(LineToks(End(Bar(a, Last(b)), 0))) && AllPlain(LineToks(Semi(Last(a), 0, End(Last(b), 0))))
  {
    hide PartToks, PlainWord;
    var none: seq<Token<string>> := Marks(0);
    assert none == [];
    assert LineToks(End(Last(b), 0)) == PartToks(b) + none == PartToks(b);
    assert PipesToks(Bar(a, Last(b))) == PartToks(a) + ([Sym('|')] + PartToks(b));
    assert LineToks(Semi(Last(a), 0, End(Last(b), 0))) == PartToks(a) + (none + ([Sym(';')] + PartToks(b)));
  }

  lemma {:induction false} LineOfPlain(t: Command<string>)
    requires Renderable(t)
    ensures AllPlain(LineToks(LineOf(t)))
  {
    hide PlainWord, PartToks, IntosToks, Fits;
    match t
    case Exec(argv) =>
      WordsPlain(argv);
      SimplePlain(argv);
    case Redir(c, f, mode, fd) =>
      LineOfPlain(c);
      RedirPlain(LineOf(c), mode, f);
    case Pipe(l, r) =>
      LineOfPlain(l);
      LineOfPlain(r);
      BlockPlain(LineOf(l));
      BlockPlain(LineOf(r));
      PairPlain(Group(LineOf(l), []), Group(LineOf(r), []));
    case List(l, r) =>
      LineOfPlain(l);
      LineOfPlain(r);
      BlockPlain(LineOf(l));
      BlockPlain(LineOf(r));
      PairPlain(Group(LineOf(l), []), Group(LineOf(r), []));
    case Back(c) =>
      LineOfPlain(c);
      BlockPlain(LineOf(c));
  }

  lemma SimplePlain(argv: seq<string>)
    requires AllPlain(ArgsToks(Unredirected(argv)))
    ensures AllPlain(PartToks(Simple([], Unredirected(argv))))
  {
    hide ArgsToks, PlainWord;
    assert IntosToks<string>([]) == [];
  }

  lemma RedirPlain(x: Line<string>, mode: nat, f: string)
    requires AllPlain(LineToks(x)) && PlainWord(f)
    ensures AllPlain(PartToks(Group(x, [Into(FormOf(mode), f)])))
  {
    hide LineToks, PlainWord;
    OneInto(FormOf(mode), f);
  }

  /** The tokens with a blank in front of each. */
  function Spaced(ts: seq<Token<string>>): (ps: seq<Piece>)
    ensures |ps| == |ts|
  {
    seq(|ts|, i requires 0 <= i < |ts| => Piece(" ", ts[i]))
  }

  lemma {:induction false} SpacedApart(ts: seq<Token<string>>)
    requires AllPlain(ts)
    ensures Apart(Spaced(ts), "") && ToksIn(Spaced(ts)) == ts
    ensures |ts| > 0 ==> |Written(Spaced(ts), "")| > 0 && Written(Spaced(ts), "")[0] == ' '
    decreases |ts|
  {
    hide PlainTok;
    if |ts| > 0 {
      assert Spaced(ts)[1..] == Spaced(ts[1..]);
      SpacedApart(ts[1..]);
    }
  }

  function Render(t: Command<string>): string { Written(Spaced(LineToks(LineOf(t))), "") }

  /** Parsing the rendering of a command tree yields the tree. */
  lemma RoundTrip(t: Command<string>)
    requires Renderable(t)
    ensures CommandOf(Render(t)) == Ok(t)
  {
    hide LineToks, CommandOf, Fits, Written, Apart;
    LineOfTree(t);
    LineOfPlain(t);
    var ts := LineToks(LineOf(t));
    SpacedApart(ts);
    assert WritesAs(Render(t), LineOf(t), Spaced(ts), "");
    WrittenParses(Render(t), LineOf(t));
  }
}
