/**
  The command language of user/sh.c as it is typed: words with redirections before, between and after them, pipes,
  lists, background marks and parenthesised blocks. The recursive descent accepts exactly these lines and gives each
  of them its tree.
 */
module ShellTyped {
  import opened ShellGrammar

  datatype Form = In | Out | Appending

  /** A redirection: <file, >file or >>file. */
  datatype Into<W> = Into(form: Form, file: W)

  /** A word of a command, and the redirections written behind it. */
  datatype Arg<W> = Arg(word: W, after: seq<Into<W>>)

  datatype Part<W> = Simple(before: seq<Into<W>>, args: seq<Arg<W>>) | Group(body: Line<W>, behind: seq<Into<W>>)

  datatype Pipes<W> = Last(part: Part<W>) | Bar(part: Part<W>, more: Pipes<W>)

  /** Pipes with any number of background marks, and what follows the semicolon. */
  datatype Line<W> = End(pipes: Pipes<W>, marks: nat) | Semi(pipes: Pipes<W>, marks: nat, rest: Line<W>)

  // ---------- its tokens ----------

  function FormTok<W>(f: Form): Token<W> {
    match f
    case In => Sym('<')
    case Out => Sym('>')
    case Appending => Append
  }

  function IntosToks<W>(rs: seq<Into<W>>): seq<Token<W>> {
    if |rs| == 0 then [] else [FormTok(rs[0].form), Word(rs[0].file)] + IntosToks(rs[1..])
  }

  function ArgsToks<W>(ws: seq<Arg<W>>): seq<Token<W>> {
    if |ws| == 0 then [] else [Word(ws[0].word)] + (IntosToks(ws[0].after) + ArgsToks(ws[1..]))
  }

  function PartToks<W>(p: Part<W>): seq<Token<W>> {
    match p
    case Simple(before, args) => IntosToks(before) + ArgsToks(args)
    case Group(body, behind) => [Sym('(')] + (LineToks(body) + ([Sym(')')] + IntosToks(behind)))
  }

  function PipesToks<W>(p: Pipes<W>): seq<Token<W>> {
    match p
    case Last(a) => PartToks(a)
    case Bar(a, more) => PartToks(a) + ([Sym('|')] + PipesToks(more))
  }

  function Marks<W>(n: nat): seq<Token<W>> { seq(n, i requires 0 <= i < n => Sym('&')) }

  function LineToks<W>(x: Line<W>): seq<Token<W>> {
    match x
    case End(p, n) => PipesToks(p) + Marks(n)
    case Semi(p, n, rest) => PipesToks(p) + (Marks(n) + ([Sym(';')] + LineToks(rest)))
  }

  // ---------- its tree ----------

  function Mode(f: Form): nat {
    match f
    case In => O_RDONLY
    case Out => O_WRONLY_CREATE_TRUNC
    case Appending => O_WRONLY_CREATE
  }

  function Fd(f: Form): nat { if f.In? then 0 else 1 }

  /** The command inside its redirections, the one written first innermost. */
  function Wrapped<W>(c: Command<W>, rs: seq<Into<W>>): Command<W>
    decreases |rs|
  {
    if |rs| == 0 then c
    else var r := rs[|rs| - 1]; Redir(Wrapped(c, rs[..|rs| - 1]), r.file, Mode(r.form), Fd(r.form))
  }

  function WordsOf<W>(ws: seq<Arg<W>>): (r: seq<W>)
    ensures |r| == |ws| && forall i :: 0 <= i < |r| ==> r[i] == ws[i].word
  {
    seq(|ws|, i requires 0 <= i < |ws| => ws[i].word)
  }

  function AllInto<W>(ws: seq<Arg<W>>): seq<Into<W>> {
    if |ws| == 0 then [] else ws[0].after + AllInto(ws[1..])
  }

  function PartTree<W>(p: Part<W>): Command<W> {
    match p
    case Simple(before, args) => Wrapped(Exec(WordsOf(args)), before + AllInto(args))
    case Group(body, behind) => Wrapped(LineTree(body), behind)
  }

  function PipesTree<W>(p: Pipes<W>): Command<W> {
    match p
    case Last(a) => PartTree(a)
    case Bar(a, more) => Pipe(PartTree(a), PipesTree(more))
  }

  function Backed<W>(c: Command<W>, n: nat): Command<W> { if n == 0 then c else Back(Backed(c, n - 1)) }

  function LineTree<W>(x: Line<W>): Command<W> {
    match x
    case End(p, n) => Backed(PipesTree(p), n)
    case Semi(p, n, rest) => List(Backed(PipesTree(p), n), LineTree(rest))
  }

  /** Fewer than MAXARGS words in every command. */
  predicate PartFits<W>(p: Part<W>) {
    match p
    case Simple(_, args) => |args| < MAXARGS
    case Group(body, _) => Fits(body)
  }

  predicate PipesFit<W>(p: Pipes<W>) {
    match p
    case Last(a) => PartFits(a)
    case Bar(a, more) => PartFits(a) && PipesFit(more)
  }

  predicate Fits<W>(x: Line<W>) {
    match x
    case End(p, _) => PipesFit(p)
    case Semi(p, _, rest) => PipesFit(p) && Fits(rest)
  }

  // ---------- redirections and words ----------

  lemma FirstInnermost<W>(c: Command<W>, rs: seq<Into<W>>)
    requires |rs| > 0
    ensures Wrapped(c, rs) == Wrapped(Redir(c, rs[0].file, Mode(rs[0].form), Fd(rs[0].form)), rs[1..])
    decreases |rs|
  {
    if |rs| > 1 {
      FirstInnermost(c, rs[..|rs| - 1]);
      assert rs[1..][..|rs| - 2] == rs[..|rs| - 1][1..];
    }
  }

  lemma NotWrapped<W>(c: Command<W>)
    ensures Wrapped(c, []) == c
  {
  }

  lemma {:induction false} WrappedTwice<W>(c: Command<W>, rs: seq<Into<W>>, more: seq<Into<W>>)
    ensures Wrapped(Wrapped(c, rs), more) == Wrapped(c, rs + more)
    decreases |more|
  {
    if |more| == 0 {
      assert rs + more == rs;
    } else {
      WrappedTwice(c, rs, more[..|more| - 1]);
      assert (rs + more)[..|rs + more| - 1] == rs + more[..|more| - 1];
    }
  }

  lemma {:induction false} WrappedArgs<W>(argv: seq<W>, words: seq<W>, rs: seq<Into<W>>)
    ensures WithArgs(Wrapped(Exec(argv), rs), words) == Wrapped(Exec(words), rs)
    decreases |rs|
  {
    if |rs| > 0 { WrappedArgs(argv, words, rs[..|rs| - 1]); }
  }

  lemma {:induction false} RedirsParse<W>(c: Command<W>, rs: seq<Into<W>>, rest: seq<Token<W>>)
    requires !StartsRedir(rest)
    ensures Redirs(c, IntosToks(rs) + rest) == Ok((Wrapped(c, rs), rest))
    decreases |rs|
  {
    if |rs| == 0 {
      assert IntosToks(rs) + rest == rest;
    } else {
      var r := rs[0];
      var ts := IntosToks(rs) + rest;
      assert ts[2..] == IntosToks(rs[1..]) + rest;
      RedirsParse(Redir(c, r.file, Mode(r.form), Fd(r.form)), rs[1..], rest);
      FirstInnermost(c, rs);
    }
  }

  lemma {:induction false} RedirsRead<W>(c: Command<W>, ts: seq<Token<W>>) returns (rs: seq<Into<W>>)
    requires Redirs(c, ts).Ok?
    ensures ts == IntosToks(rs) + Redirs(c, ts).value.1 && Redirs(c, ts).value.0 == Wrapped(c, rs)
    decreases |ts|
  {
    hide Wrapped;
    NotWrapped(c);
    if !StartsRedir(ts) {
      rs := [];
    } else {
      var r := Into(if ts[0].Append? then Appending else if ts[0].c == '<' then In else Out, ts[1].w);
      var more := RedirsRead(Redir(c, r.file, Mode(r.form), Fd(r.form)), ts[2..]);
      rs := [r] + more;
      assert rs[1..] == more;
      FirstInnermost(c, rs);
      assert ts == [ts[0], ts[1]] + ts[2..];
    }
  }

  /** What may follow a command: nothing, or the symbol that ends it. */
  predicate AfterPart<W>(ts: seq<Token<W>>) { |ts| == 0 || EndsExec(ts) }

  predicate AfterPipes<W>(ts: seq<Token<W>>) { AfterPart(ts) && !StartsWith(ts, '|') }

  predicate AfterLine<W>(ts: seq<Token<W>>) { |ts| == 0 || StartsWith(ts, ')') }

  lemma NoRedirHere<W>(ws: seq<Arg<W>>, rest: seq<Token<W>>)
    requires AfterPart(rest)
    ensures !StartsRedir(ArgsToks(ws) + rest) && !StartsWith(ArgsToks(ws) + rest, '(')
  {
    if |ws| == 0 {
      assert ArgsToks(ws) + rest == rest;
    } else {
      assert (ArgsToks(ws) + rest)[0] == Word(ws[0].word);
    }
  }

  /** A word and its redirections in front of others. */
  lemma WordInFront<W>(ret: Command<W>, argv: seq<W>, w: W, rs: seq<Into<W>>, more: seq<Arg<W>>, ts: seq<Token<W>>,
                       rest: seq<Token<W>>)
    requires ts == ArgsToks(more) + rest
    ensures var ws := [Arg(w, rs)] + more;
            [Word(w)] + (IntosToks(rs) + ts) == ArgsToks(ws) + rest
            && Wrapped(Wrapped(ret, rs), AllInto(more)) == Wrapped(ret, AllInto(ws))
            && argv + [w] + WordsOf(more) == argv + WordsOf(ws)
  {
    hide Wrapped, IntosToks, ArgsToks, AllInto, WordsOf;
    FirstArg(Arg(w, rs), more);
    WrappedTwice(ret, rs, AllInto(more));
    Regrouped([Word(w)], IntosToks(rs), ArgsToks(more), rest);
    assert argv + [w] + WordsOf(more) == argv + ([w] + WordsOf(more));
  }

  lemma FirstArg<W>(a: Arg<W>, more: seq<Arg<W>>)
    ensures ArgsToks([a] + more) == [Word(a.word)] + (IntosToks(a.after) + ArgsToks(more))
    ensures AllInto([a] + more) == a.after + AllInto(more) && WordsOf([a] + more) == [a.word] + WordsOf(more)
  {
    assert ([a] + more)[1..] == more;
  }

  lemma Regrouped<T>(a: seq<T>, b: seq<T>, c: seq<T>, d: seq<T>)
    ensures a + (b + (c + d)) == a + (b + c) + d
  {
  }

  lemma Tail<T>(x: T, s: seq<T>)
    ensures ([x] + s)[0] == x && ([x] + s)[1..] == s
  {
  }

  /** One round of the loop of parseexec, on the first word and what is behind it. */
  lemma ArgsStep<W>(ret: Command<W>, argv: seq<W>, ws: seq<Arg<W>>, rest: seq<Token<W>>)
    requires |ws| > 0 && |argv| + 1 < MAXARGS
    requires var r, more := ws[0], ArgsToks(ws[1..]) + rest;
             Redirs(ret, IntosToks(r.after) + more) == Ok((Wrapped(ret, r.after), more))
    ensures Args(ret, argv, ArgsToks(ws) + rest)
            == Args(Wrapped(ret, ws[0].after), argv + [ws[0].word], ArgsToks(ws[1..]) + rest)
    ensures Wrapped(Wrapped(ret, ws[0].after), AllInto(ws[1..])) == Wrapped(ret, AllInto(ws))
    ensures argv + [ws[0].word] + WordsOf(ws[1..]) == argv + WordsOf(ws)
  {
    hide Wrapped, Redirs, IntosToks, ArgsToks, AllInto, WordsOf;
    var r, more := ws[0], ArgsToks(ws[1..]) + rest;
    assert ws == [Arg(r.word, r.after)] + ws[1..];
    WordInFront(ret, argv, r.word, r.after, ws[1..], more, rest);
    Tail(Word(r.word), IntosToks(r.after) + more);
    assert !EndsExec(ArgsToks(ws) + rest);
  }

  lemma NoArgs<W>()
    ensures ArgsToks<W>([]) == [] && AllInto<W>([]) == [] && WordsOf<W>([]) == []
  {
  }

  lemma {:induction false} ArgsParse<W>(ret: Command<W>, argv: seq<W>, ws: seq<Arg<W>>, rest: seq<Token<W>>)
    requires |argv| + |ws| < MAXARGS && AfterPart(rest)
    ensures Args(ret, argv, ArgsToks(ws) + rest) == Ok((WithArgs(Wrapped(ret, AllInto(ws)), argv + WordsOf(ws)), rest))
    decreases |ws|
  {
    hide Wrapped, Redirs, IntosToks, WithArgs, EndsExec;
    if |ws| == 0 {
      assert AllInto(ws) == [] && Wrapped(ret, []) == ret by { NotWrapped(ret); }
      assert ArgsToks(ws) + rest == rest && argv + WordsOf(ws) == argv;
    } else {
      var more := ArgsToks(ws[1..]) + rest;
      NoRedirHere(ws[1..], rest);
      RedirsParse(ret, ws[0].after, more);
      ArgsParse(Wrapped(ret, ws[0].after), argv + [ws[0].word], ws[1..], rest);
      ArgsStep(ret, argv, ws, rest);
    }
  }

  lemma {:induction false} ArgsRead<W>(ret: Command<W>, argv: seq<W>, ts: seq<Token<W>>) returns (ws: seq<Arg<W>>)
    requires Args(ret, argv, ts).Ok? && |argv| < MAXARGS
    ensures var v := Args(ret, argv, ts).value;
            ts == ArgsToks(ws) + v.1 && v.0 == WithArgs(Wrapped(ret, AllInto(ws)), argv + WordsOf(ws))
            && |argv| + |ws| < MAXARGS
    decreases |ts|
  {
    hide Wrapped, Redirs, IntosToks, WithArgs, EndsExec, ArgsToks, AllInto, WordsOf;
    NotWrapped(ret);
    NoArgs<W>();
    if |ts| == 0 || EndsExec(ts) {
      ws := [];
      assert argv + WordsOf(ws) == argv;
    } else {
      var rs := RedirsRead(ret, ts[1..]);
      var v := Redirs(ret, ts[1..]).value;
      var more := ArgsRead(v.0, argv + [ts[0].w], v.1);
      ws := [Arg(ts[0].w, rs)] + more;
      WordInFront(ret, argv, ts[0].w, rs, more, v.1, Args(ret, argv, ts).value.1);
      assert ts == [ts[0]] + ts[1..];
    }
  }

  // ---------- background marks ----------

  lemma {:induction false} BacksParse<W>(c: Command<W>, n: nat, m: nat, rest: seq<Token<W>>)
    requires !StartsWith(rest, '&')
    ensures Backs(Backed(c, m), Marks(n) + rest) == (Backed(c, m + n), rest)
    decreases n
  {
    var ts := Marks(n) + rest;
    if n == 0 {
      assert ts == rest;
    } else {
      assert ts[1..] == Marks(n - 1) + rest;
      BacksParse(c, n - 1, m + 1, rest);
    }
  }

  lemma {:induction false} BacksRead<W>(c: Command<W>, m: nat, ts: seq<Token<W>>) returns (n: nat)
    ensures var v := Backs(Backed(c, m), ts); ts == Marks(n) + v.1 && v.0 == Backed(c, m + n)
    decreases |ts|
  {
    if StartsWith(ts, '&') {
      var k := BacksRead(c, m + 1, ts[1..]);
      n := k + 1;
      var rest := Backs(Backed(c, m + 1), ts[1..]).1;
      assert Marks<W>(n) == [ts[0]] + Marks(k);
      assert ts == [ts[0]] + ts[1..];
    } else {
      n := 0;
    }
  }

  // ---------- every such line parses, and to its tree ----------

  lemma SimpleParses<W>(before: seq<Into<W>>, args: seq<Arg<W>>, rest: seq<Token<W>>)
    requires |args| < MAXARGS && AfterPart(rest)
    ensures ParseExec(IntosToks(before) + ArgsToks(args) + rest) == Ok((PartTree(Simple(before, args)), rest))
  {
    var more := ArgsToks(args) + rest;
    var ts := IntosToks(before) + ArgsToks(args) + rest;
    assert ts == IntosToks(before) + more;
    NoRedirHere(args, rest);
    assert !StartsWith(ts, '(') by { if |before| == 0 { assert ts == more; } }
    RedirsParse(Exec([]), before, more);
    ArgsParse(Wrapped(Exec([]), before), [], args, rest);
    WrappedTwice(Exec([]), before, AllInto(args));
    WrappedArgs([], WordsOf(args), before + AllInto(args));
    assert [] + WordsOf(args) == WordsOf(args);
  }

  lemma {:induction false} PartParses<W>(p: Part<W>, rest: seq<Token<W>>)
    requires PartFits(p) && AfterPart(rest)
    ensures ParseExec(PartToks(p) + rest) == Ok((PartTree(p), rest))
    decreases p, 0
  {
    hide Redirs, IntosToks, ArgsToks, LineToks, LineTree, ParseLine, Wrapped, Fits, AllInto, WordsOf;
    match p
    case Simple(before, args) =>
      SimpleParses(before, args, rest);
    case Group(body, behind) =>
      var close := [Sym(')')] + (IntosToks(behind) + rest);
      Tail(Sym('('), LineToks(body) + close);
      Tail(Sym(')'), IntosToks(behind) + rest);
      LineParses(body, close);
      assert PartToks(p) + rest == [Sym('(')] + (LineToks(body) + close);
      RedirsParse(LineTree(body), behind, rest);
  }

  lemma {:induction false} PipesParse<W>(p: Pipes<W>, rest: seq<Token<W>>)
    requires PipesFit(p) && AfterPipes(rest)
    ensures ParsePipe(PipesToks(p) + rest) == Ok((PipesTree(p), rest))
    decreases p, 0
  {
    hide PartToks, PartTree, PartFits, ParseExec;
    match p
    case Last(a) =>
      PartParses(a, rest);
    case Bar(a, more) =>
      var next := [Sym('|')] + (PipesToks(more) + rest);
      PartParses(a, next);
      assert PipesToks(p) + rest == PartToks(a) + next;
      Tail(Sym('|'), PipesToks(more) + rest);
      PipesParse(more, rest);
  }

  lemma {:induction false} LineParses<W>(x: Line<W>, rest: seq<Token<W>>)
    requires Fits(x) && AfterLine(rest)
    ensures ParseLine(LineToks(x) + rest) == Ok((LineTree(x), rest))
    decreases x, 0
  {
    hide PipesToks, PipesTree, Marks, ParsePipe, Backs, Backed, PipesFit;
    match x
    case End(p, n) =>
      MarkedParses(p, n, rest);
      assert LineToks(x) + rest == PipesToks(p) + (Marks(n) + rest);
    case Semi(p, n, more) =>
      var next := [Sym(';')] + (LineToks(more) + rest);
      MarkedParses(p, n, next);
      assert LineToks(x) + rest == PipesToks(p) + (Marks(n) + next);
      Tail(Sym(';'), LineToks(more) + rest);
      LineParses(more, rest);
  }

  /** Pipes and their background marks, up to the end of the line or the semicolon. */
  lemma {:induction false} MarkedParses<W>(p: Pipes<W>, n: nat, rest: seq<Token<W>>)
    requires PipesFit(p) && (AfterLine(rest) || StartsWith(rest, ';'))
    ensures var ts := PipesToks(p) + (Marks(n) + rest);
            ParsePipe(ts).Ok? && Backs(ParsePipe(ts).value.0, ParsePipe(ts).value.1) == (Backed(PipesTree(p), n), rest)
    decreases p, 1
  {
    var more := Marks(n) + rest;
    assert AfterPipes(more) by { if n == 0 { assert more == rest; } else { assert more[0] == Sym('&'); } }
    PipesParse(p, more);
    BacksParse(PipesTree(p), n, 0, rest);
  }

  // ---------- whatever parses is such a line ----------

  lemma BlockToks<W>(ts: seq<Token<W>>, body: seq<Token<W>>, close: seq<Token<W>>, behind: seq<Token<W>>,
                     rest: seq<Token<W>>)
    requires StartsWith(ts, '(') && ts[1..] == body + close && StartsWith(close, ')') && close[1..] == behind + rest
    ensures ts == [Sym('(')] + (body + ([Sym(')')] + behind)) + rest
  {
    assert ts == [Sym('(')] + ts[1..] && close == [Sym(')')] + close[1..];
  }

  lemma {:induction false} ReadExec<W>(ts: seq<Token<W>>) returns (p: Part<W>)
    requires ParseExec(ts).Ok?
    ensures var v := ParseExec(ts).value; PartFits(p) && ts == PartToks(p) + v.1 && v.0 == PartTree(p)
    decreases |ts|, 0
  {
    hide Redirs, Args, IntosToks, ArgsToks, LineToks, ParseLine, Wrapped, WithArgs, AllInto;
    if StartsWith(ts, '(') {
      var body := ReadLine(ts[1..]);
      var v := ParseLine(ts[1..]).value;
      var behind := RedirsRead(v.0, v.1[1..]);
      p := Group(body, behind);
      BlockToks(ts, LineToks(body), v.1, IntosToks(behind), Redirs(v.0, v.1[1..]).value.1);
    } else {
      var before := RedirsRead(Exec([]), ts);
      var v := Redirs(Exec([]), ts).value;
      var args := ArgsRead(v.0, [], v.1);
      p := Simple(before, args);
      WrappedTwice(Exec([]), before, AllInto(args));
      WrappedArgs([], WordsOf(args), before + AllInto(args));
      assert [] + WordsOf(args) == WordsOf(args);
    }
  }

  lemma {:induction false} ReadPipe<W>(ts: seq<Token<W>>) returns (p: Pipes<W>)
    requires ParsePipe(ts).Ok?
    ensures var v := ParsePipe(ts).value; PipesFit(p) && ts == PipesToks(p) + v.1 && v.0 == PipesTree(p)
    decreases |ts|, 1
  {
    hide PartToks, PartTree, PartFits, ParseExec;
    var a := ReadExec(ts);
    var v := ParseExec(ts).value;
    if StartsWith(v.1, '|') {
      var more := ReadPipe(v.1[1..]);
      p := Bar(a, more);
      assert v.1 == [Sym('|')] + v.1[1..];
    } else {
      p := Last(a);
    }
  }

  lemma {:induction false} ReadLine<W>(ts: seq<Token<W>>) returns (x: Line<W>)
    requires ParseLine(ts).Ok?
    ensures var v := ParseLine(ts).value; Fits(x) && ts == LineToks(x) + v.1 && v.0 == LineTree(x)
    decreases |ts|, 2
  {
    hide ParsePipe, Backs, PipesToks, PipesTree, Marks, PipesFit;
    var p := ReadPipe(ts);
    var v := ParsePipe(ts).value;
    var n := BacksRead(v.0, 0, v.1);
    var b := Backs(v.0, v.1);
    if StartsWith(b.1, ';') {
      var rest := ReadLine(b.1[1..]);
      x := Semi(p, n, rest);
      assert b.1 == [Sym(';')] + b.1[1..];
    } else {
      x := End(p, n);
    }
  }

  /** The tokens of x are ts. */
  ghost predicate Typed<W>(x: Line<W>, ts: seq<Token<W>>) { Fits(x) && LineToks(x) == ts }

  lemma TypedParses<W>(x: Line<W>, ts: seq<Token<W>>)
    requires Typed(x, ts)
    ensures ParseTokens(ts) == Ok(LineTree(x))
  {
    hide LineToks, LineTree, ParseLine;
    LineParses(x, []);
    assert LineToks(x) + [] == ts;
  }

  /** The parser accepts exactly the lines of the language, and gives each its tree. */
  lemma ParsesExactly<W>(ts: seq<Token<W>>)
    ensures ParseTokens(ts).Ok? <==> exists x: Line<W> :: Typed(x, ts)
    ensures forall x: Line<W> :: Typed(x, ts) ==> ParseTokens(ts) == Ok(LineTree(x))
  {
    forall x: Line<W> | Typed(x, ts)
      ensures ParseTokens(ts) == Ok(LineTree(x))
    {
      TypedParses(x, ts);
    }
    if ParseTokens(ts).Ok? {
      var x := ReadLine(ts);
      assert LineToks(x) + [] == LineToks(x);
      assert Typed(x, ts);
    }
  }

  // ---------- some of them, with what the parser makes of them ----------

  lemma OneInto<W>(f: Form, w: W)
    ensures IntosToks([Into(f, w)]) == [FormTok(f), Word(w)]
  {
    assert [Into(f, w)][1..] == [];
  }

  lemma OneArg<W>(a: Arg<W>)
    ensures ArgsToks([a]) == [Word(a.word)] + IntosToks(a.after) && AllInto([a]) == a.after && WordsOf([a]) == [a.word]
  {
    assert [a][1..] == [];
  }

  lemma TwoArgs<W>(a: Arg<W>, b: Arg<W>)
    ensures ArgsToks([a, b]) == [Word(a.word)] + IntosToks(a.after) + [Word(b.word)] + IntosToks(b.after)
    ensures AllInto([a, b]) == a.after + b.after && WordsOf([a, b]) == [a.word, b.word]
  {
    OneArg(b);
    assert [a, b][1..] == [b];
  }

  lemma OneCommand<W>(ts: seq<Token<W>>, c: Command<W>)
    requires ParseExec(ts) == Ok((c, []))
    ensures ParsePipe(ts) == Ok((c, [])) && ParseLine(ts) == Ok((c, [])) && ParseTokens(ts) == Ok(c)
  {
    assert ParsePipe(ts) == Ok((c, []));
    assert Backs(c, []) == (c, []);
  }

  /** < f a > g b */
  lemma Redirected<W>(a: W, b: W, f: W, g: W)
    ensures ParseTokens([Sym('<'), Word(f), Word(a), Sym('>'), Word(g), Word(b)])
            == Ok(Redir(Redir(Exec([a, b]), f, 0, 0), g, 0x601, 1))
  {
    hide IntosToks, ArgsToks, AllInto, WordsOf, ParseExec;
    var before, args := [Into(In, f)], [Arg(a, [Into(Out, g)]), Arg(b, [])];
    var ts: seq<Token<W>> := [Sym('<'), Word(f), Word(a), Sym('>'), Word(g), Word(b)];
    OneInto(In, f);
    OneInto(Out, g);
    TwoArgs(args[0], args[1]);
    assert IntosToks<W>([]) == [] by { NoInto<W>(); }
    SimpleParses(before, args, []);
    assert IntosToks(before) + ArgsToks(args) + [] == ts;
    assert before + AllInto(args) == [Into(In, f), Into(Out, g)];
    FirstInnermost(Exec([a, b]), [Into(In, f), Into(Out, g)]);
    OneCommand(ts, Redir(Redir(Exec([a, b]), f, 0, 0), g, 0x601, 1));
  }

  lemma NoInto<W>()
    ensures IntosToks<W>([]) == []
  {
  }

  /** a >> f */
  lemma Appended<W>(a: W, f: W)
    ensures ParseTokens([Word(a), Append, Word(f)]) == Ok(Redir(Exec([a]), f, 0x201, 1))
  {
    hide IntosToks, ArgsToks, AllInto, WordsOf, ParseExec;
    var args := [Arg(a, [Into(Appending, f)])];
    var ts: seq<Token<W>> := [Word(a), Append, Word(f)];
    OneInto(Appending, f);
    OneArg(args[0]);
    NoInto<W>();
    SimpleParses([], args, []);
    assert IntosToks([]) + ArgsToks(args) + [] == ts;
    assert [] + AllInto(args) == [Into(Appending, f)];
    FirstInnermost(Exec([a]), [Into(Appending, f)]);
    OneCommand(ts, Redir(Exec([a]), f, 0x201, 1));
  }

  lemma OneWord<W>(a: W, rest: seq<Token<W>>)
    requires AfterPart(rest)
    ensures ParseExec([Word(a)] + rest) == Ok((Exec([a]), rest))
  {
    hide IntosToks, ArgsToks, AllInto, WordsOf, ParseExec;
    OneArg(Arg(a, []));
    NoInto<W>();
    SimpleParses([], [Arg(a, [])], rest);
    assert IntosToks([]) + ArgsToks([Arg(a, [])]) + rest == [Word(a)] + rest;
    assert [] + AllInto([Arg(a, [])]) == [];
  }

  /** a | b | c, and a & ; b */
  lemma PipedAndListed<W>(a: W, b: W, c: W)
    ensures ParseTokens([Word(a), Sym('|'), Word(b), Sym('|'), Word(c)])
            == Ok(Pipe(Exec([a]), Pipe(Exec([b]), Exec([c]))))
    ensures ParseTokens([Word(a), Sym('&'), Sym(';'), Word(b)]) == Ok(List(Back(Exec([a])), Exec([b])))
  {
    hide ParseExec;
    var one: seq<Token<W>>, two := [Word(c)], [Word(b), Sym('|'), Word(c)];
    var three := [Word(a), Sym('|')] + two;
    OneWord(c, []);
    assert one == [Word(c)] + [];
    OneWord(b, [Sym('|')] + one);
    assert two == [Word(b)] + ([Sym('|')] + one) && ([Sym('|')] + one)[1..] == one;
    assert ParsePipe(two) == Ok((Pipe(Exec([b]), Exec([c])), []));
    OneWord(a, [Sym('|')] + two);
    assert three == [Word(a)] + ([Sym('|')] + two) && ([Sym('|')] + two)[1..] == two;
    assert ParsePipe(three) == Ok((Pipe(Exec([a]), Pipe(Exec([b]), Exec([c]))), []));
    assert three == [Word(a), Sym('|'), Word(b), Sym('|'), Word(c)];

    var rest: seq<Token<W>> := [Sym('&'), Sym(';'), Word(b)];
    OneWord(a, rest);
    OneWord(b, []);
    assert rest[1..] == [Sym(';'), Word(b)] && rest[1..][1..] == [Word(b)] == [Word(b)] + [];
    assert ParsePipe([Word(b)]) == Ok((Exec([b]), []));
    assert ParseLine([Word(b)]) == Ok((Exec([b]), []));
    assert [Word(a)] + rest == [Word(a), Sym('&'), Sym(';'), Word(b)];
    assert ParsePipe([Word(a)] + rest) == Ok((Exec([a]), rest));
    assert Backs(Exec([a]), rest) == (Back(Exec([a])), rest[1..]);
  }

  /** ( a ) > f */
  lemma BlockRedirected<W>(a: W, f: W)
    ensures ParseTokens([Sym('('), Word(a), Sym(')'), Sym('>'), Word(f)]) == Ok(Redir(Exec([a]), f, 0x601, 1))
  {
    hide Args;
    var close: seq<Token<W>> := [Sym(')'), Sym('>'), Word(f)];
    var inner := [Word(a)] + close;
    OneWord(a, close);
    assert ParsePipe(inner) == Ok((Exec([a]), close));
    assert Backs(Exec([a]), close) == (Exec([a]), close);
    assert ParseLine(inner) == Ok((Exec([a]), close));
    Tail(Sym('('), inner);
    assert close[1..] == [Sym('>'), Word(f)] && close[1..][2..] == [];
    assert Redirs(Exec([a]), close[1..]) == Ok((Redir(Exec([a]), f, 0x601, 1), []));
    assert ParseExec([Sym('(')] + inner) == Redirs(Exec([a]), close[1..]);
    OneCommand([Sym('(')] + inner, Redir(Exec([a]), f, 0x601, 1));
    assert [Sym('(')] + inner == [Sym('('), Word(a), Sym(')'), Sym('>'), Word(f)];
  }
}
