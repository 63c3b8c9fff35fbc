/**
  The parser of user/sh.c as functions: the tokens of a line, the recursive descent over tokens, and how a command
  whose words are spans of the line reads.
 */
module ShellGrammar {
  const MAXARGS: nat := 10

  // open modes of kernel/fcntl.h
  const O_RDONLY: nat := 0
  const O_WRONLY_CREATE: nat := 0x201          // O_WRONLY | O_CREATE
  const O_WRONLY_CREATE_TRUNC: nat := 0x601    // O_WRONLY | O_CREATE | O_TRUNC

  /** A word of the line, from q up to but not including eq. */
  datatype Span = Span(q: nat, eq: nat)

  /** Tokens and commands: the parser has spans of the line for words, a reader has strings. */
  datatype Token<W> = Sym(c: char) | Append | Word(w: W)

  datatype Command<W> = Exec(argv: seq<W>) | Redir(cmd: Command<W>, file: W, mode: nat, fd: nat)
                      | Pipe(left: Command<W>, right: Command<W>) | List(left: Command<W>, right: Command<W>)
                      | Back(cmd: Command<W>)

  type Tok = Token<Span>
  type Cmd = Command<Span>

  datatype Result<T> = Panic | Ok(value: T)

  // ---------- tokens ----------

  predicate White(c: char) { c == ' ' || c == '\t' || c == '\r' || c == '\n' || c == '\U{0b}' }

  predicate Symbol(c: char) { c == '<' || c == '|' || c == '>' || c == '&' || c == ';' || c == '(' || c == ')' }

  predicate Plain(c: char) { !White(c) && !Symbol(c) }

  function Skip(line: string, s: nat): (t: nat)
    requires s <= |line|
    ensures s <= t <= |line| && (t < |line| ==> !White(line[t]))
    decreases |line| - s
  {
    if s < |line| && White(line[s]) then Skip(line, s + 1) else s
  }

  /** Where the word at s ends. */
  function WordEnd(line: string, s: nat): (t: nat)
    requires s <= |line|
    ensures s <= t <= |line| && (t < |line| ==> !Plain(line[t])) && forall k :: s <= k < t ==> Plain(line[k])
    decreases |line| - s
  {
    if s < |line| && Plain(line[s]) then WordEnd(line, s + 1) else s
  }

  /** The token that starts at s. */
  function TokAt(line: string, s: nat): Tok
    requires s < |line| && !White(line[s])
  {
    if !Symbol(line[s]) then Word(Span(s, WordEnd(line, s)))
    else if line[s] == '>' && s + 1 < |line| && line[s + 1] == '>' then Append
    else Sym(line[s])
  }

  function TokEnd(line: string, s: nat): (t: nat)
    requires s < |line| && !White(line[s])
    ensures s < t <= |line|
  {
    match TokAt(line, s)
    case Word(w) => w.eq
    case Append => s + 2
    case Sym(_) => s + 1
  }

  /** The tokens of the line from s on. */
  function Lex(line: string, s: nat): seq<Tok>
    requires s <= |line|
    decreases |line| - s
  {
    var t := Skip(line, s);
    if t == |line| then [] else [TokAt(line, t)] + Lex(line, TokEnd(line, t))
  }

  lemma SkipTwice(line: string, s: nat)
    requires s <= |line|
    ensures Skip(line, Skip(line, s)) == Skip(line, s) && Lex(line, Skip(line, s)) == Lex(line, s)
  {
  }

  // ---------- the recursive descent ----------

  predicate StartsWith<W>(ts: seq<Token<W>>, c: char) { |ts| > 0 && ts[0].Sym? && ts[0].c == c }

  predicate StartsRedir<W>(ts: seq<Token<W>>) {
    StartsWith(ts, '<') || StartsWith(ts, '>') || (|ts| > 0 && ts[0].Append?)
  }

  function ModeOf<W>(t: Token<W>): nat {
    if t.Append? then O_WRONLY_CREATE
    else if t.Sym? && t.c == '<' then O_RDONLY
    else if t.Sym? && t.c == '>' then O_WRONLY_CREATE_TRUNC else O_WRONLY_CREATE
  }

  function FdOf<W>(t: Token<W>): nat { if t.Sym? && t.c == '<' then 0 else 1 }

  /** parseredirs: redirections wrap the command from the inside out. */
  function Redirs<W>(cmd: Command<W>, ts: seq<Token<W>>): (r: Result<(Command<W>, seq<Token<W>>)>)
    ensures r.Ok? ==> |r.value.1| <= |ts| && !StartsRedir(r.value.1)
    decreases |ts|
  {
    if !StartsRedir(ts) then Ok((cmd, ts))
    else if |ts| < 2 || !ts[1].Word? then Panic
    else Redirs(Redir(cmd, ts[1].w, ModeOf(ts[0]), FdOf(ts[0])), ts[2..])
  }

  /** The words in the exec at the bottom of a pile of redirections. */
  function WithArgs<W>(cmd: Command<W>, argv: seq<W>): Command<W> {
    match cmd
    case Exec(_) => Exec(argv)
    case Redir(c, f, m, d) => Redir(WithArgs(c, argv), f, m, d)
    case _ => cmd
  }

  predicate EndsExec<W>(ts: seq<Token<W>>) {
    StartsWith(ts, '|') || StartsWith(ts, ')') || StartsWith(ts, '&') || StartsWith(ts, ';')
  }

  /** The loop of parseexec: ret is the command so far, its exec not yet knowing its words argv. */
  function Args<W>(ret: Command<W>, argv: seq<W>, ts: seq<Token<W>>): (r: Result<(Command<W>, seq<Token<W>>)>)
    ensures r.Ok? ==> |r.value.1| <= |ts|
    decreases |ts|
  {
    if |ts| == 0 || EndsExec(ts) then Ok((WithArgs(ret, argv), ts))
    else if !ts[0].Word? || |argv| + 1 >= MAXARGS then Panic
    else match Redirs(ret, ts[1..])
      case Panic => Panic
      case Ok(v) => Args(v.0, argv + [ts[0].w], v.1)
  }

  function ParseExec<W>(ts: seq<Token<W>>): (r: Result<(Command<W>, seq<Token<W>>)>)
    ensures r.Ok? ==> |r.value.1| <= |ts|
    decreases |ts|, 0
  {
    if StartsWith(ts, '(') then
      match ParseLine(ts[1..])
      case Panic => Panic
      case Ok(v) => if !StartsWith(v.1, ')') then Panic else Redirs(v.0, v.1[1..])
    else match Redirs(Exec([]), ts)
      case Panic => Panic
      case Ok(v) => Args(v.0, [], v.1)
  }

  function ParsePipe<W>(ts: seq<Token<W>>): (r: Result<(Command<W>, seq<Token<W>>)>)
    ensures r.Ok? ==> |r.value.1| <= |ts|
    decreases |ts|, 1
  {
    match ParseExec(ts)
    case Panic => Panic
    case Ok(v) =>
      if !StartsWith(v.1, '|') then Ok(v) else
      match ParsePipe(v.1[1..])
      case Panic => Panic
      case Ok(w) => Ok((Pipe(v.0, w.0), w.1))
  }

  function Backs<W>(cmd: Command<W>, ts: seq<Token<W>>): (r: (Command<W>, seq<Token<W>>))
    ensures |r.1| <= |ts| && !StartsWith(r.1, '&')
    decreases |ts|
  {
    if StartsWith(ts, '&') then Backs(Back(cmd), ts[1..]) else (cmd, ts)
  }

  function ParseLine<W>(ts: seq<Token<W>>): (r: Result<(Command<W>, seq<Token<W>>)>)
    ensures r.Ok? ==> |r.value.1| <= |ts|
    decreases |ts|, 2
  {
    match ParsePipe(ts)
    case Panic => Panic
    case Ok(v) =>
      var b := Backs(v.0, v.1);
      if !StartsWith(b.1, ';') then Ok(b) else
      match ParseLine(b.1[1..])
      case Panic => Panic
      case Ok(w) => Ok((List(b.0, w.0), w.1))
  }

  /** parsecmd: the whole line is one command. */
  function ParseTokens<W>(ts: seq<Token<W>>): Result<Command<W>> {
    match ParseLine(ts)
    case Panic => Panic
    case Ok(v) => if v.1 == [] then Ok(v.0) else Panic
  }

  // ---------- how tokens and commands read ----------

  function WordText(line: string, w: Span): string { if w.q <= w.eq <= |line| then line[w.q..w.eq] else "" }

  /** The command as it reads. */
  function TreeOf(line: string, c: Cmd): Command<string> {
    match c
    case Exec(argv) => Exec(seq(|argv|, i requires 0 <= i < |argv| => WordText(line, argv[i])))
    case Redir(d, f, m, fd) => Redir(TreeOf(line, d), WordText(line, f), m, fd)
    case Pipe(l, r) => Pipe(TreeOf(line, l), TreeOf(line, r))
    case List(l, r) => List(TreeOf(line, l), TreeOf(line, r))
    case Back(d) => Back(TreeOf(line, d))
  }

  function TokText(line: string, t: Tok): Token<string> {
    match t
    case Sym(c) => Sym(c)
    case Append => Append
    case Word(w) => Word(WordText(line, w))
  }

  function TokTexts(line: string, ts: seq<Tok>): (r: seq<Token<string>>)
    ensures |r| == |ts| && forall i :: 0 <= i < |r| ==> r[i] == TokText(line, ts[i])
  {
    seq(|ts|, i requires 0 <= i < |ts| => TokText(line, ts[i]))
  }
}
