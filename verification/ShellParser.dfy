/**
  The recursive descent parser of user/sh.c: gettoken, peek and the parse functions over a shared cursor, each doing
  what the grammar over tokens says, and nulterminate over the line.
 */
module ShellParser {
  import opened ShellGrammar

  function At(line: string, s: nat): char { if s < |line| then line[s] else '\0' }

  /** What gettoken returns for a token. */
  function Code(t: Tok): char {
    match t
    case Sym(c) => c
    case Append => '+'
    case Word(_) => 'a'
  }

  /** A token whose first character is among toks, all of which are symbols. */
  predicate Leads(ts: seq<Tok>, toks: string) {
    |ts| > 0 && match ts[0]
                case Sym(c) => c in toks
                case Append => '>' in toks
                case Word(_) => false
  }

  class Parser {
    const line: string
    var s: nat

    constructor (line: string)
      requires '\0' !in line
      ensures this.line == line && s == 0 && Valid()
    {
      this.line, s := line, 0;
    }

    predicate Valid()
      reads this
    {
      s <= |line| && '\0' !in line
    }

    /** The tokens still to be read. */
    ghost function Rest(): seq<Tok>
      requires Valid()
      reads this
    {
      Lex(line, s)
    }

    method SkipWhite()
      requires Valid()
      modifies this
      ensures Valid() && s == Skip(line, old(s)) && Rest() == old(Rest())
    {
      ghost var s0 := s;
      while s < |line| && White(line[s])
        invariant Valid() && Skip(line, s) == Skip(line, s0)
        decreases |line| - s
      {
        s := s + 1;
      }
      SkipTwice(line, s0);
    }

    method Peek(toks: string) returns (r: bool)
      requires Valid() && forall c :: c in toks ==> Symbol(c)
      modifies this
      ensures Valid() && s == Skip(line, old(s)) && Rest() == old(Rest()) && r == Leads(Rest(), toks)
    {
      SkipWhite();
      r := At(line, s) != '\0' && At(line, s) in toks;
    }

    method GetToken() returns (tok: char, w: Span)
      requires Valid()
      modifies this
      ensures Valid()
      ensures old(Rest()) == [] ==> tok == '\0' && Rest() == []
      ensures old(Rest()) != [] ==>
                tok == Code(old(Rest())[0]) && Rest() == old(Rest())[1..]
                && (old(Rest())[0].Word? ==> w == old(Rest())[0].w)
    {
      SkipWhite();
      ghost var ts, q := Rest(), s;
      w := Span(s, s);
      tok := At(line, s);
      if tok == '\0' {
        return;
      }
      assert ts == [TokAt(line, q)] + Lex(line, TokEnd(line, q));
      if tok == '|' || tok == '(' || tok == ')' || tok == ';' || tok == '&' || tok == '<' {
        s := s + 1;
      } else if tok == '>' {
        s := s + 1;
        if At(line, s) == '>' {
          tok := '+';
          s := s + 1;
        }
      } else {
        tok := 'a';
        while s < |line| && !White(line[s]) && !Symbol(line[s])
          invariant Valid() && WordEnd(line, s) == WordEnd(line, q)
          decreases |line| - s
        {
          s := s + 1;
        }
        w := Span(w.q, s);
      }
      assert s == TokEnd(line, q);
      SkipWhite();
    }

    method ParseRedirs(cmd0: Cmd) returns (r: Result<Cmd>)
      requires Valid()
      modifies this
      ensures Valid() && Same(r, Redirs(cmd0, old(Rest())), Rest())
    {
      var cmd := cmd0;
      ghost var ts0 := Rest();
      while true
        invariant Valid() && Redirs(cmd, Rest()) == Redirs(cmd0, ts0)
        decreases |Rest()|
      {
        var more := Peek("<>");
        ghost var ts := Rest();
        if !more {
          break;
        }
        var tok, _ := GetToken();
        var word, w := GetToken();
        if word != 'a' {
          return Panic;
        }
        if tok == '<' {
          cmd := Redir(cmd, w, O_RDONLY, 0);
        } else if tok == '>' {
          cmd := Redir(cmd, w, O_WRONLY_CREATE_TRUNC, 1);
        } else {
          cmd := Redir(cmd, w, O_WRONLY_CREATE, 1);
        }
        NotWordCodes(ts);
        assert ts[1..][1..] == ts[2..];
      }
      r := Ok(cmd);
    }

    method ParseBlock() returns (r: Result<Cmd>)
      requires Valid() && StartsWith(Rest(), '(')
      modifies this
      ensures Valid() && Same(r, ParseExec(old(Rest())), Rest())
      decreases |Rest()|, 0
    {
      hide ParseLine, Lex, Redirs;
      ghost var ts := Rest();
      var open := Peek("(");
      if !open {
        assert false;   // "parseblock" is unreachable
        return Panic;
      }
      var _, _ := GetToken();
      var cmd := ParseOneLine();
      if cmd.Panic? {
        return Panic;
      }
      var close := Peek(")");
      if !close {
        return Panic;
      }
      var _, _ := GetToken();
      r := ParseRedirs(cmd.value);
    }

    /**
      parseexec. The words go into the exec at the bottom of ret, which is what WithArgs says once they are all there.
     */
    method ParseOneExec() returns (r: Result<Cmd>)
      requires Valid()
      modifies this
      ensures Valid() && Same(r, ParseExec(old(Rest())), Rest())
      decreases |Rest()|, 1
    {
      hide ParseLine, Lex, Redirs;
      var block := Peek("(");
      if block {
        r := ParseBlock();
        return;
      }
      ghost var ts0 := Rest();
      var ret := ParseRedirs(Exec([]));
      if ret.Panic? {
        return Panic;
      }
      var cmd := ret.value;
      var argv: seq<Span> := [];
      ghost var all := Args(cmd, [], Rest());
      while true
        invariant Valid() && Args(cmd, argv, Rest()) == all && |argv| < MAXARGS
        decreases |Rest()|
      {
        var end := Peek("|)&;");
        ghost var ts := Rest();
        EndLeads(ts);
        if end {
          break;
        }
        var tok, w := GetToken();
        if tok == '\0' {
          CodesNonzero(line, ts);
          break;
        }
        if tok != 'a' {
          return Panic;
        }
        CodeOfWord(line, ts);
        if |argv| + 1 >= MAXARGS {
          return Panic;
        }
        ret := ParseRedirs(cmd);
        if ret.Panic? {
          return Panic;
        }
        argv := argv + [w];
        cmd := ret.value;
      }
      r := Ok(WithArgs(cmd, argv));
    }

    method ParseOnePipe() returns (r: Result<Cmd>)
      requires Valid()
      modifies this
      ensures Valid() && Same(r, ParsePipe(old(Rest())), Rest())
      decreases |Rest()|, 2
    {
      hide ParseExec, Lex;
      r := ParseOneExec();
      if r.Panic? {
        return;
      }
      var bar := Peek("|");
      if bar {
        var _, _ := GetToken();
        var right := ParseOnePipe();
        if right.Panic? {
          return Panic;
        }
        r := Ok(Pipe(r.value, right.value));
      }
    }

    method ParseOneLine() returns (r: Result<Cmd>)
      requires Valid()
      modifies this
      ensures Valid() && Same(r, ParseLine(old(Rest())), Rest())
      decreases |Rest()|, 3
    {
      hide ParsePipe, Lex;
      ghost var ts0 := Rest();
      r := ParseOnePipe();
      if r.Panic? {
        return;
      }
      var cmd := r.value;
      ghost var b := Backs(cmd, Rest());
      while true
        invariant Valid() && Backs(cmd, Rest()) == b && |Rest()| <= |ts0|
        decreases |Rest()|
      {
        var amp := Peek("&");
        if !amp {
          break;
        }
        var _, _ := GetToken();
        cmd := Back(cmd);
      }
      var semi := Peek(";");
      if semi {
        var _, _ := GetToken();
        var right := ParseOneLine();
        if right.Panic? {
          return Panic;
        }
        cmd := List(cmd, right.value);
      }
      r := Ok(cmd);
    }

    /** parsecmd up to nulterminate: leftovers are a syntax error. */
    method ParseCmd() returns (r: Result<Cmd>)
      requires Valid() && s == 0
      modifies this
      ensures Valid() && r == ParseTokens(Lex(line, 0))
    {
      hide ParseLine;
      r := ParseOneLine();
      if r.Panic? {
        return;
      }
      var _ := Peek("");
      if s != |line| {
        return Panic;
      }
    }
  }

  /** A method's result agrees with the grammar's, and so do the tokens left. */
  ghost predicate Same(r: Result<Cmd>, g: Result<(Cmd, seq<Tok>)>, rest: seq<Tok>) {
    match g
    case Panic => r.Panic?
    case Ok(v) => r == Ok(v.0) && rest == v.1
  }

  lemma NotWordCodes(ts: seq<Tok>)
    requires StartsRedir(ts)
    ensures Code(ts[0]) == '<' ==> ts[0] == Sym('<')
    ensures Code(ts[0]) == '>' ==> ts[0] == Sym('>')
  {
  }

  lemma EndLeads(ts: seq<Tok>)
    ensures Leads(ts, "|)&;") == EndsExec(ts)
  {
  }

  /** The tokens of a line are never the end of the string, and only words have the code of a word. */
  ghost predicate LexedFrom(line: string, ts: seq<Tok>) { exists s :: 0 <= s <= |line| && ts == Lex(line, s) }

  lemma CodesNonzero(line: string, ts: seq<Tok>)
    requires LexedFrom(line, ts)
    ensures |ts| > 0 ==> Code(ts[0]) != '\0'
  {
  }

  lemma CodeOfWord(line: string, ts: seq<Tok>)
    requires LexedFrom(line, ts) && |ts| > 0 && Code(ts[0]) == 'a'
    ensures ts[0].Word?
  {
  }

  // ---------- nulterminate ----------

  /** A word of the line: plain characters, and none just after it. */
  predicate WordSpan(line: string, w: Span) {
    && w.q < w.eq <= |line| && (forall k :: w.q <= k < w.eq ==> Plain(line[k]))
       && (w.eq < |line| ==> !Plain(line[w.eq]))
  }

  predicate GoodToks(line: string, ts: seq<Tok>) {
    forall i :: 0 <= i < |ts| && ts[i].Word? ==> WordSpan(line, ts[i].w)
  }

  predicate GoodSpans(line: string, c: Cmd) {
    match c
    case Exec(argv) => forall i :: 0 <= i < |argv| ==> WordSpan(line, argv[i])
    case Redir(d, f, _, _) => GoodSpans(line, d) && WordSpan(line, f)
    case Pipe(l, r) => GoodSpans(line, l) && GoodSpans(line, r)
    case List(l, r) => GoodSpans(line, l) && GoodSpans(line, r)
    case Back(d) => GoodSpans(line, d)
  }

  ghost predicate GoodResult(line: string, r: Result<(Cmd, seq<Tok>)>) {
    r.Ok? ==> GoodSpans(line, r.value.0) && GoodToks(line, r.value.1)
  }

  lemma {:induction false} LexGood(line: string, s: nat)
    requires s <= |line|
    ensures GoodToks(line, Lex(line, s))
    decreases |line| - s
  {
    var t := Skip(line, s);
    if t < |line| {
      LexGood(line, TokEnd(line, t));
      assert Lex(line, s) == [TokAt(line, t)] + Lex(line, TokEnd(line, t));
      FirstGood(line, t);
    }
  }

  lemma FirstGood(line: string, t: nat)
    requires t < |line| && !White(line[t])
    ensures TokAt(line, t).Word? ==> WordSpan(line, TokAt(line, t).w)
  {
  }

  lemma {:induction false} RedirsGood(line: string, c: Cmd, ts: seq<Tok>)
    requires GoodSpans(line, c) && GoodToks(line, ts)
    ensures GoodResult(line, Redirs(c, ts))
    decreases |ts|
  {
    if StartsRedir(ts) && |ts| >= 2 && ts[1].Word? {
      RedirsGood(line, Redir(c, ts[1].w, ModeOf(ts[0]), FdOf(ts[0])), ts[2..]);
    }
  }

  lemma {:induction false} WithArgsGood(line: string, c: Cmd, argv: seq<Span>)
    requires GoodSpans(line, c) && forall i :: 0 <= i < |argv| ==> WordSpan(line, argv[i])
    ensures GoodSpans(line, WithArgs(c, argv))
  {
    if c.Redir? { WithArgsGood(line, c.cmd, argv); }
  }

  lemma {:induction false} ArgsGood(line: string, c: Cmd, argv: seq<Span>, ts: seq<Tok>)
    requires GoodSpans(line, c) && GoodToks(line, ts) && forall i :: 0 <= i < |argv| ==> WordSpan(line, argv[i])
    ensures GoodResult(line, Args(c, argv, ts))
    decreases |ts|
  {
    WithArgsGood(line, c, argv);
    if |ts| > 0 && !EndsExec(ts) && ts[0].Word? && |argv| + 1 < MAXARGS {
      RedirsGood(line, c, ts[1..]);
      var r := Redirs(c, ts[1..]);
      if r.Ok? { ArgsGood(line, r.value.0, argv + [ts[0].w], r.value.1); }
    }
  }

  lemma {:induction false} ExecGood(line: string, ts: seq<Tok>)
    requires GoodToks(line, ts)
    ensures GoodResult(line, ParseExec(ts))
    decreases |ts|, 0
  {
    if StartsWith(ts, '(') {
      LineGood(line, ts[1..]);
      var v := ParseLine(ts[1..]);
      if v.Ok? && StartsWith(v.value.1, ')') { RedirsGood(line, v.value.0, v.value.1[1..]); }
    } else {
      RedirsGood(line, Exec([]), ts);
      var v := Redirs(Exec([]), ts);
      if v.Ok? { ArgsGood(line, v.value.0, [], v.value.1); }
    }
  }

  lemma {:induction false} PipeGood(line: string, ts: seq<Tok>)
    requires GoodToks(line, ts)
    ensures GoodResult(line, ParsePipe(ts))
    decreases |ts|, 1
  {
    ExecGood(line, ts);
    var v := ParseExec(ts);
    if v.Ok? && StartsWith(v.value.1, '|') { PipeGood(line, v.value.1[1..]); }
  }

  lemma {:induction false} BacksGood(line: string, c: Cmd, ts: seq<Tok>)
    requires GoodSpans(line, c) && GoodToks(line, ts)
    ensures GoodSpans(line, Backs(c, ts).0) && GoodToks(line, Backs(c, ts).1)
    decreases |ts|
  {
    if StartsWith(ts, '&') { BacksGood(line, Back(c), ts[1..]); }
  }

  /** All words of a parsed command are whole words of the line. */
  lemma {:induction false} LineGood(line: string, ts: seq<Tok>)
    requires GoodToks(line, ts)
    ensures GoodResult(line, ParseLine(ts))
    decreases |ts|, 2
  {
    PipeGood(line, ts);
    var v := ParsePipe(ts);
    if v.Ok? {
      BacksGood(line, v.value.0, v.value.1);
      var b := Backs(v.value.0, v.value.1);
      if StartsWith(b.1, ';') { LineGood(line, b.1[1..]); }
    }
  }

  lemma ParsedGood(line: string)
    ensures ParseTokens(Lex(line, 0)).Ok? ==> GoodSpans(line, ParseTokens(Lex(line, 0)).value)
  {
    LexGood(line, 0);
    LineGood(line, Lex(line, 0));
  }

  /** The places right after the words of a command. */
  function Ends(c: Cmd): set<nat> {
    match c
    case Exec(argv) => set i | 0 <= i < |argv| :: argv[i].eq
    case Redir(d, f, _, _) => Ends(d) + {f.eq}
    case Pipe(l, r) => Ends(l) + Ends(r)
    case List(l, r) => Ends(l) + Ends(r)
    case Back(d) => Ends(d)
  }

  /** buf is the line and its final NUL with a NUL at each of the given places. */
  predicate Cut(buf: seq<char>, line: string, ends: set<nat>) {
    |buf| == |line| + 1 && forall k :: 0 <= k < |buf| ==> buf[k] == if k in ends || k == |line| then '\0' else line[k]
  }

  /** nulterminate: exactly the ends of the command's words become NULs. */
  method Nulterminate(buf: array<char>, ghost line: string, c: Cmd, ghost done: set<nat>)
    requires GoodSpans(line, c) && Cut(buf[..], line, done)
    modifies buf
    ensures Cut(buf[..], line, done + Ends(c))
    decreases c
  {
    match c
    case Exec(argv) =>
      var i := 0;
      while i < |argv|
        invariant i <= |argv| && Cut(buf[..], line, done + set j | 0 <= j < i :: argv[j].eq)
      {
        buf[argv[i].eq] := '\0';
        i := i + 1;
      }
    case Redir(d, f, _, _) =>
      Nulterminate(buf, line, d, done);
      assert buf.Length == |line| + 1;
      buf[f.eq] := '\0';
    case Pipe(l, r) =>
      Nulterminate(buf, line, l, done);
      Nulterminate(buf, line, r, done + Ends(l));
      assert done + Ends(l) + Ends(r) == done + (Ends(l) + Ends(r));
    case List(l, r) =>
      Nulterminate(buf, line, l, done);
      Nulterminate(buf, line, r, done + Ends(l));
      assert done + Ends(l) + Ends(r) == done + (Ends(l) + Ends(r));
    case Back(d) =>
      Nulterminate(buf, line, d, done);
  }

  /** The NUL-terminated string at q. */
  function CStringAt(buf: seq<char>, q: nat): string
    requires q < |buf|
    decreases |buf| - q
  {
    if buf[q] == '\0' || q + 1 == |buf| then "" else [buf[q]] + CStringAt(buf, q + 1)
  }

  lemma {:induction false} CStringIs(buf: seq<char>, q: nat, e: nat)
    requires q <= e < |buf| && buf[e] == '\0' && forall k :: q <= k < e ==> buf[k] != '\0'
    ensures CStringAt(buf, q) == buf[q..e]
    decreases e - q
  {
    if q < e {
      CStringIs(buf, q + 1, e);
      assert buf[q..e] == [buf[q]] + buf[q + 1..e];
    }
  }

  predicate SpanIn(w: Span, c: Cmd) {
    match c
    case Exec(argv) => w in argv
    case Redir(d, f, _, _) => w == f || SpanIn(w, d)
    case Pipe(l, r) => SpanIn(w, l) || SpanIn(w, r)
    case List(l, r) => SpanIn(w, l) || SpanIn(w, r)
    case Back(d) => SpanIn(w, d)
  }

  lemma {:induction false} EndsAreWordEnds(line: string, c: Cmd, w: Span, e: nat)
    requires GoodSpans(line, c)
    ensures SpanIn(w, c) ==> w.eq in Ends(c) && WordSpan(line, w)
    ensures e in Ends(c) ==> e <= |line| && (e < |line| ==> !Plain(line[e]))
  {
    match c
    case Exec(argv) => if w in argv { var i :| 0 <= i < |argv| && argv[i] == w; assert argv[i].eq in Ends(c); }
    case Redir(d, _, _, _) => EndsAreWordEnds(line, d, w, e);
    case Pipe(l, r) => EndsAreWordEnds(line, l, w, e); EndsAreWordEnds(line, r, w, e);
    case List(l, r) => EndsAreWordEnds(line, l, w, e); EndsAreWordEnds(line, r, w, e);
    case Back(d) => EndsAreWordEnds(line, d, w, e);
  }

  /** After nulterminate every word of the command, read as a C string, is that word and nothing more. */
  lemma WordsAreStrings(line: string, buf: seq<char>, c: Cmd, w: Span)
    requires '\0' !in line && GoodSpans(line, c) && Cut(buf, line, Ends(c)) && SpanIn(w, c)
    ensures w.q < |buf| && CStringAt(buf, w.q) == WordText(line, w)
  {
    EndsAreWordEnds(line, c, w, 0);
    forall k | w.q <= k < w.eq ensures buf[k] == line[k] != '\0' {
      EndsAreWordEnds(line, c, w, k);
      assert Plain(line[k]);
      assert line[k] in line;
    }
    CStringIs(buf, w.q, w.eq);
    assert buf[w.q..w.eq] == line[w.q..w.eq];
  }
}
