/**
  Tokens and text, user/sh.c: whatever blanks are put between tokens, and none where they are not needed, the lexer
  gives the tokens back; and every text is tokens written out in this way.
 */
module ShellLexing {
  import opened ShellGrammar

  /** A token and the blanks in front of it. */
  datatype Piece = Piece(gap: string, tok: Token<string>)

  predicate Blank(g: string) { forall k :: 0 <= k < |g| ==> White(g[k]) }

  predicate PlainWord(w: string) { |w| > 0 && forall k :: 0 <= k < |w| ==> Plain(w[k]) }

  predicate PlainTok(t: Token<string>) {
    match t
    case Sym(c) => Symbol(c)
    case Append => true
    case Word(w) => PlainWord(w)
  }

  function Text(t: Token<string>): string {
    match t
    case Sym(c) => [c]
    case Append => ">>"
    case Word(w) => w
  }

  function Written(ps: seq<Piece>, last: string): string {
    if |ps| == 0 then last else ps[0].gap + (Text(ps[0].tok) + Written(ps[1..], last))
  }

  function ToksIn(ps: seq<Piece>): (r: seq<Token<string>>)
    ensures |r| == |ps| && forall i :: 0 <= i < |r| ==> r[i] == ps[i].tok
  {
    seq(|ps|, i requires 0 <= i < |ps| => ps[i].tok)
  }

  /** The character would become part of the token: a letter behind a word, or a second > behind the first. */
  predicate RunsOn(t: Token<string>, c: char) { (t.Word? && Plain(c)) || (t == Sym('>') && c == '>') }

  /** The text that follows does not become part of the token. */
  predicate Stops(t: Token<string>, more: string) { |more| == 0 || !RunsOn(t, more[0]) }

  /** Tokens with blanks between them, at least where two would become one. */
  predicate Apart(ps: seq<Piece>, last: string) {
    if |ps| == 0 then Blank(last)
    else Blank(ps[0].gap) && PlainTok(ps[0].tok) && Stops(ps[0].tok, Written(ps[1..], last)) && Apart(ps[1..], last)
  }

  // ---------- lexing what was written ----------

  lemma {:induction false} SkipsGap(line: string, s: nat, n: nat)
    requires s + n <= |line| && (forall k :: s <= k < s + n ==> White(line[k]))
    requires s + n < |line| ==> !White(line[s + n])
    ensures Skip(line, s) == s + n
    decreases n
  {
    if n > 0 { SkipsGap(line, s + 1, n - 1); }
  }

  lemma {:induction false} WordEnds(line: string, s: nat, n: nat)
    requires s + n <= |line| && (forall k :: s <= k < s + n ==> Plain(line[k]))
    requires s + n < |line| ==> !Plain(line[s + n])
    ensures WordEnd(line, s) == s + n
    decreases n
  {
    if n > 0 { WordEnds(line, s + 1, n - 1); }
  }

  /** A token of the text at s, with something behind it that does not run on. */
  lemma TokenThere(line: string, s: nat, t: Token<string>, more: string)
    requires PlainTok(t) && s <= |line| && line[s..] == Text(t) + more && Stops(t, more)
    ensures s < |line| && !White(line[s]) && TokText(line, TokAt(line, s)) == t
    ensures TokEnd(line, s) == s + |Text(t)| && line[s + |Text(t)|..] == more
  {
    var x := Text(t);
    var e := s + |x|;
    assert forall k :: 0 <= k < |line| - s ==> line[s + k] == line[s..][k];
    assert line[s..e] == x && line[e..] == more;
    assert e < |line| ==> line[e] == more[0];
    if t.Word? {
      forall k | s <= k < e ensures Plain(line[k]) { assert line[k] == x[k - s]; }
      WordEnds(line, s, |x|);
    } else {
      assert line[s] == x[0];
      if t.Append? { assert line[s + 1] == x[1]; }
    }
  }

  /** The blanks at s, and where they end. */
  lemma GapThere(line: string, s: nat, gap: string, rest: string)
    requires s <= |line| && line[s..] == gap + rest && Blank(gap) && |rest| > 0 && !White(rest[0])
    ensures s + |gap| < |line| && line[s + |gap|..] == rest && Skip(line, s) == s + |gap|
  {
    hide White, Skip;
    var t, all := s + |gap|, gap + rest;
    assert |line[s..]| == |line| - s;
    assert line[t..] == all[|gap|..] == rest;
    assert line[t] == rest[0];
    forall k | s <= k < t ensures White(line[k]) { assert line[k] == line[s..][k - s] == gap[k - s]; }
    SkipsGap(line, s, |gap|);
  }

  lemma TextStarts(t: Token<string>)
    requires PlainTok(t)
    ensures |Text(t)| > 0 && !White(Text(t)[0])
  {
  }

  lemma PieceLexes(line: string, s: nat, p: Piece, more: string)
    requires PlainTok(p.tok) && Blank(p.gap) && Stops(p.tok, more)
    requires s <= |line| && line[s..] == p.gap + (Text(p.tok) + more)
    ensures var e := s + |p.gap| + |Text(p.tok)|;
            e <= |line| && line[e..] == more
            && TokTexts(line, Lex(line, s)) == [p.tok] + TokTexts(line, Lex(line, e))
  {
    hide PlainTok, Text, Stops, TokAt, TokEnd, TokText, White, Skip, Blank, TokTexts, Lex, RunsOn, Plain, Symbol;
    var t, rest := s + |p.gap|, Text(p.tok) + more;
    TextStarts(p.tok);
    assert rest[0] == Text(p.tok)[0];
    GapThere(line, s, p.gap, rest);
    TokenThere(line, t, p.tok, more);
    FirstToken(line, s);
    FirstText(line, TokAt(line, t), Lex(line, TokEnd(line, t)));
  }

  lemma FirstToken(line: string, s: nat)
    requires s <= |line| && Skip(line, s) < |line|
    ensures Lex(line, s) == [TokAt(line, Skip(line, s))] + Lex(line, TokEnd(line, Skip(line, s)))
  {
    hide White, Symbol, Plain, TokAt, TokEnd;
  }

  lemma FirstText(line: string, t: Tok, ts: seq<Tok>)
    ensures TokTexts(line, [t] + ts) == [TokText(line, t)] + TokTexts(line, ts)
  {
    hide TokText;
  }

  lemma NothingLexes(line: string, s: nat)
    requires s <= |line| && Blank(line[s..])
    ensures Lex(line, s) == []
  {
    forall k | s <= k < |line| ensures White(line[k]) { assert line[k] == line[s..][k - s]; }
    SkipsGap(line, s, |line| - s);
  }

  /** The lexer gives back the tokens that were written, whatever blanks they were written with. */
  lemma {:induction false} WrittenLexes(line: string, s: nat, ps: seq<Piece>, last: string)
    requires s <= |line| && line[s..] == Written(ps, last) && Apart(ps, last)
    ensures TokTexts(line, Lex(line, s)) == ToksIn(ps)
    decreases |ps|
  {
    hide Lex, TokTexts, PlainTok, Text, Stops, Blank;
    if |ps| == 0 {
      NothingLexes(line, s);
    } else {
      PieceLexes(line, s, ps[0], Written(ps[1..], last));
      WrittenLexes(line, s + |ps[0].gap| + |Text(ps[0].tok)|, ps[1..], last);
      assert ToksIn(ps) == [ps[0].tok] + ToksIn(ps[1..]);
    }
  }

  // ---------- every text is tokens written out ----------

  lemma {:induction false} OnlyBlanks(line: string, s: nat)
    requires s <= |line|
    ensures forall k :: s <= k < Skip(line, s) ==> White(line[k])
    decreases |line| - s
  {
    if s < |line| && White(line[s]) { OnlyBlanks(line, s + 1); }
  }

  lemma TokenFound(line: string, s: nat)
    requires s < |line| && !White(line[s])
    ensures var t, e := TokText(line, TokAt(line, s)), TokEnd(line, s);
            PlainTok(t) && Text(t) == line[s..e] && Stops(t, line[e..])
  {
    var t, e := TokText(line, TokAt(line, s)), TokEnd(line, s);
    if t.Word? {
      forall k | 0 <= k < |t.w| ensures Plain(t.w[k]) { assert t.w[k] == line[s + k]; }
    }
    assert e < |line| ==> line[e..][0] == line[e];
  }

  lemma {:induction false} EveryText(line: string, s: nat) returns (ps: seq<Piece>, last: string)
    requires s <= |line|
    ensures line[s..] == Written(ps, last) && Apart(ps, last)
    decreases |line| - s
  {
    hide PlainTok, Stops, TokAt, TokText, TokEnd, Text;
    var t := Skip(line, s);
    OnlyBlanks(line, s);
    if t == |line| {
      ps, last := [], line[s..];
    } else {
      var e := TokEnd(line, t);
      TokenFound(line, t);
      var more;
      more, last := EveryText(line, e);
      ps := [Piece(line[s..t], TokText(line, TokAt(line, t)))] + more;
      assert ps[1..] == more;
      assert line[s..] == line[s..t] + (line[t..e] + line[e..]);
    }
  }
}
