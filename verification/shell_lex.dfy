/** The tokens of a command line, and the text of tokens with any white space between them. */
module ShellLex {
  import opened Options
  import opened Shell

  // ----- commands with words instead of places -----

  function Str(text: string, w: Span): string {
    if w.q <= w.eq <= |text| then text[w.q..w.eq] else ""
  }

  function StrAll(text: string, ws: seq<Span>): seq<string> {
    seq(|ws|, k requires 0 <= k < |ws| => Str(text, ws[k]))
  }

  /** The command with the words that the places stand for. */
  function Read(cmd: Cmd<Span>, text: string): Cmd<string> {
    match cmd
    case Exec(args) => Exec(StrAll(text, args))
    case Redir(c, file, mode) => Redir(Read(c, text), Str(text, file), mode)
    case Pipe(l, r) => Pipe(Read(l, text), Read(r, text))
    case List(l, r) => List(Read(l, text), Read(r, text))
    case Back(c) => Back(Read(c, text))
  }

  // ----- white space makes no difference to the parser -----

  lemma SkipSkip(text: string, i: nat)
    requires i <= |text|
    ensures Skip(text, Skip(text, i)) == Skip(text, i)
  {}

  lemma TokenSkip(text: string, i: nat)
    requires i <= |text|
    ensures GetToken(text, Skip(text, i)) == GetToken(text, i)
  {
    SkipSkip(text, i);
  }

  lemma RedirsSkip(text: string, i: nat)
    requires i <= |text|
    ensures ParseRedirs(text, Skip(text, i)) == ParseRedirs(text, i)
  {
    SkipSkip(text, i);
  }

  lemma ArgsSkip(text: string, i: nat, args: seq<Span>, rs: seq<Redirect<Span>>)
    requires i <= |text| && |args| < MAXARGS && WordsOk(Exec(args), text) && RedirsOk(rs, text)
    ensures ParseArgs(text, Skip(text, i), args, rs) == ParseArgs(text, i, args, rs)
  {
    SkipSkip(text, i);
    TokenSkip(text, i);
  }

  lemma LineSkip(text: string, i: nat)
    requires i <= |text|
    ensures ParseBlock(text, Skip(text, i)) == ParseBlock(text, i)
    ensures ParseExec(text, Skip(text, i)) == ParseExec(text, i)
    ensures ParsePipe(text, Skip(text, i)) == ParsePipe(text, i)
    ensures ParseLine(text, Skip(text, i)) == ParseLine(text, i)
  {
    SkipSkip(text, i);
    TokenSkip(text, i);
    RedirsSkip(text, i);
    assert ParseExec(text, Skip(text, i)) == ParseExec(text, i);
    assert ParsePipe(text, Skip(text, i)) == ParsePipe(text, i);
  }

  // ----- tokens -----

  /** A word, a symbol, or >>. */
  datatype Tok = W(w: string) | S(c: char) | GG

  function TokAt(text: string, t: Token): Tok
    requires t.q <= t.eq <= |text| && !t.kind.EndOfInput?
  {
    match t.kind
    case Word => W(text[t.q..t.eq])
    case Symbol(c) => S(c)
    case DoubleGreater => GG
  }

  /** The tokens that gettoken() returns one after the other. */
  function Toks(text: string, i: nat): seq<Tok>
    requires i <= |text|
    decreases |text| - i
  {
    var t := GetToken(text, i);
    if t.kind.EndOfInput? then [] else [TokAt(text, t)] + Toks(text, t.at)
  }

  lemma SkipToks(text: string, i: nat)
    requires i <= |text|
    ensures Toks(text, Skip(text, i)) == Toks(text, i)
  {
    hide GetToken;
    TokenSkip(text, i);
  }

  lemma NextTok(text: string, i: nat)
    requires i <= |text|
    ensures Toks(text, i) == [] <==> GetToken(text, i).kind.EndOfInput?
    ensures var t := GetToken(text, i); Toks(text, i) != [] ==>
      t.q <= t.eq <= t.at <= |text| && Toks(text, i)[0] == TokAt(text, t) && Toks(text, t.at) == Toks(text, i)[1..]
  {
    hide GetToken;
  }

  /** The token begins with one of the symbols. */
  predicate Starts(t: Tok, toks: string) {
    match t case W(_) => false case S(c) => c in toks case GG => '>' in toks
  }

  predicate StartsWith(ts: seq<Tok>, toks: string) {
    ts != [] && Starts(ts[0], toks)
  }

  lemma PeekTok(text: string, i: nat, toks: string)
    requires i <= |text| && forall k | 0 <= k < |toks| :: IsSymbol(toks[k])
    ensures Peek(text, i, toks) <==> StartsWith(Toks(text, i), toks)
  {
    var s := Skip(text, i);
    NextTok(text, i);
    if s < |text| && !IsSymbol(text[s]) {
      assert text[s] !in toks;
    }
  }

  // ----- text -----

  /** The characters of `whitespace`, and those of `symbols`. */
  predicate Blank(c: char) {
    c in " \t\r\n" || c == 11 as char
  }

  predicate Special(c: char) {
    c in "<|>&;()"
  }

  lemma SameChars(c: char)
    ensures Blank(c) <==> IsSpace(c)
    ensures Special(c) <==> IsSymbol(c)
    ensures !(Blank(c) && Special(c))
  {}

  predicate ProperTok(t: Tok) {
    match t
    case W(w) => w != "" && forall k | 0 <= k < |w| :: !Blank(w[k]) && !Special(w[k])
    case S(c) => Special(c)
    case GG => true
  }

  predicate ProperToks(ts: seq<Tok>) {
    forall k | 0 <= k < |ts| :: ProperTok(ts[k])
  }

  function TokStr(t: Tok): string {
    match t case W(w) => w case S(c) => [c] case GG => ">>"
  }

  /** Two tokens that would be one, or others, without a blank between them. */
  predicate Clash(t: Tok, u: Tok) {
    (t.W? && u.W?) || (t == S('>') && (u == S('>') || u == GG))
  }

  predicate GapsOk(ts: seq<Tok>, gaps: seq<string>) {
    && |gaps| == |ts| + 1
    && (forall j, k | 0 <= j < |gaps| && 0 <= k < |gaps[j]| :: Blank(gaps[j][k]))
    && (forall k | 1 <= k < |ts| && Clash(ts[k - 1], ts[k]) :: gaps[k] != "")
  }

  /** The tokens with white space before, between and after them. */
  function Spaced(ts: seq<Tok>, gaps: seq<string>): string
    requires |gaps| == |ts| + 1
  {
    if ts == [] then gaps[0] else gaps[0] + TokStr(ts[0]) + Spaced(ts[1..], gaps[1..])
  }

  lemma {:induction false} SkipTo(text: string, i: nat, s: nat)
    requires i <= s <= |text| && (s < |text| ==> !IsSpace(text[s])) && forall k | i <= k < s :: IsSpace(text[k])
    ensures Skip(text, i) == s
    decreases s - i
  {
    if i < s { SkipTo(text, i + 1, s); }
  }

  lemma {:induction false} EndAt(text: string, i: nat, e: nat)
    requires i <= e <= |text| && (e < |text| ==> !IsWordChar(text[e])) && forall k | i <= k < e :: IsWordChar(text[k])
    ensures WordEnd(text, i) == e
    decreases e - i
  {
    if i < e { EndAt(text, i + 1, e); }
  }

  /** The text has u at i, and then v to its end. */
  lemma Splits(text: string, i: nat, u: string, v: string)
    requires i <= |text| && text[i..] == u + v
    ensures i + |u| <= |text| && text[i..i + |u|] == u && text[i + |u|..] == v
    ensures forall k | i <= k < i + |u| :: text[k] == u[k - i]
  {
    var n := |u|;
    assert |text[i..]| == n + |v|;
    assert text[i..i + n] == text[i..][..n] == u;
    assert text[i + n..] == text[i..][n..] == v;
    forall k | i <= k < i + n ensures text[k] == u[k - i] {
      assert text[k] == text[i..i + n][k - i];
    }
  }

  /** The first character of what follows a token does not belong to the token. */
  lemma After(text: string, e: nat, t: Tok, ts: seq<Tok>, gaps: seq<string>)
    requires ProperToks([t] + ts) && GapsOk([t] + ts, gaps)
    requires e <= |text| && |gaps[1..]| == |ts| + 1 && text[e..] == Spaced(ts, gaps[1..])
    ensures Ended(text, e, t)
  {
    if e < |text| {
      assert text[e] == text[e..][0];
      SameChars(text[e]);
      if gaps[1] != "" {
        assert text[e] == gaps[1][0];
      } else if ts != [] {
        var all := [t] + ts;
        assert all[1] == ts[0] && ProperTok(all[1]) && !Clash(all[0], all[1]);
        assert text[e] == TokStr(ts[0])[0];
      }
    }
  }

  /** The token at s is t. */
  predicate TokenHere(text: string, s: nat, t: Tok) {
    && s < |text| && !IsSpace(text[s])
    && var u := GetToken(text, s);
       && !u.kind.EndOfInput? && u.eq == s + |TokStr(t)| && u.at == Skip(text, u.eq) && TokAt(text, u) == t
  }

  /** The character at e does not belong to token t before it. */
  predicate Ended(text: string, e: nat, t: Tok) {
    e < |text| ==> (t.W? ==> !IsWordChar(text[e])) && (t == S('>') ==> text[e] != '>')
  }

  lemma TokenIs(text: string, s: nat, t: Tok)
    requires ProperTok(t) && s + |TokStr(t)| <= |text| && text[s..s + |TokStr(t)|] == TokStr(t)
    requires Ended(text, s + |TokStr(t)|, t)
    ensures TokenHere(text, s, t)
  {
    hide TokenHere, IsWordChar;
    match t
    case W(w) => WordIs(text, s, w);
    case S(c) => SymbolIs(text, s, c);
    case GG => ArrowsAre(text, s);
  }

  lemma WordIs(text: string, s: nat, w: string)
    requires ProperTok(W(w)) && s + |w| <= |text| && text[s..s + |w|] == w
    requires s + |w| < |text| ==> !IsWordChar(text[s + |w|])
    ensures TokenHere(text, s, W(w))
  {
    forall k | s <= k < s + |w| ensures IsWordChar(text[k]) {
      assert text[k] == text[s..s + |w|][k - s];
      SameChars(text[k]);
    }
    SkipTo(text, s, s);
    EndAt(text, s, s + |w|);
  }

  lemma SymbolIs(text: string, s: nat, c: char)
    requires Special(c) && s < |text| && text[s..s + 1] == [c] && (s + 1 < |text| && c == '>' ==> text[s + 1] != '>')
    ensures TokenHere(text, s, S(c))
  {
    assert text[s] == text[s..s + 1][0] == c;
    SameChars(c);
    SkipTo(text, s, s);
  }

  lemma ArrowsAre(text: string, s: nat)
    requires s + 2 <= |text| && text[s..s + 2] == ">>"
    ensures TokenHere(text, s, GG)
  {
    assert text[s] == text[s..s + 2][0] == '>' && text[s + 1] == text[s..s + 2][1] == '>';
    SkipTo(text, s, s);
  }

  /** gettoken() finds the tokens, whatever white space is between them. */
  lemma {:induction false} Lexed(text: string, i: nat, ts: seq<Tok>, gaps: seq<string>)
    requires ProperToks(ts) && GapsOk(ts, gaps) && i <= |text| && text[i..] == Spaced(ts, gaps)
    ensures Toks(text, i) == ts
    decreases |ts|
  {
    hide GetToken, TokenHere, Ended, Toks, ProperTok;
    if ts == [] {
      Splits(text, i, gaps[0], "");
      BlanksTo(text, i, i + |gaps[0]|, gaps[0]);
      NoToken(text, i);
    } else {
      var t, rest, more := ts[0], ts[1..], gaps[1..];
      assert ts == [t] + rest;
      var s, v := i + |gaps[0]|, TokStr(t) + Spaced(rest, more);
      assert text[i..] == gaps[0] + v;
      Splits(text, i, gaps[0], v);
      Splits(text, s, TokStr(t), Spaced(rest, more));
      var e := s + |TokStr(t)|;
      After(text, e, t, rest, gaps);
      TokenIs(text, s, t);
      OneMore(text, i, s, t, gaps[0]);
      RestOk(ts, gaps);
      Lexed(text, e, rest, more);
    }
  }

  lemma OneMore(text: string, i: nat, s: nat, t: Tok, gap: string)
    requires i <= s <= |text| && text[i..s] == gap && (forall k | 0 <= k < |gap| :: Blank(gap[k]))
    requires TokenHere(text, s, t)
    ensures s + |TokStr(t)| <= |text| && Toks(text, i) == [t] + Toks(text, s + |TokStr(t)|)
  {
    hide GetToken, Toks, TokenHere, TokStr, TokAt;
    HereStarts(text, s, t);
    BlanksTo(text, i, s, gap);
    TokenSkip(text, i);
    HereNext(text, i, s, t);
    SkipToks(text, s + |TokStr(t)|);
  }

  lemma HereStarts(text: string, s: nat, t: Tok)
    requires TokenHere(text, s, t)
    ensures s < |text| && !IsSpace(text[s])
  {
    hide GetToken, IsSpace, TokAt;
  }

  lemma HereNext(text: string, i: nat, s: nat, t: Tok)
    requires i <= |text| && s <= |text| && GetToken(text, i) == GetToken(text, s) && TokenHere(text, s, t)
    ensures s + |TokStr(t)| <= |text| && Toks(text, i) == [t] + Toks(text, Skip(text, s + |TokStr(t)|))
  {
    hide GetToken, IsSpace, TokAt, TokStr, Skip;
  }

  lemma BlanksTo(text: string, i: nat, s: nat, gap: string)
    requires i <= s <= |text| && text[i..s] == gap && (s < |text| ==> !IsSpace(text[s]))
    requires forall k | 0 <= k < |gap| :: Blank(gap[k])
    ensures Skip(text, i) == s
  {
    forall k | i <= k < s ensures IsSpace(text[k]) {
      assert text[k] == text[i..s][k - i];
      SameChars(text[k]);
    }
    SkipTo(text, i, s);
  }

  lemma NoToken(text: string, i: nat)
    requires i <= |text| && Skip(text, i) == |text|
    ensures Toks(text, i) == []
  {}

  lemma RestOk(ts: seq<Tok>, gaps: seq<string>)
    requires ts != [] && ProperToks(ts) && GapsOk(ts, gaps)
    ensures ProperToks(ts[1..]) && GapsOk(ts[1..], gaps[1..])
  {
    var rest, more := ts[1..], gaps[1..];
    forall k | 1 <= k < |rest| && Clash(rest[k - 1], rest[k]) ensures more[k] != "" {
      assert rest[k - 1] == ts[k] && rest[k] == ts[k + 1] && more[k] == gaps[k + 1];
      assert Clash(ts[k + 1 - 1], ts[k + 1]);
    }
  }

  /** And every text is that of its tokens. */
  lemma {:induction false} Unlexed(text: string, i: nat) returns (gaps: seq<string>)
    requires i <= |text|
    ensures ProperToks(Toks(text, i)) && GapsOk(Toks(text, i), gaps) && text[i..] == Spaced(Toks(text, i), gaps)
    decreases |text| - i
  {
    hide GetToken, Toks, ProperTok, ProperToks, GapsOk, Clash;
    NextTok(text, i);
    if Toks(text, i) == [] {
      gaps := [text[i..]];
      OnlyBlanks(text, i);
    } else {
      var t := GetToken(text, i);
      var u, gap, ts := TokAt(text, t), text[i..t.q], Toks(text, t.eq);
      FirstTok(text, i);
      var more := Unlexed(text, t.eq);
      gaps := [gap] + more;
      SpacedMore(u, ts, gap, more);
      assert |more| == |ts| + 1 by { GapsCount(ts, more); }
      if ts != [] && Clash(u, ts[0]) {
        FirstProper(ts);
        assert ts == [ts[0]] + ts[1..];
        Apart(text, i, ts[0], ts[1..], more);
      }
      MoreOk(u, ts, gap, more);
    }
  }

  lemma GapsCount(ts: seq<Tok>, gaps: seq<string>)
    requires GapsOk(ts, gaps)
    ensures |gaps| == |ts| + 1
  {}

  lemma FirstProper(ts: seq<Tok>)
    requires ts != [] && ProperToks(ts)
    ensures ProperTok(ts[0])
  {}

  lemma SpacedMore(t: Tok, ts: seq<Tok>, gap: string, gaps: seq<string>)
    requires GapsOk(ts, gaps)
    ensures |gaps| == |ts| + 1 && Spaced([t] + ts, [gap] + gaps) == gap + TokStr(t) + Spaced(ts, gaps)
  {
    assert ([t] + ts)[1..] == ts && ([gap] + gaps)[1..] == gaps;
  }

  lemma OnlyBlanks(text: string, i: nat)
    requires i <= |text| && Toks(text, i) == []
    ensures ProperToks([]) && GapsOk([], [text[i..]]) && text[i..] == Spaced([], [text[i..]])
  {
    Skipped(text, i);
    assert text[i..Skip(text, i)] == text[i..];
  }

  /** The first token of a text and the white space before it. */
  lemma FirstTok(text: string, i: nat)
    requires i <= |text| && Toks(text, i) != []
    ensures var t := GetToken(text, i);
      && i <= t.q <= t.eq <= |text| && i < t.eq && !t.kind.EndOfInput?
      && Toks(text, i) == [TokAt(text, t)] + Toks(text, t.eq) && ProperTok(TokAt(text, t))
      && text[i..] == text[i..t.q] + TokStr(TokAt(text, t)) + text[t.eq..]
      && forall k | 0 <= k < |text[i..t.q]| :: Blank(text[i..t.q][k])
  {
    hide GetToken, Toks, TokStr, ProperTok, TokAt, Blank, Skip;
    NextTok(text, i);
    var t := GetToken(text, i);
    Skipped(text, i);
    ProperAt(text, i);
    TextAt(text, i);
    SkipToks(text, t.eq);
    assert text[i..] == text[i..t.q] + text[t.q..t.eq] + text[t.eq..];
  }

  lemma {:induction false} Skipped(text: string, i: nat)
    requires i <= |text|
    ensures forall k | 0 <= k < |text[i..Skip(text, i)]| :: Blank(text[i..Skip(text, i)][k])
    decreases |text| - i
  {
    if i < |text| && IsSpace(text[i]) {
      Skipped(text, i + 1);
      SameChars(text[i]);
      assert text[i..Skip(text, i)] == [text[i]] + text[i + 1..Skip(text, i + 1)];
    }
  }

  lemma ProperAt(text: string, i: nat)
    requires i <= |text| && !GetToken(text, i).kind.EndOfInput?
    ensures ProperTok(TokAt(text, GetToken(text, i)))
  {
    var t := GetToken(text, i);
    if t.kind.Word? {
      var w := text[t.q..t.eq];
      forall k | 0 <= k < |w| ensures !Blank(w[k]) && !Special(w[k]) {
        assert w[k] == text[t.q + k];
        SameChars(w[k]);
      }
    } else {
      SameChars(text[t.q]);
    }
  }

  lemma TextAt(text: string, i: nat)
    requires i <= |text| && !GetToken(text, i).kind.EndOfInput?
    ensures var t := GetToken(text, i); text[t.q..t.eq] == TokStr(TokAt(text, t))
  {}

  /** A word ends where it does because of a blank or a symbol. */
  lemma Apart(text: string, i: nat, u: Tok, ts: seq<Tok>, gaps: seq<string>)
    requires i <= |text| && !GetToken(text, i).kind.EndOfInput? && ProperTok(u)
    requires |gaps| == |ts| + 2 && text[GetToken(text, i).eq..] == Spaced([u] + ts, gaps)
    requires Clash(TokAt(text, GetToken(text, i)), u)
    ensures gaps[0] != ""
  {
    var t := GetToken(text, i);
    if gaps[0] == "" {
      assert text[t.eq] == text[t.eq..][0] == TokStr(u)[0];
      SameChars(text[t.eq]);
    }
  }

  lemma MoreOk(t: Tok, ts: seq<Tok>, gap: string, gaps: seq<string>)
    requires ProperTok(t) && ProperToks(ts) && GapsOk(ts, gaps) && forall k | 0 <= k < |gap| :: Blank(gap[k])
    requires ts != [] && Clash(t, ts[0]) ==> gaps[0] != ""
    ensures ProperToks([t] + ts) && GapsOk([t] + ts, [gap] + gaps)
  {
    var all, more := [t] + ts, [gap] + gaps;
    forall k | 1 <= k < |all| && Clash(all[k - 1], all[k]) ensures more[k] != "" {
      assert all[k] == ts[k - 1] && more[k] == gaps[k - 1];
      if k > 1 { assert all[k - 1] == ts[k - 1 - 1]; }
    }
  }
}
