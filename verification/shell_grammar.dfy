/** The language of command lines as a grammar, and the proof that parsecmd() decides it: it accepts exactly the texts
    that the grammar yields with any white space, and builds the command that the grammar gives them. */
module ShellGrammar {
  import opened Options
  import opened Shell
  import opened ShellLex

  // ----- the grammar -----

  type Redirection = Redirect<string>

  /** A word of a simple command and the redirections after it. */
  datatype Part = Part(word: string, rs: seq<Redirection>)

  /** A parenthesised line with redirections after it, or a simple command, which may be empty. */
  datatype Exe = Block(line: Line, rs: seq<Redirection>) | Simple(pre: seq<Redirection>, parts: seq<Part>)

  datatype Pipeline = Pipeline(first: Exe, more: Option<Pipeline>)

  /** A pipeline, any number of &, and perhaps another line after a semicolon. */
  datatype Line = Line(pipe: Pipeline, backs: nat, more: Option<Line>)

  function ArrowTok(mode: Mode): Tok {
    match mode case Input => S('<') case Output => S('>') case Append => GG
  }

  function RedirToks(rs: seq<Redirection>): seq<Tok> {
    if rs == [] then [] else [ArrowTok(rs[0].mode), W(rs[0].file)] + RedirToks(rs[1..])
  }

  function PartToks(parts: seq<Part>): seq<Tok> {
    if parts == [] then [] else [W(parts[0].word)] + RedirToks(parts[0].rs) + PartToks(parts[1..])
  }

  function Amps(n: nat): seq<Tok> {
    if n == 0 then [] else [S('&')] + Amps(n - 1)
  }

  function ExeToks(e: Exe): seq<Tok> {
    match e
    case Block(line, rs) => [S('(')] + LineToks(line) + [S(')')] + RedirToks(rs)
    case Simple(pre, parts) => RedirToks(pre) + PartToks(parts)
  }

  function PipeToks(p: Pipeline): seq<Tok> {
    ExeToks(p.first) + match p.more case None => [] case Some(m) => [S('|')] + PipeToks(m)
  }

  function LineToks(l: Line): seq<Tok> {
    PipeToks(l.pipe) + Amps(l.backs) + match l.more case None => [] case Some(m) => [S(';')] + LineToks(m)
  }

  // ----- what it means -----

  function Words(parts: seq<Part>): seq<string> {
    if parts == [] then [] else [parts[0].word] + Words(parts[1..])
  }

  function PartRedirs(parts: seq<Part>): seq<Redirection> {
    if parts == [] then [] else parts[0].rs + PartRedirs(parts[1..])
  }

  function Backs(c: Cmd<string>, n: nat): Cmd<string>
    decreases n
  {
    if n == 0 then c else Backs(Back(c), n - 1)
  }

  function ExeCmd(e: Exe): Cmd<string> {
    match e
    case Block(line, rs) => Wrap(LineCmd(line), rs)
    case Simple(pre, parts) => Wrap(Exec(Words(parts)), pre + PartRedirs(parts))
  }

  function PipeCmd(p: Pipeline): Cmd<string> {
    match p.more case None => ExeCmd(p.first) case Some(m) => Pipe(ExeCmd(p.first), PipeCmd(m))
  }

  function LineCmd(l: Line): Cmd<string> {
    match l.more
    case None => Backs(PipeCmd(l.pipe), l.backs)
    case Some(m) => List(Backs(PipeCmd(l.pipe), l.backs), LineCmd(m))
  }

  /** No simple command has more than 9 words. */
  predicate ExeFits(e: Exe) {
    match e case Block(line, _) => LineFits(line) case Simple(_, parts) => |parts| <= 9
  }

  predicate PipeFits(p: Pipeline) {
    ExeFits(p.first) && (p.more.Some? ==> PipeFits(p.more.value))
  }

  predicate LineFits(l: Line) {
    PipeFits(l.pipe) && (l.more.Some? ==> LineFits(l.more.value))
  }

  // ----- what may follow -----

  predicate EndLine(ts: seq<Tok>) {
    ts == [] || ts[0] == S(')')
  }

  predicate EndPipe(ts: seq<Tok>) {
    EndLine(ts) || ts[0] == S('&') || ts[0] == S(';')
  }

  predicate EndExe(ts: seq<Tok>) {
    EndPipe(ts) || ts[0] == S('|')
  }

  // ----- the parser reads what the grammar yields -----

  function ReadRs(text: string, rs: seq<Redirect<Span>>): seq<Redirection> {
    seq(|rs|, k requires 0 <= k < |rs| => Redirect(Str(text, rs[k].file), rs[k].mode))
  }

  lemma {:induction false} ReadWrap(text: string, cmd: Cmd<Span>, rs: seq<Redirect<Span>>)
    ensures Read(Wrap(cmd, rs), text) == Wrap(Read(cmd, text), ReadRs(text, rs))
    decreases |rs|
  {
    if rs != [] {
      ReadWrap(text, Redir(cmd, rs[0].file, rs[0].mode), rs[1..]);
      assert ReadRs(text, rs)[1..] == ReadRs(text, rs[1..]);
    }
  }

  /** The first token, and what is left. */
  lemma Take(text: string, i: nat, t: Tok, rest: seq<Tok>)
    requires i <= |text| && Toks(text, i) == [t] + rest
    ensures var u := GetToken(text, i);
      !u.kind.EndOfInput? && TokAt(text, u) == t && u.at <= |text| && Toks(text, u.at) == rest
  {
    hide GetToken, Toks;
    NextTok(text, i);
    assert ([t] + rest)[1..] == rest;
  }

  /** What parseredirs() has made of the tokens. */
  predicate RedirsRead(text: string, r: Option<Redirects>, rs: seq<Redirection>, rest: seq<Tok>) {
    r.Some? && r.value.at <= |text| && ReadRs(text, r.value.rs) == rs && Toks(text, r.value.at) == rest
  }

  lemma {:induction false} ReadRedirs(text: string, i: nat, rs: seq<Redirection>, rest: seq<Tok>)
    requires i <= |text| && Toks(text, i) == RedirToks(rs) + rest && !StartsWith(rest, "<>")
    ensures RedirsRead(text, ParseRedirs(text, i), rs, rest)
    decreases |rs|
  {
    hide GetToken, Toks, Peek;
    PeekTok(text, i, "<>");
    SkipToks(text, i);
    if rs == [] {
      assert RedirToks(rs) + rest == rest;
    } else {
      var t, w, more := ArrowTok(rs[0].mode), W(rs[0].file), RedirToks(rs[1..]) + rest;
      assert RedirToks(rs) + rest == [t] + ([w] + more);
      Take(text, i, t, [w] + more);
      TokenSkip(text, i);
      var u := GetToken(text, i);
      Take(text, u.at, w, more);
      ReadRedirs(text, GetToken(text, u.at).at, rs[1..], rest);
      ModeRead(text, u, rs[0].mode);
      OneRedir(text, GetToken(text, u.at), rs[0], ParseRedirs(text, GetToken(text, u.at).at).value.rs, rs);
    }
  }

  lemma ModeRead(text: string, u: Token, mode: Mode)
    requires u.q <= u.eq <= |text| && !u.kind.EndOfInput? && TokAt(text, u) == ArrowTok(mode)
    ensures ModeOf(u.kind) == mode
  {}

  lemma OneRedir(text: string, w: Token, r: Redirection, more: seq<Redirect<Span>>, rs: seq<Redirection>)
    requires w.q <= w.eq <= |text| && !w.kind.EndOfInput? && TokAt(text, w) == W(r.file)
    requires rs != [] && rs[0] == r && ReadRs(text, more) == rs[1..]
    ensures w.kind.Word? && ReadRs(text, [Redirect(Span(w.q, w.eq), r.mode)] + more) == rs
  {
    var all := ReadRs(text, [Redirect(Span(w.q, w.eq), r.mode)] + more);
    assert all[1..] == ReadRs(text, more);
    assert all == [all[0]] + all[1..];
  }

  /** What a parser has made of the tokens: a command, and what is left; or nothing if it had to panic. */
  predicate CmdRead(text: string, p: Option<Parsed>, fits: bool, cmd: Cmd<string>, rest: seq<Tok>) {
    if !fits then p.None?
    else p.Some? && p.value.at <= |text| && Read(p.value.cmd, text) == cmd && Toks(text, p.value.at) == rest
  }

  lemma NotRedir(ts: seq<Tok>)
    requires EndExe(ts)
    ensures !StartsWith(ts, "<>") && !StartsWith(ts, "(") && (ts != [] ==> StartsWith(ts, "|)&;"))
  {}

  lemma PartsStart(parts: seq<Part>, rest: seq<Tok>)
    requires EndExe(rest)
    ensures !StartsWith(PartToks(parts) + rest, "<>") && !StartsWith(PartToks(parts) + rest, "(")
    ensures parts != [] ==> !StartsWith(PartToks(parts) + rest, "|)&;") && PartToks(parts) != []
  {
    NotRedir(rest);
    if parts == [] {
      assert PartToks(parts) + rest == rest;
    } else {
      assert (PartToks(parts) + rest)[0] == W(parts[0].word);
    }
  }

  lemma {:induction false} ReadArgs(text: string, i: nat, args: seq<Span>, rs: seq<Redirect<Span>>, parts: seq<Part>,
                                    rest: seq<Tok>)
    requires i <= |text| && |args| < MAXARGS && WordsOk(Exec(args), text) && RedirsOk(rs, text)
    requires Toks(text, i) == PartToks(parts) + rest && EndExe(rest)
    ensures CmdRead(text, ParseArgs(text, i, args, rs), |args| + |parts| <= 9,
                    Wrap(Exec(StrAll(text, args) + Words(parts)), ReadRs(text, rs) + PartRedirs(parts)), rest)
    decreases |parts|
  {
    hide GetToken, Toks, Peek, WordsOk, RedirsOk, EndExe, StartsWith, Wrap, ParseRedirs;
    PartsStart(parts, rest);
    PeekTok(text, i, "|)&;");
    SkipToks(text, i);
    NextTok(text, i);
    if parts == [] {
      assert PartToks(parts) + rest == rest;
      NotRedir(rest);
      ReadWrap(text, Exec(args), rs);
      assert StrAll(text, args) + Words(parts) == StrAll(text, args);
      assert ReadRs(text, rs) + PartRedirs(parts) == ReadRs(text, rs);
      if rest == [] { AtEnd(text, i); }
    } else {
      var p, more := parts[0], PartToks(parts[1..]) + rest;
      assert PartToks(parts) + rest == [W(p.word)] + (RedirToks(p.rs) + more);
      Take(text, i, W(p.word), RedirToks(p.rs) + more);
      var t := GetToken(text, i);
      WordTok(text, t, p.word);
      if |args| + 1 < MAXARGS {
        PartsStart(parts[1..], rest);
        ReadRedirs(text, t.at, p.rs, more);
        var r := ParseRedirs(text, t.at).value;
        OneMoreArg(text, i, args, rs);
        ReadArgs(text, r.at, args + [Span(t.q, t.eq)], rs + r.rs, parts[1..], rest);
        OneMorePart(text, args, Span(t.q, t.eq), rs, r.rs, parts);
      }
    }
  }

  lemma AtEnd(text: string, i: nat)
    requires i <= |text| && Toks(text, i) == []
    ensures GetToken(text, i).kind.EndOfInput? && Toks(text, GetToken(text, i).at) == []
  {
    SkipToks(text, i);
  }

  lemma WordTok(text: string, t: Token, w: string)
    requires t.q <= t.eq <= |text| && !t.kind.EndOfInput? && TokAt(text, t) == W(w)
    ensures t.kind.Word? && Str(text, Span(t.q, t.eq)) == w
  {}

  lemma OneMoreArg(text: string, i: nat, args: seq<Span>, rs: seq<Redirect<Span>>)
    requires i <= |text| && |args| + 1 < MAXARGS && WordsOk(Exec(args), text) && RedirsOk(rs, text)
    requires GetToken(text, i).kind.Word? && ParseRedirs(text, GetToken(text, i).at).Some?
    ensures var t := GetToken(text, i); var r := ParseRedirs(text, t.at).value;
      WordsOk(Exec(args + [Span(t.q, t.eq)]), text) && RedirsOk(rs + r.rs, text)
  {}

  lemma OneMorePart(text: string, args: seq<Span>, a: Span, rs: seq<Redirect<Span>>, more: seq<Redirect<Span>>,
                    parts: seq<Part>)
    requires parts != [] && Str(text, a) == parts[0].word && ReadRs(text, more) == parts[0].rs
    ensures StrAll(text, args + [a]) + Words(parts[1..]) == StrAll(text, args) + Words(parts)
    ensures ReadRs(text, rs + more) + PartRedirs(parts[1..]) == ReadRs(text, rs) + PartRedirs(parts)
  {
    AddedArg(text, args, a, rs, more);
    hide StrAll, ReadRs;
    Assoc(StrAll(text, args), [parts[0].word], Words(parts[1..]));
    Assoc(ReadRs(text, rs), parts[0].rs, PartRedirs(parts[1..]));
  }

  lemma AddedArg(text: string, args: seq<Span>, a: Span, rs: seq<Redirect<Span>>, more: seq<Redirect<Span>>)
    ensures StrAll(text, args + [a]) == StrAll(text, args) + [Str(text, a)]
    ensures ReadRs(text, rs + more) == ReadRs(text, rs) + ReadRs(text, more)
  {}

  lemma Assoc<T>(a: seq<T>, b: seq<T>, c: seq<T>)
    ensures (a + b) + c == a + (b + c)
  {}

  lemma ReadSimple(text: string, i: nat, pre: seq<Redirection>, parts: seq<Part>, rest: seq<Tok>)
    requires i <= |text| && Toks(text, i) == RedirToks(pre) + PartToks(parts) + rest && EndExe(rest)
    ensures CmdRead(text, ParseExec(text, i), |parts| <= 9, Wrap(Exec(Words(parts)), pre + PartRedirs(parts)), rest)
  {
    hide Toks, Peek, EndExe, StartsWith, Wrap, ParseRedirs, ParseArgs, ParseBlock, RedirToks, PartToks;
    Assoc(RedirToks(pre), PartToks(parts), rest);
    PartsStart(parts, rest);
    PeekTok(text, i, "(");
    NoParen(pre, PartToks(parts) + rest);
    ReadRedirs(text, i, pre, PartToks(parts) + rest);
    var first := ParseRedirs(text, i).value;
    ReadArgs(text, first.at, [], first.rs, parts, rest);
    assert StrAll(text, []) + Words(parts) == Words(parts);
  }

  lemma NoParen(rs: seq<Redirection>, rest: seq<Tok>)
    requires !StartsWith(rest, "(")
    ensures !StartsWith(RedirToks(rs) + rest, "(")
  {
    if rs == [] {
      assert RedirToks(rs) + rest == rest;
    } else {
      assert (RedirToks(rs) + rest)[0] == ArrowTok(rs[0].mode);
    }
  }

  lemma ReadBlock(text: string, i: nat, e: Exe, rest: seq<Tok>)
    requires e.Block? && i <= |text| && Toks(text, i) == ExeToks(e) + rest && EndExe(rest)
    ensures CmdRead(text, ParseExec(text, i), ExeFits(e), ExeCmd(e), rest)
    decreases e, 0
  {
    hide GetToken, Toks, Peek, EndExe, StartsWith, Wrap, ParseRedirs, ParseArgs, ParseLine, RedirToks, LineToks;
    var after := RedirToks(e.rs) + rest;
    var inside := LineToks(e.line) + ([S(')')] + after);
    BlockToks(e, rest);
    PeekTok(text, i, "(");
    StartsAt(S('('), inside, "(");
    Take(text, i, S('('), inside);
    var j := GetToken(text, i).at;
    assert EndLine([S(')')] + after);
    ReadLine(text, j, e.line, [S(')')] + after);
    if LineFits(e.line) {
      var line := ParseLine(text, j).value;
      PeekTok(text, line.at, ")");
      StartsAt(S(')'), after, ")");
      Take(text, line.at, S(')'), after);
      NotRedir(rest);
      ReadRedirs(text, GetToken(text, line.at).at, e.rs, rest);
      ReadWrap(text, line.cmd, ParseRedirs(text, GetToken(text, line.at).at).value.rs);
    }
  }

  lemma BlockToks(e: Exe, rest: seq<Tok>)
    requires e.Block?
    ensures ExeToks(e) + rest == [S('(')] + (LineToks(e.line) + ([S(')')] + (RedirToks(e.rs) + rest)))
  {
    hide LineToks, RedirToks;
  }

  lemma StartsAt(t: Tok, rest: seq<Tok>, toks: string)
    ensures StartsWith([t] + rest, toks) <==> Starts(t, toks)
  {}

  lemma ReadExe(text: string, i: nat, e: Exe, rest: seq<Tok>)
    requires i <= |text| && Toks(text, i) == ExeToks(e) + rest && EndExe(rest)
    ensures CmdRead(text, ParseExec(text, i), ExeFits(e), ExeCmd(e), rest)
    decreases e, 1
  {
    hide Toks, CmdRead, ParseExec, EndExe;
    match e
    case Block(_, _) => ReadBlock(text, i, e, rest);
    case Simple(pre, parts) => ReadSimple(text, i, pre, parts, rest);
  }

  lemma ReadPipe(text: string, i: nat, p: Pipeline, rest: seq<Tok>)
    requires i <= |text| && Toks(text, i) == PipeToks(p) + rest && EndPipe(rest)
    ensures CmdRead(text, ParsePipe(text, i), PipeFits(p), PipeCmd(p), rest)
    decreases p
  {
    hide GetToken, Toks, Peek, ParseExec, ExeToks, ExeCmd, StartsWith;
    match p.more
    case None =>
      assert PipeToks(p) + rest == ExeToks(p.first) + rest;
      ReadExe(text, i, p.first, rest);
      if ExeFits(p.first) {
        var at := ParseExec(text, i).value.at;
        PeekTok(text, at, "|");
        NotPipe(rest);
        SkipToks(text, at);
      }
    case Some(m) =>
      var more := [S('|')] + (PipeToks(m) + rest);
      assert PipeToks(p) + rest == ExeToks(p.first) + more;
      ReadExe(text, i, p.first, more);
      if ExeFits(p.first) {
        var at := ParseExec(text, i).value.at;
        PeekTok(text, at, "|");
        StartsAt(S('|'), PipeToks(m) + rest, "|");
        Take(text, at, S('|'), PipeToks(m) + rest);
        ReadPipe(text, GetToken(text, at).at, m, rest);
      }
  }

  lemma NotPipe(ts: seq<Tok>)
    requires EndPipe(ts)
    ensures !StartsWith(ts, "|")
  {}

  /** The loop over &. */
  lemma {:induction false} ReadBacks(text: string, p: Parsed, n: nat, rest: seq<Tok>)
    requires p.at <= |text| && WordsOk(p.cmd, text) && Toks(text, p.at) == Amps(n) + rest && !StartsWith(rest, "&")
    ensures var r := ParseBacks(text, p);
      r.at <= |text| && Read(r.cmd, text) == Backs(Read(p.cmd, text), n) && Toks(text, r.at) == rest
    decreases n
  {
    hide GetToken, Toks, Peek, StartsWith;
    PeekTok(text, p.at, "&");
    if n == 0 {
      assert Amps(n) + rest == rest;
      SkipToks(text, p.at);
    } else {
      assert Amps(n) + rest == [S('&')] + (Amps(n - 1) + rest);
      StartsAt(S('&'), Amps(n - 1) + rest, "&");
      Take(text, p.at, S('&'), Amps(n - 1) + rest);
      ReadBacks(text, Parsed(Back(p.cmd), GetToken(text, p.at).at), n - 1, rest);
    }
  }

  lemma ReadLine(text: string, i: nat, l: Line, rest: seq<Tok>)
    requires i <= |text| && Toks(text, i) == LineToks(l) + rest && EndLine(rest)
    ensures CmdRead(text, ParseLine(text, i), LineFits(l), LineCmd(l), rest)
    decreases l
  {
    hide GetToken, Toks, Peek, ParsePipe, ParseBacks, PipeToks, PipeCmd, StartsWith;
    match l.more
    case None =>
      assert LineToks(l) + rest == PipeToks(l.pipe) + (Amps(l.backs) + rest);
      AmpsEnd(l.backs, rest);
      ReadPipe(text, i, l.pipe, Amps(l.backs) + rest);
      if PipeFits(l.pipe) {
        var c := ParsePipe(text, i).value;
        ReadBacks(text, c, l.backs, rest);
        var at := ParseBacks(text, c).at;
        PeekTok(text, at, ";");
        SkipToks(text, at);
      }
    case Some(m) =>
      var more := [S(';')] + (LineToks(m) + rest);
      assert LineToks(l) + rest == PipeToks(l.pipe) + (Amps(l.backs) + more);
      AmpsEnd(l.backs, more);
      ReadPipe(text, i, l.pipe, Amps(l.backs) + more);
      if PipeFits(l.pipe) {
        var c := ParsePipe(text, i).value;
        ReadBacks(text, c, l.backs, more);
        var at := ParseBacks(text, c).at;
        PeekTok(text, at, ";");
        StartsAt(S(';'), LineToks(m) + rest, ";");
        Take(text, at, S(';'), LineToks(m) + rest);
        ReadLine(text, GetToken(text, at).at, m, rest);
      }
  }

  lemma AmpsEnd(n: nat, rest: seq<Tok>)
    requires EndLine(rest) || rest[0] == S(';')
    ensures EndPipe(Amps(n) + rest) && !StartsWith(rest, "&") && (EndLine(rest) ==> !StartsWith(rest, ";"))
  {
    if n == 0 {
      assert Amps(n) + rest == rest;
    } else {
      assert (Amps(n) + rest)[0] == S('&');
    }
  }

  /** Whatever the grammar yields, with any white space, parsecmd() reads as what it means, and panics exactly if some
      simple command has more than 9 words. */
  lemma ParsesGrammar(l: Line, gaps: seq<string>)
    requires ProperToks(LineToks(l)) && GapsOk(LineToks(l), gaps)
    ensures var text := Spaced(LineToks(l), gaps);
      && (ParseCmd(text).Some? <==> LineFits(l))
      && (LineFits(l) ==> Read(ParseCmd(text).value, text) == LineCmd(l))
  {
    hide Toks, ParseLine, LineToks, ProperToks;
    var text := Spaced(LineToks(l), gaps);
    assert text[0..] == text;
    Lexed(text, 0, LineToks(l), gaps);
    assert LineToks(l) + [] == LineToks(l);
    ReadLine(text, 0, l, []);
    if LineFits(l) { AllRead(text, ParseLine(text, 0).value.at); }
  }

  lemma AllRead(text: string, i: nat)
    requires i <= |text|
    ensures Toks(text, i) == [] <==> Skip(text, i) == |text|
  {}

  // ----- and nothing else -----

  lemma {:induction false} FoundRedirs(text: string, i: nat)
    requires i <= |text| && ParseRedirs(text, i).Some?
    ensures var r := ParseRedirs(text, i).value;
      Toks(text, i) == RedirToks(ReadRs(text, r.rs)) + Toks(text, r.at) && !StartsWith(Toks(text, r.at), "<>")
    decreases |text| - i
  {
    hide Toks, Peek, StartsWith;
    PeekTok(text, i, "<>");
    SkipToks(text, i);
    var r := ParseRedirs(text, i).value;
    if !Peek(text, i, "<>") {
      assert RedirToks(ReadRs(text, r.rs)) + Toks(text, r.at) == Toks(text, r.at);
    } else {
      TokenSkip(text, i);
      var t := GetToken(text, i);
      var w := GetToken(text, t.at);
      var more := ParseRedirs(text, w.at).value;
      FoundRedirs(text, w.at);
      TwoToks(text, i);
      ModeFound(text, i);
      var first := Redirect(Str(text, Span(w.q, w.eq)), ModeOf(t.kind));
      RedirsFound(text, Redirect(Span(w.q, w.eq), ModeOf(t.kind)), more.rs);
      assert RedirToks([first] + ReadRs(text, more.rs)) ==
             [ArrowTok(first.mode), W(first.file)] + RedirToks(ReadRs(text, more.rs)) by {
        assert ([first] + ReadRs(text, more.rs))[1..] == ReadRs(text, more.rs);
      }
      Assoc([ArrowTok(first.mode), W(first.file)], RedirToks(ReadRs(text, more.rs)), Toks(text, more.at));
    }
  }

  /** A redirection: two tokens. */
  lemma TwoToks(text: string, i: nat)
    requires i <= |text| && StartsWith(Toks(text, i), "<>") && GetToken(text, GetToken(text, i).at).kind.Word?
    ensures var t := GetToken(text, i); var w := GetToken(text, t.at);
      !t.kind.EndOfInput? && Toks(text, i) == [TokAt(text, t), W(Str(text, Span(w.q, w.eq)))] + Toks(text, w.at)
  {
    hide GetToken;
    NextTok(text, i);
    NextTok(text, GetToken(text, i).at);
  }

  lemma ModeFound(text: string, i: nat)
    requires i <= |text| && StartsWith(Toks(text, i), "<>")
    ensures var t := GetToken(text, i); !t.kind.EndOfInput? && TokAt(text, t) == ArrowTok(ModeOf(t.kind))
  {
    NextTok(text, i);
  }

  lemma RedirsFound(text: string, r: Redirect<Span>, rs: seq<Redirect<Span>>)
    ensures ReadRs(text, [r] + rs) == [Redirect(Str(text, r.file), r.mode)] + ReadRs(text, rs)
  {}

  lemma EndFound(text: string, i: nat)
    requires i <= |text| && (Peek(text, i, "|)&;") || GetToken(text, i).kind.EndOfInput?)
    ensures EndExe(Toks(text, i))
  {
    PeekTok(text, i, "|)&;");
    NextTok(text, i);
  }

  lemma {:induction false} FoundArgs(text: string, i: nat, args: seq<Span>, rs: seq<Redirect<Span>>)
    returns (parts: seq<Part>)
    requires i <= |text| && |args| < MAXARGS && WordsOk(Exec(args), text) && RedirsOk(rs, text)
    requires ParseArgs(text, i, args, rs).Some?
    ensures var p := ParseArgs(text, i, args, rs).value;
      && Toks(text, i) == PartToks(parts) + Toks(text, p.at) && EndExe(Toks(text, p.at)) && |args| + |parts| <= 9
    decreases |text| - i
  {
    hide Toks, Peek, WordsOk, RedirsOk, ParseRedirs, EndExe;
    SkipToks(text, i);
    NextTok(text, i);
    var p := ParseArgs(text, i, args, rs).value;
    var t := GetToken(text, i);
    if Peek(text, i, "|)&;") || t.kind.EndOfInput? {
      EndFound(text, i);
      if t.kind.EndOfInput? { AtEnd(text, i); }
      parts := [];
      assert PartToks(parts) + Toks(text, p.at) == Toks(text, p.at);
    } else {
      var r := ParseRedirs(text, t.at).value;
      FoundRedirs(text, t.at);
      OneMoreArg(text, i, args, rs);
      var more := FoundArgs(text, r.at, args + [Span(t.q, t.eq)], rs + r.rs);
      var first := Part(Str(text, Span(t.q, t.eq)), ReadRs(text, r.rs));
      parts := [first] + more;
      assert parts[1..] == more;
      PartFound(first, more, Toks(text, p.at));
    }
  }

  lemma PartFound(p: Part, more: seq<Part>, rest: seq<Tok>)
    ensures PartToks([p] + more) + rest == [W(p.word)] + (RedirToks(p.rs) + (PartToks(more) + rest))
  {
    hide RedirToks;
    assert ([p] + more)[1..] == more;
  }

  lemma FoundSimple(text: string, i: nat) returns (e: Exe)
    requires i <= |text| && ParseExec(text, i).Some? && !Peek(text, i, "(")
    ensures var p := ParseExec(text, i).value;
      Toks(text, i) == ExeToks(e) + Toks(text, p.at) && EndExe(Toks(text, p.at)) && ExeFits(e)
  {
    hide Toks, ParseRedirs, ParseArgs, EndExe, RedirToks, PartToks;
    FoundRedirs(text, i);
    var first := ParseRedirs(text, i).value;
    var parts := FoundArgs(text, first.at, [], first.rs);
    e := Simple(ReadRs(text, first.rs), parts);
    Assoc(RedirToks(e.pre), PartToks(parts), Toks(text, ParseExec(text, i).value.at));
  }

  lemma FoundBlock(text: string, i: nat) returns (e: Exe)
    requires i <= |text| && ParseExec(text, i).Some? && Peek(text, i, "(")
    ensures var p := ParseExec(text, i).value;
      Toks(text, i) == ExeToks(e) + Toks(text, p.at) && ExeFits(e) && !StartsWith(Toks(text, p.at), "<>")
    decreases |text| - i, 0
  {
    hide Toks, ParseRedirs, ParseLine, RedirToks, LineToks, Peek;
    PeekTok(text, i, "(");
    NextTok(text, i);
    var j := GetToken(text, i).at;
    var l := FoundLine(text, j);
    var line := ParseLine(text, j).value;
    PeekTok(text, line.at, ")");
    NextTok(text, line.at);
    var k := GetToken(text, line.at).at;
    FoundRedirs(text, k);
    var r := ParseRedirs(text, k).value;
    e := Block(l, ReadRs(text, r.rs));
    OneSymbol(text, i, '(');
    OneSymbol(text, line.at, ')');
    BlockToks(e, Toks(text, r.at));
  }

  lemma OneSymbol(text: string, i: nat, c: char)
    requires i <= |text| && StartsWith(Toks(text, i), [c]) && c != '>'
    ensures Toks(text, i) == [S(c)] + Toks(text, GetToken(text, i).at)
  {
    NextTok(text, i);
  }

  lemma FoundExe(text: string, i: nat) returns (e: Exe)
    requires i <= |text| && ParseExec(text, i).Some?
    ensures var p := ParseExec(text, i).value; Toks(text, i) == ExeToks(e) + Toks(text, p.at) && ExeFits(e)
    decreases |text| - i, 1
  {
    hide Toks, ParseExec, ExeToks, Peek;
    if Peek(text, i, "(") {
      e := FoundBlock(text, i);
    } else {
      e := FoundSimple(text, i);
    }
  }

  lemma FoundPipe(text: string, i: nat) returns (p: Pipeline)
    requires i <= |text| && ParsePipe(text, i).Some?
    ensures var r := ParsePipe(text, i).value; Toks(text, i) == PipeToks(p) + Toks(text, r.at) && PipeFits(p)
    decreases |text| - i, 2
  {
    hide Toks, ParseExec, ExeToks, Peek;
    var e := FoundExe(text, i);
    var at := ParseExec(text, i).value.at;
    if !Peek(text, at, "|") {
      SkipToks(text, at);
      p := Pipeline(e, None);
      assert PipeToks(p) == ExeToks(e);
    } else {
      PeekTok(text, at, "|");
      OneSymbol(text, at, '|');
      var m := FoundPipe(text, GetToken(text, at).at);
      p := Pipeline(e, Some(m));
      PipeFound(e, m, Toks(text, ParsePipe(text, i).value.at));
    }
  }

  lemma PipeFound(e: Exe, m: Pipeline, rest: seq<Tok>)
    ensures PipeToks(Pipeline(e, Some(m))) + rest == ExeToks(e) + ([S('|')] + (PipeToks(m) + rest))
  {
    hide ExeToks;
  }

  lemma {:induction false} FoundBacks(text: string, p: Parsed) returns (n: nat)
    requires p.at <= |text| && WordsOk(p.cmd, text)
    ensures var r := ParseBacks(text, p); Toks(text, p.at) == Amps(n) + Toks(text, r.at)
    decreases |text| - p.at
  {
    hide Toks, Peek;
    var r := ParseBacks(text, p);
    if Peek(text, p.at, "&") {
      PeekTok(text, p.at, "&");
      OneSymbol(text, p.at, '&');
      var m := FoundBacks(text, Parsed(Back(p.cmd), GetToken(text, p.at).at));
      n := m + 1;
      Assoc([S('&')], Amps(m), Toks(text, r.at));
    } else {
      SkipToks(text, p.at);
      n := 0;
      assert Amps(n) + Toks(text, r.at) == Toks(text, r.at);
    }
  }

  lemma FoundLine(text: string, i: nat) returns (l: Line)
    requires i <= |text| && ParseLine(text, i).Some?
    ensures var p := ParseLine(text, i).value; Toks(text, i) == LineToks(l) + Toks(text, p.at) && LineFits(l)
    decreases |text| - i, 3
  {
    hide Toks, ParsePipe, ParseBacks, PipeToks, Peek;
    var q := FoundPipe(text, i);
    var c := ParsePipe(text, i).value;
    var n := FoundBacks(text, c);
    var b := ParseBacks(text, c);
    if !Peek(text, b.at, ";") {
      SkipToks(text, b.at);
      l := Line(q, n, None);
      LastFound(q, n, Toks(text, ParseLine(text, i).value.at));
    } else {
      PeekTok(text, b.at, ";");
      OneSymbol(text, b.at, ';');
      var m := FoundLine(text, GetToken(text, b.at).at);
      l := Line(q, n, Some(m));
      LineFound(q, n, m, Toks(text, ParseLine(text, i).value.at));
    }
  }

  lemma LastFound(q: Pipeline, n: nat, rest: seq<Tok>)
    ensures LineToks(Line(q, n, None)) + rest == PipeToks(q) + (Amps(n) + rest)
  {
    hide PipeToks, Amps;
  }

  lemma LineFound(q: Pipeline, n: nat, m: Line, rest: seq<Tok>)
    ensures LineToks(Line(q, n, Some(m))) + rest == PipeToks(q) + (Amps(n) + ([S(';')] + (LineToks(m) + rest)))
  {
    hide PipeToks, Amps;
  }

  /** Every text that parsecmd() accepts is one that the grammar yields with some white space, and the command is what
      the grammar says it means. */
  lemma OnlyGrammar(text: string) returns (l: Line, gaps: seq<string>)
    requires ParseCmd(text).Some?
    ensures ProperToks(LineToks(l)) && GapsOk(LineToks(l), gaps) && text == Spaced(LineToks(l), gaps)
    ensures LineFits(l) && LineCmd(l) == Read(ParseCmd(text).value, text)
  {
    hide Toks, ParseLine, LineToks, GapsOk, ProperToks, Spaced;
    l := FoundLine(text, 0);
    AllRead(text, ParseLine(text, 0).value.at);
    assert LineToks(l) + [] == LineToks(l);
    gaps := Unlexed(text, 0);
    assert text[0..] == text;
    ParsesGrammar(l, gaps);
  }

  // ----- every command can be written -----

  /** The command inside the redirections, and these, innermost first. */
  function Core(t: Cmd<string>): Cmd<string> {
    if t.Redir? then Core(t.cmd) else t
  }

  function Outer(t: Cmd<string>): seq<Redirection> {
    if t.Redir? then Outer(t.cmd) + [Redirect(t.file, t.mode)] else []
  }

  /** The command before the &s, and how many there are. */
  function Strip(t: Cmd<string>): Cmd<string> {
    if t.Back? then Strip(t.cmd) else t
  }

  function CountBacks(t: Cmd<string>): nat {
    if t.Back? then CountBacks(t.cmd) + 1 else 0
  }

  function Size(t: Cmd<string>): nat {
    match t
    case Exec(_) => 0
    case Redir(c, _, _) => Size(c) + 1
    case Pipe(l, r) => Size(l) + Size(r) + 1
    case List(l, r) => Size(l) + Size(r) + 1
    case Back(c) => Size(c) + 1
  }

  lemma Smaller(t: Cmd<string>)
    ensures Size(Core(t)) <= Size(t) && !Core(t).Redir? && (t.Redir? ==> Size(Core(t)) < Size(t))
    ensures Size(Strip(t)) <= Size(t) && !Strip(t).Back? && (t.Back? ==> Size(Strip(t)) < Size(t))
  {}

  function Bare(words: seq<string>): seq<Part> {
    if words == [] then [] else [Part(words[0], [])] + Bare(words[1..])
  }

  /** The command as the grammar writes it, with parentheses only where it needs them. */
  function ExeOf(t: Cmd<string>): Exe
    decreases Size(t), if t.Pipe? then 2 else 1
  {
    Smaller(t);
    if Core(t).Exec? then Simple(Outer(t), Bare(Core(t).args)) else Block(LineOf(Core(t)), Outer(t))
  }

  function PipeOf(t: Cmd<string>): Pipeline
    decreases Size(t), if t.Pipe? then 0 else 2
  {
    if t.Pipe? then Pipeline(ExeOf(t.left), Some(PipeOf(t.right))) else Pipeline(ExeOf(t), None)
  }

  function LineOf(t: Cmd<string>): Line
    decreases Size(t), if t.List? || t.Back? then 0 else if t.Pipe? then 1 else 3
  {
    if t.List? then
      Smaller(t.left);
      Line(PipeOf(Strip(t.left)), CountBacks(t.left), Some(LineOf(t.right)))
    else
      Smaller(t);
      Line(PipeOf(Strip(t)), CountBacks(t), None)
  }

  lemma {:induction false} WrapLast(c: Cmd<string>, rs: seq<Redirection>, r: Redirection)
    ensures Wrap(c, rs + [r]) == Redir(Wrap(c, rs), r.file, r.mode)
    decreases |rs|
  {
    if rs == [] {
      assert (rs + [r])[1..] == [];
    } else {
      assert (rs + [r])[1..] == rs[1..] + [r];
      WrapLast(Redir(c, rs[0].file, rs[0].mode), rs[1..], r);
    }
  }

  lemma {:induction false} Rewrapped(t: Cmd<string>)
    ensures Wrap(Core(t), Outer(t)) == t
  {
    if t.Redir? {
      Rewrapped(t.cmd);
      WrapLast(Core(t), Outer(t.cmd), Redirect(t.file, t.mode));
    }
  }

  lemma {:induction false} BacksLast(c: Cmd<string>, n: nat)
    ensures Backs(c, n + 1) == Back(Backs(c, n))
    decreases n
  {
    if n > 0 { BacksLast(Back(c), n - 1); }
  }

  lemma {:induction false} Rebacked(t: Cmd<string>)
    ensures Backs(Strip(t), CountBacks(t)) == t
  {
    if t.Back? {
      Rebacked(t.cmd);
      BacksLast(Strip(t), CountBacks(t.cmd));
    }
  }

  lemma {:induction false} BareWords(words: seq<string>)
    ensures |Bare(words)| == |words| && Words(Bare(words)) == words && PartRedirs(Bare(words)) == []
  {
    if words != [] { BareWords(words[1..]); }
  }

  /** All words are words. */
  predicate ProperWords(t: Cmd<string>) {
    match t
    case Exec(args) => forall k | 0 <= k < |args| :: ProperTok(W(args[k]))
    case Redir(c, file, _) => ProperWords(c) && ProperTok(W(file))
    case Pipe(l, r) => ProperWords(l) && ProperWords(r)
    case List(l, r) => ProperWords(l) && ProperWords(r)
    case Back(c) => ProperWords(c)
  }

  /** No simple command has more than 9 words. */
  predicate FewWords(t: Cmd<string>) {
    match t
    case Exec(args) => |args| <= 9
    case Redir(c, _, _) => FewWords(c)
    case Pipe(l, r) => FewWords(l) && FewWords(r)
    case List(l, r) => FewWords(l) && FewWords(r)
    case Back(c) => FewWords(c)
  }

  lemma {:induction false} InsideRedirs(t: Cmd<string>)
    ensures FewWords(Core(t)) <==> FewWords(t)
    ensures ProperWords(t) ==> ProperWords(Core(t)) && ProperToks(RedirToks(Outer(t)))
  {
    if t.Redir? {
      InsideRedirs(t.cmd);
      LastRedir(Outer(t.cmd), Redirect(t.file, t.mode));
    }
  }

  lemma {:induction false} LastRedir(rs: seq<Redirection>, r: Redirection)
    ensures RedirToks(rs + [r]) == RedirToks(rs) + [ArrowTok(r.mode), W(r.file)]
    decreases |rs|
  {
    if rs == [] {
      assert (rs + [r])[1..] == [];
      assert RedirToks([]) == [];
    } else {
      assert (rs + [r])[1..] == rs[1..] + [r];
      LastRedir(rs[1..], r);
    }
  }

  lemma {:induction false} InsideBacks(t: Cmd<string>)
    ensures (FewWords(Strip(t)) <==> FewWords(t)) && (ProperWords(t) ==> ProperWords(Strip(t)))
  {
    if t.Back? { InsideBacks(t.cmd); }
  }

  lemma {:induction false} BareProper(words: seq<string>)
    requires forall k | 0 <= k < |words| :: ProperTok(W(words[k]))
    ensures ProperToks(PartToks(Bare(words)))
  {
    if words != [] {
      BareProper(words[1..]);
      assert PartToks(Bare(words)) == [W(words[0])] + PartToks(Bare(words[1..]));
    }
  }

  lemma {:induction false} AmpsProper(n: nat)
    ensures ProperToks(Amps(n))
  {
    if n > 0 { AmpsProper(n - 1); }
  }

  lemma ExeOfIs(t: Cmd<string>)
    ensures ExeCmd(ExeOf(t)) == t && (ExeFits(ExeOf(t)) <==> FewWords(t))
    ensures ProperWords(t) ==> ProperToks(ExeToks(ExeOf(t)))
    decreases Size(t), if t.Pipe? then 2 else 1
  {
    hide Wrap, ProperTok, RedirToks;
    Smaller(t);
    Rewrapped(t);
    InsideRedirs(t);
    if Core(t).Exec? {
      BareWords(Core(t).args);
      assert Outer(t) + [] == Outer(t);
      if ProperWords(t) { BareProper(Core(t).args); }
    } else {
      SymbolsProper();
      LineOfIs(Core(t));
    }
  }

  lemma PipeOfIs(t: Cmd<string>)
    ensures PipeCmd(PipeOf(t)) == t && (PipeFits(PipeOf(t)) <==> FewWords(t))
    ensures ProperWords(t) ==> ProperToks(PipeToks(PipeOf(t)))
    decreases Size(t), if t.Pipe? then 0 else 2
  {
    hide ExeOf, ExeCmd, ExeFits, ExeToks, ProperTok;
    if t.Pipe? {
      ExeOfIs(t.left);
      PipeOfIs(t.right);
      SymbolsProper();
    } else {
      ExeOfIs(t);
    }
  }

  lemma SymbolsProper()
    ensures ProperTok(S('|')) && ProperTok(S(';')) && ProperTok(S('(')) && ProperTok(S(')')) && ProperTok(S('&'))
  {}

  lemma LineOfIs(t: Cmd<string>)
    ensures LineCmd(LineOf(t)) == t && (LineFits(LineOf(t)) <==> FewWords(t))
    ensures ProperWords(t) ==> ProperToks(LineToks(LineOf(t)))
    decreases Size(t), if t.List? || t.Back? then 0 else if t.Pipe? then 1 else 3
  {
    hide PipeOf, PipeCmd, PipeFits, PipeToks, ProperTok, Backs, Amps;
    var first := if t.List? then t.left else t;
    Smaller(first);
    Rebacked(first);
    InsideBacks(first);
    AmpsProper(CountBacks(first));
    PipeOfIs(Strip(first));
    SymbolsProper();
    if t.List? { LineOfIs(t.right); }
  }

  /** parsecmd() inverts the printing of any command tree, with any white space and with parentheses only where they
      are needed, exactly if no simple command in it has more than 9 words. */
  lemma RoundTrip(t: Cmd<string>, gaps: seq<string>)
    requires ProperWords(t) && GapsOk(LineToks(LineOf(t)), gaps)
    ensures var text := Spaced(LineToks(LineOf(t)), gaps);
      && (ParseCmd(text).Some? <==> FewWords(t))
      && (FewWords(t) ==> Read(ParseCmd(text).value, text) == t)
  {
    hide LineOf, LineToks, LineCmd, LineFits, GapsOk, ParseCmd;
    LineOfIs(t);
    ParsesGrammar(LineOf(t), gaps);
  }
}
