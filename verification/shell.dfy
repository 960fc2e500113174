/** The parser of user/sh.c. The input is a string without its NUL; a cursor is an index into it, |text| being the
    NUL's. The parser notes words by where they begin and end; a panic is None. */
module Shell {
  import opened Options

  const MAXARGS: nat := 10

  predicate IsSpace(c: char) {
    c == ' ' || c == '\t' || c == '\r' || c == '\n' || c == 11 as char
  }

  predicate IsSymbol(c: char) {
    c == '<' || c == '|' || c == '>' || c == '&' || c == ';' || c == '(' || c == ')'
  }

  predicate IsWordChar(c: char) {
    !IsSpace(c) && !IsSymbol(c)
  }

  /** A parsed command; W is what stands for a word: its place in the input, or its characters. */
  datatype Cmd<W> =
    | Exec(args: seq<W>)
    | Redir(cmd: Cmd<W>, file: W, mode: Mode)
    | Pipe(left: Cmd<W>, right: Cmd<W>)
    | List(left: Cmd<W>, right: Cmd<W>)
    | Back(cmd: Cmd<W>)

  datatype Mode = Input | Output | Append           // < with fd 0, > and >> with fd 1

  datatype Span = Span(q: nat, eq: nat)

  /** A result and the cursor after it. */
  datatype Parsed = Parsed(cmd: Cmd<Span>, at: nat)

  // ----- tokens -----

  /** The cursor after white space. */
  function Skip(text: string, i: nat): (s: nat)
    requires i <= |text|
    ensures i <= s <= |text| && (s < |text| ==> !IsSpace(text[s]))
    decreases |text| - i
  {
    if i < |text| && IsSpace(text[i]) then Skip(text, i + 1) else i
  }

  /** The end of the word at i. */
  function WordEnd(text: string, i: nat): (e: nat)
    requires i <= |text|
    ensures i <= e <= |text| && (i < |text| && IsWordChar(text[i]) ==> i < e)
    decreases |text| - i
  {
    if i < |text| && IsWordChar(text[i]) then WordEnd(text, i + 1) else i
  }

  lemma {:induction false} WordEndSpan(text: string, i: nat)
    requires i < |text| && IsWordChar(text[i])
    ensures WordSpan(text, Span(i, WordEnd(text, i)))
    decreases |text| - i
  {
    if i + 1 < |text| && IsWordChar(text[i + 1]) { WordEndSpan(text, i + 1); }
  }

  datatype Kind = EndOfInput | Symbol(c: char) | DoubleGreater | Word
  datatype Token = Token(kind: Kind, q: nat, eq: nat, at: nat)

  /** gettoken(): the next token, where it begins and ends, and the cursor after it. */
  function GetToken(text: string, i: nat): (t: Token)
    requires i <= |text|
    ensures i <= t.q <= t.eq <= t.at <= |text| && t.at == Skip(text, t.eq) && t.q == Skip(text, i)
    ensures t.kind.EndOfInput? <==> t.q == |text|
    ensures !t.kind.EndOfInput? ==> t.q < t.eq
    ensures t.kind.Word? ==> WordSpan(text, Span(t.q, t.eq))
  {
    var s := Skip(text, i);
    if s == |text| then Token(EndOfInput, s, s, s)
    else if text[s] == '>' && s + 1 < |text| && text[s + 1] == '>'
    then Token(DoubleGreater, s, s + 2, Skip(text, s + 2))
    else if IsSymbol(text[s]) then Token(Symbol(text[s]), s, s + 1, Skip(text, s + 1))
    else var e := WordEnd(text, s); WordEndSpan(text, s); Token(Word, s, e, Skip(text, e))
  }

  /** A word of the input: as long as it can be, and not empty. */
  predicate WordSpan(text: string, w: Span) {
    && w.q < w.eq <= |text| && (w.eq < |text| ==> !IsWordChar(text[w.eq]))
    && forall k | w.q <= k < w.eq :: IsWordChar(text[k])
  }

  /** peek(): the next token begins with one of the characters. */
  predicate Peek(text: string, i: nat, toks: string)
    requires i <= |text|
  {
    var s := Skip(text, i);
    s < |text| && text[s] in toks
  }

  // ----- redirections -----

  datatype Redirect<W> = Redirect(file: W, mode: Mode)

  /** The redirections wrapped around a command, the first innermost. */
  function Wrap<W>(cmd: Cmd<W>, rs: seq<Redirect<W>>): Cmd<W>
    decreases |rs|
  {
    if rs == [] then cmd else Wrap(Redir(cmd, rs[0].file, rs[0].mode), rs[1..])
  }

  predicate RedirsOk(rs: seq<Redirect<Span>>, text: string) {
    forall k | 0 <= k < |rs| :: WordSpan(text, rs[k].file)
  }

  datatype Redirects = Redirects(rs: seq<Redirect<Span>>, at: nat)

  function ModeOf(k: Kind): Mode {
    if k == DoubleGreater then Append else if k == Symbol('<') then Input else Output
  }

  /** The loop of parseredirs(). */
  function ParseRedirs(text: string, i: nat): (r: Option<Redirects>)
    requires i <= |text|
    ensures r.Some? ==> i <= r.value.at <= |text| && RedirsOk(r.value.rs, text)
    decreases |text| - i
  {
    var s := Skip(text, i);
    if !Peek(text, i, "<>") then Some(Redirects([], s)) else
    var t := GetToken(text, s);
    var w := GetToken(text, t.at);
    if !w.kind.Word? then None else
    var more := ParseRedirs(text, w.at);
    if more.None? then None
    else Some(Redirects([Redirect(Span(w.q, w.eq), ModeOf(t.kind))] + more.value.rs, more.value.at))
  }

  // ----- commands -----

  /** All words of the command are words of the input. */
  predicate WordsOk(cmd: Cmd<Span>, text: string) {
    match cmd
    case Exec(args) => |args| < MAXARGS && forall k | 0 <= k < |args| :: WordSpan(text, args[k])
    case Redir(c, file, _) => WordsOk(c, text) && WordSpan(text, file)
    case Pipe(l, r) => WordsOk(l, text) && WordsOk(r, text)
    case List(l, r) => WordsOk(l, text) && WordsOk(r, text)
    case Back(c) => WordsOk(c, text)
  }

  lemma {:induction false} WrapOk(cmd: Cmd<Span>, rs: seq<Redirect<Span>>, text: string)
    requires WordsOk(cmd, text) && RedirsOk(rs, text)
    ensures WordsOk(Wrap(cmd, rs), text)
    decreases |rs|
  {
    if rs != [] { WrapOk(Redir(cmd, rs[0].file, rs[0].mode), rs[1..], text); }
  }

  predicate Good(p: Option<Parsed>, text: string, i: nat) {
    p.Some? ==> i <= p.value.at <= |text| && WordsOk(p.value.cmd, text)
  }

  /** The loop of parseexec() over the words. */
  function ParseArgs(text: string, i: nat, args: seq<Span>, rs: seq<Redirect<Span>>): (p: Option<Parsed>)
    requires i <= |text| && |args| < MAXARGS && WordsOk(Exec(args), text) && RedirsOk(rs, text)
    ensures Good(p, text, i)
    decreases |text| - i
  {
    WrapOk(Exec(args), rs, text);
    if Peek(text, i, "|)&;") then Some(Parsed(Wrap(Exec(args), rs), Skip(text, i))) else
    var t := GetToken(text, i);
    if t.kind.EndOfInput? then Some(Parsed(Wrap(Exec(args), rs), t.at))
    else if !t.kind.Word? then None
    else if |args| + 1 >= MAXARGS then None
    else
      var more := ParseRedirs(text, t.at);
      if more.None? then None else ParseArgs(text, more.value.at, args + [Span(t.q, t.eq)], rs + more.value.rs)
  }

  function ParseBlock(text: string, i: nat): (p: Option<Parsed>)
    requires i <= |text|
    ensures Good(p, text, i)
    decreases |text| - i, 0
  {
    if !Peek(text, i, "(") then None else
    var line := ParseLine(text, GetToken(text, i).at);
    if line.None? || !Peek(text, line.value.at, ")") then None else
    var more := ParseRedirs(text, GetToken(text, line.value.at).at);
    if more.None? then None else
    WrapOk(line.value.cmd, more.value.rs, text);
    Some(Parsed(Wrap(line.value.cmd, more.value.rs), more.value.at))
  }

  function ParseExec(text: string, i: nat): (p: Option<Parsed>)
    requires i <= |text|
    ensures Good(p, text, i)
    decreases |text| - i, 1
  {
    if Peek(text, i, "(") then ParseBlock(text, i) else
    var first := ParseRedirs(text, i);
    if first.None? then None else ParseArgs(text, first.value.at, [], first.value.rs)
  }

  function ParsePipe(text: string, i: nat): (p: Option<Parsed>)
    requires i <= |text|
    ensures Good(p, text, i)
    decreases |text| - i, 2
  {
    var l := ParseExec(text, i);
    if l.None? then None
    else if !Peek(text, l.value.at, "|") then Some(Parsed(l.value.cmd, Skip(text, l.value.at)))
    else
      var r := ParsePipe(text, GetToken(text, l.value.at).at);
      if r.None? then None else Some(Parsed(Pipe(l.value.cmd, r.value.cmd), r.value.at))
  }

  /** The loop of parseline() over '&'. */
  function ParseBacks(text: string, p: Parsed): (r: Parsed)
    requires p.at <= |text| && WordsOk(p.cmd, text)
    ensures p.at <= r.at <= |text| && WordsOk(r.cmd, text)
    decreases |text| - p.at
  {
    if Peek(text, p.at, "&") then ParseBacks(text, Parsed(Back(p.cmd), GetToken(text, p.at).at))
    else Parsed(p.cmd, Skip(text, p.at))
  }

  function ParseLine(text: string, i: nat): (p: Option<Parsed>)
    requires i <= |text|
    ensures Good(p, text, i)
    decreases |text| - i, 3
  {
    var c := ParsePipe(text, i);
    if c.None? then None else
    var l := ParseBacks(text, c.value);
    if !Peek(text, l.at, ";") then Some(Parsed(l.cmd, Skip(text, l.at))) else
    var r := ParseLine(text, GetToken(text, l.at).at);
    if r.None? then None else Some(Parsed(List(l.cmd, r.value.cmd), r.value.at))
  }

  /** parsecmd(): nothing may be left over. */
  function ParseCmd(text: string): (c: Option<Cmd<Span>>)
    ensures c.Some? ==> WordsOk(c.value, text)
  {
    var p := ParseLine(text, 0);
    if p.None? || Skip(text, p.value.at) != |text| then None else Some(p.value.cmd)
  }
}
