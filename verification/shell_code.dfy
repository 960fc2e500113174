/** The functions of user/sh.c as code: a cursor that moves along the input, and nulterminate() writing into it. */
module ShellCode {
  import opened Options
  import opened Shell
  import opened ShellLex

  method SkipSpace(text: string, i: nat) returns (s: nat)
    requires i <= |text|
    ensures s == Skip(text, i)
  {
    s := i;
    while s < |text| && IsSpace(text[s])
      invariant i <= s <= |text| && Skip(text, i) == Skip(text, s)
    {
      s := s + 1;
    }
  }

  /** A parser's cursor into the input. */
  class Cursor {
    const text: string
    var at: nat

    ghost predicate Valid()
      reads this
    {
      at <= |text|
    }

    constructor (text: string)
      ensures Valid() && this.text == text && at == 0
    {
      this.text, at := text, 0;
    }

    method Gettoken() returns (t: Token)
      requires Valid()
      modifies this`at
      ensures t == GetToken(text, old(at)) && at == t.at && Valid()
    {
      var s := SkipSpace(text, at);
      var q := s;
      var kind := EndOfInput;
      if s < |text| {
        var c := text[s];
        if c == '|' || c == '(' || c == ')' || c == ';' || c == '&' || c == '<' {
          kind := Symbol(c);
          s := s + 1;
        } else if c == '>' {
          kind := Symbol(c);
          s := s + 1;
          if s < |text| && text[s] == '>' {
            kind := DoubleGreater;
            s := s + 1;
          }
        } else {
          kind := Word;
          while s < |text| && !IsSpace(text[s]) && !IsSymbol(text[s])
            invariant q <= s <= |text| && WordEnd(text, q) == WordEnd(text, s)
          {
            s := s + 1;
          }
        }
      }
      var eq := s;
      at := SkipSpace(text, s);
      t := Token(kind, q, eq, at);
    }

    method PeekFor(toks: string) returns (found: bool)
      requires Valid()
      modifies this`at
      ensures found == Peek(text, old(at), toks) && at == Skip(text, old(at)) && Valid()
    {
      at := SkipSpace(text, at);
      found := at < |text| && text[at] in toks;
    }

    /** parseredirs(); the redirections are returned, to be wrapped around the command. */
    method Parseredirs() returns (r: Option<seq<Redirect<Span>>>)
      requires Valid()
      modifies this`at
      ensures Valid()
      ensures r.None? <==> ParseRedirs(text, old(at)).None?
      ensures r.Some? ==> r.value == ParseRedirs(text, old(at)).value.rs && at == ParseRedirs(text, old(at)).value.at
      ensures at >= old(at)
    {
      hide GetToken, Skip, Peek, ParseRedirs, Joined, ModeOf;
      ghost var whole := ParseRedirs(text, at);
      var rs: seq<Redirect<Span>> := [];
      JoinedNone(text, at);
      var found := PeekRedirs(rs, whole);
      while found
        invariant old(at) <= at <= |text| && found == Peek(text, at, "<>") && at == Skip(text, at)
        invariant whole == Joined(rs, ParseRedirs(text, at))
        decreases |text| - at
      {
        PeekToken(text, at, "<>");
        JoinedTurn(text, at, rs);
        var t := Gettoken();
        var w := Gettoken();
        if !w.kind.Word? {
          return None;
        }
        rs := rs + [Redirect(Span(w.q, w.eq), ModeOf(t.kind))];
        found := PeekRedirs(rs, whole);
      }
      JoinedEnd(text, at, rs);
      return Some(rs);
    }

    method PeekRedirs(ghost rs: seq<Redirect<Span>>, ghost whole: Option<Redirects>) returns (found: bool)
      requires Valid() && whole == Joined(rs, ParseRedirs(text, at))
      modifies this`at
      ensures Valid() && at >= old(at) && whole == Joined(rs, ParseRedirs(text, at)) && found == Peek(text, at, "<>")
      ensures at == Skip(text, at)
    {
      hide ParseRedirs, Skip, Peek;
      RedirsSkip(text, at);
      PeekSkip(text, at, "<>");
      SkipSkip(text, at);
      found := PeekFor("<>");
    }

    /** parseexec(). */
    method Parseexec() returns (r: Option<Cmd<Span>>)
      requires Valid()
      modifies this`at
      ensures Valid() && at >= old(at)
      ensures r.None? <==> ParseExec(text, old(at)).None?
      ensures r.Some? ==> Parsed(r.value, at) == ParseExec(text, old(at)).value
      decreases |text| - at, 1
    {
      hide GetToken, Skip, Peek, ParseRedirs, ParseBlock, ParseLine, ParsePipe;
      ghost var start := at;
      var open := PeekFor("(");
      LineSkip(text, start);
      PeekSkip(text, start, "(");
      if open {
        r := Parseblock();
        return;
      }
      var args, rs := [], [];
      var more := Parseredirs();
      if more.None? {
        return None;
      }
      rs := more.value;
      ghost var whole := ParseArgs(text, at, [], rs);
      var stop := PeekArgs(args, rs, whole);
      while !stop
        invariant at <= |text| && start <= at && |args| < MAXARGS && WordsOk(Exec(args), text) && RedirsOk(rs, text)
        invariant whole == ParseExec(text, start) == ParseArgs(text, at, args, rs) && stop == Peek(text, at, "|)&;")
        invariant at == Skip(text, at)
        decreases |text| - at
      {
        ghost var here := at;
        var t := Gettoken();
        if t.kind.EndOfInput? {
          break;
        }
        if !t.kind.Word? {
          return None;
        }
        if |args| + 1 >= MAXARGS {
          return None;
        }
        args := args + [Span(t.q, t.eq)];
        more := Parseredirs();
        if more.None? {
          return None;
        }
        rs := rs + more.value;
        stop := PeekArgs(args, rs, whole);
      }
      return Some(Wrap(Exec(args), rs));
    }

    /** The test of parseexec()'s loop. */
    method PeekArgs(ghost args: seq<Span>, ghost rs: seq<Redirect<Span>>, ghost whole: Option<Parsed>)
      returns (stop: bool)
      requires Valid() && |args| < MAXARGS && WordsOk(Exec(args), text) && RedirsOk(rs, text)
      requires whole == ParseArgs(text, at, args, rs)
      modifies this`at
      ensures Valid() && at >= old(at) && whole == ParseArgs(text, at, args, rs) && stop == Peek(text, at, "|)&;")
      ensures at == Skip(text, at)
    {
      hide ParseArgs, Skip, Peek;
      ArgsSkip(text, at, args, rs);
      PeekSkip(text, at, "|)&;");
      SkipSkip(text, at);
      stop := PeekFor("|)&;");
    }

    /** parseblock(). */
    method Parseblock() returns (r: Option<Cmd<Span>>)
      requires Valid()
      modifies this`at
      ensures Valid() && at >= old(at)
      ensures r.None? <==> ParseBlock(text, old(at)).None?
      ensures r.Some? ==> Parsed(r.value, at) == ParseBlock(text, old(at)).value
      decreases |text| - at, 0
    {
      hide GetToken, Skip, Peek, ParseRedirs, ParseLine, Wrap;
      ghost var start := at;
      var open := PeekFor("(");
      TokenSkip(text, start);
      if !open {
        return None;
      }
      PeekToken(text, start, "(");
      var t := Gettoken();
      r := Parseline();
      if r.None? {
        return;
      }
      ghost var here := at;
      var close := PeekFor(")");
      TokenSkip(text, here);
      if !close {
        return None;
      }
      t := Gettoken();
      var more := Parseredirs();
      if more.None? {
        return None;
      }
      return Some(Wrap(r.value, more.value));
    }

    /** parsepipe(). */
    method Parsepipe() returns (r: Option<Cmd<Span>>)
      requires Valid()
      modifies this`at
      ensures Valid() && at >= old(at)
      ensures r.None? <==> ParsePipe(text, old(at)).None?
      ensures r.Some? ==> Parsed(r.value, at) == ParsePipe(text, old(at)).value
      decreases |text| - at, 2
    {
      hide GetToken, Skip, Peek, ParseExec, WordsOk;
      ghost var start := at;
      r := Parseexec();
      if r.None? {
        return;
      }
      ghost var here := at;
      var bar := PeekFor("|");
      TokenSkip(text, here);
      if bar {
        PeekToken(text, here, "|");
        var t := Gettoken();
        var right := Parsepipe();
        if right.None? {
          return None;
        }
        r := Some(Pipe(r.value, right.value));
      }
    }

    /** parseline(). */
    method Parseline() returns (r: Option<Cmd<Span>>)
      requires Valid()
      modifies this`at
      ensures Valid() && at >= old(at)
      ensures r.None? <==> ParseLine(text, old(at)).None?
      ensures r.Some? ==> Parsed(r.value, at) == ParseLine(text, old(at)).value
      decreases |text| - at, 3
    {
      hide GetToken, Skip, Peek, ParsePipe, WordsOk;
      ghost var start := at;
      r := Parsepipe();
      if r.None? {
        return;
      }
      var cmd := r.value;
      ghost var whole := ParseBacks(text, Parsed(cmd, at));
      ghost var here := at;
      var amp := PeekFor("&");
      BacksSkip(text, cmd, here);
      PeekSkip(text, here, "&");
      SkipSkip(text, here);
      while amp
        invariant start <= at <= |text| && at == Skip(text, at) && WordsOk(cmd, text) && amp == Peek(text, at, "&")
        invariant whole == ParseBacks(text, Parsed(cmd, at))
        decreases |text| - at
      {
        PeekToken(text, at, "&");
        var t := Gettoken();
        cmd := Back(cmd);
        BackOk(cmd.cmd, text);
        here := at;
        amp := PeekFor("&");
        BacksSkip(text, cmd, here);
        PeekSkip(text, here, "&");
        SkipSkip(text, here);
      }
      assert whole == Parsed(cmd, at);
      var semi := PeekFor(";");
      if semi {
        PeekToken(text, at, ";");
        var t := Gettoken();
        var right := Parseline();
        if right.None? {
          return None;
        }
        return Some(List(cmd, right.value));
      }
      return Some(cmd);
    }
  }

  /** Redirections found before, and those still to come. */
  function Joined(rs: seq<Redirect<Span>>, p: Option<Redirects>): Option<Redirects> {
    if p.None? then None else Some(Redirects(rs + p.value.rs, p.value.at))
  }

  lemma JoinedNone(text: string, i: nat)
    requires i <= |text|
    ensures ParseRedirs(text, i) == Joined([], ParseRedirs(text, i))
  {
    var p := ParseRedirs(text, i);
    assert p.Some? ==> [] + p.value.rs == p.value.rs;
  }

  lemma JoinedEnd(text: string, i: nat, rs: seq<Redirect<Span>>)
    requires i <= |text| && !Peek(text, i, "<>") && i == Skip(text, i)
    ensures Joined(rs, ParseRedirs(text, i)) == Some(Redirects(rs, i))
  {
    assert rs + [] == rs;
  }

  lemma JoinedTurn(text: string, i: nat, rs: seq<Redirect<Span>>)
    requires i <= |text| && Peek(text, i, "<>") && i == Skip(text, i)
    ensures var t := GetToken(text, i); var w := GetToken(text, t.at);
      Joined(rs, ParseRedirs(text, i)) ==
        if w.kind.Word? then Joined(rs + [Redirect(Span(w.q, w.eq), ModeOf(t.kind))], ParseRedirs(text, w.at)) else None
  {
    hide GetToken, ModeOf, Peek;
    var t := GetToken(text, i);
    var w := GetToken(text, t.at);
    if w.kind.Word? && ParseRedirs(text, w.at).Some? {
      var r := Redirect(Span(w.q, w.eq), ModeOf(t.kind));
      var more := ParseRedirs(text, w.at).value.rs;
      assert rs + ([r] + more) == rs + [r] + more;
    }
  }

  lemma PeekSkip(text: string, i: nat, toks: string)
    requires i <= |text|
    ensures Peek(text, Skip(text, i), toks) == Peek(text, i, toks)
  {
    SkipSkip(text, i);
  }

  lemma PeekToken(text: string, i: nat, toks: string)
    requires i <= |text| && Peek(text, i, toks)
    ensures GetToken(text, i).at > i
  {}

  lemma BackOk(cmd: Cmd<Span>, text: string)
    requires WordsOk(cmd, text)
    ensures WordsOk(Back(cmd), text)
  {}

  lemma BacksSkip(text: string, cmd: Cmd<Span>, i: nat)
    requires i <= |text| && WordsOk(cmd, text)
    ensures ParseBacks(text, Parsed(cmd, Skip(text, i))) == ParseBacks(text, Parsed(cmd, i))
  {
    SkipSkip(text, i);
    TokenSkip(text, i);
  }

  /** parsecmd() before nulterminate(); None is a panic. */
  method Parsecmd(text: string) returns (r: Option<Cmd<Span>>)
    ensures r == ParseCmd(text)
  {
    hide ParseLine, Skip;
    var c := new Cursor(text);
    r := c.Parseline();
    if r.None? {
      return;
    }
    var any := c.PeekFor("");
    if c.at != |text| {
      return None;
    }
  }

  // ----- nulterminate() -----

  const NUL: char := 0 as char

  /** Where the words of a command end. */
  function EndsOf(cmd: Cmd<Span>): set<nat> {
    match cmd
    case Exec(args) => set k | 0 <= k < |args| :: args[k].eq
    case Redir(c, file, _) => EndsOf(c) + {file.eq}
    case Pipe(l, r) => EndsOf(l) + EndsOf(r)
    case List(l, r) => EndsOf(l) + EndsOf(r)
    case Back(c) => EndsOf(c)
  }

  /** The words of a command. */
  function Spans(cmd: Cmd<Span>): set<Span> {
    match cmd
    case Exec(args) => set k | 0 <= k < |args| :: args[k]
    case Redir(c, file, _) => Spans(c) + {file}
    case Pipe(l, r) => Spans(l) + Spans(r)
    case List(l, r) => Spans(l) + Spans(r)
    case Back(c) => Spans(c)
  }

  /** nulterminate(): a NUL where each word ends, and nothing else. */
  method Nulterminate(cmd: Cmd<Span>, buf: array<char>, ghost text: string)
    requires WordsOk(cmd, text) && buf.Length == |text| + 1
    modifies buf
    ensures forall k | 0 <= k < buf.Length :: buf[k] == if k in EndsOf(cmd) then NUL else old(buf[k])
  {
    match cmd
    case Exec(args) =>
      var i := 0;
      while i < |args|
        invariant 0 <= i <= |args|
        invariant forall k | 0 <= k < buf.Length ::
          buf[k] == if k in (set j | 0 <= j < i :: args[j].eq) then NUL else old(buf[k])
      {
        buf[args[i].eq] := NUL;
        i := i + 1;
      }
    case Redir(c, file, _) =>
      Nulterminate(c, buf, text);
      buf[file.eq] := NUL;
    case Pipe(l, r) =>
      Nulterminate(l, buf, text);
      Nulterminate(r, buf, text);
    case List(l, r) =>
      Nulterminate(l, buf, text);
      Nulterminate(r, buf, text);
    case Back(c) =>
      Nulterminate(c, buf, text);
  }

  /** The C string at q. */
  function CString(buf: seq<char>, q: nat): string
    requires q <= |buf|
    decreases |buf| - q
  {
    if q == |buf| || buf[q] == NUL then "" else [buf[q]] + CString(buf, q + 1)
  }

  lemma {:induction false} CStringIs(buf: seq<char>, q: nat, e: nat)
    requires q <= e < |buf| && buf[e] == NUL && forall k | q <= k < e :: buf[k] != NUL
    ensures CString(buf, q) == buf[q..e]
    decreases e - q
  {
    if q < e {
      CStringIs(buf, q + 1, e);
      assert buf[q..e] == [buf[q]] + buf[q + 1..e];
    }
  }

  lemma {:induction false} SpansAreWords(cmd: Cmd<Span>, text: string, w: Span)
    requires WordsOk(cmd, text)
    ensures w in Spans(cmd) ==> WordSpan(text, w) && w.eq in EndsOf(cmd)
    ensures forall e | e in EndsOf(cmd) :: e <= |text| && (e < |text| ==> !IsWordChar(text[e]))
  {
    match cmd
    case Exec(args) =>
    case Redir(c, file, _) => SpansAreWords(c, text, w);
    case Pipe(l, r) => SpansAreWords(l, text, w); SpansAreWords(r, text, w);
    case List(l, r) => SpansAreWords(l, text, w); SpansAreWords(r, text, w);
    case Back(c) => SpansAreWords(c, text, w);
  }

  /** No NUL lands inside another word: every argument and file name of the parsed command is its token. */
  lemma StringsAreTokens(cmd: Cmd<Span>, text: string, before: seq<char>, after: seq<char>, w: Span)
    requires WordsOk(cmd, text) && w in Spans(cmd) && before == text + [NUL] && |after| == |before|
    requires forall k | 0 <= k < |text| :: text[k] != NUL
    requires forall k | 0 <= k < |after| :: after[k] == if k in EndsOf(cmd) then NUL else before[k]
    ensures w.q <= |after| && CString(after, w.q) == Str(text, w)
  {
    SpansAreWords(cmd, text, w);
    forall k | w.q <= k < w.eq ensures after[k] == text[k] != NUL {
      assert IsWordChar(text[k]) && k !in EndsOf(cmd);
    }
    CStringIs(after, w.q, w.eq);
    assert after[w.q..w.eq] == text[w.q..w.eq];
  }

  /** parsecmd() on a buffer that holds the line and its NUL: the command, with all its strings in place. */
  method ParseInPlace(buf: array<char>) returns (r: Option<Cmd<Span>>)
    requires buf.Length > 0 && buf[buf.Length - 1] == NUL && forall k | 0 <= k < buf.Length - 1 :: buf[k] != NUL
    modifies buf
    ensures r == ParseCmd(old(buf[..buf.Length - 1]))
    ensures r.Some? ==>
      forall w | w in Spans(r.value) :: w.q <= buf.Length && CString(buf[..], w.q) == Str(old(buf[..buf.Length - 1]), w)
    ensures r.Some? ==> forall k | 0 <= k < buf.Length && k !in EndsOf(r.value) :: buf[k] == old(buf[k])
  {
    hide ParseCmd, CString, Str, Spans, WordsOk;
    var text := buf[..buf.Length - 1];
    ghost var before := buf[..];
    assert before == text + [NUL];
    r := Parsecmd(text);
    if r.Some? {
      Nulterminate(r.value, buf, text);
      forall w | w in Spans(r.value) ensures w.q <= buf.Length && CString(buf[..], w.q) == Str(text, w) {
        StringsAreTokens(r.value, text, before, buf[..], w);
      }
    }
  }
}
