/** The parser as the shell runs it, cursor and loops, and the terminating of its strings in the line. */
module ShellParser {

  import opened Basics
  import opened Shell

  const NUL: char := '\0'

  // ---- every span is a word ----

  predicate AllWords(s: Line, ws: seq<Span>) {
    forall k | 0 <= k < |ws| :: IsWord(s, ws[k])
  }

  predicate AllFiles(s: Line, tos: seq<To>) {
    forall k | 0 <= k < |tos| :: IsWord(s, tos[k].file)
  }

  predicate Sound(s: Line, c: Cmd) {
    match c
    case Exec(args) => AllWords(s, args)
    case Redir(d, f, m) => Sound(s, d) && IsWord(s, f)
    case Pipe(l, r) => Sound(s, l) && Sound(s, r)
    case List(l, r) => Sound(s, l) && Sound(s, r)
    case Back(d) => Sound(s, d)
  }

  ghost predicate SoundResult(s: Line, r: Parsed) {
    r.Done? ==> Sound(s, r.cmd)
  }

  lemma {:induction false} RedirsSound(s: Line, tos: seq<To>, i: nat)
    requires i <= |s| && AllFiles(s, tos)
    ensures var r := ParseRedirs(s, tos, i); r.Got? ==> AllFiles(s, r.tos)
    decreases |s| - i
  {
    if Ahead(s, i, {'<', '>'}) {
      var t := TokenAt(s, Skip(s, i));
      var w := TokenAt(s, t.pos);
      if w.kind == Word {
        RedirsSound(s, tos + [To(Span(w.q, w.eq), ModeOf(t.kind))], w.pos);
      }
    }
  }

  lemma {:induction false} WrapSound(s: Line, c: Cmd, tos: seq<To>)
    requires Sound(s, c) && AllFiles(s, tos)
    ensures Sound(s, Wrap(c, tos))
    decreases |tos|
  {
    if tos != [] { WrapSound(s, c, tos[..|tos| - 1]); }
  }

  lemma {:induction false} WordsSound(s: Line, args: seq<Span>, tos: seq<To>, i: nat)
    requires i <= |s| && AllWords(s, args) && AllFiles(s, tos)
    ensures SoundResult(s, ParseWords(s, args, tos, i))
    decreases |s| - i
  {
    WrapSound(s, Exec(args), tos);
    var t := TokenAt(s, Skip(s, i));
    if !Ahead(s, i, {'|', ')', '&', ';'}) && t.kind == Word && |args| + 1 < MAXARGS {
      RedirsSound(s, tos, t.pos);
      var r := ParseRedirs(s, tos, t.pos);
      if r.Got? { WordsSound(s, args + [Span(t.q, t.eq)], r.tos, r.pos); }
    }
  }

  lemma {:induction false} ExecSound(s: Line, i: nat)
    requires i <= |s|
    ensures SoundResult(s, ParseExec(s, i))
    decreases |s| - i, 0
  {
    if Ahead(s, i, {'('}) {
      var j := Skip(s, i);
      var l := ParseLine(s, TokenAt(s, j).pos);
      LineSound(s, TokenAt(s, j).pos);
      if l.Done? && Ahead(s, l.pos, {')'}) {
        var p := TokenAt(s, Skip(s, l.pos)).pos;
        RedirsSound(s, [], p);
        var r := ParseRedirs(s, [], p);
        if r.Got? { WrapSound(s, l.cmd, r.tos); }
      }
    } else {
      RedirsSound(s, [], i);
      var r := ParseRedirs(s, [], i);
      if r.Got? { WordsSound(s, [], r.tos, r.pos); }
    }
  }

  lemma {:induction false} PipeSound(s: Line, i: nat)
    requires i <= |s|
    ensures SoundResult(s, ParsePipe(s, i))
    decreases |s| - i, 1
  {
    ExecSound(s, i);
    var l := ParseExec(s, i);
    if l.Done? && Ahead(s, l.pos, {'|'}) { PipeSound(s, TokenAt(s, Skip(s, l.pos)).pos); }
  }

  lemma {:induction false} BacksSound(s: Line, c: Cmd, i: nat)
    requires i <= |s| && Sound(s, c)
    ensures Sound(s, ParseBacks(s, c, i).cmd)
    decreases |s| - i
  {
    if Ahead(s, i, {'&'}) { BacksSound(s, Back(c), TokenAt(s, Skip(s, i)).pos); }
  }

  /** Whatever line is given, the places a parsed command names are whole words of it. */
  lemma {:induction false} LineSound(s: Line, i: nat)
    requires i <= |s|
    ensures SoundResult(s, ParseLine(s, i))
    decreases |s| - i, 2
  {
    PipeSound(s, i);
    var p := ParsePipe(s, i);
    if p.Done? {
      BacksSound(s, p.cmd, p.pos);
      var b := ParseBacks(s, p.cmd, p.pos);
      if Ahead(s, b.pos, {';'}) { LineSound(s, TokenAt(s, Skip(s, b.pos)).pos); }
    }
  }

  // ---- terminating strings ----

  /** Position k is the end of a word of c. */
  predicate Ends(c: Cmd, k: nat) {
    match c
    case Exec(args) => exists j | 0 <= j < |args| :: args[j].eq == k
    case Redir(d, f, m) => Ends(d, k) || f.eq == k
    case Pipe(l, r) => Ends(l, k) || Ends(r, k)
    case List(l, r) => Ends(l, k) || Ends(r, k)
    case Back(d) => Ends(d, k)
  }

  /** Every word of c ends inside the buffer. */
  predicate Within(c: Cmd, n: nat) {
    match c
    case Exec(args) => forall j | 0 <= j < |args| :: args[j].eq < n
    case Redir(d, f, m) => Within(d, n) && f.eq < n
    case Pipe(l, r) => Within(l, n) && Within(r, n)
    case List(l, r) => Within(l, n) && Within(r, n)
    case Back(d) => Within(d, n)
  }

  method Nulterminate(buf: array<char>, c: Cmd)
    requires Within(c, buf.Length)
    modifies buf
    ensures forall k | 0 <= k < buf.Length :: buf[k] == if Ends(c, k) then NUL else old(buf[k])
    decreases c
  {
    match c
    case Exec(args) =>
      var i := 0;
      while i < |args|
        invariant 0 <= i <= |args|
        invariant forall k | 0 <= k < buf.Length ::
                    buf[k] == if exists j | 0 <= j < i :: args[j].eq == k then NUL else old(buf[k])
      {
        buf[args[i].eq] := NUL;
        i := i + 1;
      }
    case Redir(d, f, m) =>
      Nulterminate(buf, d);
      buf[f.eq] := NUL;
    case Pipe(l, r) =>
      Nulterminate(buf, l);
      Nulterminate(buf, r);
    case List(l, r) =>
      Nulterminate(buf, l);
      Nulterminate(buf, r);
    case Back(d) =>
      Nulterminate(buf, d);
  }

  /** The string that starts at position q of b, up to the zero that ends it. */
  function CString(b: seq<char>, q: nat): (t: Text)
    decreases |b| - q
  {
    if q >= |b| || b[q] == NUL then [] else [b[q]] + CString(b, q + 1)
  }

  lemma {:induction false} CStringIs(b: seq<char>, q: nat, e: nat)
    requires q <= e < |b| && b[e] == NUL && forall k | q <= k < e :: b[k] != NUL
    ensures CString(b, q) == b[q..e]
    decreases e - q
  {
    if q < e { CStringIs(b, q + 1, e); }
  }

  function CStrings(b: seq<char>, ws: seq<Span>): (ts: seq<Text>)
    ensures |ts| == |ws| && forall k | 0 <= k < |ws| :: ts[k] == CString(b, ws[k].q)
  {
    seq(|ws|, k requires 0 <= k < |ws| => CString(b, ws[k].q))
  }

  /** The command that c is, its words read from the buffer as terminated strings. */
  function ReadStrings(b: seq<char>, c: Cmd): (t: Tree) {
    match c
    case Exec(args) => Simple(CStrings(b, args))
    case Redir(d, f, m) => Into(ReadStrings(b, d), CString(b, f.q), m)
    case Pipe(l, r) => Piped(ReadStrings(b, l), ReadStrings(b, r))
    case List(l, r) => Then(ReadStrings(b, l), ReadStrings(b, r))
    case Back(d) => Behind(ReadStrings(b, d))
  }

  /** Line s in a buffer, zero after it, with zeros where the words of c end. */
  ghost predicate Terminated(b: seq<char>, s: Line, c: Cmd) {
    && |b| == |s| + 1 && (forall k | 0 <= k < |s| :: s[k] != NUL)
    && forall k | 0 <= k < |b| :: b[k] == if k == |s| || Ends(c, k) then NUL else s[k]
  }

  /** Words end where ordinary characters do. */
  lemma {:induction false} EndsApart(s: Line, c: Cmd, k: nat)
    requires Sound(s, c) && Ends(c, k)
    ensures k <= |s| && (k < |s| ==> !Plain(s[k]))
  {
    match c
    case Exec(args) => {}
    case Redir(d, f, m) => if f.eq != k { EndsApart(s, d, k); }
    case Pipe(l, r) => if Ends(l, k) { EndsApart(s, l, k); } else { EndsApart(s, r, k); }
    case List(l, r) => if Ends(l, k) { EndsApart(s, l, k); } else { EndsApart(s, r, k); }
    case Back(d) => EndsApart(s, d, k);
  }

  /** A word of the command, terminated, reads as itself: no other terminator fell inside it. */
  lemma WordReads(b: seq<char>, s: Line, c: Cmd, w: Span)
    requires Terminated(b, s, c) && Sound(s, c) && IsWord(s, w) && Ends(c, w.eq)
    ensures CString(b, w.q) == Sub(s, w)
  {
    forall k | w.q <= k < w.eq ensures b[k] == s[k] != NUL {
      if Ends(c, k) { EndsApart(s, c, k); }
    }
    CStringIs(b, w.q, w.eq);
    assert b[w.q..w.eq] == s[w.q..w.eq];
  }

  lemma {:induction false} TreeReads(b: seq<char>, s: Line, c: Cmd, d: Cmd)
    requires Terminated(b, s, c) && Sound(s, c) && Sound(s, d)
             && forall k: nat {:trigger Ends(d, k)} | Ends(d, k) :: Ends(c, k)
    ensures ReadStrings(b, d) == Read(s, d)
    decreases d
  {
    match d
    case Exec(args) =>
      forall k | 0 <= k < |args| ensures CString(b, args[k].q) == Sub(s, args[k]) {
        assert Ends(d, args[k].eq);
        WordReads(b, s, c, args[k]);
      }
      assert CStrings(b, args) == Subs(s, args);
    case Redir(e, f, m) =>
      forall k: nat | Ends(e, k) ensures Ends(c, k) { assert Ends(d, k); }
      TreeReads(b, s, c, e);
      assert Ends(d, f.eq);
      WordReads(b, s, c, f);
    case Pipe(l, r) =>
      forall k: nat | Ends(l, k) || Ends(r, k) ensures Ends(c, k) { assert Ends(d, k); }
      TreeReads(b, s, c, l);
      TreeReads(b, s, c, r);
    case List(l, r) =>
      forall k: nat | Ends(l, k) || Ends(r, k) ensures Ends(c, k) { assert Ends(d, k); }
      TreeReads(b, s, c, l);
      TreeReads(b, s, c, r);
    case Back(e) =>
      forall k: nat | Ends(e, k) ensures Ends(c, k) { assert Ends(d, k); }
      TreeReads(b, s, c, e);
  }

  lemma {:induction false} SoundWithin(s: Line, c: Cmd, n: nat)
    requires Sound(s, c) && n == |s| + 1
    ensures Within(c, n)
  {
    match c
    case Exec(args) => {}
    case Redir(d, f, m) => SoundWithin(s, d, n);
    case Pipe(l, r) =>
      SoundWithin(s, l, n);
      SoundWithin(s, r, n);
    case List(l, r) =>
      SoundWithin(s, l, n);
      SoundWithin(s, r, n);
    case Back(d) => SoundWithin(s, d, n);
  }

  // ---- the parser ----

  method Peek(s: Line, pos: nat, toks: set<char>) returns (b: bool, p: nat)
    requires pos <= |s|
    ensures p == Skip(s, pos) && (b <==> Ahead(s, pos, toks))
  {
    p := pos;
    while p < |s| && White(s[p])
      invariant pos <= p <= |s| && Skip(s, p) == Skip(s, pos)
    {
      p := p + 1;
    }
    b := p < |s| && s[p] in toks;
  }

  method GetToken(s: Line, pos: nat) returns (t: Token)
    requires pos <= |s|
    ensures t == TokenAt(s, pos)
  {
    var p := pos;
    while p < |s| && White(s[p])
      invariant pos <= p <= |s| && Skip(s, p) == Skip(s, pos)
    {
      p := p + 1;
    }
    var q := p;
    var kind := End;
    if p < |s| {
      if s[p] == '>' {
        kind := Sym('>');
        p := p + 1;
        if p < |s| && s[p] == '>' {
          kind := More;
          p := p + 1;
        }
      } else if Symbol(s[p]) {
        kind := Sym(s[p]);
        p := p + 1;
      } else {
        kind := Word;
        while p < |s| && !White(s[p]) && !Symbol(s[p])
          invariant q <= p <= |s| && WordEnd(s, p) == WordEnd(s, q)
        {
          p := p + 1;
        }
      }
    }
    var e := p;
    while p < |s| && White(s[p])
      invariant e <= p <= |s| && Skip(s, p) == Skip(s, e)
    {
      p := p + 1;
    }
    t := Token(kind, q, e, p);
  }

  method Redirections(s: Line, tos0: seq<To>, pos: nat) returns (r: Redirs)
    requires pos <= |s|
    ensures r == ParseRedirs(s, tos0, pos)
  {
    var tos, p := tos0, pos;
    var b;
    b, p := Peek(s, p, {'<', '>'});
    SkipTwice(s, pos);
    while b
      invariant p <= |s| && Skip(s, p) == p && (b <==> Ahead(s, p, {'<', '>'}))
                && ParseRedirs(s, tos, p) == ParseRedirs(s, tos0, pos)
      decreases |s| - p, b
    {
      var t := GetToken(s, p);
      var w := GetToken(s, t.pos);
      if w.kind != Word {
        return NoFile;
      }
      tos := tos + [To(Span(w.q, w.eq), ModeOf(t.kind))];
      SkipTwice(s, w.pos);
      b, p := Peek(s, w.pos, {'<', '>'});
    }
    r := Got(tos, p);
  }

  lemma {:induction false} SkipTwice(s: Line, i: nat)
    requires i <= |s|
    ensures Skip(s, Skip(s, i)) == Skip(s, i)
    ensures forall tos :: ParseRedirs(s, tos, Skip(s, i)) == ParseRedirs(s, tos, i)
  {
  }

  /** parseexec's loop over words and redirections. */
  method Words(s: Line, tos0: seq<To>, pos: nat) returns (r: Parsed)
    requires pos <= |s|
    ensures r == ParseWords(s, [], tos0, pos)
  {
    var args: seq<Span> := [];
    var tos, p := tos0, pos;
    while true
      invariant p <= |s| && ParseWords(s, args, tos, p) == ParseWords(s, [], tos0, pos)
      decreases |s| - p
    {
      var b, q := Peek(s, p, {'|', ')', '&', ';'});
      if b {
        return Done(Wrap(Exec(args), tos), q);
      }
      var t := GetToken(s, q);
      if t.kind == End {
        return Done(Wrap(Exec(args), tos), t.pos);
      }
      if t.kind != Word {
        return Fail;
      }
      if |args| + 1 >= MAXARGS {
        return Fail;
      }
      args := args + [Span(t.q, t.eq)];
      var g := Redirections(s, tos, t.pos);
      if g.NoFile? {
        return Fail;
      }
      tos, p := g.tos, g.pos;
    }
  }

  method Execs(s: Line, pos: nat) returns (r: Parsed)
    requires pos <= |s|
    ensures r == ParseExec(s, pos)
    decreases |s| - pos, 0
  {
    var b, p := Peek(s, pos, {'('});
    if b {
      r := Block(s, p);
      return;
    }
    SkipTwice(s, pos);
    var g := Redirections(s, [], p);
    if g.NoFile? {
      return Fail;
    }
    r := Words(s, g.tos, g.pos);
  }

  method Block(s: Line, pos: nat) returns (r: Parsed)
    requires pos < |s| && s[pos] == '('
    ensures r == ParseBlock(s, pos)
    decreases |s| - pos, 0, 0
  {
    var t := GetToken(s, pos);
    var l := Lines(s, t.pos);
    if l.Fail? {
      return Fail;
    }
    var b, p := Peek(s, l.pos, {')'});
    if !b {
      return Fail;
    }
    t := GetToken(s, p);
    var g := Redirections(s, [], t.pos);
    r := if g.NoFile? then Fail else Done(Wrap(l.cmd, g.tos), g.pos);
  }

  method Pipes(s: Line, pos: nat) returns (r: Parsed)
    requires pos <= |s|
    ensures r == ParsePipe(s, pos)
    decreases |s| - pos, 1
  {
    var l := Execs(s, pos);
    if l.Fail? {
      return Fail;
    }
    var b, p := Peek(s, l.pos, {'|'});
    if !b {
      return Done(l.cmd, p);
    }
    var t := GetToken(s, p);
    r := Pipes(s, t.pos);
    r := if r.Fail? then Fail else Done(Pipe(l.cmd, r.cmd), r.pos);
  }

  method Lines(s: Line, pos: nat) returns (r: Parsed)
    requires pos <= |s|
    ensures r == ParseLine(s, pos)
    decreases |s| - pos, 2
  {
    var l := Pipes(s, pos);
    if l.Fail? {
      return Fail;
    }
    var cmd, p := l.cmd, l.pos;
    var b;
    var j := p;
    b, j := Peek(s, p, {'&'});
    while b
      invariant pos <= p <= |s| && j == Skip(s, p) && (b <==> Ahead(s, p, {'&'}))
                && ParseBacks(s, cmd, p) == ParseBacks(s, l.cmd, l.pos)
      decreases |s| - p, b
    {
      var t := GetToken(s, j);
      cmd, p := Back(cmd), t.pos;
      b, j := Peek(s, p, {'&'});
    }
    assert ParseBacks(s, l.cmd, l.pos) == Done(cmd, j);
    var k;
    b, k := Peek(s, j, {';'});
    if !b {
      return Done(cmd, k);
    }
    var t := GetToken(s, k);
    r := Lines(s, t.pos);
    r := if r.Fail? then Fail else Done(List(cmd, r.cmd), r.pos);
  }

  /** parsecmd on a line of n characters in a buffer: parses all of it, or fails, and terminates its words in place. */
  method Parse(buf: array<char>, n: nat) returns (r: Parsed)
    requires n + 1 == buf.Length && buf[n] == NUL && forall k | 0 <= k < n :: buf[k] != NUL
    modifies buf
    ensures r == ParseCmd(old(buf[..n]))
    ensures r.Fail? ==> buf[..] == old(buf[..])
    ensures r.Done? ==> ReadStrings(buf[..], r.cmd) == Read(old(buf[..n]), r.cmd)
  {
    var s := buf[..n];
    r := Lines(s, 0);
    if r.Fail? {
      return;
    }
    var b, p := Peek(s, r.pos, {});
    if p != |s| {
      return Fail;
    }
    LineSound(s, 0);
    SoundWithin(s, r.cmd, buf.Length);
    Nulterminate(buf, r.cmd);
    r := Done(r.cmd, |s|);
    assert Terminated(buf[..], s, r.cmd) by {
      forall k | 0 <= k <= |s| && Ends(r.cmd, k) ensures k <= |s| { EndsApart(s, r.cmd, k); }
    }
    TreeReads(buf[..], s, r.cmd, r.cmd);
  }

  /** A command printed, parsed and terminated comes back word for word as strings in the buffer. */
  method PrintParse(buf: array<char>, ghost t: Tree) returns (r: Parsed)
    requires Good(t) && Small(t) && buf.Length == |Print(t)| + 1 && buf[..] == Print(t) + [NUL]
             && forall k | 0 <= k < |Print(t)| :: Print(t)[k] != NUL
    modifies buf
    ensures r.Done? && ReadStrings(buf[..], r.cmd) == t
  {
    RoundTrip(t);
    assert buf[..buf.Length - 1] == Print(t);
    r := Parse(buf, buf.Length - 1);
  }
}
