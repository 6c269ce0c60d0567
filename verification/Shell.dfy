/** The shell's parser: tokens, recursive descent over a cursor, and the terminating of strings in place.

    A command names its words by their place in the line. The line is s, of which s[|s|] is the terminating zero.
 */
module Shell {
  import opened Basics

  type Line = seq<char>

  const MAXARGS := 10

  /** Where a word starts and where it ends. */
  datatype Span = Span(q: nat, eq: nat)

  datatype Mode = Input | Output | Append

  datatype Cmd =
    | Exec(args: seq<Span>)
    | Redir(cmd: Cmd, file: Span, mode: Mode)
    | Pipe(left: Cmd, right: Cmd)
    | List(left: Cmd, right: Cmd)
    | Back(cmd: Cmd)

  /** A redirection, as it is collected. */
  datatype To = To(file: Span, mode: Mode)

  // ---- tokens ----

  predicate White(c: char) {
    c == ' ' || c == '\t' || c == '\r' || c == '\n' || c == '\U{000B}'
  }

  predicate Symbol(c: char) {
    c == '<' || c == '|' || c == '>' || c == '&' || c == ';' || c == '(' || c == ')'
  }

  predicate Plain(c: char) {
    !White(c) && !Symbol(c)
  }

  function Skip(s: Line, i: nat): (j: nat)
    requires i <= |s|
    ensures i <= j <= |s| && (j < |s| ==> !White(s[j]))
    decreases |s| - i
  {
    if i < |s| && White(s[i]) then Skip(s, i + 1) else i
  }

  function WordEnd(s: Line, i: nat): (j: nat)
    requires i <= |s|
    ensures i <= j <= |s| && (j < |s| ==> !Plain(s[j])) && forall k | i <= k < j :: Plain(s[k])
    decreases |s| - i
  {
    if i < |s| && Plain(s[i]) then WordEnd(s, i + 1) else i
  }

  datatype Kind = End | Sym(c: char) | More | Word

  /** A token: what it is, its place, and where the cursor goes. */
  datatype Token = Token(kind: Kind, q: nat, eq: nat, pos: nat)

  function TokenEnd(s: Line, q: nat): (e: nat)
    requires q <= |s|
    ensures q <= e <= |s| && (q < |s| && !White(s[q]) ==> q < e)
  {
    if q == |s| then q
    else if s[q] == '>' then (if q + 1 < |s| && s[q + 1] == '>' then q + 2 else q + 1)
    else if Symbol(s[q]) then q + 1
    else WordEnd(s, q)
  }

  function KindAt(s: Line, q: nat): (k: Kind)
    requires q <= |s|
  {
    if q == |s| then End
    else if s[q] == '>' && q + 1 < |s| && s[q + 1] == '>' then More
    else if Symbol(s[q]) then Sym(s[q])
    else Word
  }

  function TokenAt(s: Line, i: nat): (t: Token)
    requires i <= |s|
    ensures i <= t.q <= t.eq <= t.pos <= |s| && (t.kind != End ==> i < t.pos)
    ensures t.kind == Word ==> IsWord(s, Span(t.q, t.eq))
  {
    var q := Skip(s, i);
    var e := TokenEnd(s, q);
    Token(KindAt(s, q), q, e, Skip(s, e))
  }

  /** A maximal run of ordinary characters. */
  predicate IsWord(s: Line, w: Span) {
    w.q < w.eq <= |s| && (forall k | w.q <= k < w.eq :: Plain(s[k])) && (w.eq < |s| ==> !Plain(s[w.eq]))
  }

  /** peek: is the next character that is not white space among toks? */
  predicate Ahead(s: Line, i: nat, toks: set<char>)
    requires i <= |s|
  {
    var j := Skip(s, i);
    j < |s| && s[j] in toks
  }

  // ---- the grammar ----

  datatype Parsed = Fail | Done(cmd: Cmd, pos: nat)
  datatype Redirs = NoFile | Got(tos: seq<To>, pos: nat)

  function ModeOf(k: Kind): (m: Mode) {
    if k == Sym('<') then Input else if k == More then Append else Output
  }

  function ParseRedirs(s: Line, tos: seq<To>, i: nat): (r: Redirs)
    requires i <= |s|
    ensures r.Got? ==> i <= r.pos <= |s|
    decreases |s| - i
  {
    if !Ahead(s, i, {'<', '>'}) then Got(tos, Skip(s, i)) else
    var t := TokenAt(s, Skip(s, i));
    var w := TokenAt(s, t.pos);
    if w.kind != Word then NoFile else ParseRedirs(s, tos + [To(Span(w.q, w.eq), ModeOf(t.kind))], w.pos)
  }

  /** cmd with redirections around it, the first one innermost. */
  function Wrap(cmd: Cmd, tos: seq<To>): (r: Cmd)
    decreases |tos|
  {
    if tos == [] then cmd else Redir(Wrap(cmd, tos[..|tos| - 1]), tos[|tos| - 1].file, tos[|tos| - 1].mode)
  }

  /** The words of a simple command, with redirections among them. */
  function ParseWords(s: Line, args: seq<Span>, tos: seq<To>, i: nat): (r: Parsed)
    requires i <= |s|
    ensures r.Done? ==> i <= r.pos <= |s|
    decreases |s| - i
  {
    var j := Skip(s, i);
    if Ahead(s, i, {'|', ')', '&', ';'}) then Done(Wrap(Exec(args), tos), j) else
    var t := TokenAt(s, j);
    if t.kind == End then Done(Wrap(Exec(args), tos), t.pos)
    else if t.kind != Word || |args| + 1 >= MAXARGS then Fail else
    var r := ParseRedirs(s, tos, t.pos);
    if r.NoFile? then Fail else ParseWords(s, args + [Span(t.q, t.eq)], r.tos, r.pos)
  }

  function ParseExec(s: Line, i: nat): (r: Parsed)
    requires i <= |s|
    ensures r.Done? ==> i <= r.pos <= |s|
    decreases |s| - i, 0
  {
    if Ahead(s, i, {'('}) then ParseBlock(s, Skip(s, i)) else
    var r := ParseRedirs(s, [], i);
    if r.NoFile? then Fail else ParseWords(s, [], r.tos, r.pos)
  }

  function ParseBlock(s: Line, i: nat): (r: Parsed)
    requires i <= |s| && Skip(s, i) == i && i < |s| && s[i] == '('
    ensures r.Done? ==> i <= r.pos <= |s|
    decreases |s| - i, 0, 0
  {
    var l := ParseLine(s, TokenAt(s, i).pos);
    if l.Fail? || !Ahead(s, l.pos, {')'}) then Fail else
    var r := ParseRedirs(s, [], TokenAt(s, Skip(s, l.pos)).pos);
    if r.NoFile? then Fail else Done(Wrap(l.cmd, r.tos), r.pos)
  }

  function ParsePipe(s: Line, i: nat): (r: Parsed)
    requires i <= |s|
    ensures r.Done? ==> i <= r.pos <= |s|
    decreases |s| - i, 1
  {
    var l := ParseExec(s, i);
    if l.Fail? || !Ahead(s, l.pos, {'|'}) then Looked(s, l) else
    var r := ParsePipe(s, TokenAt(s, Skip(s, l.pos)).pos);
    if r.Fail? then Fail else Done(Pipe(l.cmd, r.cmd), r.pos)
  }

  /** A result after a peek, which leaves the cursor at the next character that is not white space. */
  function Looked(s: Line, l: Parsed): (r: Parsed)
    requires l.Done? ==> l.pos <= |s|
  {
    if l.Fail? then Fail else Done(l.cmd, Skip(s, l.pos))
  }

  function ParseBacks(s: Line, cmd: Cmd, i: nat): (r: Parsed)
    requires i <= |s|
    ensures r.Done? && i <= r.pos <= |s|
    decreases |s| - i
  {
    if Ahead(s, i, {'&'}) then ParseBacks(s, Back(cmd), TokenAt(s, Skip(s, i)).pos) else Done(cmd, Skip(s, i))
  }

  function ParseLine(s: Line, i: nat): (r: Parsed)
    requires i <= |s|
    ensures r.Done? ==> i <= r.pos <= |s|
    decreases |s| - i, 2
  {
    var p := ParsePipe(s, i);
    if p.Fail? then Fail else
    var b := ParseBacks(s, p.cmd, p.pos);
    if !Ahead(s, b.pos, {';'}) then Looked(s, b) else
    var r := ParseLine(s, TokenAt(s, Skip(s, b.pos)).pos);
    if r.Fail? then Fail else Done(List(b.cmd, r.cmd), r.pos)
  }

  function ParseCmd(s: Line): (r: Parsed) {
    var l := ParseLine(s, 0);
    if l.Done? && Skip(s, l.pos) == |s| then Done(l.cmd, |s|) else Fail
  }

  // ---- trees and their printing ----

  /** A command with its words written out. */
  datatype Tree =
    | Simple(words: seq<Text>)
    | Into(tree: Tree, file: Text, mode: Mode)
    | Piped(left: Tree, right: Tree)
    | Then(left: Tree, right: Tree)
    | Behind(tree: Tree)

  function Sub(s: Line, w: Span): (t: Text) {
    if w.q <= w.eq <= |s| then s[w.q..w.eq] else []
  }

  function Subs(s: Line, ws: seq<Span>): (ts: seq<Text>)
    ensures |ts| == |ws| && forall k | 0 <= k < |ws| :: ts[k] == Sub(s, ws[k])
  {
    seq(|ws|, k requires 0 <= k < |ws| => Sub(s, ws[k]))
  }

  /** The command that c is, its words read from s. */
  function Read(s: Line, c: Cmd): (t: Tree) {
    match c
    case Exec(args) => Simple(Subs(s, args))
    case Redir(d, f, m) => Into(Read(s, d), Sub(s, f), m)
    case Pipe(l, r) => Piped(Read(s, l), Read(s, r))
    case List(l, r) => Then(Read(s, l), Read(s, r))
    case Back(d) => Behind(Read(s, d))
  }

  function PrintWords(ws: seq<Text>): (x: Text)
    decreases |ws|
  {
    if ws == [] then [] else ws[0] + " " + PrintWords(ws[1..])
  }

  function Arrow(m: Mode): (x: Text) {
    match m
    case Input => "<"
    case Output => ">"
    case Append => ">>"
  }

  /** A tree written out with every part in parentheses. */
  function Print(t: Tree): (x: Text) {
    match t
    case Simple(ws) => PrintWords(ws)
    case Into(u, f, m) => "(" + Print(u) + ")" + (Arrow(m) + (f + " "))
    case Piped(l, r) => "(" + Print(l) + ")" + ("|" + ("(" + Print(r) + ")"))
    case Then(l, r) => "(" + Print(l) + ")" + (";" + ("(" + Print(r) + ")"))
    case Behind(u) => "(" + Print(u) + ")" + "&"
  }

  predicate GoodWord(w: Text) {
    w != [] && forall k | 0 <= k < |w| :: Plain(w[k])
  }

  /** Words are words. */
  predicate Good(t: Tree) {
    match t
    case Simple(ws) => forall k | 0 <= k < |ws| :: GoodWord(ws[k])
    case Into(u, f, m) => Good(u) && GoodWord(f)
    case Piped(l, r) => Good(l) && Good(r)
    case Then(l, r) => Good(l) && Good(r)
    case Behind(u) => Good(u)
  }

  /** No command has more words than fit. */
  predicate Small(t: Tree) {
    match t
    case Simple(ws) => |ws| < MAXARGS
    case Into(u, f, m) => Small(u)
    case Piped(l, r) => Small(l) && Small(r)
    case Then(l, r) => Small(l) && Small(r)
    case Behind(u) => Small(u)
  }

  // ---- the printing parses back ----

  /** x stands at position i of s. */
  ghost predicate At(s: Line, i: nat, x: Text) {
    i + |x| <= |s| && forall k | i <= k < i + |x| :: s[k] == x[k - i]
  }

  lemma AtSplit(s: Line, i: nat, a: Text, b: Text)
    requires At(s, i, a + b)
    ensures At(s, i, a) && At(s, i + |a|, b)
  {
    forall k | i <= k < i + |a| ensures s[k] == a[k - i] { assert s[k] == (a + b)[k - i]; }
    forall k | i + |a| <= k < i + |a| + |b| ensures s[k] == b[k - i - |a|] { assert s[k] == (a + b)[k - i]; }
  }

  /** s ends at i, or a parenthesis closes there. */
  predicate Follow(s: Line, i: nat) {
    i <= |s| && (i < |s| ==> s[i] == ')')
  }

  lemma {:induction false} WordEndIs(s: Line, i: nat, e: nat)
    requires i <= e <= |s| && (forall k | i <= k < e :: Plain(s[k])) && (e < |s| ==> !Plain(s[e]))
    ensures WordEnd(s, i) == e
    decreases e - i
  {
    if i < e { WordEndIs(s, i + 1, e); }
  }

  lemma WordToken(s: Line, i: nat, w: Text)
    requires At(s, i, w + " ") && GoodWord(w) && (i + |w| + 1 < |s| ==> !White(s[i + |w| + 1]))
    ensures Skip(s, i) == i && TokenAt(s, i) == Token(Word, i, i + |w|, i + |w| + 1) && Sub(s, Span(i, i + |w|)) == w
            && Plain(s[i])
  {
    AtSplit(s, i, w, " ");
    forall k | i <= k < i + |w| ensures Plain(s[k]) { assert s[k] == w[k - i]; }
    assert s[i + |w|] == ' ';
    WordEndIs(s, i, i + |w|);
    assert Skip(s, i + |w|) == Skip(s, i + |w| + 1) == i + |w| + 1;
    assert s[i..i + |w|] == w;
  }

  lemma NoRedirs(s: Line, tos: seq<To>, i: nat)
    requires i <= |s| && (i < |s| ==> !White(s[i]) && s[i] != '<' && s[i] != '>')
    ensures ParseRedirs(s, tos, i) == Got(tos, i)
  {
  }

  lemma NotWhite(s: Line, i: nat, ws: seq<Text>)
    requires At(s, i, PrintWords(ws)) && Follow(s, i + |PrintWords(ws)|) && forall k | 0 <= k < |ws| :: GoodWord(ws[k])
    ensures i < |s| ==> !White(s[i]) && s[i] != '<' && s[i] != '>' && s[i] != '('
  {
    if ws != [] {
      assert PrintWords(ws)[0] == ws[0][0];
      assert s[i] == PrintWords(ws)[0];
    }
  }

  /** What the words from i on give, after args. */
  function WordsGive(s: Line, args: seq<Span>, i: nat): (r: Parsed) {
    if i <= |s| then ParseWords(s, args, [], i) else Fail
  }

  /** Word w stands at i, with one space after it and then, at j, something other than a redirection. */
  ghost predicate WordHere(s: Line, i: nat, w: Text, j: nat) {
    && j == i + |w| + 1 && Plainly(s, j) && Skip(s, i) == i && i < |s| && Plain(s[i])
    && TokenAt(s, i) == Token(Word, i, i + |w|, j) && Sub(s, Span(i, i + |w|)) == w
  }

  /** One word more. */
  lemma WordStep(s: Line, i: nat, args: seq<Span>, w: Text, args': seq<Span>, j: nat, r: Parsed)
    requires WordHere(s, i, w, j) && args' == args + [Span(i, i + |w|)] && i <= |s| && r == WordsGive(s, args, i)
    ensures if |args| + 1 >= MAXARGS then r == Fail else r == WordsGive(s, args', j)
  {
    NoRedirs(s, [], j);
  }

  lemma WordsEnd(s: Line, i: nat, args: seq<Span>)
    requires Follow(s, i)
    ensures ParseWords(s, args, [], i) == Done(Exec(args), i)
  {
    assert Wrap(Exec(args), []) == Exec(args);
  }

  /** args, and the places of the words ws from i on. */
  function Places(args: seq<Span>, i: nat, ws: seq<Text>): (r: seq<Span>)
    decreases |ws|
  {
    if ws == [] then args else Places(args + [Span(i, i + |ws[0]|)], i + |ws[0]| + 1, ws[1..])
  }

  /** The words ws, printed, stand at i, and the end or a parenthesis after them at e. */
  ghost predicate WordsAt(s: Line, i: nat, ws: seq<Text>, e: nat) {
    e == i + |PrintWords(ws)| && At(s, i, PrintWords(ws)) && Follow(s, e) && forall k | 0 <= k < |ws| :: GoodWord(ws[k])
  }

  /** The words ws stand one after the other from i on, and the end or a parenthesis after them at e. */
  ghost predicate Chain(s: Line, i: nat, ws: seq<Text>, e: nat)
    decreases |ws|
  {
    if ws == [] then i == e && Follow(s, e)
       else WordHere(s, i, ws[0], i + |ws[0]| + 1) && Chain(s, i + |ws[0]| + 1, ws[1..], e)
  }

  lemma {:induction false} WordsChain(s: Line, i: nat, ws: seq<Text>, e: nat)
    requires WordsAt(s, i, ws, e)
    ensures Chain(s, i, ws, e)
    decreases |ws|
  {
    if ws != [] {
      var x, rest := ws[0] + " ", ws[1..];
      AtSplit(s, i, x, PrintWords(rest));
      NotWhite(s, i + |x|, rest);
      WordToken(s, i, ws[0]);
      WordsChain(s, i + |x|, rest, e);
    }
  }

  lemma {:induction false} PlaceRead(s: Line, args: seq<Span>, i: nat, ws: seq<Text>, e: nat, k: nat)
    requires Chain(s, i, ws, e) && k < |args| + |ws|
    ensures |Places(args, i, ws)| == |args| + |ws|
    ensures if k < |args| then Places(args, i, ws)[k] == args[k] else Sub(s, Places(args, i, ws)[k]) == ws[k - |args|]
    decreases |ws|
  {
    if ws != [] {
      PlaceRead(s, args + [Span(i, i + |ws[0]|)], i + |ws[0]| + 1, ws[1..], e, k);
    }
  }

  lemma PlacesRead(s: Line, i: nat, ws: seq<Text>, e: nat)
    requires Chain(s, i, ws, e)
    ensures Subs(s, Places([], i, ws)) == ws
  {
    forall k | 0 <= k < |ws| ensures |Places([], i, ws)| == |ws| && Sub(s, Places([], i, ws)[k]) == ws[k] {
      PlaceRead(s, [], i, ws, e, k);
    }
  }

  lemma {:induction false} WordsParse(s: Line, i: nat, args: seq<Span>, ws: seq<Text>, e: nat, r: Parsed)
    requires Chain(s, i, ws, e) && i <= |s| && r == WordsGive(s, args, i)
    ensures r == if |args| + |ws| < MAXARGS || ws == [] then Done(Exec(Places(args, i, ws)), e) else Fail
    decreases |ws|
  {
    if ws == [] {
      WordsEnd(s, i, args);
    } else {
      var j := i + |ws[0]| + 1;
      var args' := args + [Span(i, i + |ws[0]|)];
      WordStep(s, i, args, ws[0], args', j, r);
      if |args| + 1 < MAXARGS {
        WordsParse(s, j, args', ws[1..], e, r);
      }
    }
  }

  // ---- whole commands ----

  /** r is the command t, parsed up to e; or a failure, if t has too many words somewhere. */
  ghost predicate Right(s: Line, r: Parsed, t: Tree, e: nat) {
    if Small(t) then r.Done? && r.pos == e && Read(s, r.cmd) == t else r == Fail
  }

  /** What may come after a closing parenthesis, short of a redirection. */
  predicate Plainly(s: Line, i: nat) {
    i <= |s| && (i < |s| ==> !White(s[i]) && s[i] != '<' && s[i] != '>')
  }

  lemma SymToken(s: Line, i: nat)
    requires i < |s| && Symbol(s[i]) && s[i] != '>'
    ensures Skip(s, i) == i && TokenAt(s, i) == Token(Sym(s[i]), i, i + 1, Skip(s, i + 1))
  {
  }

  ghost predicate IsExec(s: Line, i: nat, r: Parsed) {
    i <= |s| && r == ParseExec(s, i)
  }

  ghost predicate IsPipe(s: Line, i: nat, r: Parsed) {
    i <= |s| && r == ParsePipe(s, i)
  }

  ghost predicate IsLine(s: Line, i: nat, r: Parsed) {
    i <= |s| && r == ParseLine(s, i)
  }

  /** Character c stands where the cursor is, with no white space after it. */
  predicate Next(s: Line, r: Parsed, c: char) {
    r.Done? ==> r.pos < |s| && s[r.pos] == c && Skip(s, r.pos + 1) == r.pos + 1
  }

  lemma PipeLast(s: Line, i: nat, l: Parsed)
    requires IsExec(s, i, l) && (l.Done? ==> l.pos <= |s| && (l.pos < |s| ==> !White(s[l.pos]) && s[l.pos] != '|'))
    ensures IsPipe(s, i, l)
  {
  }

  lemma PipeMore(s: Line, i: nat, l: Parsed, r: Parsed, p: Parsed)
    requires IsExec(s, i, l) && Next(s, l, '|') && (l.Done? ==> IsPipe(s, l.pos + 1, r))
    requires p == if l.Fail? || r.Fail? then Fail else Done(Pipe(l.cmd, r.cmd), r.pos)
    ensures IsPipe(s, i, p)
  {
    if l.Done? { SymToken(s, l.pos); }
  }

  lemma LineLast(s: Line, i: nat, p: Parsed)
    requires IsPipe(s, i, p) && (p.Done? ==> Follow(s, p.pos))
    ensures IsLine(s, i, p)
  {
    if p.Done? { assert ParseBacks(s, p.cmd, p.pos) == Done(p.cmd, p.pos); }
  }

  lemma LineBack(s: Line, i: nat, p: Parsed, q: Parsed)
    requires IsPipe(s, i, p) && Next(s, p, '&') && (p.Done? ==> Follow(s, p.pos + 1))
    requires q == if p.Fail? then Fail else Done(Back(p.cmd), p.pos + 1)
    ensures IsLine(s, i, q)
  {
    if p.Done? {
      SymToken(s, p.pos);
      assert ParseBacks(s, q.cmd, q.pos) == q;
      assert ParseBacks(s, p.cmd, p.pos) == q;
    }
  }

  lemma LineList(s: Line, i: nat, p: Parsed, r: Parsed, q: Parsed)
    requires IsPipe(s, i, p) && Next(s, p, ';') && (p.Done? ==> IsLine(s, p.pos + 1, r))
    requires q == if p.Fail? || r.Fail? then Fail else Done(List(p.cmd, r.cmd), r.pos)
    ensures IsLine(s, i, q)
  {
    if p.Done? {
      SymToken(s, p.pos);
      assert ParseBacks(s, p.cmd, p.pos) == p;
    }
  }

  /** A line in parentheses from i to e, with what follows it. */
  lemma ExecBlock(s: Line, i: nat, l: Parsed, e: nat, g: Redirs, r: Parsed)
    requires i < |s| && s[i] == '(' && Skip(s, i + 1) == i + 1 && IsLine(s, i + 1, l)
    requires l.Done? ==> l.pos < e == l.pos + 1 <= |s| && s[l.pos] == ')' && Skip(s, e) == e && IsRedirs(s, [], e, g)
    requires r == if l.Fail? || g.NoFile? then Fail else Done(Wrap(l.cmd, g.tos), g.pos)
    ensures IsExec(s, i, r)
  {
    SymToken(s, i);
    if l.Done? { SymToken(s, l.pos); }
    assert ParseExec(s, i) == ParseBlock(s, i);
  }

  /** Tree t, printed, stands at i, and the end or a parenthesis after it at e. */
  ghost predicate TreeAt(s: Line, i: nat, t: Tree, e: nat) {
    e == i + |Print(t)| && At(s, i, Print(t)) && Follow(s, e) && Good(t)
  }

  /** Tree t, printed, stands in parentheses from i to e. */
  ghost predicate BlockAt(s: Line, i: nat, t: Tree, e: nat) {
    e == i + |Print(t)| + 2 && At(s, i, "(" + Print(t) + ")") && Good(t)
  }

  lemma BlockInside(s: Line, i: nat, t: Tree, e: nat)
    requires BlockAt(s, i, t, e)
    ensures e <= |s| && s[i] == '(' && s[e - 1] == ')' && TreeAt(s, i + 1, t, e - 1) && Skip(s, i + 1) == i + 1
  {
    AtSplit(s, i, "(" + Print(t), ")");
    AtSplit(s, i, "(", Print(t));
    Solid(s, i + 1, t, e - 1);
  }

  lemma Solid(s: Line, i: nat, t: Tree, e: nat)
    requires TreeAt(s, i, t, e)
    ensures i < |s| ==> !White(s[i])
  {
    if t.Simple? {
      NotWhite(s, i, t.words);
    } else {
      assert s[i] == Print(t)[0] == '(';
    }
  }

  /** A block before anything but a redirection. */
  lemma BlockPlain(s: Line, i: nat, t: Tree, e: nat, l: Parsed)
    requires BlockAt(s, i, t, e) && IsLine(s, i + 1, l) && Right(s, l, t, e - 1) && Plainly(s, e)
    ensures IsExec(s, i, if l.Fail? then Fail else Done(l.cmd, e))
  {
    BlockInside(s, i, t, e);
    NoRedirs(s, [], e);
    assert l.Done? ==> Wrap(l.cmd, []) == l.cmd;
    ExecBlock(s, i, l, e, ParseRedirs(s, [], e), if l.Fail? then Fail else Done(l.cmd, e));
  }

  /** A block before a redirection. */
  lemma BlockInto(s: Line, i: nat, t: Tree, e: nat, l: Parsed, f: Text, m: Mode, e': nat, r: Parsed)
    requires BlockAt(s, i, t, e) && IsLine(s, i + 1, l) && Right(s, l, t, e - 1)
    requires At(s, e, Arrow(m) + (f + " ")) && GoodWord(f) && e' == e + |Arrow(m)| + |f| + 1 && Follow(s, e')
    requires r == if l.Fail? then Fail else Done(Redir(l.cmd, Span(e + |Arrow(m)|, e + |Arrow(m)| + |f|), m), e')
    ensures IsExec(s, i, r) && Sub(s, Span(e + |Arrow(m)|, e + |Arrow(m)| + |f|)) == f
  {
    BlockInside(s, i, t, e);
    var w := Span(e + |Arrow(m)|, e + |Arrow(m)| + |f|);
    OneRedir(s, e, f, m, e');
    if l.Done? {
      assert [To(w, m)][..0] == [] && Wrap(l.cmd, []) == l.cmd;
      assert Wrap(l.cmd, [To(w, m)]) == Redir(l.cmd, w, m);
    }
    ExecBlock(s, i, l, e, Got([To(w, m)], e'), r);
  }

  lemma ArrowToken(s: Line, i: nat, m: Mode, j: nat)
    requires At(s, i, Arrow(m)) && j == i + |Arrow(m)| && j < |s| && Plain(s[j])
    ensures i < |s| && s[i] in {'<', '>'} && Skip(s, i) == i && TokenAt(s, i).pos == j
            && ModeOf(TokenAt(s, i).kind) == m
  {
    assert s[i] == Arrow(m)[0];
    assert m == Append ==> s[i + 1] == Arrow(m)[1];
  }

  ghost predicate IsRedirs(s: Line, tos: seq<To>, i: nat, g: Redirs) {
    i <= |s| && g == ParseRedirs(s, tos, i)
  }

  lemma RedirStep(s: Line, i: nat, t: Token, w: Token, tos: seq<To>, g: Redirs)
    requires i < |s| && s[i] in {'<', '>'} && Skip(s, i) == i && t == TokenAt(s, i) && w == TokenAt(s, t.pos)
             && w.kind == Word
    requires tos == [To(Span(w.q, w.eq), ModeOf(t.kind))] && IsRedirs(s, tos, w.pos, g)
    ensures IsRedirs(s, [], i, g)
  {
    assert [] + tos == tos;
  }

  lemma OneRedir(s: Line, i: nat, f: Text, m: Mode, e: nat)
    requires At(s, i, Arrow(m) + (f + " ")) && GoodWord(f) && e == i + |Arrow(m)| + |f| + 1 && Follow(s, e)
    ensures Skip(s, i) == i && IsRedirs(s, [], i, Got([To(Span(i + |Arrow(m)|, i + |Arrow(m)| + |f|), m)], e))
    ensures Sub(s, Span(i + |Arrow(m)|, i + |Arrow(m)| + |f|)) == f
  {
    AtSplit(s, i, Arrow(m), f + " ");
    var j := i + |Arrow(m)|;
    WordToken(s, j, f);
    ArrowToken(s, i, m, j);
    var tos := [To(Span(j, j + |f|), m)];
    NoRedirs(s, tos, e);
    RedirStep(s, i, TokenAt(s, i), TokenAt(s, j), tos, Got(tos, e));
  }

  // ---- the round trip ----

  lemma ExecOfWords(s: Line, i: nat, r: Parsed)
    requires Plainly(s, i) && (i < |s| ==> s[i] != '(') && r == WordsGive(s, [], i)
    ensures IsExec(s, i, r)
  {
    NoRedirs(s, [], i);
  }

  lemma SimpleParse(s: Line, i: nat, t: Tree, e: nat) returns (r: Parsed)
    requires TreeAt(s, i, t, e) && t.Simple?
    ensures IsLine(s, i, r) && Right(s, r, t, e)
  {
    NotWhite(s, i, t.words);
    r := ParseWords(s, [], [], i);
    WordsChain(s, i, t.words, e);
    WordsParse(s, i, [], t.words, e, r);
    PlacesRead(s, i, t.words, e);
    ExecOfWords(s, i, r);
    LineOf(s, i, r, e);
  }

  /** A tree in parentheses, with the rest of its printing after it. */
  lemma FirstBlock(s: Line, i: nat, t: Tree, u: Tree, rest: Text, e: nat)
    requires TreeAt(s, i, t, e) && Print(t) == "(" + Print(u) + ")" + rest && Good(u)
    ensures var e1 := i + |Print(u)| + 2; BlockAt(s, i, u, e1) && At(s, e1, rest) && e == e1 + |rest|
  {
    AtSplit(s, i, "(" + Print(u) + ")", rest);
  }

  /** The second of two blocks, joined by c. */
  lemma SecondBlock(s: Line, i: nat, u: Tree, c: char, e: nat)
    requires At(s, i, [c] + ("(" + Print(u) + ")")) && Good(u) && e == i + 1 + |Print(u)| + 2 && Follow(s, e)
    ensures s[i] == c && BlockAt(s, i + 1, u, e) && Skip(s, i + 1) == i + 1 && Plainly(s, e)
  {
    AtSplit(s, i, [c], "(" + Print(u) + ")");
    BlockInside(s, i + 1, u, e);
  }

  lemma JoinPipe(s: Line, i: nat, x: Parsed, m: nat, y: Parsed, e: nat, r: Parsed)
    requires IsExec(s, i, x) && (x.Done? ==> x.pos == m) && m < |s| && s[m] == '|' && Skip(s, m + 1) == m + 1
    requires IsExec(s, m + 1, y) && (y.Done? ==> y.pos == e) && Follow(s, e)
    requires r == if x.Fail? || y.Fail? then Fail else Done(Pipe(x.cmd, y.cmd), e)
    ensures IsLine(s, i, r)
  {
    PipeLast(s, m + 1, y);
    PipeMore(s, i, x, y, r);
    LineLast(s, i, r);
  }

  lemma JoinList(s: Line, i: nat, x: Parsed, m: nat, y: Parsed, e: nat, r: Parsed)
    requires IsExec(s, i, x) && (x.Done? ==> x.pos == m) && m < |s| && s[m] == ';' && Skip(s, m + 1) == m + 1
    requires IsExec(s, m + 1, y) && (y.Done? ==> y.pos == e) && Follow(s, e)
    requires r == if x.Fail? || y.Fail? then Fail else Done(List(x.cmd, y.cmd), e)
    ensures IsLine(s, i, r)
  {
    PipeLast(s, i, x);
    LineOf(s, m + 1, y, e);
    LineList(s, i, x, y, r);
  }

  lemma JoinBack(s: Line, i: nat, x: Parsed, m: nat, r: Parsed)
    requires IsExec(s, i, x) && (x.Done? ==> x.pos == m) && m < |s| && s[m] == '&' && Follow(s, m + 1)
    requires r == if x.Fail? then Fail else Done(Back(x.cmd), m + 1)
    ensures IsLine(s, i, r)
  {
    PipeLast(s, i, x);
    LineBack(s, i, x, r);
  }

  lemma {:induction false} TreeParse(s: Line, i: nat, t: Tree, e: nat) returns (r: Parsed)
    requires TreeAt(s, i, t, e)
    ensures IsLine(s, i, r) && Right(s, r, t, e)
    decreases t, 3
  {
    match t
    case Simple(_) => r := SimpleParse(s, i, t, e);
    case Into(_, _, _) => r := IntoParse(s, i, t, e);
    case Behind(_) => r := BehindParse(s, i, t, e);
    case Piped(_, _) => r := PipedParse(s, i, t, e);
    case Then(_, _) => r := ThenParse(s, i, t, e);
  }

  lemma {:induction false} PipedParse(s: Line, i: nat, t: Tree, e: nat) returns (r: Parsed)
    requires TreeAt(s, i, t, e) && t.Piped?
    ensures IsLine(s, i, r) && Right(s, r, t, e)
    decreases t, 2
  {
    var m := TwoAt(s, i, t, e, t.left, '|', t.right);
    var x, y := TwoParse(s, i, t, t.left, m, t.right, e);
    r := if x.Fail? || y.Fail? then Fail else Done(Pipe(x.cmd, y.cmd), e);
    JoinPipe(s, i, x, m, y, e, r);
  }

  lemma {:induction false} ThenParse(s: Line, i: nat, t: Tree, e: nat) returns (r: Parsed)
    requires TreeAt(s, i, t, e) && t.Then?
    ensures IsLine(s, i, r) && Right(s, r, t, e)
    decreases t, 2
  {
    var m := TwoAt(s, i, t, e, t.left, ';', t.right);
    var x, y := TwoParse(s, i, t, t.left, m, t.right, e);
    r := if x.Fail? || y.Fail? then Fail else Done(List(x.cmd, y.cmd), e);
    JoinList(s, i, x, m, y, e, r);
  }

  lemma {:induction false} BlockParse(s: Line, i: nat, u: Tree, e: nat) returns (x: Parsed)
    requires BlockAt(s, i, u, e) && Plainly(s, e)
    ensures IsExec(s, i, x) && Right(s, x, u, e)
    decreases u, 4
  {
    BlockInside(s, i, u, e);
    var l := TreeParse(s, i + 1, u, e - 1);
    x := if l.Fail? then Fail else Done(l.cmd, e);
    BlockPlain(s, i, u, e, l);
  }

  lemma {:induction false} IntoParse(s: Line, i: nat, t: Tree, e: nat) returns (r: Parsed)
    requires TreeAt(s, i, t, e) && t.Into?
    ensures IsLine(s, i, r) && Right(s, r, t, e)
    decreases t, 2
  {
    var u, f, m := t.tree, t.file, t.mode;
    var e1 := i + |Print(u)| + 2;
    FirstBlock(s, i, t, u, Arrow(m) + (f + " "), e);
    BlockInside(s, i, u, e1);
    var l := TreeParse(s, i + 1, u, e1 - 1);
    var w := Span(e1 + |Arrow(m)|, e1 + |Arrow(m)| + |f|);
    r := if l.Fail? then Fail else Done(Redir(l.cmd, w, m), e);
    BlockInto(s, i, u, e1, l, f, m, e, r);
    LineOf(s, i, r, e);
  }

  lemma LineOf(s: Line, i: nat, r: Parsed, e: nat)
    requires IsExec(s, i, r) && Follow(s, e) && (r.Done? ==> r.pos == e)
    ensures IsLine(s, i, r)
  {
    PipeLast(s, i, r);
    LineLast(s, i, r);
  }

  lemma {:induction false} BehindParse(s: Line, i: nat, t: Tree, e: nat) returns (r: Parsed)
    requires TreeAt(s, i, t, e) && t.Behind?
    ensures IsLine(s, i, r) && Right(s, r, t, e)
    decreases t, 2
  {
    FirstBlock(s, i, t, t.tree, "&", e);
    assert s[e - 1] == '&';
    var x := BlockParse(s, i, t.tree, e - 1);
    r := if x.Fail? then Fail else Done(Back(x.cmd), e);
    JoinBack(s, i, x, e - 1, r);
  }

  /** Where the parts of a tree of two parts stand. */
  lemma TwoAt(s: Line, i: nat, t: Tree, e: nat, a: Tree, c: char, b: Tree) returns (m: nat)
    requires TreeAt(s, i, t, e) && Print(t) == "(" + Print(a) + ")" + ([c] + ("(" + Print(b) + ")")) && Good(a)
             && Good(b)
    requires c == '|' || c == ';'
    ensures m < |s| && s[m] == c && Skip(s, m + 1) == m + 1 && Follow(s, e)
    ensures BlockAt(s, i, a, m) && Plainly(s, m) && BlockAt(s, m + 1, b, e) && Plainly(s, e)
  {
    m := i + |Print(a)| + 2;
    FirstBlock(s, i, t, a, [c] + ("(" + Print(b) + ")"), e);
    SecondBlock(s, m, b, c, e);
  }

  lemma {:induction false} TwoParse(s: Line, i: nat, t: Tree, a: Tree, m: nat, b: Tree, e: nat)
      returns (x: Parsed, y: Parsed)
    requires BlockAt(s, i, a, m) && Plainly(s, m) && BlockAt(s, m + 1, b, e) && Plainly(s, e) && a < t && b < t
    ensures IsExec(s, i, x) && Right(s, x, a, m) && IsExec(s, m + 1, y) && Right(s, y, b, e)
    decreases t, 0
  {
    x := BlockParse(s, i, a, m);
    y := BlockParse(s, m + 1, b, e);
  }

  /** Printing a command and parsing it gives it back, if and only if no part of it has more than nine words. */
  lemma RoundTrip(t: Tree)
    requires Good(t)
    ensures var r := ParseCmd(Print(t));
            if Small(t) then r.Done? && Read(Print(t), r.cmd) == t else r == Fail
  {
    var r := TreeParse(Print(t), 0, t, |Print(t)|);
  }
}
