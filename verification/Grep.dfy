/** The line loop of grep. */
module Grep {

  import opened Basics
  import opened Matcher

  const NUL: char := '\0'
  const NEWLINE: char := '\n'
  const BUFSIZE := 1024

  /** What is printed of the line s[i..k]: the line with its newline, or nothing. */
  type Printer = (nat, nat) -> Text

  ghost function Matching(re: Text, s: Text): (line: Printer)
    ensures Prints(line, re, s)
  {
    var line := (i: nat, k: nat) => if i <= k < |s| && Means(re, s[i..k]) then s[i..k + 1] else [];
    assert forall i: nat, k: nat {:trigger PrintsAt(line, re, s, i, k)} :: PrintsAt(line, re, s, i, k);
    line
  }

  ghost predicate PrintsAt(line: Printer, re: Text, s: Text, i: nat, k: nat) {
    line(i, k) == if i <= k < |s| && Means(re, s[i..k]) then s[i..k + 1] else []
  }

  ghost predicate Prints(line: Printer, re: Text, s: Text) {
    forall i: nat, k: nat {:trigger PrintsAt(line, re, s, i, k)} :: PrintsAt(line, re, s, i, k)
  }

  /** The first newline of s at or after i, or |s|. */
  function Eol(s: Text, i: nat): (k: nat)
    requires i <= |s|
    ensures i <= k <= |s| && (k < |s| ==> s[k] == NEWLINE)
    decreases |s| - i
  {
    if i == |s| || s[i] == NEWLINE then i else Eol(s, i + 1)
  }

  /** A character of a line: not one that strchr stops at. */
  predicate Ordinary(c: char) {
    c != NEWLINE && c != NUL
  }

  /** Where strchr stops: the first newline or zero of s at or after i, or |s|. */
  function End(s: Text, i: nat): (k: nat)
    requires i <= |s|
    ensures i <= k <= Eol(s, i) && (k < |s| ==> !Ordinary(s[k])) && (k < |s| && s[k] == NEWLINE ==> k == Eol(s, i))
    decreases |s| - i
  {
    if i == |s| || !Ordinary(s[i]) then i else End(s, i + 1)
  }

  lemma {:induction false} EndIs(s: Text, i: nat, k: nat)
    requires i <= k <= |s| && (forall j | i <= j < k :: Ordinary(s[j]))
    ensures k <= End(s, i) && (k == |s| || !Ordinary(s[k]) ==> End(s, i) == k)
    decreases k - i
  {
    if i < k {
      EndIs(s, i + 1, k);
    }
  }

  /** out, followed by the newline-terminated lines of s from i on that match, in order. */
  ghost function Lines(line: Printer, s: Text, i: nat, out: Text): (r: Text)
    requires i <= |s|
    decreases |s| - i
  {
    var k := Eol(s, i);
    if k == |s| then out else Lines(line, s, k + 1, out + line(i, k))
  }

  /** grep stops at s[i..k]: the last line, one with a zero in it, or one that, with its newline, does not
      fit the buffer. */
  predicate StopsAt(s: Text, i: nat, k: nat)
    requires i <= k <= |s|
  {
    k == |s| || s[k] == NUL || k - i > BUFSIZE - 2
  }

  /** out, followed by what grep prints of s from i on. */
  ghost function Printed(line: Printer, s: Text, i: nat, out: Text): (r: Text)
    requires i <= |s|
    decreases |s| - i
  {
    var k := End(s, i);
    if StopsAt(s, i, k) then out else Printed(line, s, k + 1, out + line(i, k))
  }

  /** Where it stops. */
  function Stop(s: Text, i: nat): (r: nat)
    requires i <= |s|
    ensures i <= r <= |s|
    decreases |s| - i
  {
    var k := End(s, i);
    if StopsAt(s, i, k) then i else Stop(s, k + 1)
  }

  /** No terminated line of s from i on is printed. */
  ghost predicate NothingFrom(line: Printer, s: Text, i: nat)
    requires i <= |s|
    decreases |s| - i
  {
    var k := Eol(s, i);
    k < |s| ==> line(i, k) == [] && NothingFrom(line, s, k + 1)
  }

  /** What is printed are the matching lines up to the first one that is too long or has a zero. */
  lemma {:induction false} PrintedSplit(line: Printer, s: Text, i: nat, out: Text)
    requires i <= |s|
    ensures Lines(line, s, i, out) == Lines(line, s, Stop(s, i), Printed(line, s, i, out))
    decreases |s| - i
  {
    var k := End(s, i);
    if !StopsAt(s, i, k) {
      PrintedSplit(line, s, k + 1, out + line(i, k));
    }
  }

  lemma {:induction false} LinesGrow(line: Printer, s: Text, i: nat, out: Text)
    requires i <= |s|
    ensures |Lines(line, s, i, out)| >= |out|
    ensures Lines(line, s, i, out) == out <==> NothingFrom(line, s, i)
    decreases |s| - i
  {
    var k := Eol(s, i);
    if k < |s| {
      LinesGrow(line, s, k + 1, out + line(i, k));
      if line(i, k) == [] { assert out + line(i, k) == out; }
    }
  }

  /** Exactly the matching lines are printed if and only if none comes at or after a line that is too long or
      has a zero. */
  lemma PrintsAllIff(line: Printer, s: Text)
    ensures Printed(line, s, 0, []) == Lines(line, s, 0, []) <==> NothingFrom(line, s, Stop(s, 0))
  {
    PrintedSplit(line, s, 0, []);
    LinesGrow(line, s, Stop(s, 0), Printed(line, s, 0, []));
  }

  /** Every terminated line from i on is short enough and without a zero. */
  predicate Short(s: Text, i: nat)
    requires i <= |s|
    decreases |s| - i
  {
    var k := Eol(s, i);
    k < |s| ==> End(s, i) == k && k - i <= BUFSIZE - 2 && Short(s, k + 1)
  }

  /** With lines of at most 1022 characters and no zero, exactly the matching lines are printed. */
  lemma {:induction false} PrintsShort(line: Printer, s: Text, i: nat, out: Text)
    requires i <= |s| && Short(s, i)
    ensures Printed(line, s, i, out) == Lines(line, s, i, out)
    decreases |s| - i
  {
    var k := Eol(s, i);
    if k < |s| {
      PrintsShort(line, s, k + 1, out + line(i, k));
    }
  }

  function Repeat(c: char, n: nat): (s: Text)
    ensures |s| == n && forall j | 0 <= j < n :: s[j] == c
  {
    seq(n, _ => c)
  }

  lemma Only(a: Text)
    requires forall j | 0 <= j < |a| :: a[j] == 'a'
    ensures !Means(['b'], a)
  {
    assert Parse(['b']) == Pattern([One('b')], false) && [One('b')] + [] == [One('b')];
    forall i | 0 <= i <= |a| ensures !Here(Parse(['b']), a[i..]) {
      HereOne('b', Pattern([], false), a[i..]);
    }
  }

  lemma MeansB()
    ensures Means(['b'], ['b'])
  {
    assert Parse(['b']) == Pattern([One('b')], false) && [One('b')] + [] == [One('b')];
    assert ['b'][0..] == ['b'] && ['b'][1..] == [];
    HereOne('b', Pattern([], false), ['b']);
    HereEnd(false, []);
  }

  /** A line too long hides the lines after it: a matching line is not printed. */
  lemma LongLineHides()
    ensures var s := Repeat('a', BUFSIZE - 1) + [NEWLINE, 'b', NEWLINE];
            Lines(Matching(['b'], s), s, 0, []) == ['b', NEWLINE] && Printed(Matching(['b'], s), s, 0, []) == []
  {
    var a := Repeat('a', BUFSIZE - 1);
    var s := a + [NEWLINE, 'b', NEWLINE];
    var line := Matching(['b'], s);
    EndIs(s, 0, BUFSIZE - 1);
    EndIs(s, BUFSIZE, BUFSIZE + 1);
    assert s[0..BUFSIZE - 1] == a && s[BUFSIZE..BUFSIZE + 1] == ['b'] && s[BUFSIZE..BUFSIZE + 2] == ['b', NEWLINE];
    Only(a);
    MeansB();
    assert PrintsAt(line, ['b'], s, 0, BUFSIZE - 1) && PrintsAt(line, ['b'], s, BUFSIZE, BUFSIZE + 1);
    assert [] + line(0, BUFSIZE - 1) == [] && [] + line(BUFSIZE, BUFSIZE + 1) == ['b', NEWLINE];
    assert Lines(line, s, BUFSIZE + 2, ['b', NEWLINE]) == ['b', NEWLINE];
    assert Lines(line, s, BUFSIZE, []) == ['b', NEWLINE];
  }

  /** A zero hides what comes after it: a matching line is not printed. */
  lemma ZeroHides()
    ensures var s := [NUL, NEWLINE, 'b', NEWLINE];
            Printed(Matching(['b'], s), s, 0, []) == [] && Lines(Matching(['b'], s), s, 0, []) != []
  {
    var s := [NUL, NEWLINE, 'b', NEWLINE];
    var line := Matching(['b'], s);
    EndIs(s, 0, 0);
    EndIs(s, 2, 3);
    assert Eol(s, 1) == 1 && Stop(s, 0) == 0;
    assert s[2..3] == ['b'];
    MeansB();
    assert PrintsAt(line, ['b'], s, 2, 3);
    assert !NothingFrom(line, s, 2);
    PrintsAllIff(line, s);
  }

  /** strchr(buf + p, '\n'), or -1; e is where it stops. */
  method Strchr(buf: array<char>, p: nat, m: nat) returns (q: int, ghost e: nat)
    requires p <= m < buf.Length && buf[m] == NUL
    ensures p <= e <= m && (forall j | p <= j < e :: Ordinary(buf[j])) && !Ordinary(buf[e])
    ensures q == if buf[e] == NEWLINE then e else -1
  {
    q := p;
    while buf[q] != NUL
      invariant p <= q <= m && forall j | p <= j < q :: Ordinary(buf[j])
      decreases m - q
    {
      if buf[q] == NEWLINE {
        return q, q;
      }
      q := q + 1;
    }
    q, e := -1, q;
  }

  /** One read into the buffer. */
  method Fill(buf: array<char>, m: nat, data: Text)
    requires m + |data| < buf.Length
    modifies buf
    ensures forall j | 0 <= j < m + |data| :: buf[j] == if j < m then old(buf[j]) else data[j - m]
    ensures buf[m + |data|] == NUL
  {
    var i := 0;
    while i < |data|
      invariant 0 <= i <= |data| && forall j | 0 <= j < m + i :: buf[j] == if j < m then old(buf[j]) else data[j - m]
    {
      buf[m + i] := data[i];
      i := i + 1;
    }
    buf[m + |data|] := NUL;
  }

  /** memmove(buf, buf + p, n). */
  method Shift(buf: array<char>, p: nat, n: nat)
    requires p + n <= buf.Length
    modifies buf
    ensures forall j | 0 <= j < n :: buf[j] == old(buf[p + j])
  {
    var i := 0;
    while i < n
      invariant 0 <= i <= n && forall j | 0 <= j < i :: buf[j] == old(buf[p + j])
      invariant forall j | p + i <= j < buf.Length :: buf[j] == old(buf[j])
    {
      buf[i] := buf[p + i];
      i := i + 1;
    }
  }

  /** One turn of the inner loop: line w at p, up to the newline at q, printed if it matches. */
  method PrintLine(re: Text, buf: array<char>, p: nat, q: nat, ghost w: Text) returns (out: Text)
    requires p <= q < buf.Length && buf[q] == NEWLINE && |w| == q - p && forall j | p <= j < q :: buf[j] == w[j - p]
    modifies buf
    ensures out == if Means(re, w) then w + [NEWLINE] else []
    ensures forall j | 0 <= j < buf.Length && j != q :: buf[j] == old(buf[j])
  {
    buf[q] := NUL;
    assert buf[p..q] == w;
    var b := Match(re, buf[p..q]);
    out := [];
    if b {
      buf[q] := NEWLINE;
      out := buf[p..q + 1];
    }
  }

  /** Having printed out, grep still has to print the lines of s from i on. */
  ghost predicate Owed(line: Printer, s: Text, i: int, out: Text) {
    0 <= i <= |s| && Printed(line, s, i, out) == Printed(line, s, 0, [])
  }

  lemma OwedNext(line: Printer, s: Text, i: nat, k: nat, out: Text)
    requires Owed(line, s, i, out) && i <= k < |s| && s[k] == NEWLINE && k - i <= BUFSIZE - 2
             && (forall j | i <= j < k :: Ordinary(s[j]))
    ensures Owed(line, s, k + 1, out + line(i, k))
  {
    EndIs(s, i, k);
  }

  /** Nothing more is printed once a full buffer, or all there is, holds no newline, or a zero before it. */
  lemma OwedNothing(line: Printer, s: Text, i: nat, k: nat, out: Text)
    requires Owed(line, s, i, out) && i <= k <= |s| && (forall j | i <= j < k :: Ordinary(s[j]))
             && (k == |s| || s[k] == NUL || k - i == BUFSIZE - 1)
    ensures out == Printed(line, s, 0, [])
  {
    EndIs(s, i, k);
  }

  /** buf[p..m] holds s[i + p..i + m]. */
  ghost predicate Holds(buf: array<char>, s: Text, i: nat, p: nat, m: nat)
    reads buf
  {
    m < buf.Length && i + m <= |s| && forall j | p <= j < m :: buf[j] == s[i + j]
  }

  /** The line s[i..k], printed: what is owed moves on by a line. */
  lemma OwedLine(line: Printer, re: Text, s: Text, i: nat, k: nat, out: Text, w: Text, text: Text)
    requires Prints(line, re, s) && Owed(line, s, i, out) && i <= k < |s| && s[k] == NEWLINE && k - i <= BUFSIZE - 2
             && (forall j | i <= j < k :: Ordinary(s[j]))
    requires w == s[i..k] && text == if Means(re, w) then w + [NEWLINE] else []
    ensures Owed(line, s, k + 1, out + text)
  {
    assert PrintsAt(line, re, s, i, k);
    assert s[i..k + 1] == w + [NEWLINE];
    OwedNext(line, s, i, k, out);
  }

  /** One turn with what was printed before and is owed after. */
  method PrintFound(re: Text, buf: array<char>, p: nat, q: nat, m: nat, ghost s: Text, ghost i: nat, done: Text,
                    ghost line: Printer)
      returns (out: Text)
    requires Prints(line, re, s) && buf.Length == BUFSIZE && Holds(buf, s, i, p, m) && buf[m] == NUL
    requires p <= q < m && buf[q] == NEWLINE && (forall j | p <= j < q :: Ordinary(buf[j]))
             && Owed(line, s, i + p, done)
    modifies buf
    ensures Holds(buf, s, i, q + 1, m) && buf[m] == NUL && Owed(line, s, i + q + 1, out)
  {
    forall j | i + p <= j < i + q ensures Ordinary(s[j]) { assert Ordinary(buf[j - i]); }
    ghost var w := s[i + p..i + q];
    var text := PrintLine(re, buf, p, q, w);
    OwedLine(line, re, s, i + p, i + q, done, w, text);
    out := done + text;
  }

  /** No line of buf[..m] is left to be found from p on: strchr stops at e, a zero or the end. */
  ghost predicate Searched(buf: array<char>, p: nat, e: nat, m: nat)
    reads buf
  {
    p <= e <= m < buf.Length && (forall j | p <= j < e :: Ordinary(buf[j])) && (e < m ==> buf[e] == NUL)
  }

  /** The inner loop: prints the lines of buf[..m], which holds s from i on, and gives where the rest begins. */
  method PrintLines(re: Text, buf: array<char>, m: nat, ghost s: Text, ghost i: nat, done: Text, ghost line: Printer)
      returns (out: Text, p: nat, ghost e: nat)
    requires Prints(line, re, s) && buf.Length == BUFSIZE && Holds(buf, s, i, 0, m) && buf[m] == NUL
    requires Owed(line, s, i, done)
    modifies buf
    ensures p <= m && Holds(buf, s, i, p, m) && Searched(buf, p, e, m)
    ensures Owed(line, s, i + p, out)
  {
    p, out := 0, done;
    var q;
    q, e := Strchr(buf, p, m);
    while q != -1
      invariant p <= m && buf[m] == NUL && Holds(buf, s, i, p, m)
      invariant p <= e <= m && (forall j | p <= j < e :: Ordinary(buf[j])) && !Ordinary(buf[e])
      invariant q == if buf[e] == NEWLINE then e else -1
      invariant Owed(line, s, i + p, out)
      decreases m - p
    {
      out := PrintFound(re, buf, p, q, m, s, i, out, line);
      p := q + 1;
      q, e := Strchr(buf, p, m);
    }
  }

  /** How many bytes the k-th read gives, of the `limit` asked for and the `left` there are: any number,
      but not none. */
  function Given(picks: seq<nat>, k: nat, limit: nat, left: nat): (n: nat)
    ensures n <= limit && n <= left && (n == 0 <==> limit == 0 || left == 0)
  {
    var most := if limit < left then limit else left;
    if most == 0 then 0 else if k < |picks| then 1 + picks[k] % most else most
  }

  /** The k-th read: up to the end of the buffer, from position pos of the input. */
  method Read(buf: array<char>, m: nat, input: Text, pos: nat, picks: seq<nat>, k: nat) returns (n: nat)
    requires buf.Length == BUFSIZE && m <= pos && Holds(buf, input, pos - m, 0, m)
    modifies buf
    ensures n == 0 ==> (m == BUFSIZE - 1 || pos == |input|) && forall j | 0 <= j < m :: buf[j] == old(buf[j])
    ensures n > 0 ==> Holds(buf, input, pos - m, 0, m + n) && buf[m + n] == NUL
  {
    n := Given(picks, k, BUFSIZE - m - 1, |input| - pos);
    if n > 0 {
      Fill(buf, m, input[pos..pos + n]);
    }
  }

  /** Moves the rest of the buffer, from p on, to its start. */
  method Keep(buf: array<char>, p: nat, m: nat, ghost s: Text, ghost i: nat, ghost e: nat)
    requires p <= m && Holds(buf, s, i, p, m) && Searched(buf, p, e, m)
    modifies buf
    ensures Holds(buf, s, i + p, 0, m - p) && Searched(buf, 0, e - p, m - p)
  {
    Shift(buf, p, m - p);
    forall j | 0 <= j < e - p ensures Ordinary(buf[j]) { assert old(Ordinary(buf[p + j])); }
  }

  /** What follows a read: buf[..m], which ends where s has been read to, is printed but for its last n bytes. */
  method PrintBuffer(re: Text, buf: array<char>, m: nat, ghost s: Text, ghost i: nat, done: Text, ghost line: Printer)
      returns (out: Text, n: nat, ghost e: nat)
    requires Prints(line, re, s) && buf.Length == BUFSIZE && Holds(buf, s, i, 0, m) && buf[m] == NUL
    requires Owed(line, s, i, done)
    modifies buf
    ensures n <= m && Holds(buf, s, i + m - n, 0, n) && Searched(buf, 0, e, n) && Owed(line, s, i + m - n, out)
  {
    var p;
    out, p, e := PrintLines(re, buf, m, s, i, done, line);
    Keep(buf, p, m, s, i, e);
    n, e := m - p, e - p;
  }

  /** grep on the bytes of `input`, whatever the sizes of its reads. */
  method Grep(re: Text, input: Text, picks: seq<nat>) returns (out: Text)
    ensures out == Printed(Matching(re, input), input, 0, [])
  {
    out := PrintAll(re, input, picks, Matching(re, input));
  }

  method PrintAll(re: Text, input: Text, picks: seq<nat>, ghost line: Printer) returns (out: Text)
    requires Prints(line, re, input)
    ensures out == Printed(line, input, 0, [])
  {
    var buf := new char[BUFSIZE](_ => NUL);
    var m, pos, k := 0, 0, 0;
    ghost var e := 0;
    out := [];
    while true
      invariant 0 <= m <= pos && buf.Length == BUFSIZE && Holds(buf, input, pos - m, 0, m) && Searched(buf, 0, e, m)
      invariant Owed(line, input, pos - m, out)
      decreases |input| - pos
    {
      var n := Read(buf, m, input, pos, picks, k);
      if n == 0 {
        ghost var i := pos - m;
        forall j | i <= j < i + e ensures Ordinary(input[j]) { assert Ordinary(buf[j - i]); }
        OwedNothing(line, input, i, i + e, out);
        return;
      }
      pos, m, k := pos + n, m + n, k + 1;
      out, m, e := PrintBuffer(re, buf, m, input, pos - m, out, line);
    }
  }
}
