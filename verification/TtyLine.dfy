/** A terminal's input as a bounded line: what may still be erased, and what a
    reader will certainly get. */
module TtyLine {

  type Char = x: int | 0 <= x < 256

  const IBLEN: nat := 256
  const NEWLINE: Char := 10
  const RETURN: Char := 13
  const TAB: Char := 9
  const SPACE: Char := 32
  const SLASH: Char := 47

  /** The input fields of a tty: characters waiting, flags, the count of
      tty_isema. */
  datatype Line = Line(chars: seq<Char>, raw: bool, cbreak: bool, eof: bool, sem: int)

  datatype Keys = Keys(erase: Char, werase: Char, reprint: Char, intr: Char, eof: Char, eol: Char)

  /** What one interrupt does besides changing the line. */
  datatype Effect = Nothing | Interrupted | Reprinted

  function Kind(c: Char): int {
    if c == SPACE || c == TAB then 0 else if c == SLASH then 2 else 1
  }

  /** iputchar: a full line drops the character. */
  function Put(s: seq<Char>, c: Char): seq<Char> {
    if |s| >= IBLEN then s else s + [c]
  }

  /** delchar. */
  function DelChar(s: seq<Char>): seq<Char> {
    if s == [] || s[|s| - 1] == NEWLINE then s else s[..|s| - 1]
  }

  /** The rest of delword once a character of kind k has gone. */
  function Trim(s: seq<Char>, k: int): seq<Char> {
    if s == [] || s[|s| - 1] == NEWLINE || Kind(s[|s| - 1]) != k then s else Trim(s[..|s| - 1], k)
  }

  function DelWord(s: seq<Char>): seq<Char> {
    if s == [] || s[|s| - 1] == NEWLINE then s else Trim(s, Kind(s[|s| - 1]))
  }

  /** ttyiin on a character: the line, the last character seen at interrupt level
      on any terminal, and what else happens. */
  function Iin(l: Line, lastc: int, k: Keys, c0: Char): (Line, int, Effect) {
    if c0 == NEWLINE && lastc == RETURN then (l, lastc, Nothing)
    else
      var c := if c0 == RETURN then NEWLINE else c0;
      if l.raw then (l.(chars := Put(l.chars, c)), c0, Nothing)
      else if c == k.erase then (l.(chars := DelChar(l.chars)), c0, Nothing)
      else if c == k.werase then (l.(chars := DelWord(l.chars)), c0, Nothing)
      else if c == k.reprint then (l, c0, Reprinted)
      else if c == k.intr then (l, c0, Interrupted)
      else
        var l1 := l.(eof := l.eof || c == k.eof, chars := Put(l.chars, c));
        if (l.cbreak || c == k.eol || c == k.eof) && l1.sem <= 0 then (l1.(sem := l1.sem + 1), c0, Nothing)
        else (l1, c0, Nothing)
  }

  function Min(x: int, y: int): int { if x < y then x else y }

  /** The drain loop of ttyread. */
  function Taken(s: seq<Char>, len: int): seq<Char> {
    if len <= 0 then [] else s[..Min(len, |s|)]
  }

  // ---- delword removes exactly a word ---------------------------------------

  predicate Blank(c: Char) { c == 32 || c == 9 }

  /** Words are runs of blanks, of slashes, or of anything else. */
  lemma KindsExactly(a: Char, b: Char)
    ensures Kind(a) == Kind(b) <==> (Blank(a) <==> Blank(b)) && (a == 47 <==> b == 47)
  {
  }

  lemma TrimStep(s: seq<Char>, k: int)
    requires s != [] && s[|s| - 1] != NEWLINE && Kind(s[|s| - 1]) == k
    ensures Trim(s, k) == Trim(s[..|s| - 1], k)
  {
  }

  lemma TrimStop(s: seq<Char>, k: int)
    requires s == [] || s[|s| - 1] == NEWLINE || Kind(s[|s| - 1]) != k
    ensures Trim(s, k) == s
  {
  }

  lemma {:induction false} TrimMaximal(s: seq<Char>, k: int)
    ensures var r := Trim(s, k);
      && |r| <= |s| && r == s[..|r|]
      && (forall i :: |r| <= i < |s| ==> s[i] != NEWLINE && Kind(s[i]) == k)
      && (r == [] || r[|r| - 1] == NEWLINE || Kind(r[|r| - 1]) != k)
    decreases |s|
  {
    if s != [] && s[|s| - 1] != NEWLINE && Kind(s[|s| - 1]) == k {
      TrimMaximal(s[..|s| - 1], k);
    }
  }

  /** The longest suffix of characters of the last one's kind, not crossing a
      newline; nothing if the last character is a newline. */
  lemma DelWordMaximal(s: seq<Char>)
    requires s != []
    ensures var r := DelWord(s); var last := s[|s| - 1];
      && |r| <= |s| && r == s[..|r|]
      && (last == NEWLINE ==> r == s)
      && (last != NEWLINE ==>
            && |r| < |s|
            && (forall i :: |r| <= i < |s| ==> s[i] != NEWLINE && Kind(s[i]) == Kind(last))
            && (r == [] || r[|r| - 1] == NEWLINE || Kind(r[|r| - 1]) != Kind(last)))
  {
    TrimMaximal(s, Kind(s[|s| - 1]));
  }

  // ---- every run ------------------------------------------------------------

  /** Elsewhere is a character typed at another terminal. */
  datatype Event = Key(c: Char) | Read(len: int) | Elsewhere(c: Char)

  /** The line and everything readers have been given so far. A reader that
      would wait is not run. */
  datatype Session = Session(line: Line, given: seq<Char>, lastc: int)

  function Stream(x: Session): seq<Char> { x.given + x.line.chars }

  function Step(x: Session, k: Keys, e: Event): Session {
    match e
    case Key(c) =>
      var (l, lastc, _) := Iin(x.line, x.lastc, k, c);
      x.(line := l, lastc := lastc)
    case Elsewhere(c) => x.(lastc := c)
    case Read(len) =>
      if x.line.eof && x.line.chars == [] then x.(line := x.line.(eof := false))
      else if x.line.sem <= 0 then x
      else
        var t := Taken(x.line.chars, len);
        Session(x.line.(sem := x.line.sem - 1, chars := x.line.chars[|t|..]), x.given + t, x.lastc)
  }

  function Exec(x: Session, k: Keys, run: seq<Event>): Session
    decreases |run|
  {
    if run == [] then x else Exec(Step(x, k, run[0]), k, run[1..])
  }

  /** n characters that editing can no longer reach. */
  ghost predicate Settled(x: Session, n: nat) {
    n <= |Stream(x)| && (n <= |x.given| || Stream(x)[n - 1] == NEWLINE)
  }

  ghost predicate Prefix(s: seq<Char>, n: nat, t: seq<Char>) {
    n <= |s| && n <= |t| && t[..n] == s[..n]
  }

  /** What an interrupt can do to the waiting characters. */
  lemma IinChars(l: Line, lastc: int, k: Keys, c: Char)
    ensures var r := Iin(l, lastc, k, c).0.chars;
      || r == l.chars
      || (|l.chars| < IBLEN && exists d :: r == l.chars + [d])
      || (|r| < |l.chars| && r == l.chars[..|r|] && forall i :: |r| <= i < |l.chars| ==> l.chars[i] != NEWLINE)
  {
    var s := l.chars;
    if s != [] {
      DelWordMaximal(s);
    }
    hide DelWord;
    var r := Iin(l, lastc, k, c).0.chars;
    var d := if c == RETURN then NEWLINE else c;
    assert r == s || r == DelChar(s) || r == DelWord(s) || r == Put(s, d);
    assert Put(s, d) == s || (|s| < IBLEN && Put(s, d) == s + [d]);
  }

  lemma ReadStream(x: Session, k: Keys, len: int)
    ensures var r := Step(x, k, Read(len));
      && Stream(r) == Stream(x) && |r.given| >= |x.given|
      && |r.line.chars| <= |x.line.chars| && r.line.sem <= x.line.sem
  {
    hide Iin;
    var r := Step(x, k, Read(len));
    var s, t := x.line.chars, Taken(x.line.chars, len);
    assert t + s[|t|..] == s;
    assert x.given + t + s[|t|..] == x.given + (t + s[|t|..]);
  }

  lemma ReadSettled(x: Session, k: Keys, len: int, n: nat)
    requires Settled(x, n) && |x.line.chars| <= IBLEN && x.line.sem <= 1
    ensures var r := Step(x, k, Read(len));
      && Settled(r, n) && Prefix(Stream(x), n, Stream(r)) && |r.line.chars| <= IBLEN && r.line.sem <= 1
  {
    hide Step, Stream;
    ReadStream(x, k, len);
  }

  lemma ElsewhereSettled(x: Session, k: Keys, c: Char, n: nat)
    requires Settled(x, n) && |x.line.chars| <= IBLEN && x.line.sem <= 1
    ensures var r := Step(x, k, Elsewhere(c));
      && Settled(r, n) && Prefix(Stream(x), n, Stream(r)) && |r.line.chars| <= IBLEN && r.line.sem <= 1
  {
  }

  lemma StepSettled(x: Session, k: Keys, e: Event, n: nat)
    requires Settled(x, n) && |x.line.chars| <= IBLEN && x.line.sem <= 1
    ensures Settled(Step(x, k, e), n) && Prefix(Stream(x), n, Stream(Step(x, k, e)))
    ensures |Step(x, k, e).line.chars| <= IBLEN && Step(x, k, e).line.sem <= 1
  {
    hide Step, Settled, Prefix;
    match e
    case Key(c) => KeySettled(x, k, c, n);
    case Read(len) => ReadSettled(x, k, len, n);
    case Elsewhere(c) => ElsewhereSettled(x, k, c, n);
  }

  lemma KeySettled(x: Session, k: Keys, c: Char, n: nat)
    requires Settled(x, n) && |x.line.chars| <= IBLEN && x.line.sem <= 1
    ensures var r := Step(x, k, Key(c));
      && Settled(r, n) && Prefix(Stream(x), n, Stream(r)) && |r.line.chars| <= IBLEN && r.line.sem <= 1
  {
    IinChars(x.line, x.lastc, k, c);
    var r := Step(x, k, Key(c));
    assert r.line.sem <= 1;
    var s, t, g := x.line.chars, r.line.chars, |x.given|;
    hide Iin;
    if |t| < |s| {
      assert Stream(r) == Stream(x)[..g + |t|];
      if n > g {
        assert s[n - 1 - g] == NEWLINE;
      }
    } else if t != s {
      assert Stream(r)[..|Stream(x)|] == Stream(x);
    }
  }

  /** Whatever is typed and read afterwards: what readers have been given, and
      every line ended by a newline, reaches the readers as entered. */
  lemma {:induction false} LinesKept(x: Session, k: Keys, run: seq<Event>, n: nat)
    requires Settled(x, n) && |x.line.chars| <= IBLEN && x.line.sem <= 1
    ensures var r := Exec(x, k, run);
      Settled(r, n) && Prefix(Stream(x), n, Stream(r)) && |r.line.chars| <= IBLEN && r.line.sem <= 1
    decreases |run|
  {
    hide Step, Stream, Settled;
    if run != [] {
      var y := Step(x, k, run[0]);
      StepSettled(x, k, run[0], n);
      LinesKept(y, k, run[1..], n);
    } else {
      assert n <= |Stream(x)| by { SettledBound(x, n); }
    }
  }

  lemma SettledBound(x: Session, n: nat)
    requires Settled(x, n)
    ensures n <= |Stream(x)|
  {
  }
}
