/** What every typed character does, and what readers get and when. */
module TtyReads {
  import opened TtyLine

  // ---- one character ----------------------------------------------------------

  /** A newline right after a return is not seen. */
  predicate Unseen(lastc: int, c0: Char) { c0 == 10 && lastc == 13 }

  /** A return counts as a newline. */
  function Meant(c0: Char): Char { if c0 == 13 then 10 else c0 }

  predicate Edits(k: Keys, c: Char) { c == k.erase || c == k.werase || c == k.reprint || c == k.intr }

  /** The character goes on the line. */
  predicate Stores(l: Line, lastc: int, k: Keys, c0: Char) {
    !Unseen(lastc, c0) && (l.raw || !Edits(k, Meant(c0)))
  }

  /** It also ends the reader's wait. */
  predicate Wakes(l: Line, lastc: int, k: Keys, c0: Char) {
    Stores(l, lastc, k, c0) && !l.raw && (l.cbreak || Meant(c0) == k.eol || Meant(c0) == k.eof)
  }

  /** The semaphore is raised by exactly the characters that wake, and only if it
      is not up already. */
  lemma WakesExactly(l: Line, lastc: int, k: Keys, c0: Char)
    ensures Iin(l, lastc, k, c0).0.sem == if Wakes(l, lastc, k, c0) && l.sem <= 0 then l.sem + 1 else l.sem
    ensures l.sem >= 0 && Wakes(l, lastc, k, c0) ==> Iin(l, lastc, k, c0).0.sem >= 1
  {
    hide DelWord;
  }

  /** The characters after each kind of key. */
  lemma CharsExactly(l: Line, lastc: int, k: Keys, c0: Char)
    ensures var r, c := Iin(l, lastc, k, c0).0.chars, Meant(c0);
      && (Stores(l, lastc, k, c0) ==> r == if |l.chars| < 256 then l.chars + [c] else l.chars)
      && (!Stores(l, lastc, k, c0) && c != k.erase && c != k.werase ==> r == l.chars)
      && (Unseen(lastc, c0) ==> r == l.chars)
      && (!Stores(l, lastc, k, c0) && !Unseen(lastc, c0) && c == k.erase ==>
            r == if l.chars != [] && l.chars[|l.chars| - 1] != 10 then l.chars[..|l.chars| - 1] else l.chars)
      && (!Stores(l, lastc, k, c0) && !Unseen(lastc, c0) && c == k.werase && c != k.erase ==> r == DelWord(l.chars))
  {
    hide DelWord;
  }

  /** The flags, the character remembered, and what else the key sets off. */
  lemma FlagsExactly(l: Line, lastc: int, k: Keys, c0: Char)
    ensures var (r, last, what) := Iin(l, lastc, k, c0); var c := Meant(c0);
      && r.raw == l.raw && r.cbreak == l.cbreak
      && (r.eof <==> l.eof || (Stores(l, lastc, k, c0) && !l.raw && c == k.eof))
      && last == (if Unseen(lastc, c0) then lastc else c0)
      && var edits := !l.raw && !Unseen(lastc, c0) && c != k.erase && c != k.werase;
        && (what == Reprinted <==> edits && c == k.reprint)
        && (what == Interrupted <==> edits && c != k.reprint && c == k.intr)
  {
    hide DelWord;
  }

  // ---- one read ------------------------------------------------------------------

  /** Nothing to read yet: neither a signal nor the end of the file. */
  predicate MustWait(l: Line) { l.sem <= 0 && !(l.eof && l.chars == []) }

  /** A read waits, reports the end of the file once, or takes as much as it
      asked for, from the front. */
  lemma ReadExactly(x: Session, k: Keys, len: int)
    ensures var r := Step(x, k, Read(len)); var n := if len <= 0 then 0 else if len < |x.line.chars| then len else |x.line.chars|;
      && (MustWait(x.line) ==> r == x)
      && (x.line.eof && x.line.chars == [] ==> r == x.(line := x.line.(eof := false)))
      && (!MustWait(x.line) && !(x.line.eof && x.line.chars == []) ==>
            && r.given == x.given + x.line.chars[..n] && r.lastc == x.lastc
            && r.line == x.line.(chars := x.line.chars[n..], sem := x.line.sem - 1))
  {
    hide Iin;
  }

  // ---- a line typed is a line read ---------------------------------------------

  /** A character that is no key. */
  predicate Plain(k: Keys, c: Char) { !Edits(k, c) && c != k.eol && c != k.eof && c != 10 && c != 13 }

  predicate AllPlain(k: Keys, w: seq<Char>) { forall i :: 0 <= i < |w| ==> Plain(k, w[i]) }

  function Typing(w: seq<Char>): seq<Event> { seq(|w|, i requires 0 <= i < |w| => Key(w[i])) }

  lemma {:induction false} ExecAppend(x: Session, k: Keys, r1: seq<Event>, r2: seq<Event>)
    ensures Exec(x, k, r1 + r2) == Exec(Exec(x, k, r1), k, r2)
    decreases |r1|
  {
    hide Step;
    if r1 == [] {
      assert r1 + r2 == r2;
    } else {
      assert (r1 + r2)[1..] == r1[1..] + r2;
      ExecAppend(Step(x, k, r1[0]), k, r1[1..], r2);
    }
  }

  /** Plain characters pile up on the line. */
  lemma {:induction false} TypedPiles(x: Session, k: Keys, w: seq<Char>)
    requires AllPlain(k, w) && |x.line.chars| + |w| <= 256 && !x.line.raw
    ensures var r := Exec(x, k, Typing(w));
      && r.given == x.given && r.line.chars == x.line.chars + w
      && r.line.raw == x.line.raw && r.line.cbreak == x.line.cbreak && r.line.eof == x.line.eof
      && r.lastc == (if w == [] then x.lastc else w[|w| - 1])
      && r.line.sem >= x.line.sem && (!x.line.cbreak || w == [] ==> r.line.sem == x.line.sem)
    decreases |w|
  {
    if w != [] {
      var c, y := w[0], Step(x, k, Key(w[0]));
      assert Plain(k, c);
      WakesExactly(x.line, x.lastc, k, c);
      CharsExactly(x.line, x.lastc, k, c);
      FlagsExactly(x.line, x.lastc, k, c);
      assert Typing(w)[1..] == Typing(w[1..]);
      assert forall i :: 0 <= i < |w[1..]| ==> w[1..][i] == w[i + 1];
      hide Iin;
      assert y.line.chars == x.line.chars + [c];
      hide Step;
      TypedPiles(y, k, w[1..]);
      assert x.line.chars + [c] + w[1..] == x.line.chars + w;
    }
  }

  lemma ExecTwo(x: Session, k: Keys, a: Event, b: Event)
    ensures Exec(x, k, [a, b]) == Step(Step(x, k, a), k, b)
  {
    hide Step;
    assert [a, b][1..] == [b] && [b][1..] == [];
    assert Exec(Step(x, k, a), k, [b]) == Step(Step(x, k, a), k, b);
  }

  /** The end-of-line character lets a reader that asks for enough have the line. */
  lemma EndIsRead(x: Session, k: Keys, e: Char, len: int)
    requires |x.line.chars| < 256 && x.line.sem >= 0 && !x.line.raw && len > |x.line.chars|
    requires Meant(e) == k.eol && !Edits(k, Meant(e)) && !Unseen(x.lastc, e)
    ensures var r := Exec(x, k, [Key(e), Read(len)]);
      r.given == x.given + x.line.chars + [k.eol] && r.line.chars == []
  {
    var y := Step(x, k, Key(e));
    WakesExactly(x.line, x.lastc, k, e);
    CharsExactly(x.line, x.lastc, k, e);
    FlagsExactly(x.line, x.lastc, k, e);
    hide Iin;
    assert y.line.chars == x.line.chars + [k.eol] && y.line.sem >= 1 && y.given == x.given;
    ExecTwo(x, k, Key(e), Read(len));
    ReadExactly(y, k, len);
    hide Step;
    assert y.line.chars[..|y.line.chars|] == y.line.chars;
  }

  /** A line of plain characters typed on an empty line that has room, and its
      end: a read of enough length returns exactly that line. */
  lemma LineIsRead(x: Session, k: Keys, w: seq<Char>, e: Char, len: int)
    requires x.line.chars == [] && x.line.sem >= 0 && !x.line.raw
    requires AllPlain(k, w) && |w| < 256 && len > |w|
    requires Meant(e) == k.eol && !Edits(k, Meant(e)) && (w == [] ==> !Unseen(x.lastc, e))
    ensures var r := Exec(x, k, Typing(w) + [Key(e), Read(len)]);
      r.given == x.given + w + [k.eol] && r.line.chars == []
  {
    TypedPiles(x, k, w);
    ExecAppend(x, k, Typing(w), [Key(e), Read(len)]);
    hide Exec, Step;
    var y := Exec(x, k, Typing(w));
    if w != [] {
      assert Plain(k, w[|w| - 1]);
    }
    EndIsRead(y, k, e, len);
  }

  /** Nobody is woken before: without cbreak a read during the line waits. */
  lemma EarlyReadWaits(x: Session, k: Keys, w: seq<Char>, len: int)
    requires x.line.sem <= 0 && !x.line.raw && !x.line.cbreak && !x.line.eof
    requires AllPlain(k, w) && |x.line.chars| + |w| <= 256
    ensures var r := Exec(x, k, Typing(w)); Step(r, k, Read(len)) == r
  {
    TypedPiles(x, k, w);
    hide Exec, Step;
    ReadExactly(Exec(x, k, Typing(w)), k, len);
  }

  // ---- editing undoes typing -------------------------------------------------------

  /** Erase takes back a plain character. */
  lemma EraseUndoes(x: Session, k: Keys, c: Char)
    requires Plain(k, c) && !x.line.raw && |x.line.chars| < 256 && Meant(k.erase) == k.erase && !Unseen(c, k.erase)
    ensures Exec(x, k, [Key(c), Key(k.erase)]).line.chars == x.line.chars
  {
    var y := Step(x, k, Key(c));
    CharsExactly(x.line, x.lastc, k, c);
    FlagsExactly(x.line, x.lastc, k, c);
    CharsExactly(y.line, y.lastc, k, k.erase);
    hide Iin;
    ExecTwo(x, k, Key(c), Key(k.erase));
    assert y.line.chars == x.line.chars + [c];
    assert (x.line.chars + [c])[..|x.line.chars|] == x.line.chars;
  }

  lemma {:induction false} TrimAll(s: seq<Char>, w: seq<Char>, n: int)
    requires forall i :: 0 <= i < |w| ==> w[i] != NEWLINE && Kind(w[i]) == n
    ensures Trim(s + w, n) == Trim(s, n)
    decreases |w|
  {
    if w == [] {
      assert s + w == s;
    } else {
      assert (s + w)[..|s + w| - 1] == s + w[..|w| - 1];
      TrimAll(s, w[..|w| - 1], n);
    }
  }

  /** Word erase takes back a word typed behind something else. */
  lemma WordUndoes(s: seq<Char>, w: seq<Char>)
    requires w != [] && forall i :: 0 <= i < |w| ==> w[i] != NEWLINE && Kind(w[i]) == Kind(w[0])
    requires s != [] ==> s[|s| - 1] == NEWLINE || Kind(s[|s| - 1]) != Kind(w[0])
    ensures DelWord(s + w) == s
  {
    TrimAll(s, w, Kind(w[0]));
    TrimStop(s, Kind(w[0]));
  }

  // ---- where a reader sleeps on ------------------------------------------------------

  lemma SleepyStep(x: Session, k: Keys, e: Event)
    requires x.line.sem <= 0 && (e.Key? ==> !Wakes(x.line, x.lastc, k, e.c))
    ensures var r := Step(x, k, e);
      r.given == x.given && r.line.sem <= 0 && r.line.raw == x.line.raw && (x.line.raw && !x.line.eof ==> !r.line.eof)
  {
    match e
    case Key(c) =>
      WakesExactly(x.line, x.lastc, k, c);
      FlagsExactly(x.line, x.lastc, k, c);
      hide Iin;
    case Read(len) => ReadExactly(x, k, len);
    case Elsewhere(c) =>
  }

  /** In raw mode nothing typed ever wakes a reader. */
  lemma {:induction false} RawNeverWakes(x: Session, k: Keys, run: seq<Event>)
    requires x.line.raw && x.line.sem <= 0 && !x.line.eof
    ensures var r := Exec(x, k, run); r.given == x.given && r.line.raw && r.line.sem <= 0 && !r.line.eof
    decreases |run|
  {
    if run != [] {
      SleepyStep(x, k, run[0]);
      hide Step;
      RawNeverWakes(Step(x, k, run[0]), k, run[1..]);
    }
  }

  /** Reads and characters that do not wake. */
  predicate Sleepy(x: Session, k: Keys, run: seq<Event>)
    decreases |run|
  {
    run == [] ||
      ((run[0].Key? ==> !Wakes(x.line, x.lastc, k, run[0].c)) && Sleepy(Step(x, k, run[0]), k, run[1..]))
  }

  /** However many whole lines are waiting: once the semaphore is down no read
      gets any of them before a character that wakes is typed. */
  lemma {:induction false} LinesLeftWait(x: Session, k: Keys, run: seq<Event>)
    requires x.line.sem <= 0 && Sleepy(x, k, run)
    ensures Exec(x, k, run).given == x.given
    decreases |run|
  {
    if run != [] {
      SleepyStep(x, k, run[0]);
      hide Step, Wakes;
      LinesLeftWait(Step(x, k, run[0]), k, run[1..]);
    }
  }

  /** Two lines typed before a read are signalled once: when a read has taken the
      first, the next read waits although the second line is there. */
  lemma SecondLineWaits(x: Session, k: Keys, w: seq<Char>, len: int)
    requires x.line.sem == 1 && !x.line.raw && !x.line.eof && x.lastc != 13
    requires x.line.chars != [] && len == |x.line.chars| && len + |w| < 256
    requires AllPlain(k, w) && k.eol == 10 && !Edits(k, 10) && k.eof != 10
    ensures var r := Exec(x, k, Typing(w) + [Key(10), Read(len)]);
      && r.given == x.given + x.line.chars && r.line.chars == w + [10]
      && forall n: int :: Step(r, k, Read(n)) == r
  {
    TypedUp(x, k, w);
    ExecAppend(x, k, Typing(w), [Key(10), Read(len)]);
    var y := Exec(x, k, Typing(w));
    hide Exec;
    assert w != [] ==> Plain(k, w[|w| - 1]);
    WakesExactly(y.line, y.lastc, k, 10);
    CharsExactly(y.line, y.lastc, k, 10);
    FlagsExactly(y.line, y.lastc, k, 10);
    var z := Step(y, k, Key(10));
    ExecTwo(y, k, Key(10), Read(len));
    hide Iin;
    assert z.line.sem == 1 && z.given == x.given && !z.line.eof;
    assert z.line.chars == x.line.chars + (w + [10]);
    ReadExactly(z, k, len);
    var r := Step(z, k, Read(len));
    hide Step;
    forall n: int ensures Step(r, k, Read(n)) == r {
      ReadExactly(r, k, n);
    }
  }

  /** A semaphore that is up stays as it is. */
  lemma {:induction false} TypedUp(x: Session, k: Keys, w: seq<Char>)
    requires AllPlain(k, w) && |x.line.chars| + |w| <= 256 && !x.line.raw && x.line.sem == 1
    ensures var r := Exec(x, k, Typing(w));
      && r.given == x.given && r.line.chars == x.line.chars + w && r.line.sem == 1
      && !r.line.raw && r.line.eof == x.line.eof && r.lastc == (if w == [] then x.lastc else w[|w| - 1])
    decreases |w|
  {
    TypedPiles(x, k, w);
    if w != [] {
      var y := Step(x, k, Key(w[0]));
      assert Plain(k, w[0]);
      WakesExactly(x.line, x.lastc, k, w[0]);
      CharsExactly(x.line, x.lastc, k, w[0]);
      FlagsExactly(x.line, x.lastc, k, w[0]);
      assert Typing(w)[1..] == Typing(w[1..]);
      assert forall i :: 0 <= i < |w[1..]| ==> w[1..][i] == w[i + 1];
      hide Iin;
      assert y.line.sem == 1 && !y.line.raw && |y.line.chars| == |x.line.chars| + 1;
      hide Step;
      TypedUp(y, k, w[1..]);
    }
  }
}
