/** The ring buffer behind the line. */
module TtyTables {
  import opened TtyLine

  /** Element k of a ring that starts at istart. */
  function At(istart: nat, k: nat): nat {
    if istart + k >= IBLEN then istart + k - IBLEN else istart + k
  }

  /** One place back, from the first to the last. */
  function Back(pos: nat): (r: nat)
    requires pos < IBLEN
    ensures r < IBLEN
  {
    if pos == 0 then IBLEN - 1 else pos - 1
  }

  lemma AtBack(istart: nat, k: nat)
    requires istart < IBLEN && 0 < k < IBLEN
    ensures At(istart, k) < IBLEN && Back(At(istart, k)) == At(istart, k - 1)
  {
  }

  /** The characters of a ring, oldest first. */
  function Ring(a: seq<Char>, istart: nat, icount: nat): (s: seq<Char>)
    requires |a| == IBLEN && istart < IBLEN && icount <= IBLEN
    ensures |s| == icount
  {
    seq(icount, k requires 0 <= k < icount => a[At(istart, k)])
  }

  lemma RingAt(a: seq<Char>, istart: nat, icount: nat, k: nat)
    requires |a| == IBLEN && istart < IBLEN && k < icount <= IBLEN
    ensures Ring(a, istart, icount)[k] == a[At(istart, k)]
  {
  }

  lemma RingInit(a: seq<Char>, istart: nat, icount: nat)
    requires |a| == IBLEN && istart < IBLEN && 0 < icount <= IBLEN
    ensures Ring(a, istart, icount - 1) == Ring(a, istart, icount)[..icount - 1]
  {
  }

  lemma RingTail(a: seq<Char>, istart: nat, icount: nat)
    requires |a| == IBLEN && istart < IBLEN && 0 < icount <= IBLEN
    ensures Ring(a, if istart + 1 >= IBLEN then 0 else istart + 1, icount - 1) == Ring(a, istart, icount)[1..]
  {
  }

  lemma RingAppend(a: seq<Char>, istart: nat, icount: nat, c: Char)
    requires |a| == IBLEN && istart < IBLEN && icount < IBLEN
    ensures Ring(a[At(istart, icount) := c], istart, icount + 1) == Ring(a, istart, icount) + [c]
  {
  }

  // ---- the walk of delword ---------------------------------------------------

  /** How far the walk may still go: round the ring if the line ends in a
      newline, else to the start of the line. */
  ghost function Left(s0: seq<Char>, icount: nat, turns: nat): int {
    if s0 != [] && s0[|s0| - 1] == NEWLINE then IBLEN - turns else icount
  }

  /** s is left of s0 and pos is turns places back from its end. */
  ghost predicate Erasing(a: seq<Char>, first: nat, s0: seq<Char>, s: seq<Char>, pos: nat, kind: int, turns: nat) {
    && |a| == IBLEN && first < IBLEN && 0 < |s0| <= IBLEN && s0 == Ring(a, first, |s0|)
    && pos < IBLEN
    && var last := s0[|s0| - 1];
    if last == NEWLINE then
      && s == s0 && turns < IBLEN
      && var end := At(first, |s0| - 1);
      pos == if turns <= end then end - turns else end - turns + IBLEN
    else
      && |s| <= |s0| && s == Ring(a, first, |s|)
      && Trim(s0, Kind(last)) == Trim(s, Kind(last))
      && (s != [] ==> pos == At(first, |s| - 1) && s[|s| - 1] != NEWLINE && kind == Kind(s[|s| - 1]))
  }

  lemma WordStarts(a: seq<Char>, first: nat, n: nat)
    requires |a| == IBLEN && first < IBLEN && 0 < n <= IBLEN
    ensures var s0 := Ring(a, first, n); var pos := At(first, n - 1);
      Erasing(a, first, s0, s0, pos, Kind(a[pos]), 0)
  {
    RingAt(a, first, n, n - 1);
    hide Ring, Trim, Kind;
  }

  /** One delchar and one place back. A newline met there ends the walk. */
  lemma WordGoesOn(a: seq<Char>, first: nat, s0: seq<Char>, s: seq<Char>, pos: nat, turns: nat)
    requires s0 != [] && s != [] && Erasing(a, first, s0, s, pos, Kind(s0[|s0| - 1]), turns)
    ensures var r := DelChar(s); var p := Back(pos);
      && (a[p] == NEWLINE ==> r == DelWord(s0))
      && (a[p] != NEWLINE ==> Erasing(a, first, s0, r, p, Kind(a[p]), turns + 1))
      && (if s0[|s0| - 1] == NEWLINE then r == s && turns < IBLEN else |r| < |s|)
  {
    var last := s0[|s0| - 1];
    if last == NEWLINE {
      RingAt(a, first, |s0|, |s0| - 1);
    } else {
      var r := s[..|s| - 1];
      TrimStep(s, Kind(last));
      RingInit(a, first, |s|);
      if r != [] {
        AtBack(first, |r|);
        RingAt(a, first, |r|, |r| - 1);
      }
      hide Ring, Kind, At, Trim;
      if a[Back(pos)] == NEWLINE {
        assert r == [] || r[|r| - 1] == NEWLINE;
        TrimStop(r, Kind(last));
      }
    }
  }

  lemma WordStops(a: seq<Char>, first: nat, s0: seq<Char>, s: seq<Char>, pos: nat, kind: int, turns: nat)
    requires Erasing(a, first, s0, s, pos, kind, turns) && (s == [] || kind != Kind(s0[|s0| - 1]))
    ensures s == DelWord(s0)
  {
    hide Ring, Kind, At, Trim;
    TrimStop(s, Kind(s0[|s0| - 1]));
  }

  /** ttyiin's own variable, one for all terminals. */
  class LastChar {
    var c: int
  }

  class Tty {
    const tty_in: array<Char>
    var istart: nat
    var icount: nat
    var raw: bool
    var cbreak: bool
    var eof: bool
    var sem: int

    ghost predicate Valid()
      reads this`istart, this`icount
    {
      tty_in.Length == IBLEN && istart < IBLEN && icount <= IBLEN
    }

    ghost function Chars(): (s: seq<Char>)
      reads this`istart, this`icount, tty_in
      requires Valid()
      ensures |s| == icount
    {
      Ring(tty_in[..], istart, icount)
    }

    ghost function Abs(): Line
      reads this, tty_in
      requires Valid()
    {
      Line(Chars(), raw, cbreak, eof, sem)
    }

    constructor ()
      ensures Valid() && fresh(tty_in) && Abs() == Line([], false, false, false, 0)
    {
      tty_in := new Char[IBLEN](_ => 0);
      istart, icount, raw, cbreak, eof, sem := 0, 0, false, false, false, 0;
    }

    method InputChar(ch: Char)
      requires Valid()
      modifies this`icount, tty_in
      ensures Valid() && Chars() == Put(old(Chars()), ch)
    {
      if icount >= IBLEN {
        return;
      }
      var pos := istart + icount;
      if pos >= IBLEN {
        pos := pos - IBLEN;
      }
      RingAppend(tty_in[..], istart, icount, ch);
      tty_in[pos] := ch;
      icount := icount + 1;
    }

    method DeleteChar()
      requires Valid()
      modifies this`icount
      ensures Valid() && Chars() == DelChar(old(Chars()))
    {
      if icount == 0 {
        return;
      }
      var pos := istart + icount - 1;
      if pos >= IBLEN {
        pos := pos - IBLEN;
      }
      RingAt(tty_in[..], istart, icount, icount - 1);
      if tty_in[pos] == NEWLINE {
        return;
      }
      RingInit(tty_in[..], istart, icount);
      icount := icount - 1;
    }

    /** The loop stops in every case: either the line gets shorter, or it ends
        in a newline, nothing is erased, and walking back round the ring meets
        that newline again. */
    method DeleteWord()
      requires Valid()
      modifies this`icount
      ensures Valid() && Chars() == DelWord(old(Chars()))
    {
      if icount == 0 {
        return;
      }
      var pos := istart + icount - 1;
      if pos >= IBLEN {
        pos := pos - IBLEN;
      }
      ghost var a, first, s0 := tty_in[..], istart, Chars();
      var ch := tty_in[pos];
      var firstkind := Kind(ch);
      var kind := firstkind;
      ghost var turns := 0;
      RingAt(a, first, icount, icount - 1);
      WordStarts(a, first, icount);
      hide Erasing, DelWord, DelChar, Kind, Ring;
      while icount > 0 && kind == firstkind
        invariant istart == first && tty_in[..] == a && icount <= IBLEN && 0 <= pos < IBLEN
        invariant Erasing(a, first, s0, Chars(), pos, kind, turns)
        decreases Left(s0, icount, turns)
      {
        ghost var s := Chars();
        DeleteChar();
        WordGoesOn(a, first, s0, s, pos, turns);
        pos := Back(pos);
        turns := turns + 1;
        ch := tty_in[pos];
        if ch == NEWLINE {
          return;
        }
        kind := Kind(ch);
      }
      WordStops(a, first, s0, Chars(), pos, kind, turns);
    }

    /** ttyread's drain loop. */
    method Drain(len: int) returns (buf: seq<Char>)
      requires Valid()
      modifies this`istart, this`icount
      ensures Valid() && buf == Taken(old(Chars()), len) && Chars() == old(Chars())[|buf|..]
    {
      hide Ring;
      ghost var s0 := Chars();
      var count := 0;
      buf := [];
      while count < len && icount > 0
        invariant Valid() && count == |buf| <= |s0|
        invariant buf == s0[..count] && Chars() == s0[count..]
        invariant count > 0 ==> count <= len
      {
        RingAt(tty_in[..], istart, icount, 0);
        RingTail(tty_in[..], istart, icount);
        buf := buf + [tty_in[istart]];
        count := count + 1;
        icount := icount - 1;
        istart := istart + 1;
        if istart >= IBLEN {
          istart := 0;
        }
      }
    }

    /** ttyiin. */
    method Input(k: Keys, c: Char, last: LastChar) returns (e: Effect)
      requires Valid()
      modifies this, tty_in, last
      ensures Valid() && (Abs(), last.c, e) == Iin(old(Abs()), old(last.c), k, c)
    {
      var ch := c;
      if ch == NEWLINE && last.c == RETURN {
        return Nothing;
      }
      last.c := ch;
      if ch == RETURN {
        ch := NEWLINE;
      }
      hide Put, DelChar, DelWord, Ring;
      if raw {
        InputChar(ch);
        return Nothing;
      }
      if ch == k.erase {
        DeleteChar();
        return Nothing;
      } else if ch == k.werase {
        DeleteWord();
        return Nothing;
      } else if ch == k.reprint {
        return Reprinted;
      } else if ch == k.intr {
        return Interrupted;
      } else if ch == k.eof {
        eof := true;
      }
      InputChar(ch);
      if (cbreak || ch == k.eol || ch == k.eof) && sem <= 0 {
        sem := sem + 1;
      }
      return Nothing;
    }
  }
}
