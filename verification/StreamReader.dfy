/**
  The reader's stream of characters with bounded pushback
  (src/basilisp/lang/reader.py:238-334, 2133-2136).

  The reader keeps the last few characters with their locations in three
  bounded deques. It is proved against a cursor: a text and a position in it.
*/
module StreamReader {
  import opened Prelude

  /** `stream.read(1)` at a position; `None` is the empty string at the end. */
  function Char(text: string, i: nat): Option<char> { if i < |text| then Some(text[i]) else None }

  /** A line ends at a line feed, or at a carriage return without one. */
  predicate EndsLine(text: string, i: nat) {
    Char(text, i) == Some('\n') || (Char(text, i) == Some('\r') && Char(text, i + 1) != Some('\n'))
  }

  datatype Loc = Loc(line: int, col: int)

  /** The location of a position, by recursion over the text before it. */
  function LocAt(text: string, start: Loc, p: nat): Loc {
    if p == 0 then start
    else
      var before := LocAt(text, start, p - 1);
      if EndsLine(text, p - 1) then Loc(before.line + 1, 0) else Loc(before.line, before.col + 1)
  }

  /** How many lines end before a position. */
  function LineEnds(text: string, p: nat): nat {
    if p == 0 then 0 else LineEnds(text, p - 1) + (if EndsLine(text, p - 1) then 1 else 0)
  }

  /** Where the line of a position starts. */
  function LineStart(text: string, p: nat): (s: nat)
    ensures s <= p
    ensures s > 0 ==> EndsLine(text, s - 1)
    ensures forall i :: s <= i < p ==> !EndsLine(text, i)
  {
    if p == 0 then 0 else if EndsLine(text, p - 1) then p else LineStart(text, p - 1)
  }

  /** The line counts the line ends before the position, the column the characters since the last one. */
  lemma {:induction false} LocMeans(text: string, start: Loc, p: nat)
    ensures LocAt(text, start, p).line == start.line + LineEnds(text, p)
    ensures LocAt(text, start, p).col ==
      if LineStart(text, p) == 0 then start.col + p else p - LineStart(text, p)
  {
    if p > 0 {
      LocMeans(text, start, p - 1);
    }
  }

  /** CR LF ends one line. */
  lemma CrLfEndsOnce(text: string, start: Loc, p: nat)
    requires p + 1 < |text| && text[p] == '\r' && text[p + 1] == '\n'
    ensures LocAt(text, start, p + 2) == Loc(LocAt(text, start, p).line + 1, 0)
  {
    assert LocAt(text, start, p + 2) == Loc(LocAt(text, start, p + 1).line + 1, 0);
  }

  /** What each character does to the location: a line feed, or a carriage return without one, starts a new line. */
  lemma OneCharacter(text: string, start: Loc, p: nat)
    requires p < |text|
    ensures var (before, after) := (LocAt(text, start, p), LocAt(text, start, p + 1));
      if text[p] == '\n' || (text[p] == '\r' && (p + 1 == |text| || text[p + 1] != '\n'))
      then after == Loc(before.line + 1, 0)
      else after == Loc(before.line, before.col + 1)
  {
  }

  /** `deque.append` with a maximum length. */
  function Push<T>(d: seq<T>, x: T, limit: nat): seq<T>
    requires limit > 0
  {
    if |d| >= limit then (d + [x])[|d| + 1 - limit..] else d + [x]
  }

  /** A deque holds the last of the first `n` values of `f`. */
  ghost predicate HoldsLast<T(!new)>(d: seq<T>, n: nat, limit: nat, f: nat -> T) {
    |d| == Smaller(n, limit) && forall i :: 0 <= i < |d| ==> d[i] == f(n - |d| + i)
  }

  lemma PushHolds<T(!new)>(d: seq<T>, n: nat, limit: nat, f: nat -> T)
    requires limit > 0 && HoldsLast(d, n, limit, f)
    ensures HoldsLast(Push(d, f(n), limit), n + 1, limit, f)
  {
    var d1 := Push(d, f(n), limit);
    forall i | 0 <= i < |d1| ensures d1[i] == f(n + 1 - |d1| + i) {
      if |d| >= limit {
        assert d1[i] == (d + [f(n)])[i + 1];
      }
    }
  }

  lemma Newest<T(!new)>(d: seq<T>, n: nat, limit: nat, f: nat -> T)
    requires limit >= 2 && n >= 1 && HoldsLast(d, n, limit, f)
    ensures |d| >= 1 && d[|d| - 1] == f(n - 1)
    ensures n >= 2 ==> |d| >= 2 && d[|d| - 2] == f(n - 2)
  {
  }

  function Chars(text: string): nat -> Option<char> { (i: nat) => Char(text, i) }

  function Lines(text: string, start: Loc): nat -> int { (i: nat) => LocAt(text, start, i).line }

  function Cols(text: string, start: Loc): nat -> int { (i: nat) => LocAt(text, start, i).col }

  class StreamReader {
    const text: string
    const depth: nat
    const start: Loc
    var streamPos: nat
    var buffer: seq<Option<char>>
    var line: seq<int>
    var col: seq<int>
    var idx: int
    ghost var fetched: nat

    /** The deques hold the last characters fetched and their locations. */
    ghost predicate Valid()
      reads this
    {
      && 2 <= depth && 2 <= fetched && idx <= -2 && idx + depth >= 0
      && streamPos == Smaller(fetched, |text|)
      && HoldsLast(buffer, fetched, depth, Chars(text))
      && HoldsLast(line, fetched, depth, Lines(text, start))
      && HoldsLast(col, fetched, depth, Cols(text, start))
    }

    /** The position of the cursor; pushback can take it before the start of the text. */
    ghost function Position(): int
      reads this
    {
      fetched + idx
    }

    /** A depth of one cannot hold the character and its lookahead. */
    constructor (text: string, depth: nat, start: Loc)
      requires depth >= 2
      ensures Valid() && Position() == 0
      ensures this.text == text && this.depth == depth && this.start == start
    {
      this.text, this.depth, this.start := text, depth, start;
      idx := -2;
      streamPos := Smaller(2, |text|);
      buffer := [Char(text, 0), Char(text, 1)];
      line := [start.line, start.line];
      col := [start.col, start.col];
      fetched := 2;
      new;
      line, col := [start.line], [start.col];
      UpdateLoc();
    }

    /** `_update_loc`, after a character was added. */
    method UpdateLoc()
      requires depth >= 2 && fetched >= 2 && HoldsLast(buffer, fetched, depth, Chars(text))
      requires HoldsLast(line, fetched - 1, depth, Lines(text, start))
      requires HoldsLast(col, fetched - 1, depth, Cols(text, start))
      modifies this`line, this`col
      ensures HoldsLast(line, fetched, depth, Lines(text, start))
      ensures HoldsLast(col, fetched, depth, Cols(text, start))
    {
      hide HoldsLast, Push;
      Newest(buffer, fetched, depth, Chars(text));
      Newest(line, fetched - 1, depth, Lines(text, start));
      Newest(col, fetched - 1, depth, Cols(text, start));
      PushHolds(line, fetched - 1, depth, Lines(text, start));
      PushHolds(col, fetched - 1, depth, Cols(text, start));
      var last, lineNow, colNow := |buffer| - 1, line[|line| - 1], col[|col| - 1];
      if buffer[last - 1] == Some('\n') || (buffer[last - 1] == Some('\r') && buffer[last] != Some('\n')) {
        col := Push(col, 0, depth);
        line := Push(line, lineNow + 1, depth);
      } else {
        col := Push(col, colNow + 1, depth);
        line := Push(line, lineNow, depth);
      }
    }

    /** `peek`; an `IndexError` exactly before the start of the text. */
    method Peek() returns (c: Option<Option<char>>)
      requires Valid()
      ensures c == if Position() >= 0 then Some(Char(text, Position())) else None
    {
      c := if -idx <= |buffer| then Some(buffer[|buffer| + idx]) else None;
    }

    /** `loc`, of the character that `peek` returns. */
    method Location() returns (l: Option<Loc>)
      requires Valid()
      ensures l == if Position() >= 0 then Some(LocAt(text, start, Position())) else None
    {
      l := if -idx <= |line| then Some(Loc(line[|line| + idx], col[|col| + idx])) else None;
    }

    /** `pushback`; false for the `IndexError` beyond the depth. */
    method Pushback() returns (ok: bool)
      requires Valid()
      modifies this`idx
      ensures Valid()
      ensures ok <==> fetched - (old(Position()) - 1) <= depth
      ensures Position() == if ok then old(Position()) - 1 else old(Position())
    {
      if -(idx - 1) > depth {
        return false;
      }
      idx := idx - 1;
      ok := true;
    }

    /** `next_char`: the cursor moves on by one; the stream is read only at the front. */
    method NextChar() returns (c: Option<Option<char>>)
      requires Valid()
      modifies this
      ensures Valid() && Position() == old(Position()) + 1
      ensures fetched == if old(idx) < -2 then old(fetched) else old(fetched) + 1
      ensures c == if Position() >= 0 then Some(Char(text, Position())) else None
    {
      hide HoldsLast, Push, LocAt;
      if idx < -2 {
        idx := idx + 1;
      } else {
        PushHolds(buffer, fetched, depth, Chars(text));
        buffer := Push(buffer, Char(text, streamPos), depth);
        streamPos := Smaller(streamPos + 1, |text|);
        fetched := fetched + 1;
        UpdateLoc();
      }
      c := Peek();
    }

    /** `advance`: the character the cursor was on. */
    method Advance() returns (c: Option<Option<char>>)
      requires Valid()
      modifies this
      ensures Valid()
      ensures old(Position()) >= 0 ==> c == Some(Char(text, old(Position()))) && Position() == old(Position()) + 1
      ensures old(Position()) < 0 ==> c.None? && Position() == old(Position())
    {
      c := Peek();
      if c.Some? {
        var next := NextChar();
      }
    }

    /** `unread_count`: the stream's own position minus this is the cursor's. */
    method UnreadCount() returns (n: nat)
      requires Valid()
      ensures n <= streamPos
      ensures streamPos - n == if Position() >= 0 then Smaller(Position(), |text|) else 0
    {
      var from := if -idx <= |buffer| then |buffer| + idx else 0;
      n := 0;
      var i := from;
      while i < |buffer|
        invariant from <= i <= |buffer|
        invariant n == Smaller(fetched - |buffer| + i, |text|) - Smaller(fetched - |buffer| + from, |text|)
      {
        if buffer[i].Some? {
          n := n + 1;
        }
        i := i + 1;
      }
    }

    /** The bounds `read_with_source` cuts by: exactly the text the cursor has passed, before it is trimmed. */
    method SourceRead() returns (source: string)
      requires Valid()
      ensures source == text[..if Position() >= 0 then Smaller(Position(), |text|) else 0]
    {
      var unread := UnreadCount();
      source := text[..streamPos - unread];
    }
  }
}
