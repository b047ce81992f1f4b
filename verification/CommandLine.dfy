/** programs/stdlib: splitting a command line with `strtok` and keeping its words in a list. */
module CommandLine {
  import opened Ram

  const BLANK: seq<Byte> := [32]

  // ---- what the words of a line are ---------------------------------------

  /** First position from `i` on whose character is (`hit`) or is not a delimiter. */
  function Scan(s: seq<Byte>, d: seq<Byte>, i: int, hit: bool): (j: int)
    requires 0 <= i <= |s|
    ensures i <= j <= |s| && (j < |s| ==> (s[j] in d) == hit)
    ensures forall q :: i <= q < j ==> (s[q] in d) != hit
    decreases |s| - i
  {
    if i == |s| || (s[i] in d) == hit then i else Scan(s, d, i + 1, hit)
  }

  datatype Span = Span(from: int, to: int)

  /** The words from position `i` on, one after the other. */
  function Spans(s: seq<Byte>, d: seq<Byte>, i: int): seq<Span>
    requires 0 <= i <= |s|
    decreases |s| - i
  {
    var a := Scan(s, d, i, false);
    if a == |s| then []
    else
      var e := Scan(s, d, a, true);
      [Span(a, e)] + Spans(s, d, e)
  }

  /** A nonempty stretch without delimiters that cannot be made longer. */
  predicate MaximalWord(s: seq<Byte>, d: seq<Byte>, w: Span) {
    && 0 <= w.from < w.to <= |s|
    && (forall q :: w.from <= q < w.to ==> s[q] !in d)
    && (w.from == 0 || s[w.from - 1] in d) && (w.to == |s| || s[w.to] in d)
  }

  lemma OverlapIsSame(s: seq<Byte>, d: seq<Byte>, w: Span, u: Span)
    requires MaximalWord(s, d, w) && MaximalWord(s, d, u) && w.from <= u.from < w.to
    ensures w == u
  {
  }

  lemma {:induction false} SpansFrom(s: seq<Byte>, d: seq<Byte>, i: int, w: Span)
    requires 0 <= i <= |s| && (i == 0 || i == |s| || s[i] in d || s[i - 1] in d)
    ensures w in Spans(s, d, i) <==> MaximalWord(s, d, w) && i <= w.from
    decreases |s| - i
  {
    var a := Scan(s, d, i, false);
    assert MaximalWord(s, d, w) ==> s[w.from] !in d;
    if a < |s| {
      var e := Scan(s, d, a, true);
      SpansFrom(s, d, e, w);
      assert MaximalWord(s, d, Span(a, e));
      assert Spans(s, d, i) == [Span(a, e)] + Spans(s, d, e);
      if MaximalWord(s, d, w) && i <= w.from && w.from < e {
        OverlapIsSame(s, d, Span(a, e), w);
      }
    }
  }

  lemma {:induction false} SpansOrdered(s: seq<Byte>, d: seq<Byte>, i: int)
    requires 0 <= i <= |s|
    ensures forall x :: 0 <= x < |Spans(s, d, i)| ==> i <= Spans(s, d, i)[x].from < Spans(s, d, i)[x].to <= |s|
    ensures forall x, y :: 0 <= x < y < |Spans(s, d, i)| ==> Spans(s, d, i)[x].to <= Spans(s, d, i)[y].from
    decreases |s| - i
  {
    var a := Scan(s, d, i, false);
    if a < |s| { SpansOrdered(s, d, Scan(s, d, a, true)); }
  }

  /** The words of a line are exactly its maximal delimiter-free stretches, in order. */
  lemma WordsAreMaximal(s: seq<Byte>, d: seq<Byte>)
    ensures forall w :: w in Spans(s, d, 0) <==> MaximalWord(s, d, w)
    ensures forall x, y :: 0 <= x < y < |Spans(s, d, 0)| ==> Spans(s, d, 0)[x].to <= Spans(s, d, 0)[y].from
  {
    forall w ensures w in Spans(s, d, 0) <==> MaximalWord(s, d, w) { SpansFrom(s, d, 0, w); }
    SpansOrdered(s, d, 0);
  }

  // ---- strtok -------------------------------------------------------------

  /** The global saved position of `strtok`; -1 stands for the null pointer. */
  class Tokenizer {
    var sp: int

    constructor ()
      ensures sp == -1
    {
      sp := -1;
    }

    /** `strtok` on the line `buf`, which held `s` and a terminator at first; a word already
        returned has a terminator behind it. `first` says that a string is passed in. */
    method Strtok(buf: array<Byte>, first: bool, d: seq<Byte>, ghost s: seq<Byte>) returns (start: int)
      requires |s| < buf.Length && 0 !in d && 0 !in s && -1 <= sp <= |s|
      requires buf[|s|] == 0 && forall q :: (if sp == -1 then 0 else sp) <= q < |s| ==> buf[q] == s[q]
      modifies this, buf
      ensures var i := if old(sp) == -1 then 0 else old(sp); var a := Scan(s, d, i, false);
        if a == |s| || (old(sp) == -1 && !first) then start == -1 && sp == -1 && buf[..] == old(buf[..])
        else
          var e := Scan(s, d, a, true);
          && start == a && buf[a..e] == s[a..e] && buf[e] == 0
          && sp == (if e < |s| then e + 1 else e)
          && forall q :: 0 <= q < buf.Length && q != e ==> buf[q] == old(buf[q])
    {
      if !first && sp == -1 {
        return -1;
      }
      if first && sp == -1 {
        sp := 0;
      }
      ghost var i := sp;
      var p := sp;
      while true
        invariant i <= p <= |s| && sp == i && Scan(s, d, p, false) == Scan(s, d, i, false)
        decreases |s| - p
      {
        assert p < |s| ==> buf[p] == s[p];
        if buf[p] !in d {
          sp := p;
          break;
        }
        p := p + 1;
      }
      if buf[sp] == 0 {
        sp := -1;
        return -1;
      }
      ghost var e := Scan(s, d, p, true);
      while buf[sp] != 0
        invariant p <= sp <= |s| && Scan(s, d, sp, true) == e && buf[..] == old(buf[..])
        decreases |s| - sp
      {
        assert buf[sp] == s[sp];
        if buf[sp] in d {
          buf[sp] := 0;
          sp := sp + 1;
          break;
        }
        sp := sp + 1;
      }
      start := p;
      assert forall q :: p <= q < e ==> buf[q] == s[q];
      assert buf[p..e] == s[p..e];
    }
  }

  // ---- the texts of the words ---------------------------------------------

  /** A word as a list node keeps it: at most 511 characters. */
  function Cut(t: seq<Byte>): (r: seq<Byte>)
    ensures r <= t && |r| == if |t| < 511 then |t| else 511
  {
    if |t| <= 511 then t else t[..511]
  }

  /** What `strncpy` into a buffer of `n` bytes keeps of a line. */
  function Shortened(line: seq<Byte>, n: nat): (r: seq<Byte>)
    requires n > 0
    ensures r <= line && |r| == if |line| < n - 1 then |line| else n - 1
  {
    if |line| < n then line else line[..n - 1]
  }

  function Words(s: seq<Byte>, d: seq<Byte>): seq<seq<Byte>>
  {
    WordsFrom(s, d, 0)
  }

  function WordsFrom(s: seq<Byte>, d: seq<Byte>, i: int): seq<seq<Byte>>
    requires 0 <= i <= |s|
    decreases |s| - i
  {
    var a := Scan(s, d, i, false);
    if a == |s| then []
    else
      var e := Scan(s, d, a, true);
      [s[a..e]] + WordsFrom(s, d, e)
  }

  lemma WordsSkip(s: seq<Byte>, d: seq<Byte>, i: int)
    requires 0 <= i < |s| && s[i] in d
    ensures WordsFrom(s, d, i) == WordsFrom(s, d, i + 1)
  {
    assert Scan(s, d, i, false) == Scan(s, d, i + 1, false);
  }

  lemma {:induction false} WordsAreSpans(s: seq<Byte>, d: seq<Byte>, i: int)
    requires 0 <= i <= |s|
    ensures |WordsFrom(s, d, i)| == |Spans(s, d, i)|
    ensures forall x :: 0 <= x < |Spans(s, d, i)| ==>
      var w := Spans(s, d, i)[x];
      0 <= w.from <= w.to <= |s| && WordsFrom(s, d, i)[x] == s[w.from..w.to]
    decreases |s| - i
  {
    var a := Scan(s, d, i, false);
    if a < |s| { WordsAreSpans(s, d, Scan(s, d, a, true)); }
  }

  /** The words of a line of which `n - 1` characters are kept are, in order, its longest stretches of characters
      other than 32 among those, and nothing but 32 lies outside them. */
  lemma WordsOfLine(line: seq<Byte>, n: nat) returns (ws: seq<Span>)
    requires n > 0
    ensures |Words(Shortened(line, n), BLANK)| == |ws|
    ensures forall x :: 0 <= x < |ws| ==>
      && 0 <= ws[x].from < ws[x].to <= |line| && ws[x].to <= n - 1
      && Words(Shortened(line, n), BLANK)[x] == line[ws[x].from..ws[x].to]
      && (forall q :: ws[x].from <= q < ws[x].to ==> line[q] != 32)
      && (ws[x].from == 0 || line[ws[x].from - 1] == 32)
      && (ws[x].to == |line| || ws[x].to == n - 1 || line[ws[x].to] == 32)
    ensures forall x, y :: 0 <= x < y < |ws| ==> ws[x].to <= ws[y].from
    ensures forall q :: 0 <= q < |line| && q < n - 1 && line[q] != 32 ==>
      exists x :: 0 <= x < |ws| && ws[x].from <= q < ws[x].to
  {
    hide Spans, WordsFrom, Scan, Shortened;
    var s := Shortened(line, n);
    ws := Spans(s, BLANK, 0);
    WordsAreMaximal(s, BLANK);
    WordsAreSpans(s, BLANK, 0);
    forall x | 0 <= x < |ws|
      ensures MaximalWord(s, BLANK, ws[x]) && s[ws[x].from..ws[x].to] == line[ws[x].from..ws[x].to]
    {
      assert ws[x] in ws;
    }
    forall q | 0 <= q < |line| && q < n - 1 && line[q] != 32
      ensures exists x :: 0 <= x < |ws| && ws[x].from <= q < ws[x].to
    {
      var w := WordAround(s, BLANK, q);
      assert w in ws;
    }
  }

  /** Every character that is no delimiter lies in a word. */
  lemma WordAround(s: seq<Byte>, d: seq<Byte>, q: int) returns (w: Span)
    requires 0 <= q < |s| && s[q] !in d
    ensures MaximalWord(s, d, w) && w.from <= q < w.to
  {
    var a := q;
    while a > 0 && s[a - 1] !in d
      invariant 0 <= a <= q && forall x :: a <= x <= q ==> s[x] !in d
    {
      a := a - 1;
    }
    w := Span(a, Scan(s, d, q, true));
  }

  // ---- calling strtok again and again -------------------------------------

  /** After a call of `strtok` that should deliver the first of `ws`: it lies at `start` behind
      the saved position, or there is none and the saved position is cleared. */
  ghost predicate Pending(sp: int, buf: array<Byte>, s: seq<Byte>, ws: seq<seq<Byte>>, start: int)
    reads buf
  {
    if ws == [] then start == -1 && sp == -1
    else
      && 0 <= sp && 0 <= start && start + |ws[0]| < buf.Length && 0 !in ws[0]
      && buf[start..start + |ws[0]|] == ws[0] && buf[start + |ws[0]|] == 0
      && Ahead(sp, buf, s, ws[1..])
  }

  /** The saved position, with the untouched rest of the line and the words still to come. */
  ghost predicate Ahead(sp: int, buf: array<Byte>, s: seq<Byte>, ws: seq<seq<Byte>>)
    reads buf
  {
    && 0 <= sp <= |s| < buf.Length && buf[|s|] == 0 && 0 !in s
    && (forall q :: sp <= q < |s| ==> buf[q] == s[q]) && WordsFrom(s, BLANK, sp) == ws
  }

  lemma LineAhead(buf: array<Byte>, s: seq<Byte>)
    requires |s| < buf.Length && 0 !in s && buf[..|s|] == s && buf[|s|] == 0
    ensures Ahead(0, buf, s, Words(s, BLANK))
  {
    hide WordsFrom;
    forall q | 0 <= q < |s| ensures buf[q] == s[q] { assert buf[..|s|][q] == s[q]; }
  }

  method NextWord(tok: Tokenizer, buf: array<Byte>, first: bool, ghost s: seq<Byte>, ghost ws: seq<seq<Byte>>)
    returns (start: int)
    requires first ==> tok.sp == -1 && Ahead(0, buf, s, ws)
    requires !first ==> Ahead(tok.sp, buf, s, ws)
    modifies tok, buf
    ensures Pending(tok.sp, buf, s, ws, start)
  {
    hide WordsFrom, Scan;
    ghost var i := if first then 0 else tok.sp;
    NextFacts(s, i, ws);
    start := tok.Strtok(buf, first, BLANK, s);
  }

  lemma NextFacts(s: seq<Byte>, i: int, ws: seq<seq<Byte>>)
    requires 0 <= i <= |s| && 0 !in s && WordsFrom(s, BLANK, i) == ws
    ensures var a := Scan(s, BLANK, i, false);
      if a == |s| then ws == []
      else
        var e := Scan(s, BLANK, a, true);
        && ws != [] && ws[0] == s[a..e] && 0 !in ws[0]
        && WordsFrom(s, BLANK, if e < |s| then e + 1 else e) == ws[1..]
  {
    var a := Scan(s, BLANK, i, false);
    if a < |s| {
      var e := Scan(s, BLANK, a, true);
      if e < |s| { WordsSkip(s, BLANK, e); }
    }
  }

  /** The stack buffer: the line, cut to 1024 characters, and a terminator. */
  method LineBuffer(line: seq<Byte>) returns (buf: array<Byte>)
    ensures fresh(buf) && buf.Length == 1025
    ensures var s := Shortened(line, 1025); buf[..|s|] == s && buf[|s|] == 0
  {
    buf := new Byte[1025](_ => 0);
    var i := 0;
    while i < 1024 && i < |line|
      invariant 0 <= i <= 1024 && i <= |line| && buf[..i] == line[..i]
    {
      buf[i] := line[i];
      i := i + 1;
    }
    buf[i] := 0;
  }
}
