/** The element layer of the AMP armor encoder: text goes into pre elements, broken into
    short chunks by newlines. */
module ArmorEncoder {

  const ELEMENT_SIZE_LIMIT := 32 * 1024
  const BYTES_PER_CHUNK := 32
  const CHUNKS_PER_ELEMENT := (ELEMENT_SIZE_LIMIT - 1) / (BYTES_PER_CHUNK + 1)
  const BYTES_PER_ELEMENT := CHUNKS_PER_ELEMENT * BYTES_PER_CHUNK

  const START_TAG := "<pre>\n"
  const END_TAG := "</pre>\n"
  const END_TAG_SIZE := |END_TAG|

  // ----- The layout that the output has -----

  /** A text as lines of one chunk each. */
  function Lines(p: string): string {
    if p == "" then ""
    else if |p| <= BYTES_PER_CHUNK then p + "\n"
    else p[..BYTES_PER_CHUNK] + "\n" + Lines(p[BYTES_PER_CHUNK..])
  }

  /** A text as elements that are full but for the last. */
  function Layout(p: string): string {
    if p == "" then ""
    else if |p| <= BYTES_PER_ELEMENT then START_TAG + Lines(p) + END_TAG
    else START_TAG + Lines(p[..BYTES_PER_ELEMENT]) + END_TAG + Layout(p[BYTES_PER_ELEMENT..])
  }

  // ----- The two-counter machine -----

  datatype Counters = Counters(chunk: nat, element: nat)

  predicate InRange(c: Counters) {
    c.chunk < BYTES_PER_CHUNK && c.element < CHUNKS_PER_ELEMENT
  }

  /** What one pass of the write loop emits for a piece that fits in the current chunk. */
  function EmitPiece(c: Counters, piece: string): string {
    (if c.element == 0 && c.chunk == 0 then START_TAG else "") + piece +
    (if c.chunk + |piece| >= BYTES_PER_CHUNK then "\n" else "") +
    (if c.chunk + |piece| >= BYTES_PER_CHUNK && c.element + 1 >= CHUNKS_PER_ELEMENT then END_TAG else "")
  }

  function Advance(c: Counters, n: nat): (d: Counters)
    requires InRange(c) && c.chunk + n <= BYTES_PER_CHUNK
    ensures InRange(d)
  {
    if c.chunk + n < BYTES_PER_CHUNK then Counters(c.chunk + n, c.element)
    else if c.element + 1 < CHUNKS_PER_ELEMENT then Counters(0, c.element + 1)
    else Counters(0, 0)
  }

  /** The size of the next piece. */
  function PieceSize(c: Counters, p: string): (n: nat)
    requires InRange(c)
    ensures n <= |p| && c.chunk + n <= BYTES_PER_CHUNK && (p != "" ==> n > 0)
  {
    if |p| < BYTES_PER_CHUNK - c.chunk then |p| else BYTES_PER_CHUNK - c.chunk
  }

  /** What writing `p` emits. */
  function Emit(c: Counters, p: string): string
    requires InRange(c)
    decreases |p|
  {
    if p == "" then ""
    else var n := PieceSize(c, p); EmitPiece(c, p[..n]) + Emit(Advance(c, n), p[n..])
  }

  /** The counters after writing `p`. */
  function After(c: Counters, p: string): (d: Counters)
    requires InRange(c)
    ensures InRange(d)
    decreases |p|
  {
    if p == "" then c
    else var n := PieceSize(c, p); After(Advance(c, n), p[n..])
  }

  function Closing(c: Counters): string {
    if c.element == 0 && c.chunk == 0 then ""
    else if c.chunk == 0 then END_TAG
    else "\n" + END_TAG
  }

  // ----- Splitting the text across writes -----

  lemma {:induction false} Associative(a: string, b: string, c: string)
    ensures a + b + c == a + (b + c)
  {
  }

  /** Writing a piece that fits in two parts is writing it at once. */
  lemma {:induction false} SplitPiece(c: Counters, a: string, b: string)
    requires InRange(c) && a != "" && b != "" && c.chunk + |a| + |b| <= BYTES_PER_CHUNK
    ensures EmitPiece(c, a) + EmitPiece(Advance(c, |a|), b) == EmitPiece(c, a + b)
    ensures Advance(Advance(c, |a|), |b|) == Advance(c, |a + b|)
  {
  }

  lemma {:induction false} WritesNothing(c: Counters)
    requires InRange(c)
    ensures Emit(c, "") == "" && After(c, "") == c
  {
  }

  lemma {:induction false} EmitStep(c: Counters, p: string, n: nat)
    requires InRange(c) && p != "" && n == PieceSize(c, p)
    ensures Emit(c, p) == EmitPiece(c, p[..n]) + Emit(Advance(c, n), p[n..])
    ensures After(c, p) == After(Advance(c, n), p[n..])
  {
  }

  /** The case where the first text ends inside the current chunk. */
  lemma {:induction false} EmitConcatWithin(c: Counters, a: string, b: string)
    requires InRange(c) && a != "" && b != "" && c.chunk + |a| < BYTES_PER_CHUNK
    ensures Emit(c, a + b) == Emit(c, a) + Emit(After(c, a), b)
    ensures After(c, a + b) == After(After(c, a), b)
  {
    hide Emit, After, EmitPiece;
    var n := |a|;
    var d := Advance(c, n);
    var m := PieceSize(d, b);
    EmitStep(c, a, n);
    EmitStep(d, b, m);
    EmitStep(c, a + b, n + m);
    WritesNothing(d);
    assert (a + b)[..n + m] == a + b[..m] && (a + b)[n + m..] == b[m..];
    assert a[n..] == "" && a[..n] == a;
    SplitPiece(c, a, b[..m]);
    Associative(EmitPiece(c, a), EmitPiece(d, b[..m]), Emit(Advance(d, m), b[m..]));
    assert EmitPiece(c, a) + "" == EmitPiece(c, a);
  }

  /** The output does not depend on how the text is split across writes. */
  lemma {:induction false} EmitConcat(c: Counters, a: string, b: string)
    requires InRange(c)
    ensures Emit(c, a + b) == Emit(c, a) + Emit(After(c, a), b)
    ensures After(c, a + b) == After(After(c, a), b)
    decreases |a|
  {
    hide Emit, After, EmitPiece, Advance;
    if a == "" {
      WritesNothing(c);
      assert a + b == b;
    } else if b == "" {
      WritesNothing(After(c, a));
      assert a + b == a;
    } else {
      var n := PieceSize(c, a);
      var d := Advance(c, n);
      EmitStep(c, a, n);
      if n == |a| && c.chunk + n < BYTES_PER_CHUNK {
        EmitConcatWithin(c, a, b);
      } else {
        assert PieceSize(c, a + b) == n;
        EmitStep(c, a + b, n);
        assert (a + b)[..n] == a[..n] && (a + b)[n..] == a[n..] + b;
        EmitConcat(d, a[n..], b);
        Associative(EmitPiece(c, a[..n]), Emit(d, a[n..]), Emit(After(d, a[n..]), b));
      }
    }
  }

  // ----- The machine produces the layout -----

  /** Everything emitted from counters `c` on, up to and including the close. */
  function Output(c: Counters, p: string): string
    requires InRange(c)
  {
    Emit(c, p) + Closing(After(c, p))
  }

  function Opening(e: nat): string {
    if e == 0 then START_TAG else ""
  }

  /** The bytes that the current element still takes. */
  function Room(e: nat): nat
    requires e < CHUNKS_PER_ELEMENT
  {
    (CHUNKS_PER_ELEMENT - e) * BYTES_PER_CHUNK
  }

  lemma {:induction false} LastPiece(e: nat, p: string)
    requires e < CHUNKS_PER_ELEMENT && 0 < |p| <= BYTES_PER_CHUNK
    ensures Output(Counters(0, e), p) == Opening(e) + Lines(p) + END_TAG
  {
    var c := Counters(0, e);
    assert PieceSize(c, p) == |p| && p[..|p|] == p && p[|p|..] == "";
    assert Emit(c, p) == EmitPiece(c, p) + "";
    assert After(c, p) == Advance(c, |p|);
    assert Lines(p) == p + "\n";
  }

  /** The first chunk of a longer text, and what it leaves. */
  lemma {:induction false} FullPiece(e: nat, p: string)
    requires e < CHUNKS_PER_ELEMENT && |p| > BYTES_PER_CHUNK
    ensures Output(Counters(0, e), p) ==
            EmitPiece(Counters(0, e), p[..BYTES_PER_CHUNK]) +
              Output(Advance(Counters(0, e), BYTES_PER_CHUNK), p[BYTES_PER_CHUNK..])
  {
    hide EmitPiece, Advance, Closing;
    var c, rest := Counters(0, e), p[BYTES_PER_CHUNK..];
    var d := Advance(c, BYTES_PER_CHUNK);
    assert PieceSize(c, p) == BYTES_PER_CHUNK;
    Associative(EmitPiece(c, p[..BYTES_PER_CHUNK]), Emit(d, rest), Closing(After(d, rest)));
  }

  lemma {:induction false} NestLines(opening: string, line: string, lines: string, tail: string)
    ensures opening + line + "" + ("" + lines + tail) == opening + (line + lines) + tail
  {
  }

  lemma {:induction false} NestRest(opening: string, line: string, lines: string, tail: string, rest: string)
    ensures opening + line + "" + ("" + lines + tail + rest) == opening + (line + lines) + tail + rest
  {
  }

  lemma {:induction false} LinesOfLonger(p: string)
    requires |p| > BYTES_PER_CHUNK
    ensures Lines(p) == (p[..BYTES_PER_CHUNK] + "\n") + Lines(p[BYTES_PER_CHUNK..])
  {
  }

  lemma {:induction false} OneLine(p: string)
    requires |p| == BYTES_PER_CHUNK
    ensures Lines(p) == p + "\n"
  {
  }

  lemma {:induction false} EmitFull(e: nat, p: string)
    requires e < CHUNKS_PER_ELEMENT && |p| == BYTES_PER_CHUNK
    ensures EmitPiece(Counters(0, e), p) ==
      Opening(e) + (p + "\n") + (if e + 1 < CHUNKS_PER_ELEMENT then "" else END_TAG)
    ensures Advance(Counters(0, e), BYTES_PER_CHUNK) == Counters(0, if e + 1 < CHUNKS_PER_ELEMENT then e + 1 else 0)
  {
  }

  lemma {:induction false} Slices(p: string, m: nat)
    requires BYTES_PER_CHUNK <= m <= |p|
    ensures var head, rest := p[..m], p[BYTES_PER_CHUNK..];
      head[..BYTES_PER_CHUNK] == p[..BYTES_PER_CHUNK] && head[BYTES_PER_CHUNK..] == rest[..m - BYTES_PER_CHUNK]
      && rest[m - BYTES_PER_CHUNK..] == p[m..]
  {
  }

  /** From the start of a chunk on, the current element is filled, closed, and the rest
      of the text starts a new element. */
  lemma {:induction false} ElementOutput(e: nat, p: string)
    requires e < CHUNKS_PER_ELEMENT && p != ""
    ensures |p| <= Room(e) ==> Output(Counters(0, e), p) == Opening(e) + Lines(p) + END_TAG
    ensures |p| > Room(e) ==>
      Output(Counters(0, e), p) == Opening(e) + Lines(p[..Room(e)]) + END_TAG + Output(Counters(0, 0), p[Room(e)..])
    decreases |p|
  {
    hide Lines, Output, EmitPiece, Advance;
    if |p| <= BYTES_PER_CHUNK {
      LastPiece(e, p);
    } else {
      var chunk, rest := p[..BYTES_PER_CHUNK], p[BYTES_PER_CHUNK..];
      FullPiece(e, p);
      EmitFull(e, chunk);
      if e + 1 < CHUNKS_PER_ELEMENT {
        ElementOutput(e + 1, rest);
        if |p| > Room(e) {
          Slices(p, Room(e));
          LinesOfLonger(p[..Room(e)]);
          NestRest(Opening(e), chunk + "\n", Lines(rest[..Room(e + 1)]), END_TAG, Output(Counters(0, 0), p[Room(e)..]));
        } else {
          LinesOfLonger(p);
          NestLines(Opening(e), chunk + "\n", Lines(rest), END_TAG);
        }
      } else {
        OneLine(chunk);
      }
    }
  }

  /** What a text turns into: its layout, with nothing left open. */
  lemma {:induction false} OutputIsLayout(p: string)
    ensures Output(Counters(0, 0), p) == Layout(p)
    decreases |p|
  {
    if p != "" {
      ElementOutput(0, p);
      if |p| > BYTES_PER_ELEMENT {
        OutputIsLayout(p[BYTES_PER_ELEMENT..]);
      }
    }
  }

  // ----- Sequences of writes -----

  function Join(pieces: seq<string>): string {
    if pieces == [] then "" else pieces[0] + Join(pieces[1..])
  }

  /** What a sequence of writes emits, one after the other. */
  function EmitAll(c: Counters, writes: seq<string>): string
    requires InRange(c)
    decreases |writes|
  {
    if writes == [] then "" else Emit(c, writes[0]) + EmitAll(After(c, writes[0]), writes[1..])
  }

  function AfterAll(c: Counters, writes: seq<string>): (d: Counters)
    requires InRange(c)
    ensures InRange(d)
    decreases |writes|
  {
    if writes == [] then c else AfterAll(After(c, writes[0]), writes[1..])
  }

  lemma {:induction false} EmitAllIsEmitJoin(c: Counters, writes: seq<string>)
    requires InRange(c)
    ensures EmitAll(c, writes) == Emit(c, Join(writes))
    ensures AfterAll(c, writes) == After(c, Join(writes))
    decreases |writes|
  {
    hide Emit, After;
    if writes == [] {
      WritesNothing(c);
    } else {
      EmitAllIsEmitJoin(After(c, writes[0]), writes[1..]);
      EmitConcat(c, writes[0], Join(writes[1..]));
    }
  }

  /** However a text is split across writes, the output up to the close is its layout. */
  lemma {:induction false} WritesMakeLayout(writes: seq<string>)
    ensures EmitAll(Counters(0, 0), writes) + Closing(AfterAll(Counters(0, 0), writes)) == Layout(Join(writes))
  {
    hide EmitAll, AfterAll, Closing, Layout;
    EmitAllIsEmitJoin(Counters(0, 0), writes);
    OutputIsLayout(Join(writes));
  }

  // ----- The encoder -----

  /** The count that a write of `n` bytes returns: besides the text it counts the newlines
      and end tags, but not the start tags. */
  function Reported(c: Counters, n: nat): nat {
    ReportedAs(c.element, n, (c.chunk + n) / BYTES_PER_CHUNK)
  }

  /** The same, of a write that completes some chunks. */
  function ReportedAs(element: nat, n: nat, chunks: nat): nat {
    n + chunks + END_TAG_SIZE * ((element + chunks) / CHUNKS_PER_ELEMENT)
  }

  /** A write reports its own length exactly when it does not complete a chunk. */
  lemma {:induction false} ReportsOwnLength(c: Counters, n: nat)
    requires InRange(c)
    ensures Reported(c, n) == n <==> c.chunk + n < BYTES_PER_CHUNK
  {
    var chunks := (c.chunk + n) / BYTES_PER_CHUNK;
    assert chunks == 0 <==> c.chunk + n < BYTES_PER_CHUNK;
    assert (c.element + chunks) / CHUNKS_PER_ELEMENT >= 0;
  }

  /** What one pass adds to the count. */
  function PieceCount(c: Counters, n: nat): nat {
    n + (if c.chunk + n < BYTES_PER_CHUNK then 0 else 1) +
    (if c.chunk + n < BYTES_PER_CHUNK || c.element + 1 < CHUNKS_PER_ELEMENT then 0 else END_TAG_SIZE)
  }

  lemma {:induction false} ReportedStep(c: Counters, n: nat, m: nat)
    requires InRange(c) && c.chunk + n <= BYTES_PER_CHUNK
    ensures Reported(c, n + m) == PieceCount(c, n) + Reported(Advance(c, n), m)
  {
    hide ReportedAs;
    if c.chunk + n == BYTES_PER_CHUNK {
      Carry(m);
      ReportedCarry(c.element, n, m, m / BYTES_PER_CHUNK);
    } else {
      ReportedMore(c.element, n, m, (c.chunk + n + m) / BYTES_PER_CHUNK);
    }
  }

  lemma {:induction false} ReportedMore(element: nat, n: nat, m: nat, chunks: nat)
    ensures ReportedAs(element, n + m, chunks) == n + ReportedAs(element, m, chunks)
  {
  }

  /** One more chunk, which may complete the element. */
  lemma {:induction false} ReportedCarry(element: nat, n: nat, m: nat, chunks: nat)
    requires element < CHUNKS_PER_ELEMENT
    ensures ReportedAs(element, n + m, 1 + chunks) ==
      if element + 1 < CHUNKS_PER_ELEMENT then n + 1 + ReportedAs(element + 1, m, chunks)
      else n + 1 + END_TAG_SIZE + ReportedAs(0, m, chunks)
  {
    Carry(chunks);
  }

  lemma {:induction false} Carry(n: nat)
    ensures (BYTES_PER_CHUNK + n) / BYTES_PER_CHUNK == 1 + n / BYTES_PER_CHUNK
    ensures (CHUNKS_PER_ELEMENT + n) / CHUNKS_PER_ELEMENT == 1 + n / CHUNKS_PER_ELEMENT
  {
  }

  /** How many elements a write starts. */
  ghost function Started(c: Counters, p: string): nat
    requires InRange(c)
    decreases |p|
  {
    if p == "" then 0
    else
      var n := PieceSize(c, p);
      (if c.element == 0 && c.chunk == 0 then 1 else 0) + Started(Advance(c, n), p[n..])
  }

  /** The count is the length of what is written, less the start tags. */
  lemma {:induction false} ReportsLessStartTags(c: Counters, p: string)
    requires InRange(c)
    ensures |Emit(c, p)| == Reported(c, |p|) + |"<pre>\n"| * Started(c, p)
    decreases |p|
  {
    hide Reported, Emit;
    if p == "" {
      WritesNothing(c);
      ReportsOwnLength(c, 0);
    } else {
      var n := PieceSize(c, p);
      EmitStep(c, p, n);
      ReportedStep(c, n, |p| - n);
      ReportsLessStartTags(Advance(c, n), p[n..]);
    }
  }

  /** `out` is what has reached the writer underneath. */
  class ElementEncoder {
    var out: string
    var chunkCounter: nat
    var elementCounter: nat

    function State(): Counters
      reads this
    {
      Counters(chunkCounter, elementCounter)
    }

    constructor ()
      ensures out == "" && State() == Counters(0, 0)
    {
      out, chunkCounter, elementCounter := "", 0, 0;
    }

    /** One pass of the write loop. */
    method WritePiece(p: string) returns (n: nat, counted: nat)
      requires InRange(State()) && p != ""
      modifies this
      ensures n == PieceSize(old(State()), p) && State() == Advance(old(State()), n)
      ensures out == old(out) + EmitPiece(old(State()), p[..n])
      ensures counted == PieceCount(old(State()), n)
    {
      if elementCounter == 0 && chunkCounter == 0 {
        out := out + START_TAG;
      }
      n := BYTES_PER_CHUNK - chunkCounter;
      if n > |p| {
        n := |p|;
      }
      out := out + p[..n];
      counted := n;
      chunkCounter := chunkCounter + n;
      if chunkCounter >= BYTES_PER_CHUNK {
        chunkCounter := 0;
        elementCounter := elementCounter + 1;
        out := out + "\n";
        counted := counted + 1;
      }
      if elementCounter >= CHUNKS_PER_ELEMENT {
        elementCounter := 0;
        out := out + END_TAG;
        counted := counted + END_TAG_SIZE;
      }
    }

    method Write(p: string) returns (total: nat)
      requires InRange(State())
      modifies this
      ensures InRange(State())
      ensures out == old(out) + Emit(old(State()), p) && State() == After(old(State()), p)
      ensures total == Reported(old(State()), |p|)
    {
      hide Emit, After, EmitPiece, Advance, PieceCount, Reported;
      total := 0;
      var rest := p;
      while |rest| > 0
        invariant InRange(State())
        invariant out + Emit(State(), rest) == old(out) + Emit(old(State()), p)
        invariant After(State(), rest) == After(old(State()), p)
        invariant total + Reported(State(), |rest|) == Reported(old(State()), |p|)
      {
        ghost var c, before := State(), out;
        var n, counted := WritePiece(rest);
        EmitStep(c, rest, n);
        Associative(before, EmitPiece(c, rest[..n]), Emit(State(), rest[n..]));
        ReportedStep(c, n, |rest| - n);
        total := total + counted;
        rest := rest[n..];
      }
      WritesNothing(State());
      assert Reported(State(), 0) == 0 by { ReportsOwnLength(State(), 0); }
    }

    method Close()
      modifies this
      ensures out == old(out) + Closing(State()) && State() == old(State())
    {
      if !(elementCounter == 0 && chunkCounter == 0) {
        if chunkCounter == 0 {
          out := out + END_TAG;
        } else {
          out := out + ("\n" + END_TAG);
        }
      }
    }
  }
}
