/** Encapsulation of data and padding chunks in a byte stream, each behind a length
    prefix of one to three bytes. Masks and shifts by constants are written as the
    remainders and quotients they compute. */
module Encapsulation {

  type Byte = b: int | 0 <= b < 0x100

  /** The largest length that a prefix can carry. */
  const MAX_LENGTH := 0xfffff

  // ----- Prefixes -----

  datatype Prefix =
    | Nothing
    | CutShort
    | Overlong
    | Length(isData: bool, length: nat, size: nat)

  /** The length prefix at the front of `s`. */
  function DecodePrefix(s: seq<Byte>): (r: Prefix)
    ensures r.Length? ==> 1 <= r.size <= 3 && r.size <= |s|
    ensures r.Overlong? ==> |s| >= 3
  {
    if s == [] then Nothing
    else Continue(s, s[0] / 0x80 == 1, 0, s[0] / 0x40 % 2 == 1, s[0] % 0x40)
  }

  /** The rest of a prefix of which `i + 1` bytes are read. */
  function Continue(s: seq<Byte>, isData: bool, i: nat, more: bool, n: nat): (r: Prefix)
    requires i <= 2 && i + 1 <= |s|
    ensures r.Length? ==> 1 <= r.size <= 3 && r.size <= |s|
    ensures r.Overlong? ==> |s| >= 3
    decreases |s| - i
  {
    if !more then Length(isData, n, i + 1)
    else if i >= 2 then Overlong
    else if |s| == i + 1 then CutShort
    else Continue(s, isData, i + 1, s[i + 1] / 0x80 == 1, n * 0x80 + s[i + 1] % 0x80)
  }

  /** The number of lengths that a prefix of the given size can carry. */
  function Range(size: nat): nat {
    if size == 1 then 0x40 else if size == 2 then 0x2000 else 0x100000
  }

  /** The prefix of the given size for a length; it need not be the shortest. */
  function EncodePrefix(isData: bool, n: nat, size: nat): (s: seq<Byte>)
    requires 1 <= size <= 3 && n < Range(size)
    ensures |s| == size
  {
    var d := if isData then 0x80 else 0;
    if size == 1 then [d + n]
    else if size == 2 then [d + 0x40 + n / 0x80, n % 0x80]
    else [d + 0x40 + n / 0x4000, 0x80 + n / 0x80 % 0x80, n % 0x80]
  }

  lemma {:induction false} PrefixRoundTrip(isData: bool, n: nat, size: nat, rest: seq<Byte>)
    requires 1 <= size <= 3 && n < Range(size)
    ensures DecodePrefix(EncodePrefix(isData, n, size) + rest) == Length(isData, n, size)
  {
    var s := EncodePrefix(isData, n, size) + rest;
    if size == 1 {
      FirstByte(isData, false, n);
      assert s[0] == EncodePrefix(isData, n, 1)[0];
    } else if size == 2 {
      FirstByte(isData, true, n / 0x80);
      assert Continue(s, isData, 1, false, n) == Length(isData, n, 2);
    } else {
      FirstByte(isData, true, n / 0x4000);
      assert Continue(s, isData, 2, false, n) == Length(isData, n, 3);
      assert Continue(s, isData, 1, true, n / 0x80) == Length(isData, n, 3);
    }
  }

  /** The bits of a prefix: the highest bit of its first byte tells data from padding, the
      next bit, and the highest bit of the second byte, that another byte follows, and the
      other bits are the length, highest first. */
  lemma {:induction false} PrefixBits(s: seq<Byte>, isData: bool, x: nat, y: nat, z: nat)
    requires |s| >= 3 && x < 0x40 && y < 0x80 && z < 0x80
    ensures s[0] == (if isData then 0x80 else 0) + x ==> DecodePrefix(s) == Length(isData, x, 1)
    ensures s[0] == (if isData then 0xc0 else 0x40) + x && s[1] == y ==>
      DecodePrefix(s) == Length(isData, x * 0x80 + y, 2)
    ensures s[0] == (if isData then 0xc0 else 0x40) + x && s[1] == 0x80 + y && s[2] == z ==>
      DecodePrefix(s) == Length(isData, x * 0x4000 + y * 0x80 + z, 3)
  {
    FirstByte(isData, false, x);
    FirstByte(isData, true, x);
    var n: nat := x * 0x80 + y;
    assert s[1] == y ==> Continue(s, isData, 1, false, n) == Length(isData, n, 2);
    if s[1] == 0x80 + y && s[2] == z {
      assert Continue(s, isData, 2, false, n * 0x80 + z) == Length(isData, n * 0x80 + z, 3);
      assert Continue(s, isData, 1, true, n) == Length(isData, n * 0x80 + z, 3);
    }
  }

  /** A prefix is too long exactly if each of its first three bytes says that more follow. */
  lemma {:induction false} OverlongExactly(s: seq<Byte>)
    ensures DecodePrefix(s) == Overlong <==> |s| >= 3 && s[0] / 0x40 % 2 == 1 && s[1] >= 0x80 && s[2] >= 0x80
  {
    if |s| >= 3 {
      var isData, n: nat := s[0] / 0x80 == 1, s[0] % 0x40;
      var n1: nat := n * 0x80 + s[1] % 0x80;
      var n2: nat := n1 * 0x80 + s[2] % 0x80;
      var more, more1, more2 := s[0] / 0x40 % 2 == 1, s[1] / 0x80 == 1, s[2] / 0x80 == 1;
      assert more ==> Continue(s, isData, 0, more, n) == Continue(s, isData, 1, more1, n1);
      assert more1 ==> Continue(s, isData, 1, more1, n1) == Continue(s, isData, 2, more2, n2);
    }
  }

  /** The fields of the first byte do not overlap. */
  lemma {:induction false} FirstByte(isData: bool, more: bool, x: nat)
    requires x < 0x40
    ensures var b := (if isData then 0x80 else 0) + (if more then 0x40 else 0) + x;
      (b / 0x80 == 1 <==> isData) && (b / 0x40 % 2 == 1 <==> more) && b % 0x40 == x
  {
  }

  lemma {:induction false} PrefixCut(isData: bool, n: nat, size: nat, k: nat)
    requires 1 <= size <= 3 && n < Range(size) && 0 < k < size
    ensures DecodePrefix(EncodePrefix(isData, n, size)[..k]) == CutShort
  {
    if size == 2 {
      FirstByte(isData, true, n / 0x80);
    } else {
      FirstByte(isData, true, n / 0x4000);
      assert (0x80 + n / 0x80 % 0x80) / 0x80 == 1;
      var s := EncodePrefix(isData, n, size)[..k];
      assert k == 2 ==> Continue(s, isData, 1, true, n / 0x80) == CutShort;
    }
  }

  datatype Option<T> = None | Some(value: T)

  /** `dataPrefixForLength`; None stands for ErrTooLong. */
  function DataPrefixForLength(n: int): Option<seq<Byte>> {
    if n % 0x40 == n then Some([0x80 + n % 0x40])
    else if n / 0x80 % 0x40 == n / 0x80 then Some([0xc0 + n / 0x80 % 0x40, n % 0x80])
    else if n / 0x4000 % 0x40 == n / 0x4000 then Some([0xc0 + n / 0x4000 % 0x40, 0x80 + n / 0x80 % 0x80, n % 0x80])
    else None
  }

  /** The size of the shortest prefix. */
  function MinSize(n: nat): nat {
    if n < 0x40 then 1 else if n < 0x2000 then 2 else 3
  }

  /** A length has a prefix exactly when it is in range, and then it gets the shortest. */
  lemma {:induction false} DataPrefixIsShortest(n: int)
    ensures DataPrefixForLength(n).Some? <==> 0 <= n <= MAX_LENGTH
    ensures 0 <= n <= MAX_LENGTH ==> DataPrefixForLength(n) == Some(EncodePrefix(true, n, MinSize(n)))
    ensures forall size :: 1 <= size <= 3 && 0 <= n < Range(size) ==> MinSize(n) <= size
  {
  }

  // ----- Reading -----

  datatype ReadResult = Data(bytes: seq<Byte>) | EOF | UnexpectedEOF | TooLong

  /** What a read returns and what it leaves unread. */
  datatype ReadOutcome = ReadOutcome(result: ReadResult, rest: seq<Byte>)

  /** The next data chunk, with padding skipped. */
  function Read(s: seq<Byte>): (o: ReadOutcome)
    ensures o.result.Data? ==> |o.rest| < |s|
    decreases |s|
  {
    match DecodePrefix(s)
    case Nothing => ReadOutcome(EOF, [])
    case CutShort => ReadOutcome(UnexpectedEOF, [])
    case Overlong => ReadOutcome(TooLong, s[3..])
    case Length(isData, n, size) =>
      if |s| - size < n then ReadOutcome(UnexpectedEOF, [])
      else if isData then ReadOutcome(Data(s[size..size + n]), s[size + n..])
      else Read(s[size + n..])
  }

  class Stream {
    var bytes: seq<Byte>

    constructor (bytes: seq<Byte>)
      ensures this.bytes == bytes
    {
      this.bytes := bytes;
    }

    /** One byte, or none at the end of the stream. */
    method ReadByte() returns (b: Byte, eof: bool)
      modifies this
      ensures eof == (old(bytes) == [])
      ensures !eof ==> b == old(bytes)[0] && bytes == old(bytes)[1..]
      ensures eof ==> bytes == []
    {
      if bytes == [] {
        return 0, true;
      }
      b, eof := bytes[0], false;
      bytes := bytes[1..];
    }

    /** Exactly `n` bytes; short when the stream ends before that. */
    method ReadFull(n: nat) returns (p: seq<Byte>, short: bool)
      modifies this
      ensures short == (|old(bytes)| < n)
      ensures !short ==> p == old(bytes)[..n] && bytes == old(bytes)[n..]
      ensures short ==> bytes == []
    {
      if |bytes| < n {
        p, bytes := bytes, [];
        return p, true;
      }
      p, short := bytes[..n], false;
      bytes := bytes[n..];
    }

    /** The length prefix at the front of the stream. */
    method ReadPrefix() returns (p: Prefix)
      modifies this
      ensures p == DecodePrefix(old(bytes))
      ensures p.Length? ==> bytes == old(bytes)[p.size..]
      ensures p.Overlong? ==> bytes == old(bytes)[3..]
      ensures p.Nothing? || p.CutShort? ==> bytes == []
    {
      ghost var s := bytes;
      var b, eof := ReadByte();
      if eof {
        return Nothing;
      }
      var isData := b / 0x80 == 1;
      var moreLength := b / 0x40 % 2 == 1;
      var n: int := b % 0x40;
      var i := 0;
      while moreLength
        invariant 0 <= i <= 2 && n >= 0
        invariant i + 1 <= |s| && bytes == s[i + 1..]
        invariant DecodePrefix(s) == Continue(s, isData, i, moreLength, n)
        decreases 2 - i
      {
        if i >= 2 {
          return Overlong;
        }
        b, eof := ReadByte();
        if eof {
          return CutShort;
        }
        moreLength := b / 0x80 == 1;
        n := n * 0x80 + b % 0x80;
        i := i + 1;
      }
      return Length(isData, n, i + 1);
    }

    /** The next data chunk; padding before it is read and dropped. */
    method ReadData() returns (result: ReadResult)
      modifies this
      ensures ReadOutcome(result, bytes) == Read(old(bytes))
    {
      hide DecodePrefix;
      while true
        invariant Read(bytes) == Read(old(bytes))
        decreases |bytes|
      {
        ghost var s := bytes;
        var prefix := ReadPrefix();
        match prefix {
          case Nothing => return EOF;
          case CutShort => return UnexpectedEOF;
          case Overlong => return TooLong;
          case Length(isData, n, size) =>
            var p, short := ReadFull(n);
            if short {
              return UnexpectedEOF;
            }
            SliceOfRest(s, size, n);
            if isData {
              return Data(p);
            }
        }
      }
    }

    /** Encodes a data chunk; None stands for ErrTooLong. */
    method WriteData(data: seq<Byte>) returns (total: Option<nat>)
      modifies this
      ensures |data| <= MAX_LENGTH ==>
        bytes == old(bytes) + EncodeChunk(DataChunk(data)) && total == Some(|EncodeChunk(DataChunk(data))|)
      ensures |data| > MAX_LENGTH ==> bytes == old(bytes) && total == None
    {
      DataPrefixIsShortest(|data|);
      var prefix := DataPrefixForLength(|data|);
      if prefix.None? {
        return None;
      }
      bytes := bytes + prefix.value;
      bytes := bytes + data;
      total := Some(|prefix.value| + |data|);
    }

    /** Encodes padding chunks of `n` bytes in all; None stands for the panic on
        negative lengths. */
    method WritePadding(n: int) returns (total: Option<nat>)
      modifies this
      ensures n >= 0 ==> bytes == old(bytes) + EncodeAll(PaddingChunks(n)) && total == Some(n)
      ensures n < 0 ==> bytes == old(bytes) && total == None
    {
      if n < 0 {
        return None;
      }
      hide EncodeChunk, PaddingChunk, EncodeAll, PaddingChunks;
      EncodeAllEmpty(bytes);
      var left: nat, written: nat := n, 0;
      while left > 0
        invariant written + left == n
        invariant bytes + EncodeAll(PaddingChunks(left)) == old(bytes) + EncodeAll(PaddingChunks(n))
      {
        var p := PADDING_BUFFER;
        if p > left {
          p := left;
        }
        PaddingStep(bytes, left);
        left := left - p;
        var prefix, body := PaddingPrefix(p);
        Associative(bytes, prefix, Zeros(body));
        bytes := bytes + prefix;
        bytes := bytes + Zeros(body);
        written := written + |prefix| + body;
      }
      EncodeAllEmpty(bytes);
      total := Some(written);
    }
  }

  lemma {:induction false} Associative(a: seq<Byte>, b: seq<Byte>, c: seq<Byte>)
    ensures a + b + c == a + (b + c)
  {
  }

  lemma {:induction false} SliceOfRest(s: seq<Byte>, size: nat, n: nat)
    requires size + n <= |s|
    ensures s[size..][..n] == s[size..size + n] && s[size..][n..] == s[size + n..]
  {
  }

  /** The prefix of a padding chunk that takes `p` bytes, and the padding after it. The
      case of a three-byte prefix cannot arise, nor the lack of any case. */
  method PaddingPrefix(p: nat) returns (prefix: seq<Byte>, body: nat)
    requires 1 <= p <= PADDING_BUFFER
    ensures prefix + Zeros(body) == EncodeChunk(PaddingChunk(p)) && |prefix| + body == p
  {
    if (p - 1) % 0x40 == p - 1 {
      body := p - 1;
      prefix := [body % 0x40];
    } else if (p - 2) / 0x80 % 0x40 == (p - 2) / 0x80 {
      body := p - 2;
      prefix := [0x40 + body / 0x80 % 0x40, body % 0x80];
    } else {
      assert false;
    }
  }

  // ----- Chunks and streams -----

  /** A chunk, behind a prefix of a size of the writer's choice. */
  datatype Chunk = Chunk(isData: bool, body: seq<Byte>, size: nat)

  ghost predicate Encodable(c: Chunk) {
    1 <= c.size <= 3 && |c.body| < Range(c.size)
  }

  function EncodeChunk(c: Chunk): (s: seq<Byte>)
    requires Encodable(c)
    ensures |s| == c.size + |c.body|
  {
    EncodePrefix(c.isData, |c.body|, c.size) + c.body
  }

  ghost predicate AllEncodable(cs: seq<Chunk>) {
    forall i :: 0 <= i < |cs| ==> Encodable(cs[i])
  }

  ghost function EncodeAll(cs: seq<Chunk>): seq<Byte>
    requires AllEncodable(cs)
  {
    if cs == [] then [] else EncodeChunk(cs[0]) + EncodeAll(cs[1..])
  }

  /** The bodies of the data chunks, in order. */
  ghost function DataOf(cs: seq<Chunk>): seq<seq<Byte>> {
    if cs == [] then []
    else (if cs[0].isData then [cs[0].body] else []) + DataOf(cs[1..])
  }

  /** What reading until the first result that is not data gives. */
  datatype Transcript = Transcript(data: seq<seq<Byte>>, end: ReadResult)

  ghost function ReadAll(s: seq<Byte>): Transcript
    decreases |s|
  {
    var o := Read(s);
    if o.result.Data? then
      var t := ReadAll(o.rest);
      Transcript([o.result.bytes] + t.data, t.end)
    else Transcript([], o.result)
  }

  lemma {:induction false} ReadChunk(c: Chunk, rest: seq<Byte>)
    requires Encodable(c)
    ensures Read(EncodeChunk(c) + rest) == if c.isData then ReadOutcome(Data(c.body), rest) else Read(rest)
  {
    var s := EncodeChunk(c) + rest;
    PrefixRoundTrip(c.isData, |c.body|, c.size, c.body + rest);
    assert s == EncodePrefix(c.isData, |c.body|, c.size) + (c.body + rest);
    assert s[c.size..c.size + |c.body|] == c.body;
    assert s[c.size + |c.body|..] == rest;
  }

  /** A prefix that is too long is refused once its third byte is read; what follows is left. */
  lemma {:induction false} ReadOverlong(s: seq<Byte>)
    requires |s| >= 3
    ensures Read(s) == ReadOutcome(TooLong, s[3..]) <== s[0] / 0x40 % 2 == 1 && s[1] >= 0x80 && s[2] >= 0x80
  {
    hide DecodePrefix;
    OverlongExactly(s);
  }

  /** A chunk cut anywhere but at its start ends the stream unexpectedly. */
  lemma {:induction false} ReadCutChunk(c: Chunk, k: nat)
    requires Encodable(c) && k < c.size + |c.body|
    ensures Read(EncodeChunk(c)[..k]) == ReadOutcome(if k == 0 then EOF else UnexpectedEOF, [])
  {
    var s := EncodeChunk(c)[..k];
    var prefix := EncodePrefix(c.isData, |c.body|, c.size);
    if 0 < k < c.size {
      assert s == prefix[..k];
      PrefixCut(c.isData, |c.body|, c.size, k);
    } else if k >= c.size {
      assert s == prefix + c.body[..k - c.size];
      PrefixRoundTrip(c.isData, |c.body|, c.size, c.body[..k - c.size]);
    }
  }

  lemma {:induction false} ReadAllCutChunk(c: Chunk, k: nat)
    requires Encodable(c) && k < c.size + |c.body|
    ensures ReadAll(EncodeChunk(c)[..k]) == Transcript([], if k == 0 then EOF else UnexpectedEOF)
  {
    ReadCutChunk(c, k);
  }

  lemma {:induction false} ReadAllChunk(c: Chunk, rest: seq<Byte>)
    requires Encodable(c)
    ensures var t := ReadAll(rest);
      ReadAll(EncodeChunk(c) + rest) == Transcript((if c.isData then [c.body] else []) + t.data, t.end)
  {
    ReadChunk(c, rest);
  }

  /** How many whole chunks the first `k` bytes hold. */
  ghost function Whole(cs: seq<Chunk>, k: nat): (m: nat)
    requires AllEncodable(cs)
    ensures m <= |cs|
  {
    if cs == [] || k < |EncodeChunk(cs[0])| then 0
    else 1 + Whole(cs[1..], k - |EncodeChunk(cs[0])|)
  }

  lemma {:induction false} NothingToRead()
    ensures ReadAll([]) == Transcript([], EOF)
  {
  }

  /** Reading a stream cut after `k` bytes returns the data of the chunks that are there
      in full, and then says whether the cut was between two chunks. */
  lemma {:induction false} ReadCutStream(cs: seq<Chunk>, k: nat)
    requires AllEncodable(cs) && k <= |EncodeAll(cs)|
    ensures var m := Whole(cs, k);
      ReadAll(EncodeAll(cs)[..k]) ==
        Transcript(DataOf(cs[..m]), if k == |EncodeAll(cs[..m])| then EOF else UnexpectedEOF)
    decreases |cs|
  {
    hide Read, ReadAll, EncodeChunk, DecodePrefix;
    var m := Whole(cs, k);
    if cs == [] {
      NothingToRead();
    } else {
      var first := EncodeChunk(cs[0]);
      if k < |first| {
        assert EncodeAll(cs)[..k] == first[..k];
        ReadAllCutChunk(cs[0], k);
        assert cs[..m] == [];
      } else {
        assert EncodeAll(cs)[..k] == first + EncodeAll(cs[1..])[..k - |first|];
        ReadCutStream(cs[1..], k - |first|);
        ReadAllChunk(cs[0], EncodeAll(cs[1..])[..k - |first|]);
        assert cs[..m][1..] == cs[1..][..m - 1];
      }
    }
  }

  lemma {:induction false} WholeStream(cs: seq<Chunk>)
    requires AllEncodable(cs)
    ensures Whole(cs, |EncodeAll(cs)|) == |cs|
  {
    if cs != [] {
      WholeStream(cs[1..]);
    }
  }

  /** Reading a whole stream returns all its data, in order, and then EOF. */
  lemma {:induction false} ReadWholeStream(cs: seq<Chunk>)
    requires AllEncodable(cs)
    ensures ReadAll(EncodeAll(cs)) == Transcript(DataOf(cs), EOF)
  {
    WholeStream(cs);
    ReadCutStream(cs, |EncodeAll(cs)|);
    assert EncodeAll(cs)[..|EncodeAll(cs)|] == EncodeAll(cs);
    assert cs[..|cs|] == cs;
  }

  // ----- What the writers produce -----

  function DataChunk(data: seq<Byte>): (c: Chunk)
    requires |data| <= MAX_LENGTH
    ensures Encodable(c)
  {
    Chunk(true, data, MinSize(|data|))
  }

  const PADDING_BUFFER := 1024

  function Zeros(n: nat): (s: seq<Byte>)
    ensures |s| == n && forall i :: 0 <= i < n ==> s[i] == 0
  {
    seq(n, _ => 0)
  }

  /** The padding chunk that takes `p` bytes, prefix included. */
  function PaddingChunk(p: nat): (c: Chunk)
    requires 1 <= p <= PADDING_BUFFER
    ensures Encodable(c) && |EncodeChunk(c)| == p && !c.isData
  {
    if p <= 0x40 then Chunk(false, Zeros(p - 1), 1) else Chunk(false, Zeros(p - 2), 2)
  }

  ghost function PaddingChunks(n: nat): (cs: seq<Chunk>)
    ensures AllEncodable(cs)
  {
    if n == 0 then []
    else
      var p := if n < PADDING_BUFFER then n else PADDING_BUFFER;
      [PaddingChunk(p)] + PaddingChunks(n - p)
  }

  lemma {:induction false} EncodeAllEmpty(s: seq<Byte>)
    ensures s + EncodeAll(PaddingChunks(0)) == s
  {
  }

  lemma {:induction false} PaddingStep(s: seq<Byte>, n: nat)
    requires n > 0
    ensures var p := if n < PADDING_BUFFER then n else PADDING_BUFFER;
      s + EncodeAll(PaddingChunks(n)) == s + EncodeChunk(PaddingChunk(p)) + EncodeAll(PaddingChunks(n - p))
  {
    var p := if n < PADDING_BUFFER then n else PADDING_BUFFER;
    assert PaddingChunks(n)[1..] == PaddingChunks(n - p);
  }

  /** Padding takes exactly the space asked for, holds no data, and is split no further than
      into chunks of 1024 bytes. */
  lemma {:induction false} PaddingSize(n: nat)
    ensures |EncodeAll(PaddingChunks(n))| == n && DataOf(PaddingChunks(n)) == []
    ensures |PaddingChunks(n)| == (n + 1023) / 1024
  {
    if n > 0 {
      var p := if n < PADDING_BUFFER then n else PADDING_BUFFER;
      assert PaddingChunks(n)[1..] == PaddingChunks(n - p);
      PaddingSize(n - p);
    }
  }

  // ----- Any interleaving of writes -----

  datatype Op = WriteData(data: seq<Byte>) | WritePadding(n: nat)

  /** The chunks an operation appends; data that is too long is refused. */
  ghost function ChunksOf(op: Op): (cs: seq<Chunk>)
    ensures AllEncodable(cs)
  {
    match op
    case WriteData(data) => if |data| <= MAX_LENGTH then [DataChunk(data)] else []
    case WritePadding(n) => PaddingChunks(n)
  }

  ghost function Written(ops: seq<Op>): seq<Byte> {
    if ops == [] then [] else EncodeAll(ChunksOf(ops[0])) + Written(ops[1..])
  }

  /** The data the operations were accepted with, in order. */
  ghost function Accepted(ops: seq<Op>): seq<seq<Byte>> {
    if ops == [] then []
    else (if ops[0].WriteData? && |ops[0].data| <= MAX_LENGTH then [ops[0].data] else []) + Accepted(ops[1..])
  }

  ghost function AllChunks(ops: seq<Op>): (cs: seq<Chunk>)
    ensures AllEncodable(cs)
  {
    if ops == [] then [] else ChunksOf(ops[0]) + AllChunks(ops[1..])
  }

  lemma {:induction false} EncodeAllConcat(a: seq<Chunk>, b: seq<Chunk>)
    requires AllEncodable(a) && AllEncodable(b)
    ensures AllEncodable(a + b) && EncodeAll(a + b) == EncodeAll(a) + EncodeAll(b)
  {
    hide EncodeChunk, Encodable;
    if a == [] {
      assert a + b == b;
    } else {
      assert (a + b)[1..] == a[1..] + b;
      EncodeAllConcat(a[1..], b);
    }
  }

  lemma {:induction false} DataOfConcat(a: seq<Chunk>, b: seq<Chunk>)
    ensures DataOf(a + b) == DataOf(a) + DataOf(b)
  {
    if a == [] {
      assert a + b == b;
    } else {
      assert (a + b)[1..] == a[1..] + b;
      DataOfConcat(a[1..], b);
    }
  }

  lemma {:induction false} WrittenIsEncoded(ops: seq<Op>)
    ensures Written(ops) == EncodeAll(AllChunks(ops)) && Accepted(ops) == DataOf(AllChunks(ops))
  {
    hide EncodeChunk;
    if ops != [] {
      WrittenIsEncoded(ops[1..]);
      EncodeAllConcat(ChunksOf(ops[0]), AllChunks(ops[1..]));
      DataOfConcat(ChunksOf(ops[0]), AllChunks(ops[1..]));
      DataOfOp(ops[0]);
    }
  }

  lemma {:induction false} DataOfOp(op: Op)
    ensures DataOf(ChunksOf(op)) == if op.WriteData? && |op.data| <= MAX_LENGTH then [op.data] else []
  {
    if op.WritePadding? {
      PaddingSize(op.n);
    }
  }

  /** Whatever is written, in whatever order, reading returns exactly the data accepted,
      in order, and then EOF. */
  lemma {:induction false} RoundTrip(ops: seq<Op>)
    ensures ReadAll(Written(ops)) == Transcript(Accepted(ops), EOF)
  {
    WrittenIsEncoded(ops);
    ReadWholeStream(AllChunks(ops));
  }

  // ----- Fitting data into a space -----

  /** None stands for the panic on zero. */
  function MaxDataForSize(n: int): Option<int> {
    if n == 0 then None
    else
      match DataPrefixForLength(n)
      case None => Some(0xfffff - 3)
      case Some(prefix) => Some(n - |prefix|)
  }

  function EncodedSize(length: nat): nat {
    MinSize(length) + length
  }

  /** By how much `MaxDataForSize` misses the longest data that fits. */
  function Shortfall(n: nat): nat {
    if n == 0x40 || n == 0x2000 || n == 0x2001 || n == 0x100000 then 1
    else if n == 0x100001 then 2
    else if n >= 0x100002 then 3
    else 0
  }

  /** What `MaxDataForSize` returns always fits, and the longest data that fits is longer
      by exactly the shortfall; so it is the longest unless the space is 64, 8192, 8193 or
      more than 1048575 bytes. */
  lemma {:induction false} MaxDataFits(n: nat)
    requires n >= 1
    ensures MaxDataForSize(n).Some? && 0 <= MaxDataForSize(n).value <= MAX_LENGTH
    ensures EncodedSize(MaxDataForSize(n).value) <= n
    ensures var longest := MaxDataForSize(n).value + Shortfall(n);
      longest <= MAX_LENGTH && EncodedSize(longest) <= n &&
      forall d: nat :: d <= MAX_LENGTH && EncodedSize(d) <= n ==> d <= longest
  {
    DataPrefixIsShortest(n);
  }

  /** A negative space is taken for a very large one. */
  lemma {:induction false} NegativeSizeIsNotRefused(n: int)
    requires n < 0
    ensures MaxDataForSize(n) == Some(0xffffc)
  {
    DataPrefixIsShortest(n);
  }
}
