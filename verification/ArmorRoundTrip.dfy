/** The armor decoder undoes the element encoder. */
module ArmorRoundTrip {
  import opened ArmorEncoder
  import opened ArmorDecoder

  const START_MARK := "<pre>"
  const END_MARK := "</pre>"

  // ----- Tokens of a document of text and pre tags -----

  /** The text before the next markup. */
  function TextLength(s: string): (n: nat)
    ensures n <= |s|
    ensures forall k :: 0 <= k < n ==> s[k] != '<'
    ensures n < |s| ==> s[n] == '<'
  {
    if s == "" || s[0] == '<' then 0 else 1 + TextLength(s[1..])
  }

  /** The length of other markup, up to the closing bracket. */
  function TagLength(s: string): (n: nat)
    ensures n <= |s| && (s != "" ==> n > 0)
  {
    if s == "" then 0 else if s[0] == '>' then 1 else 1 + TagLength(s[1..])
  }

  /** The tokens of a document; text that reaches the buffer limit ends it. */
  function Tokenize(s: string): seq<Token>
    decreases |s|
  {
    if s == "" then []
    else if START_MARK <= s then [StartPre] + Tokenize(s[|START_MARK|..])
    else if END_MARK <= s then [EndPre] + Tokenize(s[|END_MARK|..])
    else if s[0] == '<' then [OtherTag] + Tokenize(s[TagLength(s)..])
    else var n := TextLength(s);
      if n >= ELEMENT_SIZE_LIMIT then [BufferExceeded] else [Text(s[..n])] + Tokenize(s[n..])
  }

  /** The text of one element, with the newline after its start tag. */
  function Body(p: string): string {
    "\n" + Lines(p)
  }

  /** The tokens that a text should turn into, by elements. */
  function ElementTokens(p: string): seq<Token> {
    if p == "" then []
    else if |p| <= BYTES_PER_ELEMENT then [StartPre, Text(Body(p)), EndPre, Text("\n")]
    else [StartPre, Text(Body(p[..BYTES_PER_ELEMENT])), EndPre, Text("\n")] + ElementTokens(p[BYTES_PER_ELEMENT..])
  }

  // ----- Lines -----

  lemma {:induction false} LinesStrip(p: string)
    ensures Strip(Lines(p)) == Strip(p)
    decreases |p|
  {
    if p != "" {
      if |p| <= BYTES_PER_CHUNK {
        StripConcat(p, "\n");
      } else {
        var chunk, rest := p[..BYTES_PER_CHUNK], p[BYTES_PER_CHUNK..];
        LinesOfLonger(p);
        LinesStrip(rest);
        StripConcat(chunk + "\n", Lines(rest));
        StripConcat(chunk, "\n");
        StripConcat(chunk, rest);
        assert p == chunk + rest;
      }
    }
  }

  /** There is one byte more for every 32, and for what is left. */
  lemma {:induction false} LinesLength(p: string)
    ensures |Lines(p)| == |p| + (|p| + 31) / 32
    decreases |p|
  {
    if |p| > BYTES_PER_CHUNK {
      LinesLength(p[BYTES_PER_CHUNK..]);
    }
  }

  /** A newline comes after every 32 bytes and at the end; the rest are the bytes of the text. */
  lemma {:induction false} LinesAt(p: string, i: nat)
    requires i < |Lines(p)|
    ensures if i % 33 == 32 || i == |Lines(p)| - 1 then Lines(p)[i] == '\n'
            else i - i / 33 < |p| && Lines(p)[i] == p[i - i / 33]
    decreases |p|
  {
    LinesLength(p);
    if |p| > BYTES_PER_CHUNK {
      LinesOfLonger(p);
      var rest := p[BYTES_PER_CHUNK..];
      LinesLength(rest);
      if i >= 33 {
        LinesAt(rest, i - 33);
        assert (i - 33) / 33 == i / 33 - 1 && (i - 33) % 33 == i % 33;
      }
    }
  }

  /** What one element holds stays below the limit of the decoder's buffer, and with one chunk
      more it would not. */
  lemma {:induction false} BodyFits(p: string)
    ensures |p| <= BYTES_PER_ELEMENT ==> |Body(p)| < ELEMENT_SIZE_LIMIT == 32768
    ensures |p| >= BYTES_PER_ELEMENT + 32 ==> |Body(p)| >= 32768
    ensures BYTES_PER_ELEMENT == 992 * 32
  {
    LinesLength(p);
  }

  lemma {:induction false} LinesChars(p: string, c: char)
    requires c in Lines(p)
    ensures c == '\n' || c in p
    decreases |p|
  {
    if |p| > BYTES_PER_CHUNK {
      LinesOfLonger(p);
      if c in Lines(p[BYTES_PER_CHUNK..]) {
        LinesChars(p[BYTES_PER_CHUNK..], c);
      }
    }
  }

  // ----- Tokens of the output -----

  predicate Markup(c: char) {
    c == '<' || c == '&'
  }

  predicate Plain(p: string) {
    forall c :: c in p ==> !Markup(c)
  }

  lemma {:induction false} TextLengthIs(s: string, n: nat)
    requires n <= |s| && forall k :: 0 <= k < n ==> s[k] != '<'
    requires n < |s| ==> s[n] == '<'
    ensures TextLength(s) == n
  {
  }

  lemma {:induction false} TokenizeText(t: string, rest: string)
    requires 0 < |t| < ELEMENT_SIZE_LIMIT && '<' !in t && (rest == "" || rest[0] == '<')
    ensures Tokenize(t + rest) == [Text(t)] + Tokenize(rest)
  {
    var s := t + rest;
    assert s[0] == t[0] && s[0] in t;
    TextLengthIs(s, |t|);
    assert s[..|t|] == t && s[|t|..] == rest;
  }

  lemma {:induction false} TokenizeStart(rest: string)
    ensures Tokenize(START_MARK + rest) == [StartPre] + Tokenize(rest)
  {
    var s := START_MARK + rest;
    assert START_MARK <= s && s[|START_MARK|..] == rest;
  }

  lemma {:induction false} TokenizeEnd(rest: string)
    ensures Tokenize(END_MARK + rest) == [EndPre] + Tokenize(rest)
  {
    var s := END_MARK + rest;
    assert s[1] == '/' && START_MARK[1] == 'p';
    assert END_MARK <= s && s[|END_MARK|..] == rest;
  }

  lemma {:induction false} TokenizeElement(p: string, rest: string)
    requires 0 < |p| <= BYTES_PER_ELEMENT && Plain(p) && (rest == "" || rest[0] == '<')
    ensures Tokenize(START_TAG + Lines(p) + END_TAG + rest) ==
      [StartPre, Text(Body(p)), EndPre, Text("\n")] + Tokenize(rest)
  {
    hide Tokenize, Lines;
    var s := START_TAG + Lines(p) + END_TAG + rest;
    var afterEnd := "\n" + rest;
    var fromEnd := END_MARK + afterEnd;
    assert s == START_MARK + (Body(p) + fromEnd);
    TokenizeStart(Body(p) + fromEnd);
    BodyFits(p);
    if '<' in Lines(p) {
      LinesChars(p, '<');
    }
    TokenizeText(Body(p), fromEnd);
    TokenizeEnd(afterEnd);
    TokenizeText("\n", rest);
  }

  /** The tokens of the output, whatever markup comes after it. */
  lemma {:induction false} TokenizeLayout(p: string, rest: string)
    requires Plain(p) && (rest == "" || rest[0] == '<')
    ensures Tokenize(Layout(p) + rest) == ElementTokens(p) + Tokenize(rest)
    ensures Layout(p) + rest == "" || (Layout(p) + rest)[0] == '<'
    decreases |p|
  {
    hide Tokenize, Lines, Layout, ElementTokens;
    ShortLayout(p);
    if p == "" {
      assert "" + rest == rest && [] + Tokenize(rest) == Tokenize(rest);
    } else if |p| <= BYTES_PER_ELEMENT {
      TokenizeElement(p, rest);
    } else {
      var head, tail := p[..BYTES_PER_ELEMENT], p[BYTES_PER_ELEMENT..];
      TokenizeLayout(tail, rest);
      LongerLayout(p);
      LongerTokens(p);
      TokenizeElement(head, Layout(tail) + rest);
      Associative(START_TAG + Lines(head) + END_TAG, Layout(tail), rest);
      AssociativeTokens([StartPre, Text(Body(head)), EndPre, Text("\n")], ElementTokens(tail), Tokenize(rest));
    }
  }

  lemma {:induction false} AssociativeTokens(a: seq<Token>, b: seq<Token>, c: seq<Token>)
    ensures a + b + c == a + (b + c)
  {
  }

  lemma {:induction false} ShortLayout(p: string)
    ensures p == "" ==> Layout(p) == "" && ElementTokens(p) == []
    ensures 0 < |p| <= BYTES_PER_ELEMENT ==> Layout(p) == START_TAG + Lines(p) + END_TAG
    ensures 0 < |p| <= BYTES_PER_ELEMENT ==> ElementTokens(p) == [StartPre, Text(Body(p)), EndPre, Text("\n")]
  {
  }

  lemma {:induction false} LongerLayout(p: string)
    requires |p| > BYTES_PER_ELEMENT
    ensures Layout(p) ==
      START_TAG + Lines(p[..BYTES_PER_ELEMENT]) + END_TAG + Layout(p[BYTES_PER_ELEMENT..])
  {
  }

  lemma {:induction false} LongerTokens(p: string)
    requires |p| > BYTES_PER_ELEMENT
    ensures ElementTokens(p) ==
      [StartPre, Text(Body(p[..BYTES_PER_ELEMENT])), EndPre, Text("\n")] + ElementTokens(p[BYTES_PER_ELEMENT..])
  {
  }

  lemma {:induction false} TokenizeNothing()
    ensures Tokenize("") == []
  {
  }

  // ----- Decoding the output -----

  lemma {:induction false} DecodeElement(p: string, rest: seq<Token>)
    ensures var d := Decode(false, rest);
      Decode(false, [StartPre, Text(Body(p)), EndPre, Text("\n")] + rest) == d.(written := Strip(p) + d.written)
  {
    var tokens := [StartPre, Text(Body(p)), EndPre, Text("\n")] + rest;
    var body, end, gap := tokens[1..], tokens[1..][1..], tokens[1..][1..][1..];
    assert body[0] == Text(Body(p)) && end[0] == EndPre && gap[0] == Text("\n") && gap[1..] == rest;
    assert Decode(true, end) == Decode(false, gap) == Decode(false, rest);
    assert Decode(false, tokens) == Decode(true, body);
    assert Strip("\n") == "" + Strip("\n"[1..]) == "";
    StripConcat("\n", Lines(p));
    LinesStrip(p);
  }

  lemma {:induction false} DecodeElements(p: string)
    ensures Decode(false, ElementTokens(p)) == Decoding(Strip(p), Decoded)
    decreases |p|
  {
    if p == "" {
    } else if |p| <= BYTES_PER_ELEMENT {
      DecodeElement(p, []);
      assert ElementTokens(p) == [StartPre, Text(Body(p)), EndPre, Text("\n")] + [];
    } else {
      var head, rest := p[..BYTES_PER_ELEMENT], p[BYTES_PER_ELEMENT..];
      DecodeElement(head, ElementTokens(rest));
      DecodeElements(rest);
      StripConcat(head, rest);
      assert p == head + rest;
    }
  }

  /** No text reaches the limit of the buffer. */
  predicate Fits(tokens: seq<Token>) {
    forall t :: t in tokens && t.Text? ==> |t.text| < ELEMENT_SIZE_LIMIT
  }

  lemma {:induction false} ElementsFit(p: string)
    ensures Fits(ElementTokens(p))
    decreases |p|
  {
    if p == "" {
    } else if |p| <= BYTES_PER_ELEMENT {
      BodyFits(p);
    } else {
      BodyFits(p[..BYTES_PER_ELEMENT]);
      ElementsFit(p[BYTES_PER_ELEMENT..]);
    }
  }

  /** What a sequence of writes and a close put out. */
  function Encoded(writes: seq<string>): string {
    EmitAll(Counters(0, 0), writes) + Closing(AfterAll(Counters(0, 0), writes))
  }

  /** For text without markup, split across writes in any way, every pre is balanced and
      fits, and decoding gives the text less its whitespace. */
  lemma {:induction false} DecodeEncoded(writes: seq<string>)
    requires Plain(Join(writes))
    ensures var tokens := Tokenize(Encoded(writes)); Balanced(false, tokens) && Fits(tokens)
    ensures Decode(false, Tokenize(Encoded(writes))) == Decoding(Strip(Join(writes)), Decoded)
  {
    hide Encoded, Tokenize, Decode, Balanced, Fits;
    var p := Join(writes);
    EncodedIsLayout(writes);
    TokenizeLayout(p, "");
    TokenizeNothing();
    assert Layout(p) + "" == Layout(p) && ElementTokens(p) + [] == ElementTokens(p);
    hide Layout, ElementTokens;
    DecodeElements(p);
    ElementsFit(p);
    DecodesBalanced(false, ElementTokens(p));
  }

  lemma {:induction false} EncodedIsLayout(writes: seq<string>)
    ensures Encoded(writes) == Layout(Join(writes))
  {
    WritesMakeLayout(writes);
  }

  /** The round trip gives back the text exactly when the text has no whitespace. */
  lemma {:induction false} RoundTrip(writes: seq<string>)
    requires Plain(Join(writes))
    ensures Decode(false, Tokenize(Encoded(writes))) == Decoding(Join(writes), Decoded) <==>
            forall c :: c in Join(writes) ==> !IsASCIIWhitespace(c)
  {
    hide Encoded, Tokenize, Decode;
    DecodeEncoded(writes);
    StripKeeps(Join(writes));
  }

  // ----- Documents -----

  /** Every tag of the text is closed. */
  predicate Closed(s: string)
    decreases |s|
  {
    s == "" ||
    if s[0] == '<' then s[TagLength(s) - 1] == '>' && Closed(s[TagLength(s)..]) else Closed(s[TextLength(s)..])
  }

  lemma {:induction false} TagLengthIs(a: string, b: string)
    requires a != "" && a[TagLength(a) - 1] == '>'
    ensures TagLength(a + b) == TagLength(a)
    ensures forall k :: 0 <= k < TagLength(a) - 1 ==> a[k] != '>'
  {
    if a[0] != '>' {
      assert (a + b)[1..] == a[1..] + b;
      TagLengthIs(a[1..], b);
      assert forall k :: 0 < k < |a| ==> a[k] == a[1..][k - 1];
    }
  }

  /** What comes after a closed tag does not make it a tag of a pre element. */
  lemma {:induction false} SameMark(a: string, b: string, mark: string)
    requires a != "" && a[TagLength(a) - 1] == '>' && (mark == START_MARK || mark == END_MARK)
    ensures mark <= a + b <==> mark <= a
  {
    TagLengthIs(a, b);
    var n := TagLength(a);
    if mark <= a + b {
      assert (a + b)[|mark| - 1] == '>' && forall k :: 0 <= k < |mark| - 1 ==> (a + b)[k] == mark[k] && mark[k] != '>';
      assert n - 1 < |mark| ==> (a + b)[n - 1] == mark[n - 1];
    }
  }

  lemma {:induction false} FirstClose(s: string, n: nat)
    requires 0 < n <= |s| && s[n - 1] == '>' && forall k :: 0 <= k < n - 1 ==> s[k] != '>'
    ensures TagLength(s) == n
  {
    if n > 1 {
      FirstClose(s[1..], n - 1);
    }
  }

  lemma {:induction false} MarkLength(s: string)
    ensures START_MARK <= s ==> TagLength(s) == |START_MARK|
    ensures END_MARK <= s ==> TagLength(s) == |END_MARK|
  {
    if START_MARK <= s {
      assert forall k :: 0 <= k < |START_MARK| ==> s[k] == START_MARK[k];
      FirstClose(s, |START_MARK|);
    }
    if END_MARK <= s {
      assert forall k :: 0 <= k < |END_MARK| ==> s[k] == END_MARK[k];
      FirstClose(s, |END_MARK|);
    }
  }

  /** The kind of a tag depends on its text alone. */
  function TagToken(s: string): Token {
    if START_MARK <= s then StartPre else if END_MARK <= s then EndPre else OtherTag
  }

  lemma {:induction false} TokenizeTag(s: string)
    requires s != "" && s[0] == '<'
    ensures Tokenize(s) == [TagToken(s)] + Tokenize(s[TagLength(s)..])
  {
    MarkLength(s);
  }

  lemma {:induction false} TokenizeFirstText(s: string)
    requires s != "" && s[0] != '<'
    ensures TextLength(s) >= ELEMENT_SIZE_LIMIT ==> Tokenize(s) == [BufferExceeded]
    ensures TextLength(s) < ELEMENT_SIZE_LIMIT ==>
      Tokenize(s) == [Text(s[..TextLength(s)])] + Tokenize(s[TextLength(s)..])
  {
  }

  /** The tokens of two texts, if the first one has no open tag and the second begins with one. */
  lemma {:induction false} TokenizeConcat(a: string, b: string)
    requires Closed(a) && BufferExceeded !in Tokenize(a) && (b == "" || b[0] == '<')
    ensures Tokenize(a + b) == Tokenize(a) + Tokenize(b)
    decreases |a|
  {
    if a == "" {
      TokenizeNothing();
      assert a + b == b && [] + Tokenize(b) == Tokenize(b);
    } else {
      hide Tokenize, TagToken;
      var n := if a[0] == '<' then TagLength(a) else TextLength(a);
      assert (a + b)[n..] == a[n..] + b;
      var first := FirstToken(a, b, n);
      TokenizeConcat(a[n..], b);
      AssociativeTokens([first], Tokenize(a[n..]), Tokenize(b));
    }
  }

  lemma {:induction false} FirstToken(a: string, b: string, n: nat) returns (first: Token)
    requires a != "" && Closed(a) && BufferExceeded !in Tokenize(a) && (b == "" || b[0] == '<')
    requires n == if a[0] == '<' then TagLength(a) else TextLength(a)
    ensures Closed(a[n..]) && BufferExceeded !in Tokenize(a[n..])
    ensures Tokenize(a) == [first] + Tokenize(a[n..]) && Tokenize(a + b) == [first] + Tokenize((a + b)[n..])
  {
    hide Tokenize, TagToken;
    if a[0] == '<' {
      SameToken(a, b);
      TokenizeTag(a);
      TokenizeTag(a + b);
      first := TagToken(a);
    } else {
      TextLengthIs(a + b, n);
      TokenizeFirstText(a);
      TokenizeFirstText(a + b);
      assert (a + b)[..n] == a[..n];
      first := Text(a[..n]);
    }
  }

  lemma {:induction false} SameToken(a: string, b: string)
    requires a != "" && a[TagLength(a) - 1] == '>'
    ensures TagToken(a + b) == TagToken(a) && TagLength(a + b) == TagLength(a)
  {
    SameMark(a, b, START_MARK);
    SameMark(a, b, END_MARK);
    TagLengthIs(a, b);
  }

  /** A document with any text and other tags before and after the elements decodes to the same. */
  lemma {:induction false} DecodeDocument(header: string, writes: seq<string>, footer: string)
    requires Plain(Join(writes))
    requires Closed(header) && Outside(Tokenize(header))
    requires Outside(Tokenize(footer)) && (footer == "" || footer[0] == '<')
    ensures Decode(false, Tokenize(header + Encoded(writes) + footer)) == Decoding(Strip(Join(writes)), Decoded)
  {
    hide Encoded, Tokenize, Decode, Closed;
    var p := Join(writes);
    var before, after := Tokenize(header), Tokenize(footer);
    EncodedIsLayout(writes);
    TokenizeLayout(p, footer);
    assert header + Layout(p) + footer == header + (Layout(p) + footer);
    TokenizeConcat(header, Layout(p) + footer);
    DecodesOutside(before, ElementTokens(p) + after);
    DecodeElementsThen(p, after);
  }

  lemma {:induction false} DecodeElementsThen(p: string, after: seq<Token>)
    requires Outside(after)
    ensures Decode(false, ElementTokens(p) + after) == Decoding(Strip(p), Decoded)
    decreases |p|
  {
    if p == "" {
      DecodesOutside(after, []);
      assert after + [] == after && ElementTokens(p) + after == after;
    } else if |p| <= BYTES_PER_ELEMENT {
      DecodeElement(p, after);
      DecodesOutside(after, []);
      assert after + [] == after;
    } else {
      var head, rest := p[..BYTES_PER_ELEMENT], p[BYTES_PER_ELEMENT..];
      DecodeElement(head, ElementTokens(rest) + after);
      assert ElementTokens(p) + after ==
        [StartPre, Text(Body(head)), EndPre, Text("\n")] + (ElementTokens(rest) + after);
      DecodeElementsThen(rest, after);
      StripConcat(head, rest);
      assert p == head + rest;
    }
  }

  /** The elements of a text with something else before each one, and after the last. */
  function Spread(p: string, gap: nat -> seq<Token>, i: nat): seq<Token>
    decreases |p|
  {
    gap(i) +
    if p == "" then []
    else if |p| <= BYTES_PER_ELEMENT then [StartPre, Text(Body(p)), EndPre] + gap(i + 1)
    else [StartPre, Text(Body(p[..BYTES_PER_ELEMENT])), EndPre] + Spread(p[BYTES_PER_ELEMENT..], gap, i + 1)
  }

  lemma {:induction false} DecodeOne(p: string, rest: seq<Token>)
    ensures var d := Decode(false, rest);
      Decode(false, [StartPre, Text(Body(p)), EndPre] + rest) == d.(written := Strip(p) + d.written)
  {
    var gap := [Text("\n")];
    DecodeElement(p, rest);
    DecodesOutside(gap, rest);
    var tokens := [StartPre, Text(Body(p)), EndPre] + rest;
    var spaced := [StartPre, Text(Body(p)), EndPre, Text("\n")] + rest;
    assert tokens[1..][1..][1..] == rest && spaced[1..][1..][1..] == gap + rest;
    assert Decode(true, tokens[1..][1..]) == Decode(true, spaced[1..][1..]);
    assert tokens[1..][0] == spaced[1..][0] == Text(Body(p));
  }

  /** Text and other tags between the elements change nothing either. */
  lemma {:induction false} DecodeSpread(p: string, gap: nat -> seq<Token>, i: nat)
    requires forall k :: Outside(gap(k))
    ensures Decode(false, Spread(p, gap, i)) == Decoding(Strip(p), Decoded)
    decreases |p|
  {
    if p == "" {
      DecodesOutside(gap(i), []);
    } else if |p| <= BYTES_PER_ELEMENT {
      DecodesOutside(gap(i), [StartPre, Text(Body(p)), EndPre] + gap(i + 1));
      DecodeOne(p, gap(i + 1));
      DecodesOutside(gap(i + 1), []);
      assert gap(i + 1) + [] == gap(i + 1);
    } else {
      var head, rest := p[..BYTES_PER_ELEMENT], p[BYTES_PER_ELEMENT..];
      DecodesOutside(gap(i), [StartPre, Text(Body(head)), EndPre] + Spread(rest, gap, i + 1));
      DecodeOne(head, Spread(rest, gap, i + 1));
      DecodeSpread(rest, gap, i + 1);
      StripConcat(head, rest);
      assert p == head + rest;
    }
  }

  // ----- The version byte -----

  datatype Armor = Payload(text: string) | UnknownVersion(version: char) | Nothing

  /** The first byte inside the elements must be the version that the encoder writes. */
  function CheckVersion(written: string): Armor {
    if written == "" then Nothing
    else if written[0] == '0' then Payload(written[1..])
    else UnknownVersion(written[0])
  }

  /** An armored document gives back what was written into it exactly when that has no whitespace. */
  lemma {:induction false} ArmorRoundTrip(header: string, writes: seq<string>, footer: string)
    requires Plain(Join(writes))
    requires Closed(header) && Outside(Tokenize(header))
    requires Outside(Tokenize(footer)) && (footer == "" || footer[0] == '<')
    ensures var d := Decode(false, Tokenize(header + Encoded(["0"] + writes) + footer));
      d.outcome == Decoded && (CheckVersion(d.written) == Payload(Join(writes)) <==>
        forall c :: c in Join(writes) ==> !IsASCIIWhitespace(c))
  {
    hide Encoded, Tokenize, Decode, Closed;
    var p := Join(writes);
    assert (["0"] + writes)[0] == "0" && (["0"] + writes)[1..] == writes;
    assert Join(["0"] + writes) == "0" + p;
    DecodeDocument(header, ["0"] + writes, footer);
    StripConcat("0", p);
    StripKeeps(p);
    StripOne('0');
    assert "0" == ['0'];
  }
}
