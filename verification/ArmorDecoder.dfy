/** The AMP armor decoder: the text inside pre elements, with its whitespace dropped. */
module ArmorDecoder {
  import opened ArmorEncoder

  predicate IsASCIIWhitespace(b: char) {
    b == '\t' || b == '\n' || b == '\U{0C}' || b == '\r' || b == ' '
  }

  /** Tab, line feed, form feed, carriage return and space. */
  lemma {:induction false} WhitespaceIs(b: char)
    ensures IsASCIIWhitespace(b) <==> b as int in {9, 10, 12, 13, 32}
  {
    if b as int in {9, 10, 12, 13, 32} {
      assert b == 9 as char || b == 10 as char || b == 12 as char || b == 13 as char || b == 32 as char;
    }
  }

  // ----- Words -----

  /** How much whitespace a text starts with. */
  function Lead(s: string): (n: nat)
    ensures n <= |s|
    ensures forall k :: 0 <= k < n ==> IsASCIIWhitespace(s[k])
    ensures n < |s| ==> !IsASCIIWhitespace(s[n])
  {
    if s == "" || !IsASCIIWhitespace(s[0]) then 0 else 1 + Lead(s[1..])
  }

  /** How much other text a text starts with. */
  function Run(s: string): (n: nat)
    ensures n <= |s|
    ensures forall k :: 0 <= k < n ==> !IsASCIIWhitespace(s[k])
    ensures n < |s| ==> IsASCIIWhitespace(s[n])
  {
    if s == "" || IsASCIIWhitespace(s[0]) then 0 else 1 + Run(s[1..])
  }

  /** The words of a text. */
  function Words(s: string): seq<string>
    decreases |s|
  {
    if s == "" then []
    else if IsASCIIWhitespace(s[0]) then Words(s[1..])
    else var n := Run(s); [s[..n]] + Words(s[n..])
  }

  /** A text without its whitespace. */
  function Strip(s: string): string {
    if s == "" then "" else (if IsASCIIWhitespace(s[0]) then "" else [s[0]]) + Strip(s[1..])
  }

  lemma {:induction false} StripConcat(a: string, b: string)
    ensures Strip(a + b) == Strip(a) + Strip(b)
  {
    if a == "" {
      assert a + b == b;
    } else {
      assert (a + b)[1..] == a[1..] + b;
      StripConcat(a[1..], b);
    }
  }

  /** One by one, exactly the whitespace is dropped. */
  lemma {:induction false} StripOne(c: char)
    ensures Strip([c]) == if c as int in {9, 10, 12, 13, 32} then "" else [c]
  {
    WhitespaceIs(c);
    assert [c][1..] == "";
  }

  /** A text is its own strip exactly when it has no whitespace. */
  lemma {:induction false} StripKeeps(s: string)
    ensures |Strip(s)| <= |s|
    ensures Strip(s) == s <==> forall c :: c in s ==> !IsASCIIWhitespace(c)
  {
    if s != "" {
      StripKeeps(s[1..]);
      assert s == [s[0]] + s[1..];
    }
  }

  /** The words, put together again, are the text without its whitespace. */
  lemma {:induction false} WordsAreStrip(s: string)
    ensures Join(Words(s)) == Strip(s)
    decreases |s|
  {
    if s != "" {
      if IsASCIIWhitespace(s[0]) {
        WordsAreStrip(s[1..]);
      } else {
        var n := Run(s);
        WordsAreStrip(s[n..]);
        StripKeeps(s[..n]);
        StripConcat(s[..n], s[n..]);
        assert s == s[..n] + s[n..];
        var words := Words(s);
        assert words[0] == s[..n] && words[1..] == Words(s[n..]);
      }
    }
  }

  /** Whitespace before the words is nothing. */
  lemma {:induction false} SkipLead(s: string, n: nat)
    requires n <= |s| && forall k :: 0 <= k < n ==> IsASCIIWhitespace(s[k])
    ensures Words(s) == Words(s[n..])
  {
    if n > 0 {
      assert s[n..] == s[1..][n - 1..];
      SkipLead(s[1..], n - 1);
    }
  }

  lemma {:induction false} RunIs(s: string, n: nat)
    requires n <= |s| && forall k :: 0 <= k < n ==> !IsASCIIWhitespace(s[k])
    requires n < |s| ==> IsASCIIWhitespace(s[n])
    ensures Run(s) == n
  {
  }

  lemma {:induction false} TakeRun(s: string, n: nat)
    requires 0 < n <= |s| && forall k :: 0 <= k < n ==> !IsASCIIWhitespace(s[k])
    requires n < |s| ==> IsASCIIWhitespace(s[n])
    ensures Words(s) == [s[..n]] + Words(if n < |s| then s[n + 1..] else "")
  {
    RunIs(s, n);
    if n < |s| {
      assert s[n..][1..] == s[n + 1..];
    }
  }

  // ----- The split function -----

  datatype Split = Split(advance: nat, token: seq<string>)

  /** What splitting does: it takes the first word, if more text cannot lengthen it. */
  function FirstWord(data: string, atEOF: bool): (r: Split)
    ensures r.advance <= |data|
  {
    var i := Lead(data);
    var j := i + Run(data[i..]);
    if j < |data| then Split(j + 1, [data[i..j]])
    else if atEOF && i < j then Split(j, [data[i..j]])
    else Split(i, [])
  }

  method SplitASCIIWhitespace(data: string, atEOF: bool) returns (advance: nat, token: seq<string>)
    ensures Split(advance, token) == FirstWord(data, atEOF)
  {
    var i := 0;
    while i < |data|
      invariant i <= |data| && forall k :: 0 <= k < i ==> IsASCIIWhitespace(data[k])
    {
      if !IsASCIIWhitespace(data[i]) {
        break;
      }
      i := i + 1;
    }
    LeadIs(data, i);
    var j := i;
    while j < |data|
      invariant i <= j <= |data| && forall k :: i <= k < j ==> !IsASCIIWhitespace(data[k])
    {
      if IsASCIIWhitespace(data[j]) {
        RunIs(data[i..], j - i);
        return j + 1, [data[i..j]];
      }
      j := j + 1;
    }
    RunIs(data[i..], j - i);
    if atEOF && i < j {
      return j, [data[i..j]];
    }
    return i, [];
  }

  lemma {:induction false} LeadIs(s: string, n: nat)
    requires n <= |s| && forall k :: 0 <= k < n ==> IsASCIIWhitespace(s[k])
    requires n < |s| ==> !IsASCIIWhitespace(s[n])
    ensures Lead(s) == n
  {
  }

  /** One split keeps the words of the whole text, whatever part of it is in the buffer. */
  lemma {:induction false} FirstWordKeepsWords(data: string, rest: string, atEOF: bool)
    requires atEOF ==> rest == ""
    ensures var r := FirstWord(data, atEOF); Words(data + rest) == r.token + Words(data[r.advance..] + rest)
    ensures var r := FirstWord(data, atEOF); r.token != [] ==> r.advance > 0
    ensures var r := FirstWord(data, atEOF); atEOF && r.token == [] ==> r.advance == |data|
  {
    hide Words, Lead, Run;
    var i := Lead(data);
    var tail := data[i..];
    var n := Run(tail);
    WordsAfterLead(data, rest);
    SliceOfTail(data, i, n);
    if n < |tail| {
      TakeWord(tail, rest, n);
    } else if atEOF && 0 < n {
      TakeLast(tail);
    }
  }

  lemma {:induction false} WordsAfterLead(data: string, rest: string)
    ensures Words(data + rest) == Words(data[Lead(data)..] + rest)
  {
    hide Words, Lead;
    SkipLead(data + rest, Lead(data));
    assert (data + rest)[Lead(data)..] == data[Lead(data)..] + rest;
  }

  lemma {:induction false} SliceOfTail(data: string, i: nat, n: nat)
    requires i + n <= |data|
    ensures data[i..][..n] == data[i..i + n]
    ensures i + n < |data| ==> data[i..][n + 1..] == data[i + n + 1..]
    ensures i + n == |data| ==> data[i + n..] == ""
  {
  }

  lemma {:induction false} TakeLast(tail: string)
    requires tail != "" && Run(tail) == |tail|
    ensures Words(tail + "") == [tail[..|tail|]] + Words("" + "")
  {
    hide Words;
    TakeRun(tail, |tail|);
    assert tail + "" == tail && "" + "" == "";
  }

  lemma {:induction false} TakeWord(data: string, rest: string, n: nat)
    requires 0 < n < |data| && IsASCIIWhitespace(data[n])
    requires forall k :: 0 <= k < n ==> !IsASCIIWhitespace(data[k])
    ensures Words(data + rest) == [data[..n]] + Words(data[n + 1..] + rest)
  {
    hide Words;
    TakeRun(data + rest, n);
    assert (data + rest)[..n] == data[..n] && (data + rest)[n + 1..] == data[n + 1..] + rest;
  }

  /** The scanner: it buffers reads of any size and splits what it has. The words it finds
      do not depend on the reads. */
  method ScanWords(text: string) returns (words: seq<string>)
    ensures words == Words(text)
  {
    hide Words, FirstWord;
    words := [];
    var buffer, rest, eof := "", text, false;
    assert text == buffer + rest;
    while true
      invariant Words(text) == words + Words(buffer + rest)
      invariant eof ==> rest == ""
      decreases |buffer| + |rest|, |rest|, !eof
    {
      if buffer != "" || eof {
        var advance, token := SplitASCIIWhitespace(buffer, eof);
        FirstWordKeepsWords(buffer, rest, eof);
        words, buffer := words + token, buffer[advance..];
        if token != [] {
          continue;
        }
      }
      if eof {
        break;
      }
      if rest == "" {
        eof := true;
      } else {
        var n :| 1 <= n <= |rest|;
        assert buffer + rest == (buffer + rest[..n]) + rest[n..];
        buffer, rest := buffer + rest[..n], rest[n..];
      }
    }
    assert buffer + rest == "";
    NoWords();
  }

  lemma {:induction false} NoWords()
    ensures Words("") == []
  {
  }

  // ----- The element layer -----

  datatype Token = Text(text: string) | StartPre | EndPre | OtherTag | BufferExceeded

  datatype Outcome = Decoded | UnexpectedStart | UnexpectedEnd | MissingEnd | TextTooLong

  datatype Decoding = Decoding(written: string, outcome: Outcome)

  /** What the decoder does with the tokens that are left. */
  function Decode(active: bool, tokens: seq<Token>): Decoding
    decreases |tokens|
  {
    if tokens == [] then Decoding("", if active then MissingEnd else Decoded)
    else match tokens[0]
      case Text(t) =>
        var rest := Decode(active, tokens[1..]);
        if active then rest.(written := Strip(t) + rest.written) else rest
      case StartPre => if active then Decoding("", UnexpectedStart) else Decode(true, tokens[1..])
      case EndPre => if active then Decode(false, tokens[1..]) else Decoding("", UnexpectedEnd)
      case OtherTag => Decode(active, tokens[1..])
      case BufferExceeded => Decoding("", TextTooLong)
  }

  /** Start and end tags alternate, and no text is too long to buffer. */
  predicate Balanced(active: bool, tokens: seq<Token>)
    decreases |tokens|
  {
    if tokens == [] then !active
    else match tokens[0]
      case Text(_) => Balanced(active, tokens[1..])
      case StartPre => !active && Balanced(true, tokens[1..])
      case EndPre => active && Balanced(false, tokens[1..])
      case OtherTag => Balanced(active, tokens[1..])
      case BufferExceeded => false
  }

  /** Exactly the balanced inputs are decoded without an error. */
  lemma {:induction false} DecodesBalanced(active: bool, tokens: seq<Token>)
    ensures Decode(active, tokens).outcome == Decoded <==> Balanced(active, tokens)
    decreases |tokens|
  {
    if tokens != [] && tokens[0] != BufferExceeded {
      DecodesBalanced(if tokens[0] == StartPre then true else if tokens[0] == EndPre then false else active,
        tokens[1..]);
    }
  }

  // ----- What is written, told from the tokens -----

  /** A start tag comes before position `i`, and no end tag after that. */
  ghost predicate Inside(tokens: seq<Token>, i: nat)
    requires i <= |tokens|
  {
    exists j :: 0 <= j < i && tokens[j] == StartPre && forall k :: j < k < i ==> tokens[k] != EndPre
  }

  /** The token at which decoding fails: a tag out of place, or a text that is too long. */
  ghost predicate Misplaced(tokens: seq<Token>, i: nat)
    requires i < |tokens|
  {
    || (tokens[i] == StartPre && Inside(tokens, i))
    || (tokens[i] == EndPre && !Inside(tokens, i))
    || tokens[i] == BufferExceeded
  }

  /** Decoding gets as far as position `n`. */
  ghost predicate StopsAt(tokens: seq<Token>, n: nat) {
    n <= |tokens| && (forall i: nat :: i < n ==> !Misplaced(tokens, i)) && (n < |tokens| ==> Misplaced(tokens, n))
  }

  /** What the token at position `i` contributes: its text without whitespace, if that is inside. */
  ghost function Contributed(tokens: seq<Token>, i: nat): string
    requires i < |tokens|
  {
    if tokens[i].Text? && Inside(tokens, i) then Strip(tokens[i].text) else ""
  }

  ghost function Contributions(tokens: seq<Token>, i: nat, n: nat): (pieces: seq<string>)
    requires i <= n <= |tokens|
    ensures |pieces| == n - i
  {
    seq(n - i, k requires 0 <= k < n - i => Contributed(tokens, i + k))
  }

  ghost function OutcomeAt(tokens: seq<Token>, n: nat): Outcome
    requires n <= |tokens|
  {
    if n == |tokens| then (if Inside(tokens, n) then MissingEnd else Decoded)
    else match tokens[n]
      case StartPre => UnexpectedStart
      case EndPre => UnexpectedEnd
      case _ => TextTooLong
  }

  lemma {:induction false} InsideNext(tokens: seq<Token>, i: nat)
    requires i < |tokens|
    ensures Inside(tokens, i + 1) <==> tokens[i] == StartPre || (tokens[i] != EndPre && Inside(tokens, i))
  {
    if tokens[i] == StartPre {
      assert tokens[i] == StartPre;
    }
  }

  /** Decoding from position `i` on writes what the tokens from there contribute. */
  lemma {:induction false} DecodesFrom(tokens: seq<Token>, i: nat, n: nat)
    requires StopsAt(tokens, n) && i <= n
    ensures Decode(Inside(tokens, i), tokens[i..]) == Decoding(Join(Contributions(tokens, i, n)), OutcomeAt(tokens, n))
    decreases n - i
  {
    hide Inside;
    if i == n {
      assert Contributions(tokens, i, n) == [];
      if n == |tokens| {
        assert tokens[i..] == [];
      } else {
        assert tokens[i..][0] == tokens[n] && Misplaced(tokens, n);
      }
    } else {
      assert !Misplaced(tokens, i);
      assert tokens[i..][0] == tokens[i] && tokens[i..][1..] == tokens[i + 1..];
      InsideNext(tokens, i);
      DecodesFrom(tokens, i + 1, n);
      var all, rest := Contributions(tokens, i, n), Contributions(tokens, i + 1, n);
      assert all[0] == Contributed(tokens, i) && all[1..] == rest;
    }
  }

  lemma {:induction false} StopExists(tokens: seq<Token>, i: nat) returns (n: nat)
    requires i <= |tokens| && forall k: nat :: k < i ==> !Misplaced(tokens, k)
    ensures StopsAt(tokens, n)
    decreases |tokens| - i
  {
    if i == |tokens| || Misplaced(tokens, i) {
      n := i;
    } else {
      n := StopExists(tokens, i + 1);
    }
  }

  /** What is written are the texts between start tags and end tags without their whitespace, up
      to the token at which decoding fails, if there is one. */
  lemma {:induction false} DecodesInside(tokens: seq<Token>, n: nat)
    requires StopsAt(tokens, n)
    ensures Decode(false, tokens) == Decoding(Join(Contributions(tokens, 0, n)), OutcomeAt(tokens, n))
  {
    assert tokens[0..] == tokens;
    DecodesFrom(tokens, 0, n);
  }

  ghost predicate Outside(tokens: seq<Token>) {
    forall t :: t in tokens ==> t.Text? || t.OtherTag?
  }

  /** Text and other tags outside elements contribute nothing. */
  lemma {:induction false} DecodesOutside(outside: seq<Token>, rest: seq<Token>)
    requires Outside(outside)
    ensures Decode(false, outside + rest) == Decode(false, rest)
  {
    if outside == [] {
      assert outside + rest == rest;
    } else {
      assert outside[0] in outside && (outside + rest)[0] == outside[0];
      assert (outside + rest)[1..] == outside[1..] + rest;
      DecodesOutside(outside[1..], rest);
    }
  }

  method DecodeToWriter(tokens: seq<Token>) returns (written: string, total: nat, outcome: Outcome, ghost n: nat)
    ensures Decoding(written, outcome) == Decode(false, tokens)
    ensures total == |written|
    ensures StopsAt(tokens, n) && written == Join(Contributions(tokens, 0, n)) && outcome == OutcomeAt(tokens, n)
  {
    n := StopExists(tokens, 0);
    DecodesInside(tokens, n);
    written, total := "", 0;
    var active := false;
    var i := 0;
    assert tokens[0..] == tokens;
    while i < |tokens|
      invariant i <= |tokens| && total == |written|
      invariant var rest := Decode(active, tokens[i..]);
        Decode(false, tokens) == rest.(written := written + rest.written)
    {
      var token := tokens[i];
      assert tokens[i..][0] == token && tokens[i..][1..] == tokens[i + 1..];
      match token {
        case Text(text) =>
          if active {
            var words := ScanWords(text);
            WordsAreStrip(text);
            var w := WriteWords(words);
            Associative(written, w, Decode(active, tokens[i + 1..]).written);
            written, total := written + w, total + |w|;
          }
        case StartPre =>
          if active {
            return written, total, UnexpectedStart, n;
          }
          active := true;
        case EndPre =>
          if !active {
            return written, total, UnexpectedEnd, n;
          }
          active := false;
        case OtherTag =>
        case BufferExceeded =>
          return written, total, TextTooLong, n;
      }
      i := i + 1;
    }
    outcome := if active then MissingEnd else Decoded;
  }

  /** The words go to the writer one by one. */
  method WriteWords(words: seq<string>) returns (written: string)
    ensures written == Join(words)
  {
    written := "";
    var i := 0;
    assert words[0..] == words;
    while i < |words|
      invariant i <= |words| && Join(words) == written + Join(words[i..])
    {
      assert words[i..][0] == words[i] && words[i..][1..] == words[i + 1..];
      Associative(written, words[i], Join(words[i + 1..]));
      written := written + words[i];
      i := i + 1;
    }
  }
}
