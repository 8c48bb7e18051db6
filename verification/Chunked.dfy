/**
 The chunked body decoder of the WFP HTTP sample against the chunked transfer coding of section 7.1 of RFC 9112.
 Bytes are written as characters. A chunk extension is any text without CRLF that begins with a semicolon, of which the
 extensions of the RFC are some; the white space the RFC allows before that semicolon is kept apart.
 */
module Chunked {
  import opened Options

  const MAXIMUM_BODY: nat := 2 * 1024 * 1024
  const WORD: nat := 0x1_0000_0000_0000_0000

  type Text = seq<char>

  // ---------------------------------------------------------------------------------------------------------
  // The grammar
  // ---------------------------------------------------------------------------------------------------------

  predicate IsHex(c: char) { '0' <= c <= '9' || 'a' <= c <= 'f' || 'A' <= c <= 'F' }

  function DigitValue(c: char): (v: nat)
    requires IsHex(c)
  {
    if c <= '9' then c as nat - '0' as nat else if c <= 'F' then c as nat - 'A' as nat + 10 else c as nat - 'a' as nat + 10
  }

  predicate AllHex(s: Text) { forall i | 0 <= i < |s| :: IsHex(s[i]) }

  function HexValue(s: Text): (v: nat)
    requires AllHex(s)
  {
    if s == [] then 0 else HexValue(s[..|s| - 1]) * 16 + DigitValue(s[|s| - 1])
  }

  // A chunk as it is spelled: its size, white space before an extension, the extension with its leading semicolon or
  // nothing, and its data.
  datatype Chunk = Chunk(digits: Text, space: Text, extension: Text, data: Text)

  predicate Blank(c: char) { c == ' ' || c == '\t' }

  predicate AllBlank(s: Text) { forall i | 0 <= i < |s| :: Blank(s[i]) }

  predicate CrlfAt(text: Text, i: nat) { i + 1 < |text| && text[i] == '\r' && text[i + 1] == '\n' }

  predicate NoCrlf(text: Text) { forall i | 0 <= i < |text| :: !CrlfAt(text, i) }

  predicate LineOk(c: Chunk)
  {
    && c.digits != [] && AllHex(c.digits) && HexValue(c.digits) == |c.data| < WORD
    && AllBlank(c.space) && (c.extension == [] ==> c.space == [])
    && (c.extension == [] || c.extension[0] == ';') && NoCrlf(c.extension)
  }

  predicate ChunksOk(chunks: seq<Chunk>) { forall i | 0 <= i < |chunks| :: LineOk(chunks[i]) && chunks[i].data != [] }

  predicate LastOk(last: Chunk) { LineOk(last) && last.data == [] }

  function Line(c: Chunk): (t: Text) { c.digits + c.space + c.extension + "\r\n" }

  function Wire(chunks: seq<Chunk>): (t: Text)
  {
    if chunks == [] then [] else Line(chunks[0]) + chunks[0].data + "\r\n" + Wire(chunks[1..])
  }

  function Data(chunks: seq<Chunk>): (d: Text)
  {
    if chunks == [] then [] else chunks[0].data + Data(chunks[1..])
  }

  /** `text` is a chunked body up to its zero-size line, followed by `rest`. */
  predicate IsBody(text: Text, chunks: seq<Chunk>, last: Chunk, rest: Text)
  {
    ChunksOk(chunks) && LastOk(last) && text == Wire(chunks) + Line(last) + rest
  }

  // No size line has white space before its extension.
  predicate Spaceless(chunks: seq<Chunk>, last: Chunk)
  {
    last.space == [] && forall i | 0 <= i < |chunks| :: chunks[i].space == []
  }

  /** `body` is the data of such a body without white space at the front of `text`, and within the limit. */
  ghost predicate Decodes(text: Text, body: Text)
  {
    exists chunks, last, rest ::
      IsBody(text, chunks, last, rest) && Spaceless(chunks, last) && body == Data(chunks) && |body| <= 2 * 1024 * 1024
  }

  // ---------------------------------------------------------------------------------------------------------
  // Reading one size line
  // ---------------------------------------------------------------------------------------------------------

  function LineEnd(text: Text): (r: Option<nat>)
    ensures r.Some? ==> CrlfAt(text, r.value) && forall j: nat | j < r.value :: !CrlfAt(text, j)
    ensures r.None? ==> forall j: nat :: !CrlfAt(text, j)
  {
    if |text| < 2 then None
    else if text[0] == '\r' && text[1] == '\n' then Some(0)
    else
      var r := LineEnd(text[1..]);
      assert forall j: nat | j > 0 :: CrlfAt(text, j) == CrlfAt(text[1..], j - 1);
      if r.None? then None else Some(r.value + 1)
  }

  // The position of the first semicolon, or the length.
  function Cut(line: Text): (n: nat)
    ensures n <= |line| && (n < |line| ==> line[n] == ';') && forall i | 0 <= i < n :: line[i] != ';'
  {
    if line == [] || line[0] == ';' then 0 else 1 + Cut(line[1..])
  }

  // std::from_chars in base 16 consuming everything.
  function ChunkSize(s: Text): (r: Option<nat>)
  {
    if s != [] && AllHex(s) && HexValue(s) < WORD then Some(HexValue(s)) else None
  }

  // The size line at the front of `text`: its spelling, its size and what follows.
  datatype SizeLine = NoLine | SizeLine(digits: Text, extension: Text, size: nat, rest: Text)

  function ReadLine(text: Text): (r: SizeLine)
  {
    var end := LineEnd(text);
    if end.None? then NoLine
    else
      var line := text[..end.value];
      var digits := line[..Cut(line)];
      var size := ChunkSize(digits);
      if size.None? then NoLine else SizeLine(digits, line[Cut(line)..], size.value, text[end.value + 2..])
  }

  lemma SpelledEnd(c: Chunk, rest: Text)
    requires LineOk(c)
    ensures var n := |c.digits + c.space + c.extension|;
            && LineEnd(Line(c) + rest) == Some(n)
            && (Line(c) + rest)[..n] == c.digits + c.space + c.extension && (Line(c) + rest)[n + 2..] == rest
  {
    hide LineOk;
    var text := Line(c) + rest;
    var n := |c.digits + c.space + c.extension|;
    assert CrlfAt(text, n);
    forall j: nat | j < n ensures !CrlfAt(text, j) {
      FirstCrlf(c, rest, j);
    }
  }

  /** A size line without white space is read exactly as it was spelled. */
  lemma ReadSpelled(c: Chunk, rest: Text)
    requires LineOk(c) && c.space == []
    ensures ReadLine(Line(c) + rest) == SizeLine(c.digits, c.extension, |c.data|, rest)
  {
    hide HexValue, LineEnd, Line, Cut;
    SpelledEnd(c, rest);
    var line := c.digits + c.space + c.extension;
    assert line == c.digits + c.extension;
    assert forall i | 0 <= i < |c.digits| :: IsHex(c.digits[i]) && c.digits[i] != ';';
    CutSpelled(c.digits, c.extension);
    assert line[..|c.digits|] == c.digits && line[|c.digits|..] == c.extension;
  }

  /** A size line with white space before its extension is not read at all: the white space is taken for digits. */
  lemma SpacedIsUnread(c: Chunk, rest: Text)
    requires LineOk(c) && c.space != []
    ensures ReadLine(Line(c) + rest).NoLine?
  {
    hide HexValue, LineEnd, Line, Cut;
    SpelledEnd(c, rest);
    var front := c.digits + c.space;
    forall i | 0 <= i < |front| ensures front[i] != ';' {
      assert if i < |c.digits| then IsHex(front[i]) else Blank(front[i]);
    }
    CutSpelled(front, c.extension);
    assert (front + c.extension)[..|front|] == front;
    assert Blank(front[|c.digits|]) && !AllHex(front);
  }

  lemma FirstCrlf(c: Chunk, rest: Text, j: nat)
    requires LineOk(c) && j < |c.digits + c.space + c.extension|
    ensures !CrlfAt(Line(c) + rest, j)
  {
    hide HexValue;
    var text := Line(c) + rest;
    var front := c.digits + c.space;
    if j < |c.digits| {
      assert IsHex(text[j]);
    } else if j < |front| {
      assert text[j] == c.space[j - |c.digits|] && Blank(text[j]);
    } else if j + 1 < |front + c.extension| {
      assert !CrlfAt(c.extension, j - |front|);
      assert text[j] == c.extension[j - |front|] && text[j + 1] == c.extension[j - |front| + 1];
    } else {
      assert text[j + 1] == '\r';
    }
  }

  lemma CutSpelled(front: Text, extension: Text)
    requires (forall i | 0 <= i < |front| :: front[i] != ';') && (extension == [] || extension[0] == ';')
    ensures Cut(front + extension) == |front|
  {
    hide Cut;
    var line := front + extension;
    assert forall i | 0 <= i < |front| :: line[i] == front[i];
    assert extension != [] ==> line[|front|] == ';';
  }

  /** Whatever is read as a size line has the form of one. */
  lemma ReadIsSpelled(text: Text, data: Text)
    requires ReadLine(text).SizeLine? && |data| == ReadLine(text).size
    ensures var r := ReadLine(text);
            LineOk(Chunk(r.digits, [], r.extension, data)) && text == Line(Chunk(r.digits, [], r.extension, data)) + r.rest
  {
    hide HexValue;
    var r := ReadLine(text);
    var n := LineEnd(text).value;
    var line := text[..n];
    assert line == r.digits + r.extension;
    assert text == line + "\r\n" + text[n + 2..];
    forall i | 0 <= i < |r.extension| ensures !CrlfAt(r.extension, i) {
      assert !CrlfAt(text, |r.digits| + i);
    }
  }

  // ---------------------------------------------------------------------------------------------------------
  // The decoder as a recursion over the text
  // ---------------------------------------------------------------------------------------------------------

  datatype Body = Invalid | Body(chunks: seq<Chunk>, last: Chunk, rest: Text)

  // The data of the chunk whose size line was just read fits and is followed by CRLF.
  predicate DataFollows(rest: Text, size: nat, room: nat)
  {
    size <= room && size <= |rest| && |rest| - size >= 2 && rest[size] == '\r' && rest[size + 1] == '\n'
  }

  // What follows a size line: the data, CRLF and the rest of the text.
  function Following(data: Text, tail: Text): (t: Text) { data + "\r\n" + tail }

  function Prepend(c: Chunk, r: Body): (r': Body)
  {
    if r.Invalid? then Invalid else r.(chunks := [c] + r.chunks)
  }

  function Parse(text: Text, room: nat): (r: Body)
    decreases |text|
  {
    var line := ReadLine(text);
    if line.NoLine? then Invalid
    else if line.size == 0 then Body([], Chunk(line.digits, [], line.extension, []), line.rest)
    else if !DataFollows(line.rest, line.size, room) then Invalid
    else
      Shorter(text);
      Prepend(Chunk(line.digits, [], line.extension, line.rest[..line.size]),
              Parse(line.rest[line.size + 2..], room - line.size))
  }

  lemma Shorter(text: Text)
    requires ReadLine(text).SizeLine?
    ensures |ReadLine(text).rest| < |text|
  {
  }

  lemma FollowingParts(data: Text, tail: Text, room: nat)
    requires |data| <= room
    ensures var t := Following(data, tail);
            DataFollows(t, |data|, room) && t[..|data|] == data && t[|data| + 2..] == tail
  {
  }

  lemma FollowingWhole(rest: Text, size: nat, room: nat)
    requires DataFollows(rest, size, room)
    ensures rest == Following(rest[..size], rest[size + 2..])
  {
  }

  lemma ParseCons(c: Chunk, tail: Text, room: nat)
    requires LineOk(c) && c.space == [] && 0 < |c.data| <= room
    ensures Parse(Line(c) + Following(c.data, tail), room) == Prepend(c, Parse(tail, room - |c.data|))
  {
    hide LineOk, Line, Following, ReadLine, DataFollows, Prepend;
    ReadSpelled(c, Following(c.data, tail));
    FollowingParts(c.data, tail, room);
  }

  // The first chunk of a body apart from the rest of it.
  lemma BodyParts(text: Text, chunks: seq<Chunk>, last: Chunk, rest: Text)
    requires IsBody(text, chunks, last, rest) && chunks != []
    ensures var tail := Wire(chunks[1..]) + Line(last) + rest;
            text == Line(chunks[0]) + Following(chunks[0].data, tail) && IsBody(tail, chunks[1..], last, rest)
  {
    hide LineOk, Line;
    Regroup(Line(chunks[0]), chunks[0].data, "\r\n", Wire(chunks[1..]), Line(last), rest);
  }

  lemma Regroup(a: Text, b: Text, c: Text, d: Text, e: Text, f: Text)
    ensures a + b + c + d + e + f == a + (b + c + (d + e + f))
  {
  }

  lemma BodyCons(c: Chunk, tail: Text, chunks: seq<Chunk>, last: Chunk, rest: Text)
    requires LineOk(c) && c.data != [] && IsBody(tail, chunks, last, rest)
    ensures IsBody(Line(c) + Following(c.data, tail), [c] + chunks, last, rest)
  {
    hide LineOk, Line;
    assert ([c] + chunks)[1..] == chunks;
    Regroup(Line(c), c.data, "\r\n", Wire(chunks), Line(last), rest);
  }

  lemma DataCons(c: Chunk, chunks: seq<Chunk>)
    ensures Data([c] + chunks) == c.data + Data(chunks)
  {
    assert ([c] + chunks)[1..] == chunks;
  }

  /** Every chunked body without white space and within the limit is decoded to its chunks, whatever follows it. */
  lemma {:induction false} ParseComplete(text: Text, room: nat, chunks: seq<Chunk>, last: Chunk, rest: Text)
    requires IsBody(text, chunks, last, rest) && Spaceless(chunks, last) && |Data(chunks)| <= room
    ensures Parse(text, room) == Body(chunks, last, rest)
    decreases |chunks|
  {
    hide LineOk, Line, Following, ReadLine, DataFollows;
    if chunks == [] {
      assert text == Line(last) + rest;
      ReadSpelled(last, rest);
      EmptyData(last);
    } else {
      hide Parse, IsBody, Wire, Data;
      var c := chunks[0];
      assert chunks == [c] + chunks[1..];
      DataCons(c, chunks[1..]);
      BodyParts(text, chunks, last, rest);
      var tail := Wire(chunks[1..]) + Line(last) + rest;
      assert LineOk(c) && c.data != [] by { FirstOk(text, chunks, last, rest); }
      ParseComplete(tail, room - |c.data|, chunks[1..], last, rest);
      ParseCons(c, tail, room);
    }
  }

  lemma EmptyData(last: Chunk)
    requires last.data == [] && last.space == []
    ensures Chunk(last.digits, [], last.extension, []) == last
  {
  }

  lemma FirstOk(text: Text, chunks: seq<Chunk>, last: Chunk, rest: Text)
    requires IsBody(text, chunks, last, rest) && chunks != []
    ensures LineOk(chunks[0]) && chunks[0].data != []
  {
  }

  /** Everything that is decoded is a chunked body within the limit. */
  lemma {:induction false} ParseSound(text: Text, room: nat)
    requires Parse(text, room).Body?
    ensures var r := Parse(text, room);
            IsBody(text, r.chunks, r.last, r.rest) && Spaceless(r.chunks, r.last) && |Data(r.chunks)| <= room
    decreases |text|
  {
    hide LineOk, Line, ReadLine, Following;
    var line := ReadLine(text);
    if line.size == 0 {
      ReadIsSpelled(text, []);
    } else {
      hide IsBody, Wire, Data;
      Shorter(text);
      var c := Chunk(line.digits, [], line.extension, line.rest[..line.size]);
      var tail := line.rest[line.size + 2..];
      ReadIsSpelled(text, c.data);
      FollowingWhole(line.rest, line.size, room);
      ParseSound(tail, room - line.size);
      var r := Parse(tail, room - line.size);
      BodyCons(c, tail, r.chunks, r.last, r.rest);
      DataCons(c, r.chunks);
    }
  }

  /** A body with white space before some extension is rejected. */
  lemma {:induction false} ParseRejects(text: Text, room: nat, chunks: seq<Chunk>, last: Chunk, rest: Text)
    requires IsBody(text, chunks, last, rest) && !Spaceless(chunks, last)
    ensures Parse(text, room).Invalid?
    decreases |chunks|
  {
    hide LineOk, Line, Following, ReadLine, DataFollows;
    if chunks == [] {
      assert text == Line(last) + rest;
      SpacedIsUnread(last, rest);
    } else {
      var c := chunks[0];
      BodyParts(text, chunks, last, rest);
      FirstOk(text, chunks, last, rest);
      var tail := Wire(chunks[1..]) + Line(last) + rest;
      hide Wire, IsBody;
      if c.space != [] {
        SpacedIsUnread(c, Following(c.data, tail));
      } else {
        assert !Spaceless(chunks[1..], last) by { SpaceBehind(chunks, last); }
        if |c.data| <= room {
          ParseRejects(tail, room - |c.data|, chunks[1..], last, rest);
          ParseCons(c, tail, room);
        } else {
          ReadSpelled(c, Following(c.data, tail));
          TooLong(Following(c.data, tail), |c.data|, room);
        }
      }
    }
  }

  lemma SpaceBehind(chunks: seq<Chunk>, last: Chunk)
    requires chunks != [] && chunks[0].space == [] && !Spaceless(chunks, last)
    ensures !Spaceless(chunks[1..], last)
  {
    if last.space == [] {
      var i :| 0 <= i < |chunks| && chunks[i].space != [];
      assert chunks[1..][i - 1] == chunks[i];
    }
  }

  lemma TooLong(rest: Text, size: nat, room: nat)
    requires size > room
    ensures !DataFollows(rest, size, room)
  {
  }

  // ---------------------------------------------------------------------------------------------------------
  // The decoder
  // ---------------------------------------------------------------------------------------------------------

  // std::string_view::find for CRLF.
  method FindCrlf(text: Text, position: nat) returns (end: Option<nat>)
    requires position <= |text|
    ensures end.Some? <==> LineEnd(text[position..]).Some?
    ensures end.Some? ==> end.value == position + LineEnd(text[position..]).value
  {
    var i := position;
    while i + 1 < |text|
      invariant position <= i
      invariant forall j: nat | j < i - position :: !CrlfAt(text[position..], j)
    {
      if text[i] == '\r' && text[i + 1] == '\n' {
        assert CrlfAt(text[position..], i - position);
        return Some(i);
      }
      assert !CrlfAt(text[position..], i - position);
      i := i + 1;
    }
    return None;
  }

  // std::string_view::find for a semicolon.
  method FindSemicolon(line: Text) returns (n: nat)
    ensures n == Cut(line)
  {
    n := 0;
    while n < |line| && line[n] != ';'
      invariant n <= |line| && forall i | 0 <= i < n :: line[i] != ';'
    {
      n := n + 1;
    }
  }

  // The data of what `r` decodes to, behind what was decoded before.
  function Behind(decoded: Text, r: Body): (d: Option<Text>)
  {
    if r.Invalid? then None else Some(decoded + Data(r.chunks))
  }

  // One chunk read at the front of `suffix` moves to what was decoded before.
  lemma DecodeStep(decoded: Text, suffix: Text, room: nat, size: nat)
    requires var line := ReadLine(suffix); line.SizeLine? && line.size == size > 0 && DataFollows(line.rest, size, room)
    ensures var line := ReadLine(suffix);
            Behind(decoded, Parse(suffix, room)) == Behind(decoded + line.rest[..size], Parse(line.rest[size + 2..], room - size))
  {
    hide ReadLine, Data;
    var line := ReadLine(suffix);
    Shorter(suffix);
    BehindStep(decoded, Chunk(line.digits, [], line.extension, line.rest[..size]), Parse(line.rest[size + 2..], room - size));
  }

  // The outcomes that end the loop.
  lemma DecodeEnd(decoded: Text, suffix: Text, room: nat)
    ensures var line := ReadLine(suffix);
            && (line.NoLine? ==> Behind(decoded, Parse(suffix, room)) == None)
            && (line.SizeLine? && line.size == 0 ==> Behind(decoded, Parse(suffix, room)) == Some(decoded))
            && (line.SizeLine? && line.size > 0 && !DataFollows(line.rest, line.size, room) ==>
                  Behind(decoded, Parse(suffix, room)) == None)
  {
    hide ReadLine;
    assert decoded + Data([]) == decoded;
  }

  // The size line at `position`: its size and where it ends.
  method ReadSize(text: Text, position: nat) returns (size: Option<nat>, next: nat)
    requires position <= |text|
    ensures var line := ReadLine(text[position..]);
            && (size.None? <==> line.NoLine?)
            && (size.Some? ==> size.value == line.size && position < next <= |text| && text[next..] == line.rest)
  {
    hide LineEnd, Cut, ChunkSize;
    ghost var suffix := text[position..];
    next := position;
    var lineEnd := FindCrlf(text, position);
    if lineEnd.None? {
      return None, position;
    }
    var sizeText := text[position..lineEnd.value];
    assert sizeText == suffix[..lineEnd.value - position];
    var extension := FindSemicolon(sizeText);
    sizeText := sizeText[..extension];
    size := ChunkSize(sizeText);
    next := lineEnd.value + 2;
    assert text[next..] == suffix[lineEnd.value - position + 2..];
  }

  /** decode_chunked_body, with no result where the source throws: the data of the chunked body that `text` begins with. */
  method Decode(text: Text) returns (r: Option<Text>)
    ensures forall body: Text :: r == Some(body) <==> Decodes(text, body)
  {
    hide ReadLine, Parse, Behind, Decodes;
    forall body: Text ensures Behind([], Parse(text, MAXIMUM_BODY)) == Some(body) <==> Decodes(text, body) {
      DecodesExactly(text, body);
    }
    var decoded := [];
    var position := 0;
    assert text[0..] == text;
    while true
      invariant position <= |text| && |decoded| <= MAXIMUM_BODY
      invariant Behind([], Parse(text, MAXIMUM_BODY)) == Behind(decoded, Parse(text[position..], MAXIMUM_BODY - |decoded|))
      decreases |text| - position
    {
      ghost var suffix, room := text[position..], MAXIMUM_BODY - |decoded|;
      DecodeEnd(decoded, suffix, room);
      var size, next := ReadSize(text, position);
      if size.None? {
        return None;
      }
      position := next;
      if size.value == 0 {
        return Some(decoded);
      }
      if size.value > MAXIMUM_BODY - |decoded| || size.value > |text| - position || |text| - position - size.value < 2
         || text[position + size.value] != '\r' || text[position + size.value + 1] != '\n' {
        return None;
      }
      DecodeStep(decoded, suffix, room, size.value);
      ghost var rest := text[position..];
      assert rest[..size.value] == text[position..position + size.value];
      assert rest[size.value + 2..] == text[position + size.value + 2..];
      decoded := decoded + text[position..position + size.value];
      position := position + size.value + 2;
    }
  }

  lemma BehindStep(decoded: Text, c: Chunk, r: Body)
    ensures Behind(decoded, Prepend(c, r)) == Behind(decoded + c.data, r)
  {
    if r.Body? {
      assert ([c] + r.chunks)[1..] == r.chunks;
      assert decoded + (c.data + Data(r.chunks)) == decoded + c.data + Data(r.chunks);
    }
  }

  /** The decoder accepts exactly the chunked bodies within the limit, and returns their data. */
  lemma DecodesExactly(text: Text, body: Text)
    ensures Behind([], Parse(text, MAXIMUM_BODY)) == Some(body) <==> Decodes(text, body)
  {
    hide Parse, IsBody;
    var r := Parse(text, MAXIMUM_BODY);
    if r.Body? {
      ParseSound(text, MAXIMUM_BODY);
      assert [] + Data(r.chunks) == Data(r.chunks);
    }
    if chunks, last, rest :|
      IsBody(text, chunks, last, rest) && Spaceless(chunks, last) && body == Data(chunks) && |body| <= MAXIMUM_BODY {
      ParseComplete(text, MAXIMUM_BODY, chunks, last, rest);
      assert [] + body == body;
    }
  }

  /**
   Every body of the form the RFC gives it, within the limit, is decoded to its data exactly when no white space stands
   before an extension, and is otherwise rejected.
   */
  lemma DecodedUnlessSpaced(text: Text, chunks: seq<Chunk>, last: Chunk, rest: Text)
    requires IsBody(text, chunks, last, rest) && |Data(chunks)| <= 2 * 1024 * 1024
    ensures Behind([], Parse(text, MAXIMUM_BODY)) == if Spaceless(chunks, last) then Some(Data(chunks)) else None
  {
    hide Parse, IsBody, Spaceless;
    if Spaceless(chunks, last) {
      ParseComplete(text, MAXIMUM_BODY, chunks, last, rest);
      assert [] + Data(chunks) == Data(chunks);
    } else {
      ParseRejects(text, MAXIMUM_BODY, chunks, last, rest);
    }
  }

  /** One chunk with a space before its extension, which the RFC allows. */
  lemma SpacedBodyIsRejected()
    ensures var text := "1 ;x\r\na\r\n0\r\n\r\n";
            && IsBody(text, [Chunk("1", " ", ";x", "a")], Chunk("0", "", "", ""), "\r\n")
            && Behind([], Parse(text, MAXIMUM_BODY)) == None
  {
    var text := "1 ;x\r\na\r\n0\r\n\r\n";
    var c, last := Chunk("1", " ", ";x", "a"), Chunk("0", "", "", "");
    assert "1"[..0] == [] && "0"[..0] == [];
    assert HexValue("1") == 1 && HexValue("0") == 0;
    assert LineOk(c) && LineOk(last);
    assert [c][1..] == [];
    assert Wire([c]) == "1 ;x\r\na\r\n" && Line(last) == "0\r\n";
    assert text == Wire([c]) + Line(last) + "\r\n";
    hide Parse, Wire, Line, LineOk;
    ParseRejects(text, MAXIMUM_BODY, [c], last, "\r\n");
  }

  // ---------------------------------------------------------------------------------------------------------
  // Sizes as numbers
  // ---------------------------------------------------------------------------------------------------------

  // A number in base 16 with capital or small letters.
  function Print(n: nat, capital: bool): (s: Text)
  {
    var digit := (if capital then "0123456789ABCDEF" else "0123456789abcdef")[n % 16];
    if n < 16 then [digit] else Print(n / 16, capital) + [digit]
  }

  lemma DigitRead(d: nat)
    requires d < 16
    ensures IsHex("0123456789ABCDEF"[d]) && DigitValue("0123456789ABCDEF"[d]) == d
    ensures IsHex("0123456789abcdef"[d]) && DigitValue("0123456789abcdef"[d]) == d
  {
  }

  /** The size of a chunk is the number that its digits are the printed form of, in either case of letters. */
  lemma {:induction false} HexInvertsPrint(n: nat, capital: bool)
    ensures Print(n, capital) != [] && AllHex(Print(n, capital)) && HexValue(Print(n, capital)) == n
  {
    hide DigitValue, IsHex;
    DigitRead(n % 16);
    var digit := (if capital then "0123456789ABCDEF" else "0123456789abcdef")[n % 16];
    if n < 16 {
      assert [digit][..0] == [];
    } else {
      HexInvertsPrint(n / 16, capital);
      var s := Print(n / 16, capital);
      assert (s + [digit])[..|s + [digit]| - 1] == s;
    }
  }

  /** Leading zeros do not change it, so every spelling of a size stands for one number. */
  lemma {:induction false} LeadingZero(s: Text)
    requires AllHex(s)
    ensures AllHex("0" + s) && HexValue("0" + s) == HexValue(s)
    decreases |s|
  {
    if s == [] {
      assert "0" + s == "0" && "0"[..0] == [];
    } else {
      var n := |s| - 1;
      LeadingZero(s[..n]);
      assert ("0" + s)[..|s|] == "0" + s[..n] && ("0" + s)[|s|] == s[n];
    }
  }
}
