/** eval/crazeeval/capture.py, `SSEParser` from the sender's side: what is written as events is
    what the parser keeps. */
module SseWire {
  import opened Common
  import opened ByteStrings
  import opened SseFraming
  import opened SseParsing

  // ---- writing -------------------------------------------------------------

  /** A line of an event: data, behind the colon and perhaps a space, or something else. */
  datatype Field = DataField(spaced: bool, text: Bytes) | OtherField(text: Bytes)

  type Message = seq<Field>

  predicate Unbroken(b: Bytes) { '\n' !in b && '\r' !in b }

  predicate GoodField(f: Field) {
    && Unbroken(f.text)
    && (f.DataField? && !f.spaced ==> f.text == [] || f.text[0] != ' ')
    && (f.OtherField? ==> f.text != [] && !("data:" <= f.text))
  }

  predicate Good(m: Message) { m != [] && forall i :: 0 <= i < |m| ==> GoodField(m[i]) }

  predicate AllGood(ms: seq<Message>) { forall i :: 0 <= i < |ms| ==> Good(ms[i]) }

  predicate LineFeed(eol: Bytes) { eol == "\n" || eol == "\r\n" }

  function FieldBytes(f: Field): (b: Bytes)
    ensures GoodField(f) ==> b != [] && Unbroken(b)
  {
    match f
    case DataField(spaced, text) => (if spaced then "data: " else "data:") + text
    case OtherField(text) => text
  }

  /** A message's lines, a line end between each two. */
  function Lines(m: Message, eol: Bytes): Bytes {
    if m == [] then []
    else if |m| == 1 then FieldBytes(m[0])
    else FieldBytes(m[0]) + eol + Lines(m[1..], eol)
  }

  /** Messages on the wire: each one's lines, and an empty line. */
  function Stream(ms: seq<Message>, eol: Bytes): Bytes {
    if ms == [] then []
    else Stream(ms[..|ms| - 1], eol) + (Lines(ms[|ms| - 1], eol) + eol + eol)
  }

  /** The texts of a message's data lines. */
  function Texts(m: Message): seq<Bytes> {
    if m == [] then [] else (if m[0].DataField? then [m[0].text] else []) + Texts(m[1..])
  }

  /** They are one text, a line feed between each two. */
  function Joined(texts: seq<Bytes>): Bytes {
    if texts == [] then []
    else if |texts| == 1 then texts[0]
    else texts[0] + "\n" + Joined(texts[1..])
  }

  predicate Blank(s: string) { forall i :: 0 <= i < |s| ==> TextSpace(s[i]) }

  /** `[DONE]`, whatever white space is around it. */
  ghost predicate IsMark(s: string) { exists a, b :: s == a + "[DONE]" + b && Blank(a) && Blank(b) }

  /** What a message is to the parser. */
  ghost predicate Marks(m: Message) { Texts(m) != [] && IsMark(Joined(Texts(m))) }

  ghost predicate Carries(m: Message) { Texts(m) != [] && !IsMark(Joined(Texts(m))) }

  /** What should be kept: the messages' texts, parsed, in order. */
  ghost function Kept(c: Codec, ms: seq<Message>): seq<Event> {
    if ms == [] then []
    else
      var m := ms[|ms| - 1];
      Kept(c, ms[..|ms| - 1]) + (if Carries(m) then [c.parse(Joined(Texts(m)))] else [])
  }

  ghost function Size(ms: seq<Message>): nat {
    if ms == [] then 0
    else Size(ms[..|ms| - 1]) + (if Carries(ms[|ms| - 1]) then |Joined(Texts(ms[|ms| - 1]))| else 0)
  }

  /** The bytes are the text they decode to. */
  ghost predicate Decodes(c: Codec, ms: seq<Message>) {
    forall i :: 0 <= i < |ms| ==> c.decode(Joined(Texts(ms[i]))) == Joined(Texts(ms[i]))
  }

  /** No limit is reached: of bytes in an event, of events, of bytes kept. */
  ghost predicate Room(l: Limits, c: Codec, ms: seq<Message>, eol: Bytes) {
    && l.event >= 3 && (forall i :: 0 <= i < |ms| ==> |Lines(ms[i], eol)| + 3 <= l.event)
    && |Kept(c, ms)| <= l.events && Size(ms) <= l.stored
  }

  // ---- one message's frame -------------------------------------------------

  /** No separator starts in a line or at its end, when a line follows. */
  lemma NoSepBeforeLine(b: Bytes, eol: Bytes, more: Bytes)
    requires Unbroken(b) && LineFeed(eol) && more != [] && more[0] != '\n' && more[0] != '\r'
    ensures forall i :: 0 <= i < |b + eol| ==> SepLen((b + eol) + more, i) == 0
  {
    var s := (b + eol) + more;
    forall i | 0 <= i < |b + eol| ensures SepLen(s, i) == 0 {
      if i < |b| {
        assert s[i] == b[i];
      } else {
        assert s[i] == eol[i - |b|] && s[|b + eol|] == more[0];
        assert eol == "\r\n" ==> s[|b| + 1] == eol[1];
      }
    }
  }

  lemma SepAfterLine(b: Bytes, eol: Bytes)
    requires Unbroken(b) && LineFeed(eol)
    ensures Search(b + eol + eol, 0) == Some(|b|) && SepLen(b + eol + eol, |b|) == 2 * |eol|
  {
    var s := b + eol + eol;
    assert s == b + (eol + eol);
    SepLenShift(b, eol + eol, 0);
    assert SepLen(eol + eol, 0) == 2 * |eol| by {
      assert eol + eol == "\n\n" || eol + eol == "\r\n\r\n";
    }
    forall i | 0 <= i < |b| ensures SepLen(s, i) == 0 {
      assert s[i] == b[i];
    }
    SearchIs(s, Some(|b|));
  }

  lemma LinesStart(m: Message, eol: Bytes)
    requires Good(m)
    ensures Lines(m, eol) != [] && Lines(m, eol)[0] == FieldBytes(m[0])[0]
    ensures Lines(m, eol)[0] != '\n' && Lines(m, eol)[0] != '\r'
  {
    assert GoodField(m[0]) && FieldBytes(m[0])[0] in FieldBytes(m[0]);
  }

  /** A line before it only moves the first separator of what follows. */
  lemma SearchBehindLine(b: Bytes, eol: Bytes, more: Bytes, i: nat, n: nat)
    requires Unbroken(b) && LineFeed(eol) && more != [] && more[0] != '\n' && more[0] != '\r'
    requires Search(more, 0) == Some(i) && SepLen(more, i) == n
    ensures Search((b + eol) + more, 0) == Some(|b + eol| + i) && SepLen((b + eol) + more, |b + eol| + i) == n
  {
    NoSepBeforeLine(b, eol, more);
    SearchSuffix(b + eol, more);
    SepLenShift(b + eol, more, i);
  }

  /** The first separator of a message's lines and the empty line is the empty line. */
  ghost predicate Ends(raw: Bytes, eol: Bytes) {
    Search(raw + eol + eol, 0) == Some(|raw|) && SepLen(raw + eol + eol, |raw|) == 2 * |eol|
  }

  lemma EndsBehind(b: Bytes, eol: Bytes, raw: Bytes)
    requires Unbroken(b) && LineFeed(eol) && raw != [] && raw[0] != '\n' && raw[0] != '\r' && Ends(raw, eol)
    ensures Ends(b + eol + raw, eol)
  {
    SearchBehindLine(b, eol, raw + eol + eol, |raw|, 2 * |eol|);
    assert (b + eol) + (raw + eol + eol) == (b + eol + raw) + eol + eol;
  }

  lemma {:induction false} LinesEnd(m: Message, eol: Bytes)
    requires Good(m) && LineFeed(eol)
    ensures Ends(Lines(m, eol), eol)
    decreases |m|
  {
    assert GoodField(m[0]);
    if |m| == 1 {
      SepAfterLine(FieldBytes(m[0]), eol);
    } else {
      LinesEnd(m[1..], eol);
      LinesStart(m[1..], eol);
      EndsBehind(FieldBytes(m[0]), eol, Lines(m[1..], eol));
    }
  }

  lemma OneFrame(m: Message, eol: Bytes)
    requires Good(m) && LineFeed(eol)
    ensures var s := Lines(m, eol) + eol + eol; Frames(s) == [Lines(m, eol)] && Rest(s) == []
    ensures Search(Lines(m, eol), 0).None?
  {
    var raw := Lines(m, eol);
    LinesEnd(m, eol);
    CutOff(raw, eol);
    assert raw + eol + eol == raw + (eol + eol);
    NoSepWithin(raw, eol + eol);
  }

  lemma CutOff(raw: Bytes, eol: Bytes)
    requires Ends(raw, eol)
    ensures var s := raw + eol + eol; Frames(s) == [raw] && Rest(s) == []
  {
    var s := raw + eol + eol;
    FirstFrame(s);
    assert AfterSep(s) == [] && s[..|raw|] == raw;
    assert Search([], 0).None?;
  }

  lemma NoSepWithin(raw: Bytes, more: Bytes)
    requires Search(raw + more, 0) == Some(|raw|)
    ensures Search(raw, 0).None?
  {
    forall i | 0 <= i < |raw| ensures SepLen(raw, i) == 0 {
      SepLenConcat(raw, more, i);
    }
    SearchIs(raw, None);
  }

  /** The messages' lines. */
  function Raws(ms: seq<Message>, eol: Bytes): (r: seq<Bytes>)
    ensures |r| == |ms|
  {
    seq(|ms|, i requires 0 <= i < |ms| => Lines(ms[i], eol))
  }

  /** A whole stream and one frame more. */
  lemma FrameBehind(before: Bytes, s: Bytes, frames: seq<Bytes>, rest: Bytes)
    requires Rest(before) == [] && Frames(s) == frames && Rest(s) == rest
    ensures Frames(before + s) == Frames(before) + frames && Rest(before + s) == rest
  {
    FramesConcat(before, s);
    assert [] + s == s;
  }

  lemma RawsSnoc(ms: seq<Message>, m: Message, eol: Bytes)
    ensures Raws(ms + [m], eol) == Raws(ms, eol) + [Lines(m, eol)]
  {
  }

  lemma MessageFrames(before: Bytes, m: Message, eol: Bytes)
    requires Good(m) && LineFeed(eol) && Rest(before) == []
    ensures var s := before + (Lines(m, eol) + eol + eol);
            Frames(s) == Frames(before) + [Lines(m, eol)] && Rest(s) == []
  {
    OneFrame(m, eol);
    FrameBehind(before, Lines(m, eol) + eol + eol, [Lines(m, eol)], []);
  }

  ghost predicate Framed(ms: seq<Message>, eol: Bytes) {
    Frames(Stream(ms, eol)) == Raws(ms, eol) && Rest(Stream(ms, eol)) == []
  }

  lemma OneMoreMessage(ms: seq<Message>, m: Message, eol: Bytes)
    requires Good(m) && LineFeed(eol) && Framed(ms, eol)
    ensures Framed(ms + [m], eol)
  {
    assert (ms + [m])[..|ms|] == ms;
    MessageFrames(Stream(ms, eol), m, eol);
    RawsSnoc(ms, m, eol);
  }

  lemma NothingFramed(eol: Bytes)
    ensures Framed([], eol)
  {
    assert Search([], 0).None?;
  }

  lemma {:induction false} StreamFrames(ms: seq<Message>, eol: Bytes)
    requires AllGood(ms) && LineFeed(eol)
    ensures Framed(ms, eol)
  {
    if ms == [] {
      NothingFramed(eol);
    } else {
      var (init, m) := (ms[..|ms| - 1], ms[|ms| - 1]);
      assert ms == init + [m];
      StreamFrames(init, eol);
      OneMoreMessage(init, m, eol);
    }
  }

  /** A stream and a message without its empty line. */
  lemma CutFrames(ms: seq<Message>, last: Message, eol: Bytes)
    requires AllGood(ms) && Good(last) && LineFeed(eol)
    ensures Frames(Stream(ms, eol) + Lines(last, eol)) == Raws(ms, eol)
    ensures Rest(Stream(ms, eol) + Lines(last, eol)) == Lines(last, eol)
  {
    StreamFrames(ms, eol);
    OneFrame(last, eol);
    FrameBehind(Stream(ms, eol), Lines(last, eol), [], Lines(last, eol));
    assert Raws(ms, eol) + [] == Raws(ms, eol);
  }

  // ---- one message's text --------------------------------------------------

  lemma {:induction false} SplitUnbroken(b: Bytes, at: nat)
    requires at <= |b| && b != [] && Unbroken(b)
    ensures SplitFrom(b, at) == [b]
    decreases |b| - at
  {
    if at < |b| {
      assert b[at] in b;
      SplitUnbroken(b, at + 1);
    }
  }

  lemma {:induction false} SplitFirst(b: Bytes, eol: Bytes, more: Bytes, at: nat)
    requires at <= |b| && Unbroken(b) && LineFeed(eol)
    ensures SplitFrom(b + eol + more, at) == [b] + SplitFrom(more, 0)
    decreases |b| - at
  {
    var s := b + eol + more;
    if at < |b| {
      assert s[at] == b[at] && b[at] in b;
      SplitFirst(b, eol, more, at + 1);
    } else {
      assert s[at] == eol[0] && s[..at] == b && s[at + |eol|..] == more;
      assert eol == "\r\n" ==> s[at + 1] == eol[1];
    }
  }

  function AllFieldBytes(m: Message): (r: seq<Bytes>)
    ensures |r| == |m|
  {
    seq(|m|, i requires 0 <= i < |m| => FieldBytes(m[i]))
  }

  lemma AllFieldBytesFront(m: Message)
    requires m != []
    ensures AllFieldBytes(m) == [FieldBytes(m[0])] + AllFieldBytes(m[1..])
  {
  }

  lemma {:induction false} SplitMessage(m: Message, eol: Bytes)
    requires Good(m) && LineFeed(eol)
    ensures SplitLines(Lines(m, eol)) == AllFieldBytes(m)
    decreases |m|
  {
    var b := FieldBytes(m[0]);
    assert GoodField(m[0]);
    if |m| == 1 {
      SplitUnbroken(b, 0);
    } else {
      SplitMessage(m[1..], eol);
      SplitFirst(b, eol, Lines(m[1..], eol), 0);
      AllFieldBytesFront(m);
    }
  }

  lemma {:induction false} DataValuesConcat(a: seq<Bytes>, b: seq<Bytes>)
    ensures DataValues(a + b) == DataValues(a) + DataValues(b)
    decreases |b|
  {
    if b == [] {
      assert a + b == a;
    } else {
      var last := if DataLine(b[|b| - 1]) then [DataValue(b[|b| - 1])] else [];
      assert (a + b)[..|a + b| - 1] == a + b[..|b| - 1];
      DataValuesConcat(a, b[..|b| - 1]);
      Assoc(DataValues(a), DataValues(b[..|b| - 1]), last);
    }
  }

  lemma FieldValue(f: Field)
    requires GoodField(f)
    ensures DataLine(FieldBytes(f)) <==> f.DataField?
    ensures f.DataField? ==> DataValue(FieldBytes(f)) == f.text
  {
    var b := FieldBytes(f);
    if f.DataField? {
      assert b[..5] == "data:";
      if f.spaced {
        assert b[5] == ' ' && b[6..] == f.text;
      } else {
        assert b[5..] == f.text;
      }
    }
  }

  lemma {:induction false} MessageValues(m: Message)
    requires forall i :: 0 <= i < |m| ==> GoodField(m[i])
    ensures DataValues(AllFieldBytes(m)) == Texts(m)
  {
    if m != [] {
      var b := FieldBytes(m[0]);
      FieldValue(m[0]);
      MessageValues(m[1..]);
      AllFieldBytesFront(m);
      DataValuesConcat([b], AllFieldBytes(m[1..]));
      assert [b][..0] == [];
      assert DataValues([b]) == if m[0].DataField? then [m[0].text] else [];
    }
  }

  lemma {:induction false} JoinFront(a: Bytes, parts: seq<Bytes>)
    requires parts != []
    ensures Join([a] + parts) == a + "\n" + Join(parts)
    decreases |parts|
  {
    var all := [a] + parts;
    var last := parts[|parts| - 1];
    assert all[..|all| - 1] == [a] + parts[..|parts| - 1];
    if |parts| > 1 {
      JoinFront(a, parts[..|parts| - 1]);
      assert Join(parts) == Join(parts[..|parts| - 1]) + "\n" + last;
    } else {
      assert all[..1] == [a];
    }
  }

  lemma {:induction false} JoinIsJoined(texts: seq<Bytes>)
    ensures Join(texts) == Joined(texts)
  {
    if |texts| > 1 {
      JoinIsJoined(texts[1..]);
      JoinFront(texts[0], texts[1..]);
      assert texts == [texts[0]] + texts[1..];
    }
  }

  // ---- the end mark --------------------------------------------------------

  /** What `strip` leaves has no white space at its ends, and only white space was around it. */
  lemma {:induction false} StripLeftTakes(s: string) returns (a: string)
    ensures Blank(a) && s == a + StripLeft(s, TextSpace)
    decreases |s|
  {
    if s != [] && TextSpace(s[0]) {
      var a' := StripLeftTakes(s[1..]);
      a := [s[0]] + a';
      assert s == [s[0]] + s[1..];
    } else {
      a := [];
    }
  }

  lemma {:induction false} StripTakes(s: string) returns (a: string, b: string)
    ensures Blank(a) && Blank(b) && s == a + Strip(s, TextSpace) + b
    decreases |s|
  {
    if s != [] && TextSpace(s[|s| - 1]) {
      var b';
      a, b' := StripTakes(s[..|s| - 1]);
      b := b' + [s[|s| - 1]];
      assert s == s[..|s| - 1] + [s[|s| - 1]];
    } else {
      a := StripLeftTakes(s);
      b := [];
    }
  }

  lemma {:induction false} StripLeftOf(a: string, m: string)
    requires Blank(a) && m != [] && !TextSpace(m[0])
    ensures StripLeft(a + m, TextSpace) == m
    decreases |a|
  {
    if a == [] {
      assert a + m == m;
    } else {
      assert (a + m)[1..] == a[1..] + m;
      StripLeftOf(a[1..], m);
    }
  }

  lemma {:induction false} StripOf(a: string, m: string, b: string)
    requires Blank(a) && Blank(b) && m != [] && !TextSpace(m[0]) && !TextSpace(m[|m| - 1])
    ensures Strip(a + m + b, TextSpace) == m
    decreases |b|
  {
    if b == [] {
      assert a + m + b == a + m;
      StripLeftOf(a, m);
    } else {
      assert (a + m + b)[..|a + m + b| - 1] == a + m + b[..|b| - 1];
      StripOf(a, m, b[..|b| - 1]);
    }
  }

  lemma MarkIsStripped(s: string)
    ensures IsMark(s) <==> Strip(s, TextSpace) == "[DONE]"
  {
    if IsMark(s) {
      var a, b :| s == a + "[DONE]" + b && Blank(a) && Blank(b);
      StripOf(a, "[DONE]", b);
    }
    var a, b := StripTakes(s);
  }

  // ---- one message taken ---------------------------------------------------

  lemma MessagePayload(c: Codec, m: Message, eol: Bytes)
    requires Good(m) && LineFeed(eol) && c.decode(Joined(Texts(m))) == Joined(Texts(m))
    ensures PayloadOf(c, Lines(m, eol))
         == if Texts(m) == [] then Nothing
            else if IsMark(Joined(Texts(m))) then Done
            else Data(Joined(Texts(m)))
  {
    SplitMessage(m, eol);
    MessageValues(m);
    JoinIsJoined(Texts(m));
    MarkIsStripped(Joined(Texts(m)));
  }

  /** The store that some messages should leave. */
  ghost function Expected(c: Codec, ms: seq<Message>): Store {
    Store(Kept(c, ms), exists i :: 0 <= i < |ms| && Marks(ms[i]), Size(ms), map[], 0, 0)
  }

  lemma MarkedSnoc(ms: seq<Message>, m: Message)
    ensures (exists i :: 0 <= i < |ms + [m]| && Marks((ms + [m])[i]))
       <==> (exists i :: 0 <= i < |ms| && Marks(ms[i])) || Marks(m)
  {
    var all := ms + [m];
    assert all[|ms|] == m && forall i :: 0 <= i < |ms| ==> all[i] == ms[i];
  }

  lemma TakeMessage(l: Limits, c: Codec, ms: seq<Message>, m: Message, eol: Bytes)
    requires Good(m) && LineFeed(eol) && Decodes(c, ms + [m])
    requires |Kept(c, ms + [m])| <= l.events && Size(ms + [m]) <= l.stored
    ensures Take(l, c, Expected(c, ms), Lines(m, eol)) == Expected(c, ms + [m])
  {
    var all := ms + [m];
    assert all[..|ms|] == ms && all[|ms|] == m;
    MessagePayload(c, m, eol);
    MarkedSnoc(ms, m);
  }

  lemma {:induction false} TakeMessages(l: Limits, c: Codec, ms: seq<Message>, eol: Bytes)
    requires AllGood(ms) && LineFeed(eol) && Decodes(c, ms)
    requires |Kept(c, ms)| <= l.events && Size(ms) <= l.stored
    ensures TakeAll(l, c, EmptyStore, Raws(ms, eol)) == Expected(c, ms)
  {
    if ms != [] {
      var (init, m) := (ms[..|ms| - 1], ms[|ms| - 1]);
      TakeMessages(l, c, init, eol);
      assert ms == init + [m];
      TakeMessage(l, c, init, m, eol);
      assert Raws(ms, eol)[..|ms| - 1] == Raws(init, eol);
    }
  }

  // ---- a message without its empty line ------------------------------------

  lemma {:induction false} StripLeftKeeps(s: string, space: char -> bool, i: nat)
    requires i < |s| && !space(s[i])
    ensures StripLeft(s, space) != []
    decreases i
  {
    if space(s[0]) {
      StripLeftKeeps(s[1..], space, i - 1);
    }
  }

  lemma {:induction false} StripKeeps(s: string, space: char -> bool, i: nat)
    requires i < |s| && !space(s[i])
    ensures Strip(s, space) != []
    decreases |s|
  {
    if space(s[|s| - 1]) {
      StripKeeps(s[..|s| - 1], space, i);
    } else {
      StripLeftKeeps(s, space, i);
    }
  }

  /** A message with data is not blank. */
  lemma {:induction false} DataShows(m: Message, eol: Bytes)
    requires Texts(m) != []
    ensures 'd' in Lines(m, eol)
  {
    if m[0].DataField? {
      assert FieldBytes(m[0])[0] == 'd';
      assert Lines(m, eol)[0] == 'd';
    } else {
      DataShows(m[1..], eol);
      assert Lines(m, eol) == FieldBytes(m[0]) + eol + Lines(m[1..], eol);
    }
  }

  lemma CutMessage(l: Limits, c: Codec, ms: seq<Message>, last: Message, eol: Bytes)
    requires Good(last) && LineFeed(eol) && Decodes(c, ms + [last])
    requires |Kept(c, ms + [last])| <= l.events && Size(ms + [last]) <= l.stored
    ensures Closed(l, c, Framing(Lines(last, eol), false), Expected(c, ms)) == Expected(c, ms + [last])
  {
    var raw := Lines(last, eol);
    TakeMessage(l, c, ms, last, eol);
    if Texts(last) != [] {
      DataShows(last, eol);
      var i :| 0 <= i < |raw| && raw[i] == 'd';
      StripKeeps(raw, ByteSpace, i);
    } else {
      assert (ms + [last])[|ms|] == last;
      MessagePayload(c, last, eol);
    }
  }

  // ---- the round trip ------------------------------------------------------

  /** Messages written with either line end, other fields and all, and cut into any chunks, come
      back as their texts, parsed, in order; and the done flag says whether one of them was the
      end mark. */
  lemma WhatIsWrittenIsKept(l: Limits, c: Codec, ms: seq<Message>, eol: Bytes, chunks: seq<Bytes>)
    requires AllGood(ms) && LineFeed(eol) && Decodes(c, ms) && Room(l, c, ms, eol)
    requires Flatten(chunks) == Stream(ms, eol)
    ensures Parsed(l, c, chunks)
         == Store(Kept(c, ms), exists i :: 0 <= i < |ms| && Marks(ms[i]), Size(ms), map[], 0, 0)
  {
    StreamFrames(ms, eol);
    ChunkingDoesNotMatter(l, c, chunks);
    TakeMessages(l, c, ms, eol);
  }

  /** And so they do when the stream ends before the last one's empty line. */
  lemma LastMayBeCut(l: Limits, c: Codec, ms: seq<Message>, last: Message, eol: Bytes, chunks: seq<Bytes>)
    requires AllGood(ms + [last]) && LineFeed(eol) && Decodes(c, ms + [last]) && Room(l, c, ms + [last], eol)
    requires Flatten(chunks) == Stream(ms, eol) + Lines(last, eol)
    ensures Parsed(l, c, chunks) == Expected(c, ms + [last])
  {
    var all := ms + [last];
    assert all[..|ms|] == ms && all[|ms|] == last;
    assert Good(all[|ms|]) && forall i :: 0 <= i < |ms| ==> ms[i] == all[i];
    CutFrames(ms, last, eol);
    CutFits(l, c, ms, last, eol);
    ChunkingDoesNotMatter(l, c, chunks);
    TakeMessages(l, c, ms, eol);
    CutMessage(l, c, ms, last, eol);
  }

  lemma CutFits(l: Limits, c: Codec, ms: seq<Message>, last: Message, eol: Bytes)
    requires AllGood(ms + [last]) && LineFeed(eol) && Room(l, c, ms + [last], eol)
    ensures Fits(l, Stream(ms, eol) + Lines(last, eol))
  {
    var all := ms + [last];
    assert all[|ms|] == last && forall i :: 0 <= i < |ms| ==> ms[i] == all[i];
    CutFrames(ms, last, eol);
  }
}
