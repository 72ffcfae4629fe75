/**
 The decoder of a provider's event stream: text arrives in arbitrary chunks, is folded to
 LF line ends, cut into frames at blank lines, and each frame's data is dispatched.
 The reference parser looks at the whole text at once; the theorems relate the two.
 */
module ProviderStream {
  import opened Text

  const STREAM_LIMIT := 2 * 1024 * 1024
  const EVENT_LIMIT := 262144

  /** One network read: its size in bytes, and the characters it decoded to. */
  datatype Chunk = Chunk(bytes: nat, text: string)

  datatype Kind = Claude | HuggingFace | Compatible

  /** A usage object as reported, its counters already filtered by `tokenCount`. */
  datatype RawUsage = RawUsage(input: Option<nat>, output: Option<nat>, cached: Option<nat>, written: Option<nat>)

  datatype TokenUsage =
    TokenUsage(prompt: Option<nat>, completion: Option<nat>, cachedInput: Option<nat>, cacheWrite: Option<nat>)

  /** The fields of a parsed event the decoder looks at; `None` text means "not a string". */
  datatype Event = Event(
    error: bool,
    kind: string,
    finishReason: string,
    stopReason: string,
    deltaKind: string,
    deltaText: Option<string>,
    special: bool,
    tokenText: Option<string>,
    content: Option<string>,
    generated: bool,
    messageUsage: Option<RawUsage>,
    usage: Option<RawUsage>)

  /** `parse` stands for JSON parsing and property access; `None` where that throws. */
  datatype Provider = Provider(kind: Kind, parse: string -> Option<Event>)

  datatype StreamError =
    StreamTooLong | EventTooLong | InvalidEvent | ProviderFailed | OutputLimit | EndedEarly

  datatype Status = Reading | Ended | Failed(error: StreamError)

  /** What the caller has seen so far: the texts yielded and the usage reports. */
  datatype Progress =
    Progress(texts: seq<string>, observed: seq<TokenUsage>, usage: Option<TokenUsage>, status: Status)

  /** What the caller has seen when the stream is over; `final` is the usage reported on success. */
  datatype Decoded =
    Decoded(texts: seq<string>, observed: seq<TokenUsage>, final: Option<TokenUsage>, failure: Option<StreamError>)

  const START := Progress([], [], None, Reading)

  // ----- line ends, frames, data -----

  /** One left-to-right pass replacing CR LF by LF. */
  function FoldLineEnds(s: string): string {
    if |s| < 2 then s
    else if s[0] == '\r' && s[1] == '\n' then "\n" + FoldLineEnds(s[2..])
    else [s[0]] + FoldLineEnds(s[1..])
  }

  /** Index of the first blank line, or -1. */
  function BlankLine(s: string): (i: int)
    ensures -1 <= i < |s|
    ensures i >= 0 ==> i + 2 <= |s| && s[i] == '\n' && s[i + 1] == '\n'
  {
    if |s| < 2 then -1
    else if s[0] == '\n' && s[1] == '\n' then 0
    else
      var rest := BlankLine(s[1..]);
      if rest < 0 then -1 else rest + 1
  }

  /** The characters `trimStart` removes. */
  predicate IsSpace(c: char) {
    var u := c as int;
    || 0x09 <= u <= 0x0D || u == 0x20 || u == 0xA0 || u == 0x1680 || 0x2000 <= u <= 0x200A
    || u == 0x2028 || u == 0x2029 || u == 0x202F || u == 0x205F || u == 0x3000 || u == 0xFEFF
  }

  function TrimStart(s: string): string {
    if s != "" && IsSpace(s[0]) then TrimStart(s[1..]) else s
  }

  function DataLines(lines: seq<string>): seq<string> {
    if lines == [] then []
    else
      var rest := DataLines(lines[1..]);
      if "data:" <= lines[0] then [TrimStart(lines[0][5..])] + rest else rest
  }

  function DataOf(frame: string): string {
    Join(DataLines(Split(frame, '\n')), '\n')
  }

  // ----- dispatching one frame -----

  function OrElse<T>(a: Option<T>, b: Option<T>): Option<T> {
    if a.Some? then a else b
  }

  function Count(a: Option<nat>): nat {
    if a.Some? then a.value else 0
  }

  function StreamUsage(ev: Event, kind: Kind, previous: Option<TokenUsage>): Option<TokenUsage> {
    var raw :=
      if kind != Claude then ev.usage
      else if ev.kind == "message_start" then ev.messageUsage
      else if ev.kind == "message_delta" then ev.usage
      else None;
    if raw.None? then previous
    else
      var RawUsage(input, output, cached, written) := raw.value;
      var was := if previous.Some? then previous.value else TokenUsage(None, None, None, None);
      var prompt :=
        if input.None? then was.prompt
        else if kind == Claude then Some(input.value + Count(cached) + Count(written))
        else input;
      Some(TokenUsage(prompt, OrElse(output, was.completion), OrElse(cached, was.cachedInput),
                      OrElse(written, was.cacheWrite)))
  }

  function TextOf(ev: Event, kind: Kind): Option<string> {
    match kind
    case Claude => if ev.kind == "content_block_delta" && ev.deltaKind == "text_delta" then ev.deltaText else None
    case HuggingFace => if ev.special then None else ev.tokenText
    case Compatible => ev.content
  }

  function Dispatch(p: Provider, g: Progress, frame: string): Progress {
    var data := DataOf(frame);
    if data == "" then g
    else if data == "[DONE]" then g.(status := Ended)
    else
      var parsed := p.parse(data);
      if parsed.None? then g.(status := Failed(InvalidEvent))
      else DispatchEvent(p, g, parsed.value)
  }

  function DispatchEvent(p: Provider, g: Progress, ev: Event): Progress {
    var usage := StreamUsage(ev, p.kind, g.usage);
    var seen := g.(usage := usage, observed := if usage.Some? then g.observed + [usage.value] else g.observed);
    if ev.error || ev.kind == "error" then seen.(status := Failed(ProviderFailed))
    else if ev.finishReason == "length" || ev.stopReason == "max_tokens" then seen.(status := Failed(OutputLimit))
    else if ev.kind == "message_stop" then seen.(status := Ended)
    else
      var text := TextOf(ev, p.kind);
      var told := if text.Some? && text.value != "" then seen.(texts := seen.texts + [text.value]) else seen;
      if p.kind == HuggingFace && ev.generated then told.(status := Ended) else told
  }

  // ----- the reference parser -----

  /** The complete frames of a text, in order. */
  function Frames(s: string): seq<string> {
    var i := BlankLine(s);
    if i < 0 then [] else [s[..i]] + Frames(s[i + 2..])
  }

  /** What follows the last complete frame. */
  function Pending(s: string): string {
    var i := BlankLine(s);
    if i < 0 then s else Pending(s[i + 2..])
  }

  /** Dispatches frames until one of them ends or fails the stream. */
  function Feed(p: Provider, g: Progress, frames: seq<string>): Progress
    decreases |frames|
  {
    if g.status != Reading || frames == [] then g
    else Feed(p, Dispatch(p, g, frames[0]), frames[1..])
  }

  function Conclude(g: Progress): Decoded {
    match g.status
    case Reading => Decoded(g.texts, g.observed, None, Some(EndedEarly))
    case Ended => Decoded(g.texts, g.observed, g.usage, None)
    case Failed(e) => Decoded(g.texts, g.observed, None, Some(e))
  }

  /** The whole text parsed at once, with no size limits. */
  function Reference(p: Provider, text: string): Decoded {
    Conclude(Feed(p, START, Frames(FoldLineEnds(text))))
  }

  // ----- the incremental decoder -----

  /** The inner loop: dispatch every complete frame of the buffer unless the stream is over. */
  function Drain(p: Provider, g: Progress, buffer: string): (Progress, string)
    decreases |buffer|
  {
    var i := BlankLine(buffer);
    if g.status != Reading || i < 0 then (g, buffer)
    else Drain(p, Dispatch(p, g, buffer[..i]), buffer[i + 2..])
  }

  /** The outer loop from a given point, over the chunks not read yet. */
  function Run(p: Provider, g: Progress, buffer: string, total: nat, chunks: seq<Chunk>): Progress
    decreases |chunks|
  {
    if g.status != Reading || chunks == [] then g
    else if total + chunks[0].bytes > STREAM_LIMIT then g.(status := Failed(StreamTooLong))
    else
      var (g', buffer') := Drain(p, g, FoldLineEnds(buffer + chunks[0].text));
      if g'.status.Failed? then g'
      else if |buffer'| > EVENT_LIMIT then g'.(status := Failed(EventTooLong))
      else Run(p, g', buffer', total + chunks[0].bytes, chunks[1..])
  }

  function Decode(p: Provider, chunks: seq<Chunk>): Decoded {
    Conclude(Run(p, START, "", 0, chunks))
  }

  /** The decode loop itself, with its buffer, byte total and early exits. */
  method StreamProvider(p: Provider, chunks: seq<Chunk>) returns (r: Decoded)
    ensures r == Decode(p, chunks)
  {
    hide Dispatch, FoldLineEnds, BlankLine;
    var buffer: string, total: nat, g := "", 0, START;
    var next := 0;
    while g.status == Reading && next < |chunks|
      invariant 0 <= next <= |chunks|
      invariant g.status.Failed? ==> Run(p, START, "", 0, chunks) == g
      invariant !g.status.Failed? ==> Run(p, START, "", 0, chunks) == Run(p, g, buffer, total, chunks[next..])
      decreases |chunks| - next
    {
      var chunk := chunks[next];
      ghost var was, had, read := g, buffer, total;
      assert chunks[next..][0] == chunk && chunks[next..][1..] == chunks[next + 1..];
      next := next + 1;
      total := total + chunk.bytes;
      if total > STREAM_LIMIT {
        g := g.(status := Failed(StreamTooLong));
        break;
      }
      buffer := FoldLineEnds(buffer + chunk.text);
      ghost var folded := buffer;
      var separator := BlankLine(buffer);
      while g.status == Reading && separator >= 0
        invariant separator == BlankLine(buffer)
        invariant Drain(p, was, folded) == Drain(p, g, buffer)
        decreases |buffer|
      {
        var frame := buffer[..separator];
        buffer := buffer[separator + 2..];
        g := Dispatch(p, g, frame);
        separator := BlankLine(buffer);
      }
      if g.status.Failed? {
        break;
      }
      if |buffer| > EVENT_LIMIT {
        g := g.(status := Failed(EventTooLong));
        break;
      }
    }
    r := Conclude(g);
  }

  // ----- folding in pieces -----

  predicate CrCrLfAt(s: string, i: int) {
    0 <= i && i + 3 <= |s| && s[i] == '\r' && s[i + 1] == '\r' && s[i + 2] == '\n'
  }

  /** CR CR LF: the one pattern whose folding depends on where the text was cut. */
  ghost predicate HasCrCrLf(s: string) {
    exists i :: CrCrLfAt(s, i)
  }

  ghost predicate HasCrLf(s: string) {
    exists i :: 0 <= i < |s| - 1 && s[i] == '\r' && s[i + 1] == '\n'
  }

  function Concat(pieces: seq<string>): string {
    if pieces == [] then "" else pieces[0] + Concat(pieces[1..])
  }

  /** Folding as the decoder does it: after every piece, over what is buffered. */
  function FoldPieces(buffer: string, pieces: seq<string>): string
    decreases |pieces|
  {
    if pieces == [] then buffer else FoldPieces(FoldLineEnds(buffer + pieces[0]), pieces[1..])
  }

  lemma FoldCons(c: char, rest: string)
    requires !(c == '\r' && rest != "" && rest[0] == '\n')
    ensures FoldLineEnds([c] + rest) == [c] + FoldLineEnds(rest)
  {
    assert ([c] + rest)[1..] == rest;
  }

  lemma FoldCrLf(rest: string)
    ensures FoldLineEnds("\r\n" + rest) == "\n" + FoldLineEnds(rest)
  {
    assert ("\r\n" + rest)[2..] == rest;
  }

  lemma Associate<T>(a: seq<T>, b: seq<T>, c: seq<T>)
    ensures a + (b + c) == a + b + c
  {
  }

  /** Folding distributes over a cut that does not fall inside a CR LF. */
  lemma {:induction false} FoldConcat(a: string, b: string)
    requires !(a != "" && a[|a| - 1] == '\r' && b != "" && b[0] == '\n')
    ensures FoldLineEnds(a + b) == FoldLineEnds(a) + FoldLineEnds(b)
  {
    if a == "" {
      assert a + b == b;
    } else if |a| >= 2 && a[0] == '\r' && a[1] == '\n' {
      assert a + b == "\r\n" + (a[2..] + b);
      FoldCrLf(a[2..] + b);
      FoldConcat(a[2..], b);
      Associate("\n", FoldLineEnds(a[2..]), FoldLineEnds(b));
    } else {
      assert a + b == [a[0]] + (a[1..] + b);
      assert [a[0]] + a[1..] == a;
      FoldCons(a[0], a[1..] + b);
      FoldCons(a[0], a[1..]);
      FoldConcat(a[1..], b);
      Associate([a[0]], FoldLineEnds(a[1..]), FoldLineEnds(b));
    }
  }

  lemma CrCrLfStays(a: string, b: string)
    ensures HasCrCrLf(a) ==> HasCrCrLf(a + b)
    ensures HasCrCrLf(b) ==> HasCrCrLf(a + b)
  {
    if HasCrCrLf(a) {
      var i :| CrCrLfAt(a, i);
      assert CrCrLfAt(a + b, i);
    }
    if HasCrCrLf(b) {
      var i :| CrCrLfAt(b, i);
      assert CrCrLfAt(a + b, |a| + i);
    }
  }

  lemma FoldHead(s: string)
    requires s != ""
    ensures FoldLineEnds(s) != ""
    ensures FoldLineEnds(s)[0] == '\n' <==> s[0] == '\n' || (|s| >= 2 && s[0] == '\r' && s[1] == '\n')
  {
  }

  /** Folding what is already folded, plus more text, is folding all of it. */
  lemma {:induction false} FoldAgain(a: string, b: string)
    requires !HasCrCrLf(a + b)
    ensures FoldLineEnds(FoldLineEnds(a) + b) == FoldLineEnds(a + b)
  {
    if |a| >= 2 && a[0] == '\r' && a[1] == '\n' {
      var back := a[2..];
      assert a + b == "\r\n" + (back + b);
      CrCrLfStays("\r\n", back + b);
      FoldAgain(back, b);
      FoldCrLf(back + b);
      FoldCons('\n', FoldLineEnds(back) + b);
      Associate("\n", FoldLineEnds(back), b);
    } else if |a| >= 2 {
      var back := a[1..];
      assert a + b == [a[0]] + (back + b);
      CrCrLfStays([a[0]], back + b);
      FoldAgain(back, b);
      FoldHead(back);
      assert !CrCrLfAt(a + b, 0);
      FoldCons(a[0], back + b);
      FoldCons(a[0], FoldLineEnds(back) + b);
      Associate([a[0]], FoldLineEnds(back), b);
    }
  }

  /** Only a CR CR LF can leave a CR LF behind. */
  lemma {:induction false} FoldedIsClean(s: string)
    ensures HasCrLf(FoldLineEnds(s)) ==> HasCrCrLf(s)
  {
    if |s| >= 2 && HasCrLf(FoldLineEnds(s)) {
      var k := if s[0] == '\r' && s[1] == '\n' then 2 else 1;
      var c, rest := if k == 2 then '\n' else s[0], FoldLineEnds(s[k..]);
      var i :| 0 <= i < |[c] + rest| - 1 && ([c] + rest)[i] == '\r' && ([c] + rest)[i + 1] == '\n';
      if i == 0 {
        FoldHead(s[1..]);
        assert CrCrLfAt(s, 0);
      } else {
        assert rest[i - 1] == '\r' && rest[i] == '\n';
        FoldedIsClean(s[k..]);
        CrCrLfStays(s[..k], s[k..]);
        assert s[..k] + s[k..] == s;
      }
    }
  }

  lemma {:induction false} FoldShrinks(s: string)
    ensures |FoldLineEnds(s)| <= |s|
    ensures HasCrLf(s) ==> |FoldLineEnds(s)| < |s|
  {
    if |s| >= 2 {
      var k := if s[0] == '\r' && s[1] == '\n' then 2 else 1;
      FoldShrinks(s[k..]);
      if HasCrLf(s) && k == 1 {
        var i :| 0 <= i < |s| - 1 && s[i] == '\r' && s[i + 1] == '\n';
        assert s[1..][i - 1] == '\r' && s[1..][i] == '\n';
      }
    }
  }

  /** A cut right after a CR CR LF folds one line end too many. */
  lemma CutAfterCrCrLf(s: string, i: nat)
    requires CrCrLfAt(s, i)
    ensures |FoldLineEnds(FoldLineEnds(s[..i + 3]) + s[i + 3..])| < |FoldLineEnds(s)|
  {
    var a, b := s[..i + 3], s[i + 3..];
    assert s == a + b;
    FoldConcat(a, b);
    var head := s[..i + 1];
    assert a == head + "\r\n";
    FoldConcat(head, "\r\n");
    assert head == s[..i] + "\r";
    FoldConcat(s[..i], "\r");
    assert FoldLineEnds("\r\n") == "\n" + FoldLineEnds("\r\n"[2..]);
    var once := FoldLineEnds(a);
    assert once == FoldLineEnds(s[..i]) + "\r" + "\n";
    assert once[|once| - 2] == '\r' && once[|once| - 1] == '\n';
    FoldShrinks(once);
    FoldConcat(once, b);
  }

  lemma {:induction false} FoldPiecesIsFold(s: string, pieces: seq<string>)
    requires !HasCrCrLf(s + Concat(pieces))
    ensures FoldPieces(FoldLineEnds(s), pieces) == FoldLineEnds(s + Concat(pieces))
    decreases |pieces|
  {
    if pieces == [] {
      assert s + "" == s;
    } else {
      assert s + Concat(pieces) == (s + pieces[0]) + Concat(pieces[1..]);
      CrCrLfStays(s + pieces[0], Concat(pieces[1..]));
      FoldAgain(s, pieces[0]);
      FoldPiecesIsFold(s + pieces[0], pieces[1..]);
    }
  }

  lemma TwoPieces(a: string, b: string)
    ensures Concat([a, b]) == a + b
    ensures FoldPieces("", [a, b]) == FoldLineEnds(FoldLineEnds(a) + b)
  {
    assert [a, b][1..] == [b] && [b][1..] == [];
    assert Concat([b]) == b + "" == b;
    assert "" + a == a;
    assert FoldPieces(FoldLineEnds(a), [b]) == FoldPieces(FoldLineEnds(FoldLineEnds(a) + b), []);
  }

  /** Folding piece by piece agrees with folding the whole text, for every way of cutting it,
      exactly when the text contains no CR CR LF. */
  lemma FoldingIgnoresCutsIff(text: string)
    ensures (forall pieces: seq<string> | Concat(pieces) == text :: FoldPieces("", pieces) == FoldLineEnds(text))
            <==> !HasCrCrLf(text)
  {
    if HasCrCrLf(text) {
      var i :| CrCrLfAt(text, i);
      var pieces := [text[..i + 3], text[i + 3..]];
      TwoPieces(pieces[0], pieces[1]);
      CutAfterCrCrLf(text, i);
      assert Concat(pieces) == text && FoldPieces("", pieces) != FoldLineEnds(text);
    } else {
      forall pieces: seq<string> | Concat(pieces) == text
        ensures FoldPieces("", pieces) == FoldLineEnds(text)
      {
        assert "" + Concat(pieces) == text && FoldLineEnds("") == "";
        FoldPiecesIsFold("", pieces);
      }
    }
  }

  // ----- what frames are -----

  ghost predicate HasBlankLine(s: string) {
    exists i :: 0 <= i < |s| - 1 && s[i] == '\n' && s[i + 1] == '\n'
  }

  lemma {:induction false} BlankLineFound(s: string)
    ensures BlankLine(s) >= 0 <==> HasBlankLine(s)
    ensures forall i :: 0 <= i < BlankLine(s) ==> !(s[i] == '\n' && s[i + 1] == '\n')
  {
    if |s| >= 2 {
      BlankLineFound(s[1..]);
      if HasBlankLine(s) && !(s[0] == '\n' && s[1] == '\n') {
        var i :| 0 <= i < |s| - 1 && s[i] == '\n' && s[i + 1] == '\n';
        assert s[1..][i - 1] == '\n' && s[1..][i] == '\n';
      }
      forall i | 0 <= i < BlankLine(s) ensures !(s[i] == '\n' && s[i + 1] == '\n') {
        assert i > 0 ==> s[i] == s[1..][i - 1] && s[i + 1] == s[1..][i];
      }
    }
  }

  function Terminated(frames: seq<string>): string {
    if frames == [] then "" else frames[0] + "\n\n" + Terminated(frames[1..])
  }

  lemma TerminatedCons(frame: string, frames: seq<string>)
    ensures Terminated([frame] + frames) == frame + "\n\n" + Terminated(frames)
  {
    assert ([frame] + frames)[1..] == frames;
  }

  /** Frames cut the text at its blank lines: nothing is lost, and no blank line is left inside. */
  lemma {:induction false} FramesPartition(s: string)
    ensures Terminated(Frames(s)) + Pending(s) == s
    ensures !HasBlankLine(Pending(s))
    ensures forall k :: 0 <= k < |Frames(s)| ==> !HasBlankLine(Frames(s)[k])
    decreases |s|
  {
    var i := BlankLine(s);
    if i < 0 {
      BlankLineFound(s);
    } else {
      hide *;
      var frame, back := s[..i], s[i + 2..];
      FramesPartition(back);
      FirstFrameHasNoBlankLine(s);
      FramesUnfold(s);
      CutAtBlank(s, i);
      TerminatedCons(frame, Frames(back));
      Associate(frame + "\n\n", Terminated(Frames(back)), Pending(back));
    }
  }

  lemma CutAtBlank(s: string, i: nat)
    requires i + 2 <= |s| && s[i] == '\n' && s[i + 1] == '\n'
    ensures s[..i] + "\n\n" + s[i + 2..] == s
  {
    assert s == s[..i] + s[i..i + 2] + s[i + 2..];
    assert s[i..i + 2] == "\n\n";
  }

  lemma FramesUnfold(s: string)
    requires BlankLine(s) >= 0
    ensures Frames(s) == [s[..BlankLine(s)]] + Frames(s[BlankLine(s) + 2..])
    ensures Pending(s) == Pending(s[BlankLine(s) + 2..])
  {
    hide BlankLine;
  }

  lemma FirstFrameHasNoBlankLine(s: string)
    requires BlankLine(s) >= 0
    ensures !HasBlankLine(s[..BlankLine(s)])
  {
    BlankLineFound(s);
    assert forall j :: 0 <= j < BlankLine(s) ==> s[..BlankLine(s)][j] == s[j];
  }

  // ----- frames in pieces -----

  /** Only the text up to the first blank line decides where it is. */
  lemma {:induction false} BlankLineStays(s: string, more: string)
    requires BlankLine(s) >= 0
    ensures BlankLine(s[..BlankLine(s) + 2] + more) == BlankLine(s)
  {
    var i := BlankLine(s);
    var t := s[..i + 2] + more;
    if i > 0 {
      assert t[1..] == s[1..][..i + 1] + more;
      BlankLineStays(s[1..], more);
    }
  }

  lemma CrLfStays(a: string, b: string)
    ensures HasCrLf(a) || HasCrLf(b) ==> HasCrLf(a + b)
  {
    if HasCrLf(a) {
      var i :| 0 <= i < |a| - 1 && a[i] == '\r' && a[i + 1] == '\n';
      assert (a + b)[i] == '\r' && (a + b)[i + 1] == '\n';
    }
    if HasCrLf(b) {
      var i :| 0 <= i < |b| - 1 && b[i] == '\r' && b[i + 1] == '\n';
      assert (a + b)[|a| + i] == '\r' && (a + b)[|a| + i + 1] == '\n';
    }
  }

  lemma {:induction false} CleanIsFolded(s: string)
    requires !HasCrLf(s)
    ensures FoldLineEnds(s) == s
  {
    if |s| >= 2 {
      CrLfStays(s[..1], s[1..]);
      assert s[..1] + s[1..] == s;
      assert !(s[0] == '\r' && s[0 + 1] == '\n');
      CleanIsFolded(s[1..]);
    }
  }

  lemma FoldAfterFront(front: string, rest: string)
    requires !HasCrLf(front) && front != "" && front[|front| - 1] == '\n'
    ensures FoldLineEnds(front + rest) == front + FoldLineEnds(rest)
  {
    FoldConcat(front, rest);
    CleanIsFolded(front);
  }

  /** The first frame of clean text is untouched when more text is appended and folded. */
  lemma FirstFrameStays(x: string, more: string)
    requires !HasCrLf(x) && BlankLine(x) >= 0
    ensures !HasCrLf(x[BlankLine(x) + 2..])
    ensures FoldLineEnds(x + more) == x[..BlankLine(x) + 2] + FoldLineEnds(x[BlankLine(x) + 2..] + more)
  {
    var front, back := x[..BlankLine(x) + 2], x[BlankLine(x) + 2..];
    assert front + back == x;
    CrLfStays(front, back);
    assert x + more == front + (back + more);
    FoldAfterFront(front, back + more);
  }

  lemma FramesOfFront(x: string, rest: string)
    requires BlankLine(x) >= 0
    ensures var i := BlankLine(x);
            && Frames(x[..i + 2] + rest) == [x[..i]] + Frames(rest)
            && Pending(x[..i + 2] + rest) == Pending(rest)
  {
    var i := BlankLine(x);
    var whole := x[..i + 2] + rest;
    BlankLineStays(x, rest);
    assert whole[..i] == x[..i];
    assert whole[i + 2..] == rest;
  }

  /** Frames already complete stay as they are when more text is appended and folded. */
  lemma {:induction false} FramesAppend(x: string, more: string)
    requires !HasCrLf(x)
    ensures Frames(FoldLineEnds(x + more)) == Frames(x) + Frames(FoldLineEnds(Pending(x) + more))
    ensures Pending(FoldLineEnds(x + more)) == Pending(FoldLineEnds(Pending(x) + more))
    decreases |x|
  {
    hide FoldLineEnds, BlankLine, HasCrLf;
    var i := BlankLine(x);
    if i < 0 {
      assert Frames(x) == [] && Pending(x) == x;
    } else {
      var back := x[i + 2..];
      FirstFrameStays(x, more);
      FramesAppend(back, more);
      FramesOfFront(x, FoldLineEnds(back + more));
      var a, b := Frames(back), Frames(FoldLineEnds(Pending(back) + more));
      Associate([x[..i]], a, b);
      assert Frames(x) == [x[..i]] + a && Pending(x) == Pending(back);
    }
  }

  lemma {:induction false} FeedConcat(p: Provider, g: Progress, a: seq<string>, b: seq<string>)
    ensures Feed(p, g, a + b) == Feed(p, Feed(p, g, a), b)
    decreases |a|
  {
    if g.status == Reading && a != [] {
      assert (a + b)[1..] == a[1..] + b;
      FeedConcat(p, Dispatch(p, g, a[0]), a[1..], b);
    } else if a == [] {
      assert a + b == b;
    }
  }

  lemma {:induction false} DrainIsFeed(p: Provider, g: Progress, buffer: string)
    requires g.status == Reading
    ensures Drain(p, g, buffer).0 == Feed(p, g, Frames(buffer))
    ensures Drain(p, g, buffer).0.status == Reading ==> Drain(p, g, buffer).1 == Pending(buffer)
    ensures |Drain(p, g, buffer).1| <= |buffer|
    decreases |buffer|
  {
    var i := BlankLine(buffer);
    if i >= 0 {
      var rest := buffer[i + 2..];
      var g' := Dispatch(p, g, buffer[..i]);
      assert Drain(p, g, buffer) == Drain(p, g', rest);
      assert Feed(p, g, Frames(buffer)) == Feed(p, g', Frames(rest)) by {
        assert Frames(buffer) == [buffer[..i]] + Frames(rest);
        assert Frames(buffer)[1..] == Frames(rest);
      }
      if g'.status == Reading {
        DrainIsFeed(p, g', rest);
      } else {
        assert Drain(p, g', rest) == (g', rest) && Feed(p, g', Frames(rest)) == g';
      }
    }
  }

  // ----- what has been seen stays seen -----

  predicate Extends(g: Progress, g': Progress) {
    g.texts <= g'.texts && g.observed <= g'.observed
  }

  lemma DispatchExtends(p: Provider, g: Progress, frame: string)
    ensures Extends(g, Dispatch(p, g, frame))
  {
  }

  lemma {:induction false} FeedExtends(p: Provider, g: Progress, frames: seq<string>)
    ensures Extends(g, Feed(p, g, frames))
    decreases |frames|
  {
    if g.status == Reading && frames != [] {
      DispatchExtends(p, g, frames[0]);
      FeedExtends(p, Dispatch(p, g, frames[0]), frames[1..]);
    }
  }

  function TextsOf(chunks: seq<Chunk>): string {
    if chunks == [] then "" else chunks[0].text + TextsOf(chunks[1..])
  }

  function BytesOf(chunks: seq<Chunk>): nat {
    if chunks == [] then 0 else chunks[0].bytes + BytesOf(chunks[1..])
  }

  predicate LimitError(s: Status) {
    s == Failed(StreamTooLong) || s == Failed(EventTooLong)
  }

  ghost predicate Agrees(g: Progress, ideal: Progress) {
    if LimitError(g.status) then Extends(g, ideal) else g == ideal
  }

  lemma DispatchNeverLimits(p: Provider, g: Progress, frame: string)
    requires !LimitError(g.status)
    ensures !LimitError(Dispatch(p, g, frame).status)
  {
  }

  lemma {:induction false} FeedNeverLimits(p: Provider, g: Progress, frames: seq<string>)
    requires !LimitError(g.status)
    ensures !LimitError(Feed(p, g, frames).status)
    decreases |frames|
  {
    if g.status == Reading && frames != [] {
      DispatchNeverLimits(p, g, frames[0]);
      FeedNeverLimits(p, Dispatch(p, g, frames[0]), frames[1..]);
    }
  }

  lemma DrainNeverLimits(p: Provider, g: Progress, buffer: string)
    requires g.status == Reading
    ensures !LimitError(Drain(p, g, buffer).0.status)
  {
    DrainIsFeed(p, g, buffer);
    FeedNeverLimits(p, g, Frames(buffer));
  }

  /** One chunk: draining the folded buffer is feeding the frames that chunk completes. */
  lemma ChunkIsFeed(p: Provider, g: Progress, read: string, text: string)
    requires g.status == Reading && g == Feed(p, START, Frames(FoldLineEnds(read)))
    requires !HasCrCrLf(read + text)
    ensures var (g', buffer') := Drain(p, g, FoldLineEnds(Pending(FoldLineEnds(read)) + text));
            && g' == Feed(p, START, Frames(FoldLineEnds(read + text)))
            && (g'.status == Reading ==> buffer' == Pending(FoldLineEnds(read + text)))
  {
    var x := FoldLineEnds(read);
    CrCrLfStays(read, text);
    FoldedIsClean(read);
    FoldAgain(read, text);
    FramesAppend(x, text);
    DrainIsFeed(p, g, FoldLineEnds(Pending(x) + text));
    FeedConcat(p, START, Frames(x), Frames(FoldLineEnds(Pending(x) + text)));
  }

  /** The decoder started in the middle of a text agrees with the reference parser on the whole. */
  lemma {:induction false} RunAgrees(p: Provider, g: Progress, read: string, total: nat, chunks: seq<Chunk>)
    requires g.status == Reading && g == Feed(p, START, Frames(FoldLineEnds(read)))
    requires !HasCrCrLf(read + TextsOf(chunks))
    ensures Agrees(Run(p, g, Pending(FoldLineEnds(read)), total, chunks),
                   Feed(p, START, Frames(FoldLineEnds(read + TextsOf(chunks)))))
    decreases |chunks|
  {
    if chunks == [] {
      assert read + "" == read;
    } else {
      var text, rest := chunks[0].text, TextsOf(chunks[1..]);
      Associate(read, text, rest);
      assert read + TextsOf(chunks) == read + text + rest;
      hide *;
      CrCrLfStays(read + text, rest);
      ChunkIsFeed(p, g, read, text);
      WholeFollows(p, read, text + rest);
      WholeFollows(p, read + text, rest);
      var pending, total' := Pending(FoldLineEnds(read)), total + chunks[0].bytes;
      var whole := Feed(p, START, Frames(FoldLineEnds(read + text + rest)));
      var (g', buffer') := Drain(p, g, FoldLineEnds(pending + text));
      if total' <= STREAM_LIMIT && g'.status == Reading && |buffer'| <= EVENT_LIMIT {
        RunAgrees(p, g', read + text, total', chunks[1..]);
      }
      ChunkAgrees(p, g, pending, total, chunks, whole);
    }
  }

  /** One chunk read: the run agrees if what it has shown is part of the whole, and if going on agrees. */
  lemma ChunkAgrees(p: Provider, g: Progress, pending: string, total: nat, chunks: seq<Chunk>, whole: Progress)
    requires g.status == Reading && chunks != [] && Extends(g, whole)
    requires var (g', buffer') := Drain(p, g, FoldLineEnds(pending + chunks[0].text));
             var total' := total + chunks[0].bytes;
             && Extends(g', whole) && !LimitError(g'.status) && (g'.status != Reading ==> whole == g')
             && (total' <= STREAM_LIMIT && g'.status == Reading && |buffer'| <= EVENT_LIMIT ==>
                   Agrees(Run(p, g', buffer', total', chunks[1..]), whole))
    ensures Agrees(Run(p, g, pending, total, chunks), whole)
  {
    hide *;
    RunStep(p, g, pending, total, chunks);
    var (g', buffer') := Drain(p, g, FoldLineEnds(pending + chunks[0].text));
    LimitAgrees(g, whole);
    LimitAgrees(g', whole);
    RunOver(p, g', buffer', total + chunks[0].bytes, chunks[1..]);
  }

  /** A decoder that stops at a limit, and one that is done, agree with a parse that goes on from there. */
  lemma LimitAgrees(g: Progress, whole: Progress)
    ensures Extends(g, whole) ==> Agrees(g.(status := Failed(StreamTooLong)), whole)
    ensures Extends(g, whole) ==> Agrees(g.(status := Failed(EventTooLong)), whole)
    ensures !LimitError(g.status) ==> Agrees(g, g)
  {
  }

  lemma RunStep(p: Provider, g: Progress, buffer: string, total: nat, chunks: seq<Chunk>)
    requires g.status == Reading && chunks != []
    ensures var total', r := total + chunks[0].bytes, Run(p, g, buffer, total, chunks);
            var (g', buffer') := Drain(p, g, FoldLineEnds(buffer + chunks[0].text));
            if total' > STREAM_LIMIT then r == g.(status := Failed(StreamTooLong))
            else if g'.status.Failed? then r == g'
            else if |buffer'| > EVENT_LIMIT then r == g'.(status := Failed(EventTooLong))
            else r == Run(p, g', buffer', total', chunks[1..])
  {
    hide Drain, FoldLineEnds;
  }

  lemma RunOver(p: Provider, g: Progress, buffer: string, total: nat, chunks: seq<Chunk>)
    ensures g.status != Reading ==> Run(p, g, buffer, total, chunks) == g
  {
    hide Drain, FoldLineEnds;
  }

  /** The reference parse of a longer text continues the parse of a prefix. */
  lemma WholeFollows(p: Provider, read: string, rest: string)
    requires !HasCrCrLf(read + rest)
    ensures var g := Feed(p, START, Frames(FoldLineEnds(read)));
            var whole := Feed(p, START, Frames(FoldLineEnds(read + rest)));
            && Extends(g, whole)
            && (g.status != Reading ==> whole == g)
            && !LimitError(g.status)
  {
    var x := FoldLineEnds(read);
    CrCrLfStays(read, rest);
    FoldedIsClean(read);
    FoldAgain(read, rest);
    FramesAppend(x, rest);
    var more := Frames(FoldLineEnds(Pending(x) + rest));
    FeedConcat(p, START, Frames(x), more);
    FeedExtends(p, Feed(p, START, Frames(x)), more);
    FeedNeverLimits(p, START, Frames(x));
  }

  // ----- main results -----

  predicate LimitFailure(d: Decoded) {
    d.failure == Some(StreamTooLong) || d.failure == Some(EventTooLong)
  }

  /** However a text without CR CR LF is cut into chunks, decoding it either gives exactly what
      parsing the whole text at once gives, or stops at a size limit having shown a prefix of it. */
  lemma DecodeMatchesReference(p: Provider, chunks: seq<Chunk>)
    requires !HasCrCrLf(TextsOf(chunks))
    ensures var d, r := Decode(p, chunks), Reference(p, TextsOf(chunks));
            if LimitFailure(d) then d.texts <= r.texts && d.observed <= r.observed && d.final == None else d == r
  {
    assert Frames(FoldLineEnds("")) == [] && Pending(FoldLineEnds("")) == "";
    assert "" + TextsOf(chunks) == TextsOf(chunks);
    RunAgrees(p, START, "", 0, chunks);
  }

  /** Two ways of cutting the same text are indistinguishable unless a limit fires. */
  lemma ChunkingIsInvisible(p: Provider, a: seq<Chunk>, b: seq<Chunk>)
    requires TextsOf(a) == TextsOf(b) && !HasCrCrLf(TextsOf(a))
    requires !LimitFailure(Decode(p, a)) && !LimitFailure(Decode(p, b))
    ensures Decode(p, a) == Decode(p, b)
  {
    DecodeMatchesReference(p, a);
    DecodeMatchesReference(p, b);
  }

  /** A stream that fits into one event buffer never meets a limit. */
  lemma SmallStreamsMeetNoLimit(p: Provider, chunks: seq<Chunk>)
    requires BytesOf(chunks) <= STREAM_LIMIT && |TextsOf(chunks)| <= EVENT_LIMIT
    ensures !LimitFailure(Decode(p, chunks))
  {
    RunWithinLimits(p, START, "", 0, chunks);
  }

  lemma {:induction false} RunWithinLimits(p: Provider, g: Progress, buffer: string, total: nat, chunks: seq<Chunk>)
    requires !LimitError(g.status)
    requires total + BytesOf(chunks) <= STREAM_LIMIT && |buffer| + |TextsOf(chunks)| <= EVENT_LIMIT
    ensures !LimitError(Run(p, g, buffer, total, chunks).status)
    decreases |chunks|
  {
    if g.status == Reading && chunks != [] {
      var folded := FoldLineEnds(buffer + chunks[0].text);
      FoldShrinks(buffer + chunks[0].text);
      DrainIsFeed(p, g, folded);
      FeedNeverLimits(p, g, Frames(folded));
      var (g', buffer') := Drain(p, g, folded);
      if !g'.status.Failed? {
        RunWithinLimits(p, g', buffer', total + chunks[0].bytes, chunks[1..]);
      }
    }
  }

  lemma {:induction false} NoBlankLine(line: string, end: string)
    requires '\n' !in line
    ensures BlankLine(line + end) == if BlankLine(end) < 0 then -1 else |line| + BlankLine(end)
  {
    if line == "" {
      assert line + end == end;
    } else {
      assert (line + end)[1..] == line[1..] + end;
      NoBlankLine(line[1..], end);
    }
  }

  /** A frame of one data line hands over what follows the field name. */
  lemma OneDataLine(p: Provider, data: string)
    requires '\n' !in data && data != "" && !IsSpace(data[0])
    ensures Drain(p, START, "data:" + data + "\n\n") == (Dispatch(p, START, "data:" + data), "")
    ensures DataOf("data:" + data) == data
  {
    var line := "data:" + data;
    var buffer := line + "\n\n";
    NoBlankLine(line, "\n\n");
    assert BlankLine(buffer) == |line| && buffer[..|line|] == line && buffer[|line| + 2..] == "";
    SplitSingle(line, '\n');
    assert line[5..] == data;
    assert DataLines([line][1..]) == [];
  }

  lemma FoldCrLfThen(line: string, rest: string)
    requires |rest| <= 1
    ensures FoldLineEnds(line + "\r\n" + rest) == FoldLineEnds(line) + "\n" + rest
  {
    assert FoldLineEnds(rest) == rest;
    hide *;
    FoldCrLf(rest);
    FoldConcat(line, "\r\n" + rest);
    Associate(line, "\r\n", rest);
    Associate(FoldLineEnds(line), "\n", rest);
  }

  /** `clean` ends are not folded: a line, with or without a CR after it. */
  lemma FoldAroundCrCrLf(line: string, cr: string)
    requires '\r' !in line && '\n' !in line && (cr == "" || cr == "\r")
    ensures FoldLineEnds(line + cr + "\r\n" + "\n") == line + cr + "\n" + "\n"
    ensures FoldLineEnds(line + cr + "\r\n" + "") == line + cr + "\n" + ""
  {
    CleanIsFolded(line + cr);
    FoldCrLfThen(line + cr, "\n");
    FoldCrLfThen(line + cr, "");
  }

  lemma OneChunk(p: Provider, chunk: Chunk)
    requires chunk.bytes <= STREAM_LIMIT
    requires |Drain(p, START, FoldLineEnds(chunk.text)).1| <= EVENT_LIMIT
    ensures Decode(p, [chunk]) == Conclude(Drain(p, START, FoldLineEnds(chunk.text)).0)
  {
    var (g, buffer) := Drain(p, START, FoldLineEnds("" + chunk.text));
    assert "" + chunk.text == chunk.text;
    DrainNeverLimits(p, START, FoldLineEnds(chunk.text));
    assert Run(p, g, buffer, chunk.bytes, [chunk][1..]) == g;
  }

  lemma TwoChunks(p: Provider, a: Chunk, b: Chunk)
    requires a.bytes + b.bytes <= STREAM_LIMIT && |FoldLineEnds(a.text)| <= EVENT_LIMIT
    requires BlankLine(FoldLineEnds(a.text)) < 0
    requires |Drain(p, START, FoldLineEnds(FoldLineEnds(a.text) + b.text)).1| <= EVENT_LIMIT
    ensures Decode(p, [a, b]) == Conclude(Drain(p, START, FoldLineEnds(FoldLineEnds(a.text) + b.text)).0)
  {
    var folded := FoldLineEnds(a.text);
    assert "" + a.text == a.text;
    assert Drain(p, START, folded) == (START, folded);
    assert [a, b][1..] == [b];
    assert Run(p, START, "", 0, [a, b]) == Run(p, START, folded, a.bytes, [b]);
    var (g, buffer) := Drain(p, START, FoldLineEnds(folded + b.text));
    DrainNeverLimits(p, START, FoldLineEnds(folded + b.text));
    assert Run(p, g, buffer, a.bytes + b.bytes, [b][1..]) == g;
  }

  /** With CR CR LF in the text the cut shows: the same characters hand over the data with a stray
      CR when read in one chunk, and without it when cut just before the last line end. */
  lemma CrCrLfShowsTheCut(p: Provider, data: string, m: nat, n: nat)
    requires data != "" && '\r' !in data && '\n' !in data && !IsSpace(data[0])
    requires m + n <= STREAM_LIMIT && |data| + 9 <= EVENT_LIMIT
    ensures var line := "data:" + data;
            && Decode(p, [Chunk(m + n, line + "\r\r\n\n")]) == Conclude(Dispatch(p, START, line + "\r"))
            && DataOf(line + "\r") == data + "\r"
            && Decode(p, [Chunk(m, line + "\r\r\n"), Chunk(n, "\n")]) == Conclude(Dispatch(p, START, line))
            && DataOf(line) == data
  {
    hide Drain, Dispatch, FoldLineEnds, Decode, DataOf, BlankLine, Conclude, IsSpace;
    var line := "data:" + data;
    FoldAroundCrCrLf(line, "\r");
    assert line + "\r" + "\r\n" + "\n" == line + "\r\r\n\n";
    assert line + "\r" + "\n" + "\n" == line + "\r" + "\n\n";
    assert line + "\r" + "\r\n" + "" == line + "\r\r\n";
    assert line + "\r" + "\n" + "" == line + "\r\n";
    FoldAroundCrCrLf(line, "");
    assert line + "" + "\r\n" + "\n" == line + "\r\n" + "\n";
    assert line + "" + "\n" + "\n" == line + "\n\n";
    NoBlankLine(line, "\r\n");
    OneDataLine(p, data + "\r");
    assert "data:" + (data + "\r") == line + "\r";
    OneDataLine(p, data);
    OneChunk(p, Chunk(m + n, line + "\r\r\n\n"));
    TwoChunks(p, Chunk(m, line + "\r\r\n"), Chunk(n, "\n"));
  }

  // ----- what is reported -----

  /** Counters once known stay known. */
  predicate Keeps(a: TokenUsage, b: TokenUsage) {
    && (a.prompt.Some? ==> b.prompt.Some?) && (a.completion.Some? ==> b.completion.Some?)
    && (a.cachedInput.Some? ==> b.cachedInput.Some?) && (a.cacheWrite.Some? ==> b.cacheWrite.Some?)
  }

  ghost function Latest(observed: seq<TokenUsage>): Option<TokenUsage> {
    if observed == [] then None else Some(observed[|observed| - 1])
  }

  ghost predicate Reports(texts: seq<string>, observed: seq<TokenUsage>) {
    && (forall i :: 0 <= i < |texts| ==> texts[i] != "")
    && (forall i, j :: 0 <= i < j < |observed| ==> Keeps(observed[i], observed[j]))
  }

  ghost predicate InStep(g: Progress) {
    g.usage == Latest(g.observed) && Reports(g.texts, g.observed)
  }

  lemma UsageKeeps(ev: Event, kind: Kind, previous: Option<TokenUsage>)
    ensures previous.Some? ==>
              StreamUsage(ev, kind, previous).Some? && Keeps(previous.value, StreamUsage(ev, kind, previous).value)
  {
  }

  lemma DispatchInStep(p: Provider, g: Progress, frame: string)
    requires InStep(g)
    ensures InStep(Dispatch(p, g, frame))
  {
    var parsed := p.parse(DataOf(frame));
    if parsed.Some? {
      var usage := StreamUsage(parsed.value, p.kind, g.usage);
      UsageKeeps(parsed.value, p.kind, g.usage);
      hide StreamUsage, DataOf, Keeps;
      assert usage.Some? ==> forall i :: 0 <= i < |g.observed| ==> Keeps(g.observed[i], usage.value) by {
        KeepsOn(g, usage);
      }
    }
  }

  lemma KeepsOn(g: Progress, usage: Option<TokenUsage>)
    requires InStep(g) && (g.usage.Some? ==> usage.Some? && Keeps(g.usage.value, usage.value))
    ensures usage.Some? ==> forall i :: 0 <= i < |g.observed| ==> Keeps(g.observed[i], usage.value)
  {
    forall i | usage.Some? && 0 <= i < |g.observed| ensures Keeps(g.observed[i], usage.value) {
      assert i < |g.observed| - 1 ==> Keeps(g.observed[i], g.observed[|g.observed| - 1]);
    }
  }

  lemma {:induction false} DrainInStep(p: Provider, g: Progress, buffer: string)
    requires InStep(g)
    ensures InStep(Drain(p, g, buffer).0)
    decreases |buffer|
  {
    hide Dispatch, InStep;
    var i := BlankLine(buffer);
    if g.status == Reading && i >= 0 {
      DispatchInStep(p, g, buffer[..i]);
      DrainInStep(p, Dispatch(p, g, buffer[..i]), buffer[i + 2..]);
    }
  }

  lemma {:induction false} RunInStep(p: Provider, g: Progress, buffer: string, total: nat, chunks: seq<Chunk>)
    requires InStep(g)
    ensures InStep(Run(p, g, buffer, total, chunks))
    decreases |chunks|
  {
    hide Drain, FoldLineEnds;
    if g.status == Reading && chunks != [] {
      var folded := FoldLineEnds(buffer + chunks[0].text);
      DrainInStep(p, g, folded);
      var (g', buffer') := Drain(p, g, folded);
      RunInStep(p, g', buffer', total + chunks[0].bytes, chunks[1..]);
    }
  }

  /** Whatever arrives: no empty text is shown, a usage counter once observed stays known, and the
      usage reported at the end is the last one observed, on success only. */
  lemma FinalUsageIsLastObserved(p: Provider, chunks: seq<Chunk>)
    ensures var d := Decode(p, chunks);
            && Reports(d.texts, d.observed)
            && d.final == if d.failure.None? then Latest(d.observed) else None
  {
    RunInStep(p, START, "", 0, chunks);
  }
}
