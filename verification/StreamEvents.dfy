/**
 What a stream means, read off its lines and events: the data of a frame, the texts shown, the usage
 observed and how the stream ends, each stated on the fields of the events alone.
 */
module StreamEvents {
  import opened Text
  import opened Selections
  import opened ProviderStream

  // ----- the stream as it is written -----

  /** The lines of one frame: none is empty, and none contains a line end. */
  predicate Lines(lines: seq<string>) {
    lines != [] && forall i :: 0 <= i < |lines| ==> lines[i] != "" && '\n' !in lines[i] && '\r' !in lines[i]
  }

  /** Lines, each with its line end. */
  function WrittenLines(lines: seq<string>, eol: string): string {
    if lines == [] then "" else lines[0] + eol + WrittenLines(lines[1..], eol)
  }

  /** Frames, each with an empty line after it. */
  function Written(frames: seq<seq<string>>, eol: string): string {
    if frames == [] then "" else WrittenLines(frames[0], eol) + eol + Written(frames[1..], eol)
  }

  function Joined(frames: seq<seq<string>>): (r: seq<string>)
    ensures |r| == |frames|
  {
    seq(|frames|, i requires 0 <= i < |frames| => Join(frames[i], '\n'))
  }

  lemma FoldLineThen(line: string, rest: string)
    requires '\r' !in line && '\n' !in line
    ensures FoldLineEnds(line + "\r\n" + rest) == line + "\n" + FoldLineEnds(rest)
    ensures FoldLineEnds(line + "\n" + rest) == line + "\n" + FoldLineEnds(rest)
  {
    hide FoldLineEnds;
    CleanIsFolded(line);
    CleanIsFolded(line + "\n");
    FoldCrLf(rest);
    FoldConcat(line, "\r\n" + rest);
    FoldConcat(line + "\n", rest);
    Associate(line, "\r\n", rest);
    Associate(line, "\n", FoldLineEnds(rest));
  }

  lemma {:induction false} FoldLines(lines: seq<string>, eol: string, rest: string)
    requires (eol == "\n" || eol == "\r\n") && forall i :: 0 <= i < |lines| ==> '\n' !in lines[i] && '\r' !in lines[i]
    ensures FoldLineEnds(WrittenLines(lines, eol) + rest) == WrittenLines(lines, "\n") + FoldLineEnds(rest)
  {
    if lines == [] {
      assert "" + rest == rest && "" + FoldLineEnds(rest) == FoldLineEnds(rest);
    } else {
      hide FoldLineEnds;
      var more := WrittenLines(lines[1..], eol);
      assert WrittenLines(lines, eol) + rest == lines[0] + eol + (more + rest);
      FoldLineThen(lines[0], more + rest);
      FoldLines(lines[1..], eol, rest);
      Associate(lines[0] + "\n", WrittenLines(lines[1..], "\n"), FoldLineEnds(rest));
    }
  }

  /** Line ends of either kind fold to the same text. */
  lemma {:induction false} FoldWritten(frames: seq<seq<string>>, eol: string, rest: string)
    requires (eol == "\n" || eol == "\r\n") && '\r' !in rest
    requires forall k :: 0 <= k < |frames| ==> Lines(frames[k])
    ensures FoldLineEnds(Written(frames, eol) + rest) == Written(frames, "\n") + rest
  {
    if frames == [] {
      assert "" + rest == rest;
      CleanIsFolded(rest);
    } else {
      FoldWritten(frames[1..], eol, rest);
      Grouped(frames, eol, rest);
      Grouped(frames, "\n", rest);
      assert forall i :: 0 <= i < |frames[0]| ==> '\n' !in frames[0][i] && '\r' !in frames[0][i];
      var more := Written(frames[1..], eol) + rest;
      hide *;
      FoldLines(frames[0], eol, "" + eol + more);
      FoldLineThen("", more);
    }
  }

  lemma Grouped(frames: seq<seq<string>>, eol: string, rest: string)
    requires frames != []
    ensures Written(frames, eol) + rest
            == WrittenLines(frames[0], eol) + ("" + eol + (Written(frames[1..], eol) + rest))
  {
    var lines, more := WrittenLines(frames[0], eol), Written(frames[1..], eol);
    assert Written(frames, eol) == lines + eol + more;
    hide *;
    assert "" + eol == eol;
    Associate(lines + eol, more, rest);
    Associate(lines, eol, more + rest);
  }

  /** Lines joined by LF, each followed by LF: the same text. */
  lemma {:induction false} LinesJoined(lines: seq<string>)
    requires lines != []
    ensures WrittenLines(lines, "\n") == Join(lines, '\n') + "\n"
  {
    if |lines| > 1 {
      LinesJoined(lines[1..]);
      Associate(lines[0] + ['\n'], Join(lines[1..], '\n'), "\n");
    } else {
      assert WrittenLines(lines[1..], "\n") == "";
    }
  }

  /** No blank line before the empty line that ends the frame. */
  lemma {:induction false} FrameEnd(lines: seq<string>, rest: string)
    requires Lines(lines)
    ensures BlankLine(Join(lines, '\n') + "\n\n" + rest) == |Join(lines, '\n')|
  {
    if |lines| == 1 {
      NoBlankLine(lines[0], "\n\n" + rest);
      Associate(lines[0], "\n\n", rest);
    } else {
      var back := Join(lines[1..], '\n');
      FrameEnd(lines[1..], rest);
      var tail := back + "\n\n" + rest;
      assert Join(lines, '\n') + "\n\n" + rest == lines[0] + ("\n" + tail);
      NoBlankLine(lines[0], "\n" + tail);
      assert lines[1] != "" && lines[1][0] != '\n' && tail[0] == lines[1][0];
      assert ("\n" + tail)[1..] == tail;
    }
  }

  /** The frames of a stream written as lines are those lines, whatever its line ends. */
  lemma {:induction false} FramesOfWritten(frames: seq<seq<string>>, eol: string, rest: string)
    requires (eol == "\n" || eol == "\r\n") && '\r' !in rest && !HasBlankLine(rest)
    requires forall k :: 0 <= k < |frames| ==> Lines(frames[k])
    ensures Frames(FoldLineEnds(Written(frames, eol) + rest)) == Joined(frames)
    ensures Pending(FoldLineEnds(Written(frames, eol) + rest)) == rest
  {
    FoldWritten(frames, eol, rest);
    hide FoldLineEnds;
    if frames == [] {
      BlankLineFound(rest);
      assert "" + rest == rest;
    } else {
      FoldWritten(frames[1..], "\n", rest);
      FramesOfWritten(frames[1..], "\n", rest);
      FirstOfWritten(frames, rest);
      assert Joined(frames) == [Join(frames[0], '\n')] + Joined(frames[1..]);
    }
  }

  lemma FirstOfWritten(frames: seq<seq<string>>, rest: string)
    requires frames != [] && Lines(frames[0])
    ensures var whole, more := Written(frames, "\n") + rest, Written(frames[1..], "\n") + rest;
            && Frames(whole) == [Join(frames[0], '\n')] + Frames(more)
            && Pending(whole) == Pending(more)
  {
    var frame, more := Join(frames[0], '\n'), Written(frames[1..], "\n") + rest;
    var whole := Written(frames, "\n") + rest;
    WrittenCons(frames, rest);
    FrameEnd(frames[0], more);
    hide *;
    AroundBlank(frame, more);
    FramesUnfold(whole);
  }

  lemma AroundBlank(frame: string, more: string)
    ensures var whole := frame + "\n\n" + more; whole[..|frame|] == frame && whole[|frame| + 2..] == more
  {
  }

  lemma WrittenCons(frames: seq<seq<string>>, rest: string)
    requires frames != [] && frames[0] != []
    ensures Written(frames, "\n") + rest == Join(frames[0], '\n') + "\n\n" + (Written(frames[1..], "\n") + rest)
  {
    LinesJoined(frames[0]);
    var frame, more := Join(frames[0], '\n'), Written(frames[1..], "\n");
    hide *;
    assert frame + "\n" + "\n" + more == frame + "\n\n" + more;
    Associate(frame + "\n\n", more, rest);
  }

  // ----- the data of a frame -----

  /** `value` is what follows the field name "data:", without the blanks in front. */
  predicate ValueOf(line: string, value: string) {
    && "data:" <= line && |value| + 5 <= |line| && line[|line| - |value|..] == value
    && (forall i :: 5 <= i < |line| - |value| ==> IsSpace(line[i]))
    && (value != "" ==> !IsSpace(value[0]))
  }

  /** `values` are the values of the data lines, which are those at the places `at`. */
  ghost predicate Picks(lines: seq<string>, at: seq<nat>, values: seq<string>) {
    && |at| == |values| && Increasing(at)
    && (forall k :: 0 <= k < |at| ==> at[k] < |lines| && ValueOf(lines[at[k]], values[k]))
    && (forall i :: 0 <= i < |lines| && "data:" <= lines[i] ==> i in at)
  }

  /** The data of a frame: the values of its data lines, in order, joined by LF. */
  ghost predicate IsData(lines: seq<string>, data: string) {
    exists at, values :: Picks(lines, at, values) && data == Join(values, '\n')
  }

  lemma {:induction false} TrimDropsBlanks(s: string, value: string)
    requires |value| <= |s| && s[|s| - |value|..] == value
    requires (forall i :: 0 <= i < |s| - |value| ==> IsSpace(s[i])) && (value != "" ==> !IsSpace(value[0]))
    ensures TrimStart(s) == value
  {
    hide IsSpace;
    if |value| < |s| {
      assert IsSpace(s[0]);
      TrimDropsBlanks(s[1..], value);
    } else {
      assert s == value;
    }
  }

  lemma {:induction false} DataLinesConcat(a: seq<string>, b: seq<string>)
    ensures DataLines(a + b) == DataLines(a) + DataLines(b)
  {
    hide TrimStart;
    if a == [] {
      assert a + b == b;
    } else {
      assert (a + b)[1..] == a[1..] + b;
      DataLinesConcat(a[1..], b);
    }
  }

  lemma LastPicked(lines: seq<string>, at: seq<nat>, values: seq<string>)
    requires Picks(lines, at, values) && lines != []
    ensures var n := |lines| - 1;
            if "data:" <= lines[n]
            then at != [] && at[|at| - 1] == n && Picks(lines[..n], at[..|at| - 1], values[..|at| - 1])
            else Picks(lines[..n], at, values)
  {
    hide ValueOf;
    var n := |lines| - 1;
    if "data:" <= lines[n] {
      assert n in at;
      var k :| 0 <= k < |at| && at[k] == n;
      LastOfIncreasing(at, k);
      forall i | 0 <= i < n && "data:" <= lines[..n][i] ensures i in at[..|at| - 1] {
        assert lines[i] == lines[..n][i] && i in at;
      }
    } else {
      forall k | 0 <= k < |at| ensures at[k] < n {
        NeedsField(lines[at[k]], values[k]);
      }
      forall i | 0 <= i < n && "data:" <= lines[..n][i] ensures i in at {
        assert lines[i] == lines[..n][i];
      }
    }
  }

  lemma NeedsField(line: string, value: string)
    requires ValueOf(line, value)
    ensures "data:" <= line && TrimStart(line[5..]) == value
  {
    TrimDropsBlanks(line[5..], value);
  }

  lemma {:induction false} DataLinesPicked(lines: seq<string>, at: seq<nat>, values: seq<string>)
    requires Picks(lines, at, values)
    ensures DataLines(lines) == values
  {
    if lines == [] {
      if at != [] {
        assert false;
      }
    } else {
      var n, m := |lines| - 1, |at| - 1;
      LastPicked(lines, at, values);
      DataLinesConcat(lines[..n], lines[n..]);
      assert lines[..n] + lines[n..] == lines && lines[n..] == [lines[n]];
      hide Picks, TrimStart, ValueOf;
      assert DataLines([lines[n]][1..]) == [];
      if "data:" <= lines[n] {
        NeedsFieldAt(lines, at, values, m);
        DataLinesPicked(lines[..n], at[..m], values[..m]);
        assert values == values[..m] + [values[m]];
      } else {
        DataLinesPicked(lines[..n], at, values);
      }
    }
  }

  lemma NeedsFieldAt(lines: seq<string>, at: seq<nat>, values: seq<string>, k: nat)
    requires Picks(lines, at, values) && k < |at|
    ensures |values| == |at| && at[k] < |lines| && TrimStart(lines[at[k]][5..]) == values[k]
  {
    NeedsField(lines[at[k]], values[k]);
  }

  /** The data handed over for a frame is that of its data lines. */
  lemma DataOnLines(lines: seq<string>, data: string)
    requires Lines(lines)
    ensures IsData(lines, data) ==> DataOf(Join(lines, '\n')) == data
  {
    SplitJoin(lines, '\n');
    hide Picks;
    if IsData(lines, data) {
      var at, values :| Picks(lines, at, values) && data == Join(values, '\n');
      DataLinesPicked(lines, at, values);
    }
  }

  // ----- what an event says -----

  /** The data carries an event, not the end mark. */
  predicate HasEvent(p: Provider, data: string) {
    data != "" && data != "[DONE]" && p.parse(data).Some?
  }

  predicate Rejected(ev: Event) {
    ev.error || ev.kind == "error"
  }

  predicate CutShort(ev: Event) {
    ev.finishReason == "length" || ev.stopReason == "max_tokens"
  }

  /** The non-empty text an event of a provider of this kind brings. */
  predicate Brings(kind: Kind, ev: Event, text: string) {
    && text != ""
    && (kind == Claude ==>
          ev.kind == "content_block_delta" && ev.deltaKind == "text_delta" && ev.deltaText == Some(text))
    && (kind == HuggingFace ==> !ev.special && ev.tokenText == Some(text))
    && (kind == Compatible ==> ev.content == Some(text))
  }

  predicate ShowsText(p: Provider, data: string, text: string) {
    && HasEvent(p, data)
    && var ev := p.parse(data).value;
       !Rejected(ev) && !CutShort(ev) && ev.kind != "message_stop" && Brings(p.kind, ev, text)
  }

  predicate EndsStream(p: Provider, data: string) {
    || data == "[DONE]"
    || (&& HasEvent(p, data)
        && var ev := p.parse(data).value;
           !Rejected(ev) && !CutShort(ev) && (ev.kind == "message_stop" || (p.kind == HuggingFace && ev.generated)))
  }

  predicate FailsWith(p: Provider, data: string, e: StreamError) {
    match e
    case InvalidEvent => data != "" && data != "[DONE]" && p.parse(data).None?
    case ProviderFailed => HasEvent(p, data) && Rejected(p.parse(data).value)
    case OutputLimit => HasEvent(p, data) && !Rejected(p.parse(data).value) && CutShort(p.parse(data).value)
    case StreamTooLong => false
    case EventTooLong => false
    case EndedEarly => false
  }

  ghost predicate Stops(p: Provider, data: string) {
    EndsStream(p, data) || exists e :: FailsWith(p, data, e)
  }

  // ----- the usage an event reports -----

  datatype Counter = Prompt | Completion | CachedInput | CacheWrite

  function CounterOf(u: TokenUsage, c: Counter): Option<nat> {
    match c
    case Prompt => u.prompt
    case Completion => u.completion
    case CachedInput => u.cachedInput
    case CacheWrite => u.cacheWrite
  }

  /** Claude reports usage in its first message and in deltas, the others in any event. */
  predicate CarriesUsage(kind: Kind, ev: Event, raw: RawUsage) {
    || (kind != Claude && ev.usage == Some(raw))
    || (kind == Claude && ev.kind == "message_start" && ev.messageUsage == Some(raw))
    || (kind == Claude && ev.kind == "message_delta" && ev.usage == Some(raw))
  }

  /** The value of a counter; Claude's input leaves out what was read from or written to its cache. */
  predicate Says(kind: Kind, raw: RawUsage, c: Counter, v: nat) {
    match c
    case Prompt =>
      && raw.input.Some?
      && (kind != Claude ==> v == raw.input.value)
      && (kind == Claude ==>
            v == raw.input.value + (if raw.cached.Some? then raw.cached.value else 0)
                 + (if raw.written.Some? then raw.written.value else 0))
    case Completion => raw.output == Some(v)
    case CachedInput => raw.cached == Some(v)
    case CacheWrite => raw.written == Some(v)
  }

  ghost predicate ReportsUsage(p: Provider, data: string) {
    HasEvent(p, data) && exists raw :: CarriesUsage(p.kind, p.parse(data).value, raw)
  }

  ghost predicate ReportsCounter(p: Provider, data: string, c: Counter, v: nat) {
    HasEvent(p, data) && exists raw :: CarriesUsage(p.kind, p.parse(data).value, raw) && Says(p.kind, raw, c, v)
  }

  ghost predicate LastReport(p: Provider, datas: seq<string>, k: nat, c: Counter, v: nat)
    requires k <= |datas|
  {
    exists i :: 0 <= i < k && ReportsCounter(p, datas[i], c, v)
                && forall j, w: nat :: i < j < k ==> !ReportsCounter(p, datas[j], c, w)
  }

  /** Each counter is the one reported last among the first `k` frames. */
  ghost predicate UsageIs(p: Provider, datas: seq<string>, k: nat, u: TokenUsage)
    requires k <= |datas|
  {
    forall c, v: nat :: CounterOf(u, c) == Some(v) <==> LastReport(p, datas, k, c, v)
  }

  ghost predicate UsageBy(p: Provider, datas: seq<string>, k: nat)
    requires k <= |datas|
  {
    exists i :: 0 <= i < k && ReportsUsage(p, datas[i])
  }

  // ----- one frame -----

  lemma DispatchOnData(p: Provider, g: Progress, frame: string)
    requires g.status == Reading
    ensures var data, after := DataOf(frame), Dispatch(p, g, frame);
            && (after.status == Ended <==> EndsStream(p, data))
            && (forall e :: after.status == Failed(e) <==> FailsWith(p, data, e))
            && (forall t :: ShowsText(p, data, t) ==> after.texts == g.texts + [t])
            && ((forall t :: !ShowsText(p, data, t)) ==> after.texts == g.texts)
            && (if HasEvent(p, data)
                then
                  && after.usage == StreamUsage(p.parse(data).value, p.kind, g.usage)
                  && after.observed == if after.usage.Some? then g.observed + [after.usage.value] else g.observed
                else after.usage == g.usage && after.observed == g.observed)
  {
    hide DataOf, StreamUsage;
    var data, after := DataOf(frame), Dispatch(p, g, frame);
    if HasEvent(p, data) {
      var ev := p.parse(data).value;
      var text := TextOf(ev, p.kind);
      assert text.Some? && text.value != "" ==> Brings(p.kind, ev, text.value);
      assert after.texts != g.texts ==> text.Some? && ShowsText(p, data, text.value);
    }
  }

  lemma UsageOnFields(p: Provider, data: string, previous: Option<TokenUsage>)
    requires HasEvent(p, data)
    ensures var u := StreamUsage(p.parse(data).value, p.kind, previous);
            && (u.Some? <==> previous.Some? || ReportsUsage(p, data))
            && (u.Some? ==>
                  forall c, v: nat ::
                    CounterOf(u.value, c) == Some(v) <==>
                    || ReportsCounter(p, data, c, v)
                    || (&& (forall w: nat :: !ReportsCounter(p, data, c, w))
                        && previous.Some? && CounterOf(previous.value, c) == Some(v)))
  {
    var ev := p.parse(data).value;
    var u := StreamUsage(ev, p.kind, previous);
    if raw :| CarriesUsage(p.kind, ev, raw) {
      assert ReportsUsage(p, data);
      forall c, v: nat ensures ReportsCounter(p, data, c, v) <==> Says(p.kind, raw, c, v) {
      }
      forall c, v: nat
        ensures CounterOf(u.value, c) == Some(v) <==>
                || Says(p.kind, raw, c, v)
                || (&& (forall w: nat :: !Says(p.kind, raw, c, w))
                    && previous.Some? && CounterOf(previous.value, c) == Some(v))
      {
        SaysOne(p.kind, raw, c);
      }
    } else {
      if ev.usage.Some? {
        assert !CarriesUsage(p.kind, ev, ev.usage.value);
      }
      if ev.messageUsage.Some? {
        assert !CarriesUsage(p.kind, ev, ev.messageUsage.value);
      }
      assert u == previous && !ReportsUsage(p, data);
      assert forall c, w: nat :: !ReportsCounter(p, data, c, w);
    }
  }

  lemma SaysOne(kind: Kind, raw: RawUsage, c: Counter)
    ensures (c == Prompt && raw.input.Some?) || (c == Completion && raw.output.Some?)
            || (c == CachedInput && raw.cached.Some?) || (c == CacheWrite && raw.written.Some?)
            <==> exists v :: Says(kind, raw, c, v)
  {
    match c
    case Prompt =>
      if raw.input.Some? {
        var v := raw.input.value + if kind != Claude then 0 else Count(raw.cached) + Count(raw.written);
        assert Says(kind, raw, c, v);
      }
    case Completion => if raw.output.Some? { assert Says(kind, raw, c, raw.output.value); }
    case CachedInput => if raw.cached.Some? { assert Says(kind, raw, c, raw.cached.value); }
    case CacheWrite => if raw.written.Some? { assert Says(kind, raw, c, raw.written.value); }
  }

  // ----- a whole stream -----

  /** `texts` are the texts shown for the first `k` frames: one for each frame that shows any, in order. */
  ghost predicate ShownAt(p: Provider, datas: seq<string>, k: nat, at: seq<nat>, texts: seq<string>)
    requires k <= |datas|
  {
    && |at| == |texts| && Increasing(at)
    && (forall m :: 0 <= m < |at| ==> at[m] < k && ShowsText(p, datas[at[m]], texts[m]))
    && (forall i, t :: 0 <= i < k && ShowsText(p, datas[i], t) ==> i in at)
  }

  /** Once usage is known it is observed with every event, as reported up to then. */
  ghost predicate ObservedAt(p: Provider, datas: seq<string>, k: nat, seen: seq<nat>, observed: seq<TokenUsage>)
    requires k <= |datas|
  {
    && |seen| == |observed| && Increasing(seen)
    && (forall m :: 0 <= m < |seen| ==> seen[m] < k && UsageIs(p, datas, seen[m] + 1, observed[m]))
    && (forall i :: 0 <= i < k ==> (i in seen <==> HasEvent(p, datas[i]) && UsageBy(p, datas, i + 1)))
  }

  ghost predicate KnownUsage(p: Provider, datas: seq<string>, k: nat, usage: Option<TokenUsage>)
    requires k <= |datas|
  {
    && (usage.Some? <==> UsageBy(p, datas, k))
    && (usage.Some? ==> UsageIs(p, datas, k, usage.value))
  }

  /** The first `n` frames neither end nor fail the stream, and the next one, if there is one, does. */
  ghost predicate FirstStop(p: Provider, datas: seq<string>, n: nat) {
    && n <= |datas|
    && (forall i :: 0 <= i < n ==> !Stops(p, datas[i]))
    && (n < |datas| ==> Stops(p, datas[n]))
  }

  /** What a consumer gets from frames with these data, the stream stopping at frame `n`. */
  ghost predicate Means(p: Provider, datas: seq<string>, n: nat, d: Decoded)
    requires n <= |datas|
  {
    var k := if n < |datas| then n + 1 else n;
    && (exists at :: ShownAt(p, datas, k, at, d.texts))
    && (exists seen :: ObservedAt(p, datas, k, seen, d.observed))
    && (d.failure == None <==> n < |datas| && EndsStream(p, datas[n]))
    && (d.failure == Some(EndedEarly) <==> n == |datas|)
    && (forall e :: e != EndedEarly ==> (d.failure == Some(e) <==> n < |datas| && FailsWith(p, datas[n], e)))
    && (d.failure == None ==> KnownUsage(p, datas, k, d.final))
    && (d.failure != None ==> d.final == None)
  }

  lemma ShownNext(p: Provider, datas: seq<string>, k: nat, at: seq<nat>, texts: seq<string>, g: Progress, frame: string)
    returns (at': seq<nat>)
    requires k < |datas| && datas[k] == DataOf(frame) && g.status == Reading && g.texts == texts
    requires ShownAt(p, datas, k, at, texts)
    ensures ShownAt(p, datas, k + 1, at', Dispatch(p, g, frame).texts)
  {
    DispatchOnData(p, g, frame);
    hide Dispatch, DataOf, ShowsText;
    if t :| ShowsText(p, datas[k], t) {
      at' := at + [k];
    } else {
      at' := at;
    }
  }

  lemma UsageNext(p: Provider, datas: seq<string>, k: nat, g: Progress, frame: string)
    requires k < |datas| && datas[k] == DataOf(frame) && g.status == Reading && KnownUsage(p, datas, k, g.usage)
    ensures KnownUsage(p, datas, k + 1, Dispatch(p, g, frame).usage)
  {
    DispatchOnData(p, g, frame);
    var data, u := datas[k], Dispatch(p, g, frame).usage;
    ReportsNeedEvents(p, data);
    if HasEvent(p, data) {
      UsageOnFields(p, data, g.usage);
    }
    hide Dispatch, DataOf, StreamUsage, ReportsUsage, ReportsCounter, HasEvent, CounterOf;
    assert UsageBy(p, datas, k + 1) <==> UsageBy(p, datas, k) || ReportsUsage(p, data);
    if u.Some? {
      forall c, v: nat ensures CounterOf(u.value, c) == Some(v) <==> LastReport(p, datas, k + 1, c, v) {
        LastReportNext(p, datas, k, c, v);
        if g.usage.None? {
          assert !UsageBy(p, datas, k);
          NoReports(p, datas, k, c, v);
        }
      }
    }
  }

  lemma ReportsNeedEvents(p: Provider, data: string)
    ensures ReportsUsage(p, data) ==> HasEvent(p, data)
    ensures forall c, v: nat :: ReportsCounter(p, data, c, v) ==> ReportsUsage(p, data)
  {
  }

  lemma NoReports(p: Provider, datas: seq<string>, k: nat, c: Counter, v: nat)
    requires k <= |datas| && !UsageBy(p, datas, k)
    ensures !LastReport(p, datas, k, c, v)
  {
    hide ReportsUsage, ReportsCounter;
    if LastReport(p, datas, k, c, v) {
      var i :| 0 <= i < k && ReportsCounter(p, datas[i], c, v);
      ReportsNeedEvents(p, datas[i]);
    }
  }

  /** One more frame: its own report is the last, and otherwise the last one before. */
  lemma LastReportNext(p: Provider, datas: seq<string>, k: nat, c: Counter, v: nat)
    requires k < |datas|
    ensures LastReport(p, datas, k + 1, c, v) <==>
            || ReportsCounter(p, datas[k], c, v)
            || ((forall w: nat :: !ReportsCounter(p, datas[k], c, w)) && LastReport(p, datas, k, c, v))
  {
    hide ReportsCounter;
    if LastReport(p, datas, k + 1, c, v) {
      var i :| 0 <= i < k + 1 && ReportsCounter(p, datas[i], c, v)
               && forall j, w: nat :: i < j < k + 1 ==> !ReportsCounter(p, datas[j], c, w);
      if i < k {
        assert LastReport(p, datas, k, c, v);
      }
    }
  }

  lemma ObservedNext(p: Provider, datas: seq<string>, k: nat, seen: seq<nat>, g: Progress, frame: string)
    returns (seen': seq<nat>)
    requires k < |datas| && datas[k] == DataOf(frame) && g.status == Reading
    requires ObservedAt(p, datas, k, seen, g.observed) && KnownUsage(p, datas, k + 1, Dispatch(p, g, frame).usage)
    ensures ObservedAt(p, datas, k + 1, seen', Dispatch(p, g, frame).observed)
  {
    DispatchOnData(p, g, frame);
    hide *;
    var after := Dispatch(p, g, frame);
    seen' := ObservedStep(p, datas, k, seen, g.observed, after.usage, after.observed);
  }

  lemma ObservedStep(p: Provider, datas: seq<string>, k: nat, seen: seq<nat>, was: seq<TokenUsage>,
                     usage: Option<TokenUsage>, observed: seq<TokenUsage>)
    returns (seen': seq<nat>)
    requires k < |datas| && ObservedAt(p, datas, k, seen, was) && KnownUsage(p, datas, k + 1, usage)
    requires observed == if HasEvent(p, datas[k]) && usage.Some? then was + [usage.value] else was
    ensures ObservedAt(p, datas, k + 1, seen', observed)
  {
    hide HasEvent, UsageBy, UsageIs;
    if HasEvent(p, datas[k]) && usage.Some? {
      seen' := seen + [k];
      assert forall m :: 0 <= m < |seen| ==> observed[m] == was[m];
    } else {
      seen' := seen;
    }
  }

  /** The first `k` frames, none of them but the last stopping the stream. */
  lemma {:induction false} FeedTo(p: Provider, frames: seq<string>, datas: seq<string>, k: nat)
    returns (at: seq<nat>, seen: seq<nat>)
    requires k <= |frames| == |datas| && forall i :: 0 <= i < |frames| ==> datas[i] == DataOf(frames[i])
    requires forall i :: 0 <= i < k - 1 ==> !Stops(p, datas[i])
    ensures var g := Feed(p, START, frames[..k]);
            && ShownAt(p, datas, k, at, g.texts) && ObservedAt(p, datas, k, seen, g.observed)
            && KnownUsage(p, datas, k, g.usage)
            && (g.status == Reading <==> k == 0 || !Stops(p, datas[k - 1]))
            && (g.status == Ended <==> k > 0 && EndsStream(p, datas[k - 1]))
            && (forall e :: g.status == Failed(e) <==> k > 0 && FailsWith(p, datas[k - 1], e))
  {
    if k == 0 {
      at, seen := [], [];
    } else {
      at, seen := FeedTo(p, frames, datas, k - 1);
      var g, frame := Feed(p, START, frames[..k - 1]), frames[k - 1];
      FeedSnoc(p, frames, k);
      at := ShownNext(p, datas, k - 1, at, g.texts, g, frame);
      UsageNext(p, datas, k - 1, g, frame);
      seen := ObservedNext(p, datas, k - 1, seen, g, frame);
      DispatchOnData(p, g, frame);
      hide Dispatch, Feed, DataOf, EndsStream, FailsWith, ShownAt, ObservedAt, KnownUsage;
    }
  }

  lemma FeedSnoc(p: Provider, frames: seq<string>, k: nat)
    requires 0 < k <= |frames| && Feed(p, START, frames[..k - 1]).status == Reading
    ensures Feed(p, START, frames[..k]) == Dispatch(p, Feed(p, START, frames[..k - 1]), frames[k - 1])
  {
    var g, last := Feed(p, START, frames[..k - 1]), [frames[k - 1]];
    assert frames[..k] == frames[..k - 1] + last && last[1..] == [];
    FeedConcat(p, START, frames[..k - 1], last);
    assert Feed(p, g, last) == Feed(p, Dispatch(p, g, last[0]), last[1..]);
  }

  lemma FeedOnEvents(p: Provider, frames: seq<string>, datas: seq<string>, n: nat)
    requires |frames| == |datas| && forall i :: 0 <= i < |frames| ==> datas[i] == DataOf(frames[i])
    requires FirstStop(p, datas, n)
    ensures Means(p, datas, n, Conclude(Feed(p, START, frames)))
  {
    var k := if n < |datas| then n + 1 else n;
    var at, seen := FeedTo(p, frames, datas, k);
    var g := Feed(p, START, frames[..k]);
    assert frames == frames[..k] + frames[k..];
    FeedConcat(p, START, frames[..k], frames[k..]);
    StopsIff(p, datas, n, g.status);
    hide *;
    FeedOver(p, g, frames[k..]);
    MeansAt(p, datas, n, g, at, seen);
  }

  /** Where the stream stops, and that it stops, told by the status. */
  lemma StopsIff(p: Provider, datas: seq<string>, n: nat, status: Status)
    requires FirstStop(p, datas, n)
    requires var k := if n < |datas| then n + 1 else n;
             && (status == Reading <==> k == 0 || !Stops(p, datas[k - 1]))
             && (status == Ended <==> k > 0 && EndsStream(p, datas[k - 1]))
             && (forall e :: status == Failed(e) <==> k > 0 && FailsWith(p, datas[k - 1], e))
    ensures status == Reading <==> n == |datas|
    ensures status == Ended <==> n < |datas| && EndsStream(p, datas[n])
    ensures forall e :: status == Failed(e) <==> n < |datas| && FailsWith(p, datas[n], e)
    ensures status != Failed(EndedEarly)
  {
    NotEarly(p, datas);
    hide EndsStream, FailsWith;
  }

  lemma MeansAt(p: Provider, datas: seq<string>, n: nat, g: Progress, at: seq<nat>, seen: seq<nat>)
    requires n <= |datas| && g.status != Failed(EndedEarly)
    requires g.status == Reading <==> n == |datas|
    requires g.status == Ended <==> n < |datas| && EndsStream(p, datas[n])
    requires forall e :: g.status == Failed(e) <==> n < |datas| && FailsWith(p, datas[n], e)
    requires var k := if n < |datas| then n + 1 else n;
             ShownAt(p, datas, k, at, g.texts) && ObservedAt(p, datas, k, seen, g.observed)
             && KnownUsage(p, datas, k, g.usage)
    ensures Means(p, datas, n, Conclude(g))
  {
    hide FailsWith, EndsStream, ShownAt, ObservedAt, KnownUsage;
    var d, k := Conclude(g), if n < |datas| then n + 1 else n;
    assert ShownAt(p, datas, k, at, d.texts) && ObservedAt(p, datas, k, seen, d.observed);
  }

  lemma NotEarly(p: Provider, datas: seq<string>)
    ensures forall i :: 0 <= i < |datas| ==> !FailsWith(p, datas[i], EndedEarly)
  {
  }

  lemma FeedOver(p: Provider, g: Progress, frames: seq<string>)
    requires g.status != Reading || frames == []
    ensures Feed(p, g, frames) == g
  {
  }

  /** No CR without an LF after it. */
  predicate OnlyLineEnds(s: string) {
    forall i :: 0 <= i < |s| && s[i] == '\r' ==> i + 1 < |s| && s[i + 1] == '\n'
  }

  lemma OnlyLineEndsConcat(a: string, b: string)
    requires OnlyLineEnds(a) && OnlyLineEnds(b)
    ensures OnlyLineEnds(a + b)
  {
  }

  lemma {:induction false} WrittenLinesEnd(lines: seq<string>, eol: string)
    requires (eol == "\n" || eol == "\r\n") && forall i :: 0 <= i < |lines| ==> '\r' !in lines[i]
    ensures OnlyLineEnds(WrittenLines(lines, eol))
  {
    if lines != [] {
      WrittenLinesEnd(lines[1..], eol);
      OnlyLineEndsConcat(lines[0], eol);
      OnlyLineEndsConcat(lines[0] + eol, WrittenLines(lines[1..], eol));
    }
  }

  lemma {:induction false} WrittenEnds(frames: seq<seq<string>>, eol: string)
    requires (eol == "\n" || eol == "\r\n") && forall k :: 0 <= k < |frames| ==> Lines(frames[k])
    ensures OnlyLineEnds(Written(frames, eol))
  {
    if frames != [] {
      WrittenEnds(frames[1..], eol);
      WrittenLinesEnd(frames[0], eol);
      OnlyLineEndsConcat(WrittenLines(frames[0], eol), eol);
      OnlyLineEndsConcat(WrittenLines(frames[0], eol) + eol, Written(frames[1..], eol));
    }
  }

  /** A stream of frames, in any chunks and with either line end: the texts shown are, in order, those of
      the events before the first that stops the stream and of that one if it ends it with a text; the
      usage observed and the way it ends are as the events say. A limit shows no more than that. */
  lemma DecodeOnEvents(p: Provider, chunks: seq<Chunk>, frames: seq<seq<string>>, datas: seq<string>, eol: string,
                       rest: string, n: nat)
    requires (eol == "\n" || eol == "\r\n") && TextsOf(chunks) == Written(frames, eol) + rest
    requires '\r' !in rest && !HasBlankLine(rest) && |frames| == |datas|
    requires forall k :: 0 <= k < |frames| ==> Lines(frames[k]) && IsData(frames[k], datas[k])
    requires FirstStop(p, datas, n)
    ensures var d := Decode(p, chunks);
            if LimitFailure(d)
            then exists whole :: Means(p, datas, n, whole) && d.texts <= whole.texts && d.observed <= whole.observed
            else Means(p, datas, n, d)
  {
    assert n <= |datas|;
    hide Means, Decode, FirstStop, Lines, IsData, Reference;
    WrittenEnds(frames, eol);
    OnlyLineEndsConcat(Written(frames, eol), rest);
    assert !HasCrCrLf(TextsOf(chunks));
    DecodeMatchesReference(p, chunks);
    ReferenceOnEvents(p, frames, datas, eol, rest, n);
    assert Means(p, datas, n, Reference(p, TextsOf(chunks)));
  }

  lemma ReferenceOnEvents(p: Provider, frames: seq<seq<string>>, datas: seq<string>, eol: string, rest: string, n: nat)
    requires (eol == "\n" || eol == "\r\n") && '\r' !in rest && !HasBlankLine(rest) && |frames| == |datas|
    requires forall k :: 0 <= k < |frames| ==> Lines(frames[k]) && IsData(frames[k], datas[k])
    requires FirstStop(p, datas, n)
    ensures Means(p, datas, n, Reference(p, Written(frames, eol) + rest))
  {
    hide Means, FirstStop, Lines, IsData, Feed, DataOf;
    FramesOfWritten(frames, eol, rest);
    forall k | 0 <= k < |frames| ensures datas[k] == DataOf(Joined(frames)[k]) {
      DataOnLines(frames[k], datas[k]);
    }
    FeedOnEvents(p, Joined(frames), datas, n);
  }

  // ----- the limits -----

  /** After every chunk no more than `limit` characters of an unfinished frame are waiting. */
  ghost predicate WaitsWithin(read: string, chunks: seq<Chunk>, limit: nat) {
    forall k :: 0 < k <= |chunks| ==> |Pending(FoldLineEnds(read + TextsOf(chunks[..k])))| <= limit
  }

  lemma WaitsCons(read: string, chunks: seq<Chunk>, limit: nat)
    requires chunks != []
    ensures WaitsWithin(read, chunks, limit) <==>
            && |Pending(FoldLineEnds(read + chunks[0].text))| <= limit
            && WaitsWithin(read + chunks[0].text, chunks[1..], limit)
  {
    hide Pending, FoldLineEnds;
    var text, back := chunks[0].text, chunks[1..];
    forall k | 0 < k <= |chunks| ensures read + TextsOf(chunks[..k]) == read + text + TextsOf(back[..k - 1]) {
      assert chunks[..k][1..] == back[..k - 1];
      Associate(read, text, TextsOf(back[..k - 1]));
    }
    assert read + text + TextsOf(back[..0]) == read + text;
    if WaitsWithin(read, chunks, limit) {
      assert |Pending(FoldLineEnds(read + TextsOf(chunks[..1])))| <= limit;
      forall k | 0 < k <= |back| ensures |Pending(FoldLineEnds(read + text + TextsOf(back[..k])))| <= limit {
        assert |Pending(FoldLineEnds(read + TextsOf(chunks[..k + 1])))| <= limit;
      }
    }
    if WaitsWithin(read + text, back, limit) && |Pending(FoldLineEnds(read + text))| <= limit {
      forall k | 0 < k <= |chunks| ensures |Pending(FoldLineEnds(read + TextsOf(chunks[..k])))| <= limit {
        assert k > 1 ==> |Pending(FoldLineEnds(read + text + TextsOf(back[..k - 1])))| <= limit;
      }
    }
  }

  lemma {:induction false} RunsOutIff(p: Provider, g: Progress, read: string, total: nat, chunks: seq<Chunk>)
    requires g.status == Reading && g == Feed(p, START, Frames(FoldLineEnds(read)))
    requires !HasCrCrLf(read + TextsOf(chunks)) && total <= 2097152
    ensures Run(p, g, Pending(FoldLineEnds(read)), total, chunks).status == Reading <==>
            && Feed(p, START, Frames(FoldLineEnds(read + TextsOf(chunks)))).status == Reading
            && total + BytesOf(chunks) <= 2097152
            && WaitsWithin(read, chunks, 262144)
    decreases |chunks|
  {
    if chunks == [] {
      assert read + "" == read;
      assert WaitsWithin(read, chunks, 262144);
    } else {
      NextChunk(read, chunks);
      WaitsCons(read, chunks, 262144);
      hide *;
      var text, back := chunks[0].text, chunks[1..];
      var pending, total' := Pending(FoldLineEnds(read)), total + chunks[0].bytes;
      CrCrLfStays(read + text, TextsOf(back));
      ChunkIsFeed(p, g, read, text);
      WholeFollows(p, read + text, TextsOf(back));
      RunStepReading(p, g, pending, total, chunks);
      var (g', buffer') := Drain(p, g, FoldLineEnds(pending + text));
      if total' <= 2097152 && g'.status == Reading && |buffer'| <= 262144 {
        RunsOutIff(p, g', read + text, total', back);
      }
    }
  }

  lemma NextChunk(read: string, chunks: seq<Chunk>)
    requires chunks != []
    ensures read + TextsOf(chunks) == read + chunks[0].text + TextsOf(chunks[1..])
    ensures BytesOf(chunks) == chunks[0].bytes + BytesOf(chunks[1..])
  {
    Associate(read, chunks[0].text, TextsOf(chunks[1..]));
  }

  lemma RunStepReading(p: Provider, g: Progress, buffer: string, total: nat, chunks: seq<Chunk>)
    requires g.status == Reading && chunks != []
    ensures var total', r := total + chunks[0].bytes, Run(p, g, buffer, total, chunks);
            var (g', buffer') := Drain(p, g, FoldLineEnds(buffer + chunks[0].text));
            if total' <= 2097152 && g'.status == Reading && |buffer'| <= 262144
            then r == Run(p, g', buffer', total', chunks[1..])
            else r.status != Reading
  {
    hide Drain, FoldLineEnds, Run;
    RunStep(p, g, buffer, total, chunks);
    var (g', buffer') := Drain(p, g, FoldLineEnds(buffer + chunks[0].text));
    RunOver(p, g', buffer', total + chunks[0].bytes, chunks[1..]);
  }

  /** Whatever the cuts, a stream runs out unstopped exactly when nothing in its text stops it, its bytes
      are within 2 MiB, and never more than 262144 characters of an unfinished frame are waiting. */
  lemma EndedEarlyIff(p: Provider, chunks: seq<Chunk>)
    requires !HasCrCrLf(TextsOf(chunks))
    ensures Decode(p, chunks).failure == Some(EndedEarly) <==>
            && Reference(p, TextsOf(chunks)).failure == Some(EndedEarly)
            && BytesOf(chunks) <= 2097152 && WaitsWithin("", chunks, 262144)
  {
    assert Frames(FoldLineEnds("")) == [] && Pending(FoldLineEnds("")) == "";
    assert "" + TextsOf(chunks) == TextsOf(chunks);
    hide Run, Feed, Frames, FoldLineEnds, Pending, WaitsWithin, BytesOf;
    RunsOutIff(p, START, "", 0, chunks);
    FeedNotEarly(p, START, Frames(FoldLineEnds(TextsOf(chunks))));
    RunNotEarly(p, START, "", 0, chunks);
  }

  lemma DispatchNotEarly(p: Provider, g: Progress, frame: string)
    requires g.status != Failed(EndedEarly)
    ensures Dispatch(p, g, frame).status != Failed(EndedEarly)
  {
  }

  lemma {:induction false} FeedNotEarly(p: Provider, g: Progress, frames: seq<string>)
    requires g.status != Failed(EndedEarly)
    ensures Feed(p, g, frames).status != Failed(EndedEarly)
    decreases |frames|
  {
    hide Dispatch;
    if g.status == Reading && frames != [] {
      DispatchNotEarly(p, g, frames[0]);
      FeedNotEarly(p, Dispatch(p, g, frames[0]), frames[1..]);
    }
  }

  lemma {:induction false} RunNotEarly(p: Provider, g: Progress, buffer: string, total: nat, chunks: seq<Chunk>)
    requires g.status != Failed(EndedEarly)
    ensures Run(p, g, buffer, total, chunks).status != Failed(EndedEarly)
    decreases |chunks|
  {
    hide Drain, FoldLineEnds, Frames, Feed;
    if g.status == Reading && chunks != [] {
      var folded := FoldLineEnds(buffer + chunks[0].text);
      DrainIsFeed(p, g, folded);
      FeedNotEarly(p, g, Frames(folded));
      var (g', buffer') := Drain(p, g, folded);
      RunNotEarly(p, g', buffer', total + chunks[0].bytes, chunks[1..]);
    }
  }
}
