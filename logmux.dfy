/**
 * The log multiplexer: named log streams whose writes are cut into complete
 * lines, each sent to a shared channel behind the stream's coloured label.
 * A write without a newline is held back and sent by a timer if no newline
 * follows; in a write with a newline, the bytes after the last newline are
 * dropped.
 * The goroutine that drains the channel into the output writer, the mutexes and
 * the real timer are outside the model: the channel is the record of what was
 * sent, and the timer firing is the method Flush, which a scheduler may call
 * between writes while the timer is pending.
 */
module Logging {
  import opened Wrappers
  import opened Text

  const NEWLINE: Byte := 10
  /** Idle time after a partial line before the timer flushes it. */
  const FLUSH_TIMEOUT_MS: nat := 10
  /** Horizontal gap after the longest name, and the label's right margin. */
  const LABEL_GAP: nat := 2
  const LABEL_BORDER: string := "#3C3C3C"

  /** A palette colour, known by its hex form. */
  datatype Color = Color(hex: string)
  const ZERO_COLOR: Color := Color("#000000")

  /** The label style of a stream: coloured text, right border, padding and margin. */
  datatype Style = Style(foreground: Color, borderRight: bool, borderForeground: string,
                         paddingRight: nat, marginRight: nat)

  /** The label style of a stream called name when the longest name is maxlen long. */
  function LabelStyle(clr: Color, maxlen: nat, name: string): (st: Style)
    requires |name| <= maxlen
    ensures |name| + st.paddingRight == maxlen + LABEL_GAP
    ensures st.paddingRight >= LABEL_GAP
    ensures st.foreground == clr && st.borderRight && st.borderForeground == LABEL_BORDER
    ensures st.marginRight == LABEL_GAP
  {
    Style(clr, true, LABEL_BORDER, maxlen - |name| + LABEL_GAP, LABEL_GAP)
  }

  // ---------------------------------------------------------------------------
  // Cutting a byte stream into lines

  /** A complete line: ends in a newline and holds no other. */
  predicate IsLine(l: Bytes) {
    |l| > 0 && l[|l| - 1] == NEWLINE && NEWLINE !in l[..|l| - 1]
  }

  /** The complete lines of s, in order. */
  function CompleteLines(s: Bytes): (lines: seq<Bytes>)
    decreases |s|
  {
    if NEWLINE !in s then []
    else
      var i := IndexOf(s, NEWLINE);
      [s[..i + 1]] + CompleteLines(s[i + 1..])
  }

  /** Every complete line ends in a newline and holds no other. */
  lemma {:induction false} CompleteLinesAreLines(s: Bytes)
    ensures forall k :: 0 <= k < |CompleteLines(s)| ==> IsLine(CompleteLines(s)[k])
    decreases |s|
  {
    if NEWLINE in s {
      var i := IndexOf(s, NEWLINE);
      var line, rest := s[..i + 1], s[i + 1..];
      CompleteLinesAreLines(rest);
      UnfoldCompleteLines(s);
      assert line[..i] == s[..i];
      assert IsLine(line);
    }
  }

  /** What follows the last newline of s. */
  function Trailing(s: Bytes): (t: Bytes)
    ensures NEWLINE !in t
    ensures |t| <= |s|
    decreases |s|
  {
    if NEWLINE !in s then s else Trailing(s[IndexOf(s, NEWLINE) + 1..])
  }

  function Concat(chunks: seq<Bytes>): Bytes {
    if chunks == [] then [] else chunks[0] + Concat(chunks[1..])
  }

  /** The complete lines followed by the trailing bytes give back the input. */
  lemma {:induction false} LinesReassemble(s: Bytes)
    ensures Concat(CompleteLines(s)) + Trailing(s) == s
    decreases |s|
  {
    if NEWLINE in s {
      var line, rest := SplitFirstLine(s);
      LinesReassemble(rest);
      ConcatCons(line, CompleteLines(rest));
      AppendAssoc(line, Concat(CompleteLines(rest)), Trailing(rest));
    }
  }

  /** The first line of s and what follows it. */
  lemma SplitFirstLine(s: Bytes) returns (line: Bytes, rest: Bytes)
    requires NEWLINE in s
    ensures s == line + rest && |rest| < |s|
    ensures CompleteLines(s) == [line] + CompleteLines(rest) && Trailing(s) == Trailing(rest)
  {
    var i := IndexOf(s, NEWLINE);
    line, rest := s[..i + 1], s[i + 1..];
    UnfoldLines(s);
  }

  lemma AppendAssoc<T>(a: seq<T>, b: seq<T>, c: seq<T>)
    ensures (a + b) + c == a + (b + c)
  {
  }

  lemma UnfoldLines(s: Bytes)
    requires NEWLINE in s
    ensures CompleteLines(s) == [s[..IndexOf(s, NEWLINE) + 1]] + CompleteLines(s[IndexOf(s, NEWLINE) + 1..])
    ensures Trailing(s) == Trailing(s[IndexOf(s, NEWLINE) + 1..])
  {
    UnfoldCompleteLines(s);
    UnfoldTrailing(s);
  }

  lemma UnfoldCompleteLines(s: Bytes)
    requires NEWLINE in s
    ensures CompleteLines(s) == [s[..IndexOf(s, NEWLINE) + 1]] + CompleteLines(s[IndexOf(s, NEWLINE) + 1..])
  {
  }

  lemma UnfoldTrailing(s: Bytes)
    requires NEWLINE in s
    ensures Trailing(s) == Trailing(s[IndexOf(s, NEWLINE) + 1..])
  {
  }

  /** Reading one line off s moves it from the pending lines to the emitted ones. */
  lemma LinesStep(input: Bytes, emitted: seq<Bytes>, s: Bytes)
    requires NEWLINE in s && CompleteLines(input) == emitted + CompleteLines(s)
    ensures CompleteLines(input)
            == (emitted + [s[..IndexOf(s, NEWLINE) + 1]]) + CompleteLines(s[IndexOf(s, NEWLINE) + 1..])
  {
    UnfoldLines(s);
    var line, rest := s[..IndexOf(s, NEWLINE) + 1], CompleteLines(s[IndexOf(s, NEWLINE) + 1..]);
    assert (emitted + [line]) + rest == emitted + ([line] + rest);
  }

  lemma ConcatCons(chunk: Bytes, chunks: seq<Bytes>)
    ensures Concat([chunk] + chunks) == chunk + Concat(chunks)
  {
    assert ([chunk] + chunks)[1..] == chunks;
  }

  /** Input that ends in a newline is carried whole by its complete lines. */
  lemma {:induction false} LinesLossless(s: Bytes)
    requires |s| > 0 && s[|s| - 1] == NEWLINE
    ensures Concat(CompleteLines(s)) == s
    decreases |s|
  {
    TrailingEmpty(s);
    LinesReassemble(s);
    assert Concat(CompleteLines(s)) + [] == Concat(CompleteLines(s));
  }

  lemma {:induction false} TrailingEmpty(s: Bytes)
    requires |s| > 0 && s[|s| - 1] == NEWLINE
    ensures Trailing(s) == []
    decreases |s|
  {
    assert s[|s| - 1] in s;
    UnfoldTrailing(s);
    var rest := s[IndexOf(s, NEWLINE) + 1..];
    if rest != [] {
      assert rest[|rest| - 1] == s[|s| - 1];
      TrailingEmpty(rest);
    }
  }

  /** The channel items of a series of lines: each line preceded by the label. */
  function Framed(prefix: Bytes, lines: seq<Bytes>): (items: seq<Bytes>)
    ensures |items| == 2 * |lines|
  {
    if lines == [] then [] else [prefix, lines[0]] + Framed(prefix, lines[1..])
  }

  /** Item 2k of the framing is the label and item 2k+1 is line k. */
  lemma {:induction false} FramedAt(prefix: Bytes, lines: seq<Bytes>, k: nat)
    requires k < |lines|
    ensures Framed(prefix, lines)[2 * k] == prefix && Framed(prefix, lines)[2 * k + 1] == lines[k]
  {
    if k > 0 {
      FramedAt(prefix, lines[1..], k - 1);
      assert Framed(prefix, lines) == [prefix, lines[0]] + Framed(prefix, lines[1..]);
    }
  }

  lemma {:induction false} FramedAppend(prefix: Bytes, lines: seq<Bytes>, line: Bytes)
    ensures Framed(prefix, lines + [line]) == Framed(prefix, lines) + [prefix, line]
  {
    var a := Framed(prefix, lines + [line]);
    var b := Framed(prefix, lines) + [prefix, line];
    assert |a| == |b|;
    forall j | 0 <= j < |a|
      ensures a[j] == b[j]
    {
      var k := j / 2;
      assert j == 2 * k || j == 2 * k + 1;
      FramedAt(prefix, lines + [line], k);
      if k < |lines| {
        FramedAt(prefix, lines, k);
      }
    }
  }

  /** Sending one more framed line extends the framing of the lines sent so far. */
  lemma FramedStep(sent: seq<Bytes>, prefix: Bytes, lines: seq<Bytes>, line: Bytes)
    ensures (sent + Framed(prefix, lines)) + [prefix, line] == sent + Framed(prefix, lines + [line])
  {
    FramedAppend(prefix, lines, line);
    assert (sent + Framed(prefix, lines)) + [prefix, line] == sent + (Framed(prefix, lines) + [prefix, line]);
  }

  // ---------------------------------------------------------------------------
  // Streams

  /** The shared channel; sent is everything sent on it, in order. */
  class Channel {
    var sent: seq<Bytes>

    constructor ()
      ensures sent == []
    {
      sent := [];
    }
  }

  /** The flush timer of a stream: none yet, pending, or stopped or fired. */
  datatype TimerState = NoTimer | Pending | Expired

  class LogStream {
    const name: string
    const timeout: nat
    const wc: Channel
    var clr: Color
    var prefix: Bytes
    /** The bytes of newline-free writes held back since the last write that had a newline. */
    var buf: Bytes
    var timer: TimerState

    /** Between calls the buffer holds no complete line. */
    ghost predicate Valid()
      reads this
    {
      NEWLINE !in buf
    }

    /** The stream's label is prefix, rendered from a palette colour with the padding for maxlen. */
    ghost predicate LabelledWith(pal: seq<Color>, maxlen: nat, render: (Style, string) -> Bytes)
      reads this
    {
      clr in pal && |name| <= maxlen && prefix == render(LabelStyle(clr, maxlen, name), name)
    }

    constructor (name: string, wc: Channel, timeout: nat)
      ensures this.name == name && this.wc == wc && this.timeout == timeout
      ensures clr == ZERO_COLOR && prefix == [] && buf == [] && timer == NoTimer
      ensures Valid()
    {
      this.name := name;
      this.wc := wc;
      this.timeout := timeout;
      clr := ZERO_COLOR;
      prefix := [];
      buf := [];
      timer := NoTimer;
    }

    method SetLabel(clr: Color, prefix: Bytes)
      modifies this`clr, this`prefix
      ensures this.clr == clr && this.prefix == prefix
    {
      this.clr := clr;
      this.prefix := prefix;
    }

    /**
     * Reads the buffer up to and including the first newline. Without one, the
     * whole buffer is consumed and returned with an end-of-data error.
     */
    method ReadBytes() returns (line: Bytes, eof: bool)
      modifies this`buf
      ensures eof <==> NEWLINE !in old(buf)
      ensures eof ==> line == old(buf) && buf == []
      ensures !eof ==> line == old(buf)[..IndexOf(old(buf), NEWLINE) + 1]
      ensures !eof ==> buf == old(buf)[IndexOf(old(buf), NEWLINE) + 1..]
    {
      if NEWLINE in buf {
        var i := IndexOf(buf, NEWLINE);
        line, buf := buf[..i + 1], buf[i + 1..];
        eof := false;
      } else {
        line, buf := buf, [];
        eof := true;
      }
    }

    /**
     * Write: stops a pending timer and appends p to the buffer. If p holds a
     * newline, every complete line is sent behind the label and whatever
     * follows the last newline is consumed with the final read and dropped;
     * otherwise a new timer is started to flush the partial line.
     */
    method Write(p: Bytes) returns (n: int, err: Option<string>)
      requires Valid()
      modifies this`buf, this`timer, wc`sent
      ensures Valid()
      ensures n == |p| && err == None
      ensures NEWLINE in p ==> buf == []
      ensures NEWLINE in p ==> wc.sent == old(wc.sent) + Framed(prefix, CompleteLines(old(buf) + p))
      ensures NEWLINE in p ==> timer == (if old(timer) == NoTimer then NoTimer else Expired)
      ensures NEWLINE !in p ==> buf == old(buf) + p && wc.sent == old(wc.sent) && timer == Pending
    {
      if timer != NoTimer {
        timer := Expired;
      }
      buf := buf + p;
      n, err := |p|, None;
      if NEWLINE in p {
        SendLines();
      } else {
        timer := Pending;
      }
    }

    /**
     * The read loop of Write: reads line after line until a read finds no
     * newline, sending each line behind the label. The failing read consumes
     * what is left, so the buffer ends empty.
     */
    method SendLines()
      modifies this`buf, wc`sent
      ensures buf == []
      ensures wc.sent == old(wc.sent) + Framed(prefix, CompleteLines(old(buf)))
    {
      ghost var input := buf;
      ghost var emitted: seq<Bytes> := [];
      while true
        invariant CompleteLines(input) == emitted + CompleteLines(buf)
        invariant wc.sent == old(wc.sent) + Framed(prefix, emitted)
        decreases |buf|
      {
        ghost var before := buf;
        var line, eof := ReadBytes();
        if eof {
          assert CompleteLines(before) == [];
          assert emitted + [] == emitted;
          break;
        }
        LinesStep(input, emitted, before);
        FramedStep(old(wc.sent), prefix, emitted, line);
        wc.sent := wc.sent + [prefix, line];
        emitted := emitted + [line];
      }
    }

    /**
     * The timer firing: sends the label, the held-back partial line and a
     * newline. The buffer is left as it is.
     */
    method Flush()
      requires timer == Pending
      modifies wc`sent, this`timer
      ensures wc.sent == old(wc.sent) + [prefix, buf, [NEWLINE]]
      ensures timer == Expired
    {
      wc.sent := wc.sent + [prefix, buf, [NEWLINE]];
      timer := Expired;
    }
  }

  // ---------------------------------------------------------------------------
  // The multiplexer

  /** The longest name length of names, zero when there are none. */
  ghost predicate IsMaxLen(names: set<string>, m: nat) {
    (forall k :: k in names ==> |k| <= m) && (m == 0 || exists k :: k in names && |k| == m)
  }

  ghost function MaxLen(names: set<string>): (m: nat)
    ensures IsMaxLen(names, m)
    decreases |names|
  {
    if names == {} then 0
    else
      var k :| k in names;
      var rest := MaxLen(names - {k});
      if |k| > rest then |k| else rest
  }

  lemma MaxLenUnique(names: set<string>, m: nat)
    requires IsMaxLen(names, m)
    ensures m == MaxLen(names)
  {
    var n := MaxLen(names);
    assert n <= m by {
      if n > 0 {
        var k :| k in names && |k| == n;
      }
    }
    assert m <= n by {
      if m > 0 {
        var k :| k in names && |k| == m;
      }
    }
  }

  /** order lists every element of keys exactly once. */
  ghost predicate IsIterationOrder(order: seq<string>, keys: set<string>) {
    && |order| == |keys|
    && (forall k :: k in keys <==> k in order)
    && (forall a, b :: 0 <= a < b < |order| ==> order[a] != order[b])
  }

  /** The order in which a range loop visits keys; which order it is, is left open. */
  method IterationOrder(keys: set<string>) returns (order: seq<string>)
    ensures IsIterationOrder(order, keys)
  {
    order := [];
    var todo := keys;
    while todo != {}
      invariant todo <= keys
      invariant forall k :: k in keys ==> (k in order <==> k !in todo)
      invariant forall k :: k in order ==> k in keys
      invariant forall a, b :: 0 <= a < b < |order| ==> order[a] != order[b]
      invariant |order| + |todo| == |keys|
      decreases |todo|
    {
      var k :| k in todo;
      order := order + [k];
      todo := todo - {k};
    }
  }

  class LogMux {
    const timeout: nat
    const wc: Channel
    /** The colour palette of a given size (a fast happy palette). */
    const palette: nat -> seq<Color>
    /** The terminal rendering of a label. */
    const render: (Style, string) -> Bytes
    var streams: map<string, LogStream>

    ghost predicate Valid()
      reads this
    {
      && (forall n: nat :: |palette(n)| == n)
      && (forall k :: k in streams ==> streams[k].name == k && streams[k].wc == wc && streams[k].timeout == timeout)
    }

    /** Every stream's label uses a palette colour and is padded to the longest name. */
    ghost predicate Labelled()
      reads this, streams.Values
    {
      forall k :: k in streams ==> streams[k].LabelledWith(palette(|streams|), MaxLen(streams.Keys), render)
    }

    /** NewLogMux: no streams, a fresh channel and the 10 ms flush timeout. */
    constructor (palette: nat -> seq<Color>, render: (Style, string) -> Bytes)
      requires forall n: nat :: |palette(n)| == n
      ensures Valid() && fresh(wc) && wc.sent == []
      ensures streams == map[] && timeout == FLUSH_TIMEOUT_MS
      ensures this.palette == palette && this.render == render
    {
      timeout := FLUSH_TIMEOUT_MS;
      wc := new Channel();
      this.palette := palette;
      this.render := render;
      streams := map[];
    }

    /**
     * Adds a stream called name and relabels all streams. A name already
     * registered is refused (the source panics) and nothing changes.
     */
    method Stream(name: string) returns (r: Result<LogStream, string>)
      requires Valid()
      modifies this`streams, streams.Values`clr, streams.Values`prefix
      ensures Valid()
      ensures name in old(streams) ==> r == Failure("Stream " + name + " already exists")
      ensures name in old(streams) ==> streams == old(streams) && forall s :: s in streams.Values ==> unchanged(s)
      ensures name !in old(streams) ==> r.Success? && fresh(r.value) && streams == old(streams)[name := r.value]
      ensures name !in old(streams) ==> r.Success? && r.value.buf == [] && r.value.timer == NoTimer
      ensures name !in old(streams) ==> Labelled()
    {
      if name in streams {
        return Failure("Stream " + name + " already exists");
      }
      var s := Insert(name);
      var _ := RefreshColors();
      r := Success(s);
    }

    /** Registers a new, unlabelled stream under a name that is not yet taken. */
    method Insert(name: string) returns (s: LogStream)
      requires Valid() && name !in streams
      modifies this`streams
      ensures Valid() && fresh(s) && streams == old(streams)[name := s]
      ensures s.buf == [] && s.timer == NoTimer
      ensures forall t :: t in old(streams).Values ==> t in streams.Values
    {
      s := new LogStream(name, wc, timeout);
      streams := streams[name := s];
      forall t | t in old(streams).Values
        ensures t in streams.Values
      {
        var k :| k in old(streams) && old(streams)[k] == t;
        assert streams[k] == t;
      }
    }

    /** The length of the longest stream name. */
    method LongestName() returns (maxlen: nat)
      ensures maxlen == MaxLen(streams.Keys)
    {
      var names := streams.Keys;
      maxlen := 0;
      var todo := names;
      while todo != {}
        invariant todo <= names
        invariant forall k :: k in names - todo ==> |k| <= maxlen
        invariant maxlen == 0 || exists k :: k in names - todo && |k| == maxlen
        decreases |todo|
      {
        var k :| k in todo;
        if |k| > maxlen {
          maxlen := |k|;
        }
        todo := todo - {k};
      }
      MaxLenUnique(names, maxlen);
    }

    /**
     * Gives the j-th stream palette entry j, from a palette as large as the
     * number of streams, and re-renders its label padded to the longest name.
     * The j-th stream is the j-th in the map's iteration order, which is left
     * open: order is the order that was taken.
     */
    method RefreshColors() returns (order: seq<string>)
      requires Valid()
      modifies streams.Values`clr, streams.Values`prefix
      ensures Valid() && Labelled()
      ensures IsIterationOrder(order, streams.Keys)
      ensures forall j :: 0 <= j < |order| ==> streams[order[j]].clr == palette(|streams|)[j]
    {
      var pal := palette(|streams|);
      var maxlen := LongestName();
      order := IterationOrder(streams.Keys);
      assert |streams.Keys| == |streams|;
      forall j | 0 <= j < |order|
        ensures order[j] in streams && streams[order[j]] in streams.Values
      {
        assert order[j] in order;
      }
      Recolor(streams, order, pal, maxlen);
      forall k | k in streams
        ensures streams[k].LabelledWith(pal, maxlen, render)
      {
        var j :| 0 <= j < |order| && order[j] == k;
        assert streams[k].name == k && streams[k].clr == pal[j];
      }
    }

    /** The loop of RefreshColors: the j-th stream in order takes palette entry j. */
    method Recolor(ss: map<string, LogStream>, order: seq<string>, pal: seq<Color>, maxlen: nat)
      requires forall k :: k in ss ==> ss[k].name == k && |k| <= maxlen
      requires IsIterationOrder(order, ss.Keys) && |pal| == |order|
      requires forall j :: 0 <= j < |order| ==> order[j] in ss && ss[order[j]] in ss.Values
      modifies ss.Values`clr, ss.Values`prefix
      ensures forall j :: 0 <= j < |order| ==>
                ss[order[j]].clr == pal[j] && ss[order[j]].prefix == Label(pal[j], maxlen, order[j])
    {
      for i := 0 to |order|
        invariant forall j :: 0 <= j < i ==>
                    ss[order[j]].clr == pal[j] && ss[order[j]].prefix == Label(pal[j], maxlen, order[j])
      {
        var k := order[i];
        var v := ss[k];
        DistinctStreams(ss, order, i);
        v.SetLabel(pal[i], Label(pal[i], maxlen, k));
      }
    }

    /** Streams earlier in the order are other objects than the i-th one, as their names differ. */
    lemma DistinctStreams(ss: map<string, LogStream>, order: seq<string>, i: nat)
      requires forall k :: k in ss ==> ss[k].name == k
      requires IsIterationOrder(order, ss.Keys) && i < |order|
      ensures forall j :: 0 <= j < i ==> ss[order[j]] != ss[order[i]]
    {
      forall j | 0 <= j < i
        ensures ss[order[j]] != ss[order[i]]
      {
        assert ss[order[j]].name == order[j] && ss[order[i]].name == order[i];
      }
    }

    /** The rendered label of a stream called name. */
    function Label(clr: Color, maxlen: nat, name: string): Bytes
      requires |name| <= maxlen
    {
      render(LabelStyle(clr, maxlen, name), name)
    }
  }
}
