/** The emission pipeline of app/emlog.c (vlog): level filter, message
    buffer policy, header, and the truncation policy that keeps every
    primary write within LOG_MAX_WRITE bytes. */
module Pipeline {
  import opened Wrappers
  import opened Api
  import opened Decimal
  import opened Tables
  import opened Sink
  import opened Timestamp

  /** PIPE_BUF on Linux; the fallback when PIPE_BUF is undefined is the same
      value. POSIX promises atomic pipe writes up to this size. */
  const LOG_MAX_WRITE: nat := 4096
  /** char stackbuf[1024] */
  const STACK_MSG: nat := 1024
  /** char head[128] */
  const HEAD_BUF: nat := 128
  /** char warnbuf[128] */
  const WARN_BUF: nat := 128

  /** The configuration a log call reads (the fields of G). */
  datatype Config = Config(minLevel: Level, useTs: bool, writer: Option<nat>, user: nat, flush: bool)

  /** What the environment supplies to one call: the clock reading, the
      C library's local time, the thread id and whether the message and
      sink heap allocations succeed. */
  datatype Context = Context(clock: Clock, local: int -> LocalTime, tid: Tid,
                             msgHeapOk: bool, sinkHeapOk: bool)

  /** The timestamp a call renders from a cache state, or None when off. */
  function TsFor(useTs: bool, st: CacheState, ctx: Context): Option<string> {
    if useTs then Some(Compose(Step(st, ctx.clock.sec, ctx.local), Ms(ctx.clock.nsec), TS_BUF)) else None
  }

  /** The message bytes msg[..msglen] after formatting. `text` is the full
      formatted text, None when vsnprintf reports an error. A text that does
      not fit the stack buffer is used whole if the heap buffer can be had,
      otherwise cut to the 1023 bytes the stack buffer holds. */
  function MessageBytes(text: Option<string>, heapOk: bool): string {
    match text
    case None => []
    case Some(t) => if |t| < STACK_MSG || heapOk then t else t[..STACK_MSG - 1]
  }

  /** The buffer policy, both ways: the message is the whole text exactly
      when the text fits the stack or the heap allocation succeeds;
      otherwise it is the text's first 1023 bytes. */
  lemma MessagePolicy(t: string, heapOk: bool)
    ensures MessageBytes(Some(t), heapOk) == t <==> |t| < STACK_MSG || heapOk
    ensures !(|t| < STACK_MSG || heapOk) ==>
              |MessageBytes(Some(t), heapOk)| == STACK_MSG - 1 &&
              MessageBytes(Some(t), heapOk) == t[..STACK_MSG - 1]
    ensures MessageBytes(None, heapOk) == []
  {
  }

  /** The component tag as printed: "-" for NULL. */
  function CompText(comp: Option<string>): string {
    match comp
    case None => "-"
    case Some(c) => c
  }

  /** "<ts> <LVL> [tid] [comp] " or "<LVL> [tid] [comp] ": the text snprintf
      would produce for the header (its length is hlen). */
  function HeaderText(ts: Option<string>, level: Level, tid: Tid, comp: Option<string>): string {
    (match ts case Some(t) => t + " " case None => "")
      + LvlStr(level) + " [" + Text(tid) + "] [" + CompText(comp) + "] "
  }

  /** "TRUNCATED: <LVL> [tid] [comp]" */
  function NoticeText(level: Level, tid: Tid, comp: Option<string>): string {
    "TRUNCATED: " + LvlStr(level) + " [" + Text(tid) + "] [" + CompText(comp) + "]"
  }

  /** The header shape: an optional timestamp and a space, then the level
      code, the bracketed thread id and the bracketed tag (or "-"). */
  lemma HeaderShape(ts: Option<string>, level: Level, tid: Tid, comp: Option<string>)
    ensures var h := HeaderText(ts, level, tid, comp);
      var k := if ts.Some? then |ts.value| + 1 else 0;
      |h| == k + 3 + 2 + |Text(tid)| + 3 + |CompText(comp)| + 2 &&
      (ts.Some? ==> h[..k] == ts.value + " ") &&
      h[k..k + 3] == LvlStr(level) &&
      h[k + 3..k + 5] == " [" &&
      h[k + 5..k + 5 + |Text(tid)|] == Text(tid) &&
      h[|h| - |CompText(comp)| - 2..|h| - 2] == CompText(comp) &&
      h[|h| - 2..] == "] "
  {
    var pre := if ts.Some? then ts.value + " " else "";
    HeaderLayout(pre, LvlStr(level), Text(tid), CompText(comp));
  }

  lemma HeaderLayout(pre: string, lvl: string, id: string, tag: string)
    requires |lvl| == 3
    ensures var h := pre + lvl + " [" + id + "] [" + tag + "] ";
      var k := |pre|;
      |h| == k + 3 + 2 + |id| + 3 + |tag| + 2 &&
      h[..k] == pre && h[k..k + 3] == lvl && h[k + 3..k + 5] == " [" &&
      h[k + 5..k + 5 + |id|] == id &&
      h[|h| - |tag| - 2..|h| - 2] == tag && h[|h| - 2..] == "] "
  {
  }

  /** Both formatted texts fit their fixed buffers. The source uses
      snprintf's would-be lengths hlen and w as segment lengths and never
      clamps them, so it relies on this. */
  predicate LineFits(ts: Option<string>, level: Level, tid: Tid, comp: Option<string>,
                     text: Option<string>, heapOk: bool)
  {
    var head := HeaderText(ts, level, tid, comp);
    |head| < HEAD_BUF &&
    (TruncPlan(|head|, |MessageBytes(text, heapOk)|).notice ==> |NoticeText(level, tid, comp)| < WARN_BUF)
  }

  /** LineFits is a real restriction: a 120-byte component tag makes both
      would-be lengths exceed head[128] and warnbuf[128]. */
  lemma HeaderLengthOverrun()
    ensures var comp := Some(seq(120, _ => 'x'));
      |HeaderText(None, LEVEL_INFO, 1, comp)| > HEAD_BUF &&
      |NoticeText(LEVEL_INFO, 1, comp)| > WARN_BUF
  {
    assert Text(1) == [DigitChar(1)];
  }

  /** The outcome of the truncation policy on lengths: the header segment's
      length, the number of segments, the message segment's length, whether
      "..." is written in place at msgLen-3, and whether a notice follows. */
  datatype Plan = Plan(headLen: nat, iovcnt: nat, msgLen: nat, dots: bool, notice: bool)

  /** The truncation policy, branch for branch. */
  function TruncPlan(hlen: nat, msglen: nat): Plan {
    var iovcnt := if msglen > 0 then 2 else 1;
    if hlen + msglen + 1 > LOG_MAX_WRITE && msglen > 0 then
      var allowed := LOG_MAX_WRITE - 1;
      if hlen >= allowed then
        Plan(allowed - 3, 1, msglen, false, true)
      else
        var remain := allowed - hlen;
        if remain < 4 then
          Plan(hlen, 1, msglen, false, true)
        else
          var newLen := remain - 3;
          if msglen > newLen then
            Plan(hlen, iovcnt, newLen + 3, msglen >= newLen + 3, true)
          else
            Plan(hlen, iovcnt, msglen, false, true)
    else
      Plan(hlen, iovcnt, msglen, false, false)
  }

  /** The buffer after the in-place ellipsis. */
  function Dotted(s: string, p: Plan): string {
    if p.dots && 3 <= p.msgLen <= |s| then s[..p.msgLen - 3] + "..." + s[p.msgLen..] else s
  }

  /** The segments handed to the sink for the primary line. */
  function PrimarySegments(head: string, shown: string, p: Plan): seq<string>
    requires p.headLen <= |head| && (p.iovcnt == 2 ==> p.msgLen <= |shown|)
  {
    [head[..p.headLen]] + (if p.iovcnt == 2 then [shown[..p.msgLen]] else [])
  }

  /** The plan never lengthens a segment, and the guards in front of the
      in-place write always hold when the ellipsis branch is reached: the
      message is then longer than the remaining budget, so the three
      writes at remain-3 .. remain-1 are in bounds. */
  lemma PlanBounds(hlen: nat, msglen: nat)
    ensures var p := TruncPlan(hlen, msglen);
      p.headLen <= hlen && p.msgLen <= msglen &&
      (p.iovcnt == 2 <==> msglen > 0 && (!p.notice || p.dots)) &&
      (p.dots ==> 3 <= p.msgLen < msglen && p.msgLen == LOG_MAX_WRITE - 1 - hlen) &&
      (p.headLen != hlen ==> hlen >= LOG_MAX_WRITE - 1)
  {
  }

  /** When the line fits (or the message is empty) nothing is changed
      and no notice follows; otherwise a notice follows. */
  lemma PlanUnchangedIff(hlen: nat, msglen: nat)
    ensures var p := TruncPlan(hlen, msglen);
      (!p.notice <==> hlen + msglen + 1 <= LOG_MAX_WRITE || msglen == 0) &&
      (!p.notice ==> p == Plan(hlen, if msglen > 0 then 2 else 1, msglen, false, false))
  {
  }

  /** The ellipsis overwrites exactly positions msgLen-3 .. msgLen-1. */
  lemma DottedOnlyThree(s: string, p: Plan)
    requires p.dots && 3 <= p.msgLen <= |s|
    ensures |Dotted(s, p)| == |s|
    ensures forall k :: 0 <= k < |s| && !(p.msgLen - 3 <= k < p.msgLen) ==> Dotted(s, p)[k] == s[k]
    ensures Dotted(s, p)[p.msgLen - 3..p.msgLen] == "..."
  {
  }

  /** Dotting the whole buffer and dotting the message part agree on the
      bytes that are emitted. */
  lemma DottedPrefix(full: string, m: nat, p: Plan)
    requires m <= |full| && p.msgLen <= m
    ensures Dotted(full, p)[..p.msgLen] == Dotted(full[..m], p)[..p.msgLen]
  {
  }

  /** The segments vlog hands to the sink, read from the buffer after the
      in-place ellipsis, are the primary segments of the plan. */
  lemma EmittedSegments(before: string, after: string, msglen: nat, head: string,
                        text: Option<string>, heapOk: bool, p: Plan)
    requires msglen < |before| && before[..msglen] == MessageBytes(text, heapOk)
    requires p == TruncPlan(|head|, msglen) && after == Dotted(before, p)
    ensures p.headLen <= |head| && (p.iovcnt == 2 ==> p.msgLen <= |after|)
    ensures [head[..p.headLen]] + (if p.iovcnt == 2 then [after[..p.msgLen]] else [])
            == PrimarySegments(head, Dotted(MessageBytes(text, heapOk), p), p)
  {
    PlanBounds(|head|, msglen);
    if p.iovcnt == 2 {
      DottedPrefix(before, msglen, p);
    }
  }

  /** The whole call: nothing below the minimum level, otherwise the line. */
  function VlogEvents(c: Config, level: Level, ts: Option<string>, tid: Tid, comp: Option<string>,
                      text: Option<string>, msgHeapOk: bool, sinkHeapOk: bool): seq<Event>
  {
    if level < c.minLevel then [] else LineEvents(c, level, ts, tid, comp, text, msgHeapOk, sinkHeapOk)
  }

  /** One line past the filter: the primary line through the sink, and
      after a truncation one notice. */
  function LineEvents(c: Config, level: Level, ts: Option<string>, tid: Tid, comp: Option<string>,
                      text: Option<string>, msgHeapOk: bool, sinkHeapOk: bool): seq<Event>
  {
    var msg := MessageBytes(text, msgHeapOk);
    var head := HeaderText(ts, level, tid, comp);
    var p := TruncPlan(|head|, |msg|);
    PlanBounds(|head|, |msg|);
    var primary := SinkEvents(c.writer, c.user, c.flush, level,
                              PrimarySegments(head, Dotted(msg, p), p), sinkHeapOk);
    primary + NoticeEvents(c, level, tid, comp, p.notice, sinkHeapOk)
  }

  /** LineEvents in terms of the plan and the primary segments. */
  lemma LineEventsIn(c: Config, level: Level, ts: Option<string>, tid: Tid, comp: Option<string>,
                     text: Option<string>, msgHeapOk: bool, sinkHeapOk: bool, p: Plan, segs: seq<string>)
    requires p == TruncPlan(|HeaderText(ts, level, tid, comp)|, |MessageBytes(text, msgHeapOk)|)
    requires p.headLen <= |HeaderText(ts, level, tid, comp)|
    requires p.iovcnt == 2 ==> p.msgLen <= |Dotted(MessageBytes(text, msgHeapOk), p)|
    requires segs == PrimarySegments(HeaderText(ts, level, tid, comp), Dotted(MessageBytes(text, msgHeapOk), p), p)
    ensures LineEvents(c, level, ts, tid, comp, text, msgHeapOk, sinkHeapOk) ==
              SinkEvents(c.writer, c.user, c.flush, level, segs, sinkHeapOk)
              + NoticeEvents(c, level, tid, comp, p.notice, sinkHeapOk)
  {
  }

  /** The notice line, when there is one and its text is not empty. */
  function NoticeEvents(c: Config, level: Level, tid: Tid, comp: Option<string>,
                        notice: bool, sinkHeapOk: bool): seq<Event>
  {
    var w := NoticeText(level, tid, comp);
    if notice && |w| > 0 then SinkEvents(c.writer, c.user, c.flush, level, [w], sinkHeapOk) else []
  }

  /** Level filter: a call below the minimum emits nothing; a call at or
      above it emits at least its primary line unless a custom writer
      loses it to a failed heap allocation. */
  lemma LevelFilter(c: Config, level: Level, ts: Option<string>, tid: Tid, comp: Option<string>,
                    text: Option<string>, msgHeapOk: bool, sinkHeapOk: bool)
    ensures level < c.minLevel ==> VlogEvents(c, level, ts, tid, comp, text, msgHeapOk, sinkHeapOk) == []
    ensures level >= c.minLevel && (c.writer.None? || sinkHeapOk) ==>
              |VlogEvents(c, level, ts, tid, comp, text, msgHeapOk, sinkHeapOk)| >= 1
  {
  }

  /** Every effect goes where the configuration sends it: without a writer
      (the state a NULL writer restores) only writes and flushes of the
      level's default stream, flushes only when flushing is on; with a
      writer only calls of that writer, with the level and user pointer. */
  predicate Routed(c: Config, level: Level, ev: seq<Event>) {
    (c.writer.None? ==> forall e :: e in ev ==>
       !e.WriterCall? && e.stream == DefaultStream(level) && (e.Flush? ==> c.flush)) &&
    (c.writer.Some? ==> forall e :: e in ev ==>
       e.WriterCall? && e.callback == c.writer.value && e.level == level && e.user == c.user)
  }

  lemma SinkRouted(c: Config, level: Level, segs: seq<string>, heapOk: bool)
    ensures Routed(c, level, SinkEvents(c.writer, c.user, c.flush, level, segs, heapOk))
  {
  }

  /** The routing of a whole call, both with and without a writer. */
  lemma Routing(c: Config, level: Level, ts: Option<string>, tid: Tid, comp: Option<string>,
                text: Option<string>, msgHeapOk: bool, sinkHeapOk: bool)
    ensures Routed(c, level, VlogEvents(c, level, ts, tid, comp, text, msgHeapOk, sinkHeapOk))
  {
    if level >= c.minLevel {
      var msg := MessageBytes(text, msgHeapOk);
      var head := HeaderText(ts, level, tid, comp);
      var p := TruncPlan(|head|, |msg|);
      PlanBounds(|head|, |msg|);
      var segs := PrimarySegments(head, Dotted(msg, p), p);
      SinkRouted(c, level, segs, sinkHeapOk);
      SinkRouted(c, level, [NoticeText(level, tid, comp)], sinkHeapOk);
      var primary := SinkEvents(c.writer, c.user, c.flush, level, segs, sinkHeapOk);
      var notice := NoticeEvents(c, level, tid, comp, p.notice, sinkHeapOk);
      assert Routed(c, level, notice);
      assert VlogEvents(c, level, ts, tid, comp, text, msgHeapOk, sinkHeapOk) == primary + notice;
    }
  }

  /** A line whose header, message and newline fit LOG_MAX_WRITE (or whose
      message is empty) reaches the sink unchanged, with no notice. */
  lemma UnchangedWhenFits(c: Config, level: Level, ts: Option<string>, tid: Tid, comp: Option<string>,
                          text: Option<string>, msgHeapOk: bool, sinkHeapOk: bool)
    requires level >= c.minLevel
    requires var n := |HeaderText(ts, level, tid, comp)| + |MessageBytes(text, msgHeapOk)|;
      n + 1 <= LOG_MAX_WRITE || MessageBytes(text, msgHeapOk) == []
    ensures var head := HeaderText(ts, level, tid, comp);
      var msg := MessageBytes(text, msgHeapOk);
      VlogEvents(c, level, ts, tid, comp, text, msgHeapOk, sinkHeapOk) ==
        SinkEvents(c.writer, c.user, c.flush, level, [head] + (if msg != [] then [msg] else []), sinkHeapOk)
  {
    var head := HeaderText(ts, level, tid, comp);
    var msg := MessageBytes(text, msgHeapOk);
    PlanUnchangedIff(|head|, |msg|);
    assert head[..|head|] == head;
    assert msg[..|msg|] == msg;
  }

  /** A line that does not fit, with a header that fits its buffer: the
      primary line is the header, the first remain-3 message bytes and
      "...", exactly LOG_MAX_WRITE bytes with its newline, and it is
      followed by exactly one TRUNCATED notice. */
  lemma TruncatedLine(c: Config, level: Level, ts: Option<string>, tid: Tid, comp: Option<string>,
                      text: Option<string>, msgHeapOk: bool, sinkHeapOk: bool)
    requires level >= c.minLevel
    requires LineFits(ts, level, tid, comp, text, msgHeapOk)
    requires var n := |HeaderText(ts, level, tid, comp)| + |MessageBytes(text, msgHeapOk)|;
      n + 1 > LOG_MAX_WRITE && MessageBytes(text, msgHeapOk) != []
    ensures var head := HeaderText(ts, level, tid, comp);
      var msg := MessageBytes(text, msgHeapOk);
      var remain := LOG_MAX_WRITE - 1 - |head|;
      var line := head + msg[..remain - 3] + "...";
      |line| + 1 == LOG_MAX_WRITE &&
      VlogEvents(c, level, ts, tid, comp, text, msgHeapOk, sinkHeapOk) ==
        SinkEvents(c.writer, c.user, c.flush, level, [head, msg[..remain - 3] + "..."], sinkHeapOk)
        + SinkEvents(c.writer, c.user, c.flush, level, [NoticeText(level, tid, comp)], sinkHeapOk)
  {
    var head := HeaderText(ts, level, tid, comp);
    var msg := MessageBytes(text, msgHeapOk);
    var p := TruncPlan(|head|, |msg|);
    PlanBounds(|head|, |msg|);
    var remain := LOG_MAX_WRITE - 1 - |head|;
    assert p.dots && p.msgLen == remain;
    DottedOnlyThree(msg, p);
    assert Dotted(msg, p)[..p.msgLen] == msg[..remain - 3] + "...";
    assert head[..p.headLen] == head;
    assert p.iovcnt == 2 && p.notice;
    assert PrimarySegments(head, Dotted(msg, p), p) == [head, msg[..remain - 3] + "..."];
    assert |NoticeText(level, tid, comp)| > 0;
  }

  /** No write in the sequence is longer than LOG_MAX_WRITE bytes. */
  predicate WritesBounded(ev: seq<Event>) {
    forall e :: e in ev && e.Write? ==> |e.bytes| <= LOG_MAX_WRITE
  }

  /** On the default sink every write of a call, the notice included,
      stays within LOG_MAX_WRITE bytes, so each is one atomic pipe write. */
  lemma DefaultWritesBounded(c: Config, level: Level, ts: Option<string>, tid: Tid, comp: Option<string>,
                             text: Option<string>, msgHeapOk: bool, sinkHeapOk: bool)
    requires c.writer.None?
    requires LineFits(ts, level, tid, comp, text, msgHeapOk)
    ensures WritesBounded(VlogEvents(c, level, ts, tid, comp, text, msgHeapOk, sinkHeapOk))
  {
    var head := HeaderText(ts, level, tid, comp);
    var msg := MessageBytes(text, msgHeapOk);
    if level < c.minLevel {
      return;
    }
    if |head| + |msg| + 1 <= LOG_MAX_WRITE || msg == [] {
      UnchangedWhenFits(c, level, ts, tid, comp, text, msgHeapOk, sinkHeapOk);
      if msg == [] {
        FlattenOne(head);
        assert [head] + [] == [head];
        DefaultSinkBounded(c.user, c.flush, level, [head], sinkHeapOk);
      } else {
        FlattenTwo(head, msg);
        assert [head] + [msg] == [head, msg];
        DefaultSinkBounded(c.user, c.flush, level, [head, msg], sinkHeapOk);
      }
      return;
    }
    TruncatedWritesBounded(c, level, ts, tid, comp, text, msgHeapOk, sinkHeapOk);
  }

  /** The truncated case of DefaultWritesBounded. */
  lemma TruncatedWritesBounded(c: Config, level: Level, ts: Option<string>, tid: Tid, comp: Option<string>,
                               text: Option<string>, msgHeapOk: bool, sinkHeapOk: bool)
    requires level >= c.minLevel && c.writer.None?
    requires LineFits(ts, level, tid, comp, text, msgHeapOk)
    requires |HeaderText(ts, level, tid, comp)| + |MessageBytes(text, msgHeapOk)| + 1 > LOG_MAX_WRITE
    ensures WritesBounded(VlogEvents(c, level, ts, tid, comp, text, msgHeapOk, sinkHeapOk))
  {
    var head := HeaderText(ts, level, tid, comp);
    var msg := MessageBytes(text, msgHeapOk);
    var remain := LOG_MAX_WRITE - 1 - |head|;
    // the header fits HEAD_BUF, so only a non-empty message can overflow
    assert msg != [];
    TruncatedLine(c, level, ts, tid, comp, text, msgHeapOk, sinkHeapOk);
    PlanBounds(|head|, |msg|);
    var body := msg[..remain - 3] + "...";
    var w := NoticeText(level, tid, comp);
    FlattenTwo(head, body);
    FlattenOne(w);
    var first := SinkEvents(c.writer, c.user, c.flush, level, [head, body], sinkHeapOk);
    var second := SinkEvents(c.writer, c.user, c.flush, level, [w], sinkHeapOk);
    DefaultSinkBounded(c.user, c.flush, level, [head, body], sinkHeapOk);
    DefaultSinkBounded(c.user, c.flush, level, [w], sinkHeapOk);
    BoundedAppend(first, second);
  }

  /** One default-path write of fewer than LOCAL_IOV segments whose line is
      shorter than LOG_MAX_WRITE stays within LOG_MAX_WRITE with its newline. */
  lemma DefaultSinkBounded(user: nat, flush: bool, level: Level, segs: seq<string>, heapOk: bool)
    requires |segs| < LOCAL_IOV && |Flatten(segs)| < LOG_MAX_WRITE
    ensures WritesBounded(SinkEvents(None, user, flush, level, segs, heapOk))
  {
    DefaultRouting(user, flush, level, segs, heapOk);
  }

  lemma BoundedAppend(a: seq<Event>, b: seq<Event>)
    requires WritesBounded(a) && WritesBounded(b)
    ensures WritesBounded(a + b)
  {
  }

  lemma FlattenTwo(x: string, y: string)
    ensures Flatten([x, y]) == x + y
  {
    assert [x, y][..1] == [x];
    FlattenOne(x);
  }

  /** vlog's message formatting: vsnprintf into the 1024-byte stack buffer;
      when the text needs more, a heap buffer of need+1 bytes if it can be had. */
  method PrepareMessage(text: Option<string>, heapOk: bool) returns (buf: array<char>, msglen: nat)
    ensures fresh(buf) && msglen < buf.Length
    ensures buf[..msglen] == MessageBytes(text, heapOk)
    ensures buf.Length == if text.Some? && |text.value| >= STACK_MSG && heapOk then |text.value| + 1 else STACK_MSG
  {
    var stackbuf := new char[STACK_MSG](_ => '\0');
    var need: int := if text.None? then -1 else |text.value|;
    if text.Some? {
      var t := text.value;
      var fitted := if |t| < STACK_MSG then t else t[..STACK_MSG - 1];
      FlattenOne(fitted);
      var _ := CopySegments([fitted], stackbuf);
    }
    buf := stackbuf;
    msglen := if need < 0 then 0 else need;
    if need >= STACK_MSG {
      if heapOk {
        var heap := new char[need + 1](_ => '\0');
        FlattenOne(text.value);
        var _ := CopySegments([text.value], heap);
        buf := heap;
      } else {
        buf := stackbuf;
        msglen := STACK_MSG - 1;
      }
    }
  }

  lemma FlattenOne(s: string)
    ensures Flatten([s]) == s
  {
    assert [s][..0] == [];
  }

  /** vlog from the formatted text to the primary segments: format into
      the message buffer, apply the truncation policy in place, and slice
      the header and the (possibly dotted) message. */
  method PrimaryLine(text: Option<string>, heapOk: bool, head: string) returns (segs: seq<string>, p: Plan)
    ensures p == TruncPlan(|head|, |MessageBytes(text, heapOk)|)
    ensures p.headLen <= |head| && (p.iovcnt == 2 ==> p.msgLen <= |Dotted(MessageBytes(text, heapOk), p)|)
    ensures segs == PrimarySegments(head, Dotted(MessageBytes(text, heapOk), p), p)
  {
    var msg, msglen := PrepareMessage(text, heapOk);
    ghost var before := msg[..];
    p := Truncate(msg, msglen, |head|);
    EmittedSegments(before, msg[..], msglen, head, text, heapOk, p);
    PlanBounds(|head|, msglen);
    segs := [head[..p.headLen]] + (if p.iovcnt == 2 then [msg[..p.msgLen]] else []);
  }

  /** The truncation policy on the message buffer: compute the plan and
      write "..." in place at the truncation point. */
  method Truncate(msg: array<char>, msglen: nat, hlen: nat) returns (p: Plan)
    requires msglen < msg.Length
    modifies msg
    ensures p == TruncPlan(hlen, msglen)
    ensures msg[..] == Dotted(old(msg[..]), p)
  {
    var headLen, iovcnt, len := hlen, if msglen > 0 then 2 else 1, msglen;
    var dots, notice := false, false;
    var total := hlen + msglen;
    if total + 1 > LOG_MAX_WRITE && msglen > 0 {
      notice := true;
      var allowed := LOG_MAX_WRITE - 1;
      if hlen >= allowed {
        headLen := allowed - 3;
        iovcnt := 1;
      } else {
        var remain := allowed - hlen;
        if remain < 4 {
          iovcnt := 1;
        } else {
          var newLen := remain - 3;
          if msglen > 0 {
            if msglen > newLen {
              if msglen >= newLen + 3 {
                msg[newLen] := '.';
                msg[newLen + 1] := '.';
                msg[newLen + 2] := '.';
                dots := true;
              }
              len := newLen + 3;
            }
          }
        }
      }
    }
    p := Plan(headLen, iovcnt, len, dots, notice);
    assert dots ==> msg[..] == old(msg[..])[..len - 3] + "..." + old(msg[..])[len..];
  }
}
