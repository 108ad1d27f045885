/** The public API of app/emlog.c around the global state G: emlog_init,
    the setters, emlog_log (vlog), emlog_log_errno and write_line_iov. */
module Logger {
  import opened Wrappers
  import opened Api
  import opened Decimal
  import opened Tables
  import opened Timestamp
  import opened Sink
  import opened Pipeline

  /** unsigned init_gen: incremented modulo 2^32. */
  type Gen = n: nat | n < 0x1_0000_0000

  /** "Initialized emlog (level=<LVL>, timestamps=enabled|disabled)" */
  function InitMessage(level: Level, ts: bool): string {
    "Initialized emlog (level=" + LvlStr(level) + ", timestamps=" + (if ts then "enabled" else "disabled") + ")"
  }

  /** The level emlog_init installs: the environment's when the argument is
      negative, otherwise the argument itself. */
  function InitLevel(minLevelArg: int, env: Option<string>): (l: Level)
    ensures minLevelArg < 0 ==> l == ParseLevel(env) && l <= LEVEL_CRIT
    ensures minLevelArg >= 0 ==> l == minLevelArg
  {
    if minLevelArg < 0 then ParseLevel(env) else minLevelArg
  }

  /** "%s: %s (%d)" of the base text (the caller's text as it fits
      base[768]), the error description and the error number. */
  function ErrnoMessage(text: string, desc: string, err: int): string {
    CStr(Clamp(text, 768)) + ": " + CStr(desc) + " (" + Signed(err) + ")"
  }

  /** The base text: at most 767 bytes, and the caller's text itself when
      that is a NUL-free text short enough for base[768]. */
  lemma ErrnoBase(text: string)
    ensures |CStr(Clamp(text, 768))| <= 767
    ensures NoNul(text) && |text| < 768 ==> CStr(Clamp(text, 768)) == text
  {
    if NoNul(text) && |text| < 768 {
      assert Clamp(text, 768) == text;
      CStrSelf(text);
    }
  }

  /** The composed errno line: the base text, ": ", the description, and
      the number in parentheses. */
  lemma ErrnoMessageLayout(text: string, desc: string, err: int)
    ensures var m := ErrnoMessage(text, desc, err);
      var base := CStr(Clamp(text, 768));
      m[..|base| + 2] == base + ": " &&
      m[|m| - |Signed(err)| - 1..] == Signed(err) + ")"
  {
    JoinLayout(CStr(Clamp(text, 768)), CStr(desc), Signed(err));
  }

  lemma JoinLayout(base: string, desc: string, num: string)
    ensures var m := base + ": " + desc + " (" + num + ")";
      m[..|base| + 2] == base + ": " && m[|m| - |num| - 1..] == num + ")"
  {
    var m := base + ": " + desc + " (" + num + ")";
    assert m == (base + ": ") + (desc + " (" + num + ")");
    Halves(base + ": ", desc + " (" + num + ")");
    assert m == (base + ": " + desc + " (") + (num + ")");
    Halves(base + ": " + desc + " (", num + ")");
  }

  /** With a description shorter than eb[128] and a 32-bit number, the
      errno line always fits the 1024-byte stack buffer, so it is never cut. */
  lemma ErrnoMessageFits(text: string, desc: string, err: int)
    requires -0x8000_0000 <= err < 0x8000_0000 && |CStr(desc)| < 128
    ensures |ErrnoMessage(text, desc, err)| < STACK_MSG
    ensures MessageBytes(Some(ErrnoMessage(text, desc, err)), false) == ErrnoMessage(text, desc, err)
  {
    ErrnoBase(text);
    SignedInt32Length(err);
  }

  lemma Halves(x: string, y: string)
    ensures (x + y)[..|x|] == x && (x + y)[|x|..] == y
  {
  }

  /** The init line always fits: its header fits head[128] and the message
      is far below the limit, so it is never truncated. */
  lemma InitLineShort(st: CacheState, ctx: Context, level: Level, useTs: bool)
    ensures var ts := TsFor(useTs, st, ctx);
      var head := HeaderText(ts, LEVEL_INFO, ctx.tid, Some("emlog"));
      var msg := InitMessage(level, useTs);
      LineFits(ts, LEVEL_INFO, ctx.tid, Some("emlog"), Some(msg), ctx.msgHeapOk) &&
      MessageBytes(Some(msg), ctx.msgHeapOk) == msg &&
      |head| + |msg| + 1 <= LOG_MAX_WRITE
  {
    var ts := TsFor(useTs, st, ctx);
    Uint64Digits(ctx.tid);
    if useTs {
      var text := Composed(Step(st, ctx.clock.sec, ctx.local), Ms(ctx.clock.nsec));
      ClampShape(text, TS_BUF);
    }
    var head := HeaderText(ts, LEVEL_INFO, ctx.tid, Some("emlog"));
    HeaderShape(ts, LEVEL_INFO, ctx.tid, Some("emlog"));
    assert |head| < HEAD_BUF;
    var msg := InitMessage(level, useTs);
    assert |msg| < 64;
    PlanUnchangedIff(|head|, |msg|);
  }

  /** The logger's global state G (the mutex is not modelled), with the
      lines it has emitted so far. */
  class Logger {
    var minLevel: Level
    var useTs: bool
    var writer: Option<nat>
    var writerUd: nat
    var writevFlush: bool
    var initGen: Gen
    var initialized: bool
    /** How many times tzset has been called. */
    ghost var tzsets: nat
    /** Every sink effect so far, in order. */
    var events: seq<Event>

    /** The configuration a log call reads. */
    function Settings(): Config
      reads this`minLevel, this`useTs, this`writer, this`writerUd, this`writevFlush
    {
      Pipeline.Config(minLevel, useTs, writer, writerUd, writevFlush)
    }

    /** The static initialiser of G. */
    constructor ()
      ensures Settings() == Pipeline.Config(LEVEL_INFO, true, None, 0, false)
      ensures initGen == 0 && !initialized && tzsets == 0 && events == []
    {
      minLevel, useTs, writer, writerUd, writevFlush := LEVEL_INFO, true, None, 0, false;
      initGen, initialized, tzsets, events := 0, false, 0, [];
    }

    /** emlog_set_level */
    method SetLevel(l: Level)
      modifies this`minLevel
      ensures minLevel == l
    {
      minLevel := l;
    }

    /** emlog_enable_timestamps */
    method EnableTimestamps(on: bool)
      modifies this`useTs
      ensures useTs == on
    {
      useTs := on;
    }

    /** emlog_set_writer: a null callback (None) restores the default sink. */
    method SetWriter(fn: Option<nat>, user: nat)
      modifies this`writer, this`writerUd
      ensures writer == fn && writerUd == user
    {
      writer := fn;
      writerUd := user;
    }

    /** emlog_set_writev_flush */
    method SetWritevFlush(on: bool)
      modifies this`writevFlush
      ensures writevFlush == on
    {
      writevFlush := on;
    }

    /** write_line_iov: the writer path assembles the line in a 2048-byte
        stack buffer or a heap buffer of the exact size (dropping the line
        when the heap fails); the default path sends at most 15 segments and
        a newline in one writev, after an optional flush. */
    method WriteLineIov(level: Level, segs: seq<string>, heapOk: bool)
      modifies this`events
      ensures events == old(events) + SinkEvents(writer, writerUd, writevFlush, level, segs, heapOk)
    {
      if writer.Some? {
        var total := TotalLength(segs);
        var buf: array<char>;
        if total <= WRITER_STACK {
          buf := new char[WRITER_STACK];
        } else {
          if !heapOk {
            return;
          }
          buf := new char[total];
        }
        var off := CopySegments(segs, buf);
        events := events + [WriterCall(writer.value, level, buf[..off], writerUd)];
        return;
      }
      var s := DefaultStream(level);
      if writevFlush {
        events := events + [Flush(s)];
      }
      var kept := KeepSegments(segs);
      // iov[iovcnt] is the newline; writev gathers the whole array
      FlattenAppend(kept, "\n");
      events := events + [Write(s, Flatten(kept + ["\n"]))];
    }

    /** emlog_log / vlog, for the thread whose timestamp cache is `cache`.
        `text` is the formatted message (None when formatting fails). */
    method Log(level: Level, comp: Option<string>, text: Option<string>, cache: TsCache, ctx: Context)
      requires cache.Valid()
      requires level >= minLevel ==>
                 LineFits(TsFor(useTs, cache.State(), ctx), level, ctx.tid, comp, text, ctx.msgHeapOk)
      modifies this`events, cache`cacheSec, cache.prefix, cache.tz
      ensures cache.Valid()
      ensures cache.State() == if level >= minLevel && useTs
                               then Step(old(cache.State()), ctx.clock.sec, ctx.local)
                               else old(cache.State())
      ensures events == old(events) + VlogEvents(Settings(), level, TsFor(useTs, old(cache.State()), ctx),
                                                 ctx.tid, comp, text, ctx.msgHeapOk, ctx.sinkHeapOk)
    {
      if level < minLevel {
        return;
      }
      ghost var st0 := cache.State();
      var ts: Option<string> := None;
      if useTs {
        var t, _ := cache.Format(ctx.clock, ctx.local, TS_BUF);
        ts := Some(t);
      }
      assert ts == TsFor(useTs, st0, ctx);
      EmitLine(level, comp, ts, text, ctx);
    }

    /** The part of vlog after the filter and the timestamp: format the
        message, build the header, truncate and emit the line and notice. */
    method EmitLine(level: Level, comp: Option<string>, ts: Option<string>, text: Option<string>, ctx: Context)
      requires LineFits(ts, level, ctx.tid, comp, text, ctx.msgHeapOk)
      modifies this`events
      ensures events == old(events) + LineEvents(Settings(), level, ts, ctx.tid, comp, text,
                                                 ctx.msgHeapOk, ctx.sinkHeapOk)
    {
      var head := HeaderText(ts, level, ctx.tid, comp);
      var segs, p := PrimaryLine(text, ctx.msgHeapOk, head);
      LineEventsIn(Settings(), level, ts, ctx.tid, comp, text, ctx.msgHeapOk, ctx.sinkHeapOk, p, segs);
      WriteLineIov(level, segs, ctx.sinkHeapOk);
      WriteNotice(level, ctx.tid, comp, p.notice, ctx.sinkHeapOk);
    }

    /** The second write of a truncated line: the notice, when it is not empty. */
    method WriteNotice(level: Level, tid: Tid, comp: Option<string>, notice: bool, heapOk: bool)
      modifies this`events
      ensures events == old(events) + NoticeEvents(Settings(), level, tid, comp, notice, heapOk)
    {
      if notice {
        var w := NoticeText(level, tid, comp);
        if |w| > 0 {
          WriteLineIov(level, [w], heapOk);
        }
      }
    }

    /** emlog_log_errno: "<text>: <description> (<err>)" at the given level;
        `desc` is what strerror_r reports for err. */
    method LogErrno(level: Level, comp: Option<string>, err: int, text: string, desc: string,
                    cache: TsCache, ctx: Context)
      requires cache.Valid()
      requires level >= minLevel ==>
                 LineFits(TsFor(useTs, cache.State(), ctx), level, ctx.tid, comp,
                          Some(ErrnoMessage(text, desc, err)), ctx.msgHeapOk)
      modifies this`events, cache`cacheSec, cache.prefix, cache.tz
      ensures cache.Valid()
      ensures cache.State() == if level >= minLevel && useTs
                               then Step(old(cache.State()), ctx.clock.sec, ctx.local)
                               else old(cache.State())
      ensures events == old(events) + VlogEvents(Settings(), level, TsFor(useTs, old(cache.State()), ctx),
                                                 ctx.tid, comp, Some(ErrnoMessage(text, desc, err)),
                                                 ctx.msgHeapOk, ctx.sinkHeapOk)
    {
      Log(level, comp, Some(ErrnoMessage(text, desc, err)), cache, ctx);
    }

    /** emlog_init: install the level (from the environment when the
        argument is negative) and the timestamp switch, call tzset only when
        timestamps are being turned on for the first time or after being
        off, count the call, and log the init line at INFO. */
    method Init(minLevelArg: int, timestamps: bool, env: Option<string>, cache: TsCache, ctx: Context)
      requires cache.Valid()
      modifies this`minLevel, this`useTs, this`tzsets, this`initialized, this`initGen, this`events
      modifies cache`cacheSec, cache.prefix, cache.tz
      ensures minLevel == InitLevel(minLevelArg, env) && useTs == timestamps
      ensures tzsets == old(tzsets) + if timestamps && (!old(initialized) || !old(useTs)) then 1 else 0
      ensures initialized
      ensures initGen == (old(initGen) + 1) % 0x1_0000_0000
      ensures cache.Valid()
      ensures cache.State() == if LEVEL_INFO >= minLevel && useTs
                               then Step(old(cache.State()), ctx.clock.sec, ctx.local)
                               else old(cache.State())
      ensures events == old(events) + VlogEvents(Settings(), LEVEL_INFO, TsFor(useTs, old(cache.State()), ctx),
                                                 ctx.tid, Some("emlog"), Some(InitMessage(minLevel, useTs)),
                                                 ctx.msgHeapOk, ctx.sinkHeapOk)
    {
      Configure(minLevelArg, timestamps, env);
      InitLineShort(cache.State(), ctx, minLevel, useTs);
      Log(LEVEL_INFO, Some("emlog"), Some(InitMessage(minLevel, useTs)), cache, ctx);
    }

    /** The locked part of emlog_init: everything but the init line. */
    method Configure(minLevelArg: int, timestamps: bool, env: Option<string>)
      modifies this`minLevel, this`useTs, this`tzsets, this`initialized, this`initGen
      ensures minLevel == InitLevel(minLevelArg, env) && useTs == timestamps
      ensures tzsets == old(tzsets) + if timestamps && (!old(initialized) || !old(useTs)) then 1 else 0
      ensures initialized
      ensures initGen == (old(initGen) + 1) % 0x1_0000_0000
    {
      var newLevel := InitLevel(minLevelArg, env);
      var newUseTs := timestamps;
      var needTz := newUseTs && (!initialized || !useTs);
      minLevel := newLevel;
      useTs := newUseTs;
      if needTz {
        tzsets := tzsets + 1;
      }
      initialized := true;
      initGen := (initGen + 1) % 0x1_0000_0000;
    }
  }

  /** The init line, when the INFO level passes the filter, reaches the sink
      whole: header then message, never truncated and never followed by a notice. */
  lemma InitLineWhole(c: Config, st: CacheState, ctx: Context, level: Level)
    requires c.minLevel <= LEVEL_INFO
    ensures var ts := TsFor(c.useTs, st, ctx);
      var head := HeaderText(ts, LEVEL_INFO, ctx.tid, Some("emlog"));
      var msg := InitMessage(level, c.useTs);
      VlogEvents(c, LEVEL_INFO, ts, ctx.tid, Some("emlog"), Some(msg), ctx.msgHeapOk, ctx.sinkHeapOk) ==
        SinkEvents(c.writer, c.user, c.flush, LEVEL_INFO, [head, msg], ctx.sinkHeapOk)
  {
    var ts := TsFor(c.useTs, st, ctx);
    var msg := InitMessage(level, c.useTs);
    InitLineShort(st, ctx, level, c.useTs);
    var head := HeaderText(ts, LEVEL_INFO, ctx.tid, Some("emlog"));
    assert MessageBytes(Some(msg), ctx.msgHeapOk) == msg && msg != [];
    UnchangedWhenFits(c, LEVEL_INFO, ts, ctx.tid, Some("emlog"), Some(msg), ctx.msgHeapOk, ctx.sinkHeapOk);
    assert [head] + [msg] == [head, msg];
  }
}
