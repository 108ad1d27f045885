/** The legacy logger of src/emlog.c: the same filter and message buffer
    policy as app/emlog.c, but no truncation, one heap-assembled line (or two
    writes), an uncached timestamp, its own name and exit-code tables, and a
    tzset on every init with timestamps on. */
module Legacy {
  import opened Wrappers
  import opened Api
  import opened Decimal
  import opened Tables
  import opened Timestamp
  import opened Sink
  import opened Pipeline
  import opened Logger

  /** char head[96] */
  const LEGACY_HEAD_BUF: nat := 96
  /** ISO8601_BUFSZ: 29 characters and a NUL. */
  const ISO_BUF: nat := 30

  /** eml_err_name: no name for the sentinel, which is "EML_UNKNOWN" here. */
  function LegacyErrName(c: Category): (s: string)
    ensures |s| > 4 && s[..4] == "EML_"
    ensures s == "EML_UNKNOWN" <==> c >= EML_COUNT
  {
    if c == EML_OK then "EML_OK"
    else if c == EML_TRY_AGAIN then "EML_TRY_AGAIN"
    else if c == EML_TEMP_RESOURCE then "EML_TEMP_RESOURCE"
    else if c == EML_TEMP_UNAVAILABLE then "EML_TEMP_UNAVAILABLE"
    else if c == EML_BAD_INPUT then "EML_BAD_INPUT"
    else if c == EML_NOT_FOUND then "EML_NOT_FOUND"
    else if c == EML_PERM then "EML_PERM"
    else if c == EML_CONFLICT then "EML_CONFLICT"
    else if c == EML_FATAL_CONF then "EML_FATAL_CONF"
    else if c == EML_FATAL_IO then "EML_FATAL_IO"
    else if c == EML_FATAL_CRYPTO then "EML_FATAL_CRYPTO"
    else if c == EML_FATAL_BUG then "EML_FATAL_BUG"
    else "EML_UNKNOWN"
  }

  /** eml_err_to_exit: four categories have a non-zero code, the rest 0. */
  function LegacyErrToExit(c: Category): (x: int)
    ensures x in EXIT_CODES
    ensures x == EXIT_CONF <==> c == EML_FATAL_CONF
    ensures x == EXIT_IO <==> c == EML_FATAL_IO
    ensures x == EXIT_MEM <==> c == EML_TEMP_RESOURCE
    ensures x == EXIT_BUG <==> c == EML_FATAL_BUG
  {
    if c == EML_FATAL_CONF then EXIT_CONF
    else if c == EML_FATAL_IO then EXIT_IO
    else if c == EML_TEMP_RESOURCE then EXIT_MEM
    else if c == EML_FATAL_BUG then EXIT_BUG
    else EXIT_OK
  }

  /** The two variants' tables differ exactly at the sentinel (names) and
      at FATAL_CRYPTO and the sentinel (exit codes). */
  lemma TablesAgreeExcept(c: Category)
    ensures LegacyErrName(c) == ErrName(c) <==> c != EML_COUNT
    ensures LegacyErrToExit(c) == ErrToExit(c) <==> c != EML_FATAL_CRYPTO && c != EML_COUNT
  {
    ErrToExitMeaning(c);
    ErrNameDistinct(c, c);
  }

  function Nuls(k: nat): (s: string)
    ensures |s| == k
  {
    if k == 0 then [] else ['\0'] + Nuls(k - 1)
  }

  /** The five bytes z[0..4] after strftime("%z") into the zeroed z[6]:
      the zone text and NUL padding when it fits, "+0000" when strftime
      reports failure (an empty or too long result). */
  function ZoneBytes(z: string): (b: string)
    ensures |b| == 5
  {
    if 0 < |z| < 6 then z + Nuls(5 - |z|) else "+0000"
  }

  /** snprintf("%c%c%c:%c%c") into tz[7], read back as a C string. */
  function LegacyZone(z: string): string {
    var b := ZoneBytes(z);
    CStr([b[0], b[1], b[2], ':', b[3], b[4]])
  }

  /** A five-character zone is rewritten the way the cached variant does;
      a failed %z gives "+00:00" in both. */
  lemma LegacyZoneAgrees(z: string)
    requires NoNul(z)
    ensures |z| == 5 ==> LegacyZone(z) == CacheZone(z)
    ensures z == [] ==> LegacyZone(z) == CacheZone(z) == "+00:00"
  {
    var b := ZoneBytes(z);
    var six := [b[0], b[1], b[2], ':', b[3], b[4]];
    if |z| == 5 {
      assert b == z;
      assert six == z[..3] + ":" + z[3..5];
      CStrSelf(six);
    } else if z == [] {
      assert six == "+00:00";
      CStrSelf(six);
    }
  }

  /** The text snprintf would produce, "%04d-%02d-%02dT%02d:%02d:%02d.%03u%s";
      its length is `written`. */
  function Rendered(t: Tm, ms: nat, z: string): string
    requires TmValid(t)
  {
    DateText(t) + "." + Padded(ms, 3) + LegacyZone(z)
  }

  /** The number of bytes memcpy takes from tmp as written: the would-be
      length, clamped only to the caller's buffer. */
  function CopyLenAsWritten(written: nat, n: nat): nat
    requires n > 0
  {
    if written >= n then n - 1 else written
  }

  /** A local time in the year 100000 renders 31 bytes; with the 40-byte
      buffer of vlog, 31 bytes are copied out of the 30-byte tmp, one past
      its end. A 64-bit time_t can hold such a year, but Linux's
      CLOCK_REALTIME cannot reach it, so there the overrun is latent. */
  lemma CopyOverrunsTmp()
    ensures var t := Tm(100000, 1, 1, 0, 0, 0);
      var written := |Rendered(t, 0, "+0000")|;
      written == 31 && CopyLenAsWritten(written, TS_BUF) == 31 && CopyLenAsWritten(written, TS_BUF) > ISO_BUF
  {
    var t := Tm(100000, 1, 1, 0, 0, 0);
    SixDigitYear();
    DateTextLength(t);
    assert |Padded(100000, 4)| == 6;
    assert Pow10(3) == 1000;
    PaddedExact(0, 3);
    LegacyZoneAgrees("+0000");
    assert |LegacyZone("+0000")| == 6;
  }

  lemma SixDigitYear()
    ensures |Text(100000)| == 6
  {
    assert Text(100000) == Text(10000) + [DigitChar(0)];
    assert Text(10000) == Text(1000) + [DigitChar(0)];
    assert Text(1000) == Text(100) + [DigitChar(0)];
    assert Text(100) == Text(10) + [DigitChar(0)];
    assert Text(10) == Text(1) + [DigitChar(0)];
  }

  /** fmt_time_iso8601 of the legacy variant, copying only what tmp holds:
      the rendering clamped to tmp's 29 characters and then to n-1 bytes. */
  function LegacyTimestamp(t: Tm, ms: nat, z: string, n: nat): (out: string)
    requires TmValid(t)
    ensures |out| < ISO_BUF && (n > 0 ==> |out| < n)
    ensures |out| <= |Rendered(t, ms, z)| && out == Rendered(t, ms, z)[..|out|]
  {
    Clamp(Clamp(Rendered(t, ms, z), ISO_BUF), n)
  }

  /** The legacy timestamp is a prefix of the rendering, never longer than
      29 bytes nor than n-1, and whole when both allow. */
  lemma LegacyTimestampShape(t: Tm, ms: nat, z: string, n: nat)
    requires TmValid(t) && n > 0
    ensures var r := Rendered(t, ms, z);
      var out := LegacyTimestamp(t, ms, z, n);
      var k := if |r| < ISO_BUF - 1 then |r| else ISO_BUF - 1;
      |out| == (if k < n - 1 then k else n - 1) && out == r[..|out|]
  {
    var r := Rendered(t, ms, z);
    ClampShape(r, ISO_BUF);
    ClampShape(Clamp(r, ISO_BUF), n);
  }

  /** Wherever the copy as written stays inside tmp (a rendering of at most
      29 bytes), the corrected timestamp is exactly what it copies. */
  lemma LegacyTimestampAsWritten(t: Tm, ms: nat, z: string, n: nat)
    requires TmValid(t) && n > 0 && |Rendered(t, ms, z)| < ISO_BUF
    ensures var r := Rendered(t, ms, z);
      LegacyTimestamp(t, ms, z, n) == r[..CopyLenAsWritten(|r|, n)]
  {
  }

  /** For a four-digit year and a five-character %z the legacy and the cached
      timestamps are the same text (the cache rebuilt for that second). */
  lemma LegacyMatchesCached(sec: int, local: int -> LocalTime, ms: nat)
    requires 0 <= local(sec).tm.year <= 9999 && |local(sec).zone| == 5 && ms <= 999
    ensures LegacyTimestamp(local(sec).tm, ms, local(sec).zone, TS_BUF) == Compose(Fresh(sec, local), ms, TS_BUF)
  {
    var lt := local(sec);
    LegacyZoneAgrees(lt.zone);
    RenderedIsRfc3339(sec, local, ms);
    DateHalfLayout(lt.tm);
    TimeHalfLayout(lt.tm);
    var r := Rendered(lt.tm, ms, lt.zone);
    assert r == Composed(Fresh(sec, local), ms);
    ComposeShape(Fresh(sec, local), ms, TS_BUF);
  }

  /** The timestamp one legacy call renders, or None when off. */
  function LegacyTsFor(useTs: bool, ctx: Context): Option<string> {
    if useTs then
      var lt := ctx.local(ctx.clock.sec);
      Some(LegacyTimestamp(lt.tm, Ms(ctx.clock.nsec), lt.zone, TS_BUF))
    else None
  }

  /** The legacy vlog copies hlen bytes out of head[96], hlen being
      snprintf's would-be length; a 90-byte component tag makes it exceed
      the buffer. */
  lemma LegacyHeaderOverrun()
    ensures |HeaderText(None, LEVEL_INFO, 1, Some(seq(90, _ => 'x')))| > LEGACY_HEAD_BUF
  {
    assert Text(1) == [DigitChar(1)];
  }

  /** write_line: the writer gets the bytes; otherwise fwrite, a newline
      and a flush on stdout (DBG, INF) or stderr. */
  function LineWrite(writer: Option<nat>, user: nat, level: Level, line: string): seq<Event> {
    match writer
    case Some(fn) => [WriterCall(fn, level, line, user)]
    case None =>
      var s := DefaultStream(level);
      [Write(s, line), Write(s, "\n"), Flush(s)]
  }

  /** The configuration the legacy vlog reads. */
  datatype LegacyConfig = LegacyConfig(minLevel: Level, useTs: bool, writer: Option<nat>, user: nat)

  /** The legacy vlog: nothing below the minimum, otherwise the line. */
  function LegacyVlogEvents(c: LegacyConfig, level: Level, ts: Option<string>, tid: Tid, comp: Option<string>,
                            text: Option<string>, msgHeapOk: bool, lineHeapOk: bool): seq<Event>
  {
    if level < c.minLevel then [] else LegacyLineEvents(c, level, ts, tid, comp, text, msgHeapOk, lineHeapOk)
  }

  /** Header and message as one line when the line buffer can be had,
      else as two. */
  function LegacyLineEvents(c: LegacyConfig, level: Level, ts: Option<string>, tid: Tid, comp: Option<string>,
                            text: Option<string>, msgHeapOk: bool, lineHeapOk: bool): seq<Event>
  {
    var head := HeaderText(ts, level, tid, comp);
    var msg := MessageBytes(text, msgHeapOk);
    if lineHeapOk then LineWrite(c.writer, c.user, level, head + msg)
    else LineWrite(c.writer, c.user, level, head) + LineWrite(c.writer, c.user, level, msg)
  }

  /** The legacy filter, both ways: a call emits something exactly when its
      level is at or above the minimum. */
  lemma LegacyLevelFilter(c: LegacyConfig, level: Level, ts: Option<string>, tid: Tid, comp: Option<string>,
                          text: Option<string>, msgHeapOk: bool, lineHeapOk: bool)
    ensures LegacyVlogEvents(c, level, ts, tid, comp, text, msgHeapOk, lineHeapOk) == [] <==> level < c.minLevel
  {
  }

  /** With the line buffer the sink gets exactly header ++ message, of length
      hlen + msglen, however long: no cap, no notice. Without it, the header
      and the message are two separate lines. */
  lemma LegacyLineShape(c: LegacyConfig, level: Level, ts: Option<string>, tid: Tid, comp: Option<string>,
                        text: Option<string>, msgHeapOk: bool, lineHeapOk: bool)
    requires level >= c.minLevel
    ensures var head := HeaderText(ts, level, tid, comp);
      var msg := MessageBytes(text, msgHeapOk);
      var ev := LegacyVlogEvents(c, level, ts, tid, comp, text, msgHeapOk, lineHeapOk);
      var s := if level <= LEVEL_INFO then Stdout else Stderr;
      (lineHeapOk && c.writer.Some? ==> ev == [WriterCall(c.writer.value, level, head + msg, c.user)] &&
                                        |ev[0].bytes| == |head| + |msg|) &&
      (lineHeapOk && c.writer.None? ==> ev == [Write(s, head + msg), Write(s, "\n"), Flush(s)]) &&
      (!lineHeapOk && c.writer.Some? ==> ev == [WriterCall(c.writer.value, level, head, c.user),
                                               WriterCall(c.writer.value, level, msg, c.user)]) &&
      (!lineHeapOk && c.writer.None? ==> ev == [Write(s, head), Write(s, "\n"), Flush(s),
                                               Write(s, msg), Write(s, "\n"), Flush(s)])
  {
  }

  /** Unlike the app variant, a long message is never cut: with the line
      buffer the single write carries all of it, beyond LOG_MAX_WRITE. */
  lemma LegacyNoCap(c: LegacyConfig, level: Level, ts: Option<string>, tid: Tid, comp: Option<string>,
                    t: string)
    requires level >= c.minLevel && c.writer.None?
    requires |t| >= LOG_MAX_WRITE
    ensures var ev := LegacyVlogEvents(c, level, ts, tid, comp, Some(t), true, true);
      ev[0].Write? && |ev[0].bytes| > LOG_MAX_WRITE && ev[0].bytes[|ev[0].bytes| - |t|..] == t
  {
    var head := HeaderText(ts, level, tid, comp);
    assert MessageBytes(Some(t), true) == t;
    assert (head + t)[|head + t| - |t|..] == t;
  }

  /** The legacy global state G (no flush switch, no init bookkeeping). */
  class LegacyLogger {
    var minLevel: Level
    var useTs: bool
    var writer: Option<nat>
    var writerUd: nat
    /** How many times tzset has been called. */
    ghost var tzsets: nat
    /** Every sink effect so far, in order. */
    var events: seq<Event>

    function Settings(): LegacyConfig
      reads this`minLevel, this`useTs, this`writer, this`writerUd
    {
      LegacyConfig(minLevel, useTs, writer, writerUd)
    }

    /** The static initialiser of G. */
    constructor ()
      ensures Settings() == LegacyConfig(LEVEL_INFO, true, None, 0)
      ensures tzsets == 0 && events == []
    {
      minLevel, useTs, writer, writerUd := LEVEL_INFO, true, None, 0;
      tzsets, events := 0, [];
    }

    /** emlog_init: the level (from the environment when negative), the
        switch, and a tzset every time timestamps are on; nothing is logged. */
    method Init(minLevelArg: int, timestamps: bool, env: Option<string>)
      modifies this`minLevel, this`useTs, this`tzsets
      ensures minLevel == (if minLevelArg < 0 then ParseLevel(env) else minLevelArg)
      ensures useTs == timestamps
      ensures tzsets == old(tzsets) + if timestamps then 1 else 0
    {
      if minLevelArg < 0 {
        minLevel := ParseLevel(env);
      } else {
        minLevel := minLevelArg;
      }
      useTs := timestamps;
      if useTs {
        tzsets := tzsets + 1;
      }
    }

    /** emlog_set_level */
    method SetLevel(l: Level)
      modifies this`minLevel
      ensures minLevel == l
    {
      minLevel := l;
    }

    /** emlog_enable_timestamps */
    method EnableTimestamps(on: bool)
      modifies this`useTs
      ensures useTs == on
    {
      useTs := on;
    }

    /** emlog_set_writer */
    method SetWriter(fn: Option<nat>, user: nat)
      modifies this`writer, this`writerUd
      ensures writer == fn && writerUd == user
    {
      writer := fn;
      writerUd := user;
    }

    /** write_line */
    method WriteLine(level: Level, line: string)
      modifies this`events
      ensures events == old(events) + LineWrite(writer, writerUd, level, line)
    {
      if writer.Some? {
        events := events + [WriterCall(writer.value, level, line, writerUd)];
        return;
      }
      var s := DefaultStream(level);
      events := events + [Write(s, line)];
      events := events + [Write(s, "\n")];
      events := events + [Flush(s)];
    }

    /** emlog_log / vlog of the legacy variant; `ctx.sinkHeapOk` says whether
        the line buffer of hlen+msglen+1 bytes can be had. */
    method Log(level: Level, comp: Option<string>, text: Option<string>, ctx: Context)
      requires level >= minLevel ==>
                 |HeaderText(LegacyTsFor(useTs, ctx), level, ctx.tid, comp)| < LEGACY_HEAD_BUF
      modifies this`events
      ensures events == old(events) + LegacyVlogEvents(Settings(), level, LegacyTsFor(useTs, ctx), ctx.tid,
                                                       comp, text, ctx.msgHeapOk, ctx.sinkHeapOk)
    {
      if level < minLevel {
        return;
      }
      var ts: Option<string> := None;
      if useTs {
        var lt := ctx.local(ctx.clock.sec);
        ts := Some(LegacyTimestamp(lt.tm, Ms(ctx.clock.nsec), lt.zone, TS_BUF));
      }
      assert ts == LegacyTsFor(useTs, ctx);
      EmitLine(level, comp, ts, text, ctx);
    }

    /** emlog_log_errno of the legacy variant: the same errno line as the
        app variant, through the legacy vlog. */
    method LogErrno(level: Level, comp: Option<string>, err: int, text: string, desc: string, ctx: Context)
      requires level >= minLevel ==>
                 |HeaderText(LegacyTsFor(useTs, ctx), level, ctx.tid, comp)| < LEGACY_HEAD_BUF
      modifies this`events
      ensures events == old(events) + LegacyVlogEvents(Settings(), level, LegacyTsFor(useTs, ctx), ctx.tid,
                                                       comp, Some(ErrnoMessage(text, desc, err)),
                                                       ctx.msgHeapOk, ctx.sinkHeapOk)
    {
      Log(level, comp, Some(ErrnoMessage(text, desc, err)), ctx);
    }

    /** The part of the legacy vlog after the filter and the timestamp. */
    method EmitLine(level: Level, comp: Option<string>, ts: Option<string>, text: Option<string>, ctx: Context)
      requires |HeaderText(ts, level, ctx.tid, comp)| < LEGACY_HEAD_BUF
      modifies this`events
      ensures events == old(events) + LegacyLineEvents(Settings(), level, ts, ctx.tid, comp, text,
                                                       ctx.msgHeapOk, ctx.sinkHeapOk)
    {
      var msg, msglen := PrepareMessage(text, ctx.msgHeapOk);
      var head := HeaderText(ts, level, ctx.tid, comp);
      if ctx.sinkHeapOk {
        var line := new char[|head| + msglen + 1];
        var segs := [head, msg[..msglen]];
        assert Flatten(segs) == head + msg[..msglen] by {
          FlattenOne(head);
          FlattenAppend([head], msg[..msglen]);
          assert [head] + [msg[..msglen]] == segs;
        }
        var off := CopySegments(segs, line);
        WriteLine(level, line[..off]);
      } else {
        WriteLine(level, head);
        WriteLine(level, msg[..msglen]);
      }
    }
  }
}
