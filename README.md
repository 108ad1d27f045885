# EMlog in Dafny

A model of the EMlog C logger, with proofs about the model. The main
variant is `app/emlog.c`; the legacy variant is `src/emlog.c`.

A log call (`emlog_log`, and `vlog` behind it) goes through these steps:
- It drops lines below the minimum level.
- It renders an optional timestamp from a per-thread cache. The cache
  rebuilds its seconds prefix and zone text only when the wall-clock
  second changes.
- It formats the message into a 1024-byte stack buffer. A longer
  message goes into a heap buffer; when that allocation fails, the
  first 1023 bytes are kept.
- It builds the header `"<ts> <LVL> [tid] [comp|-] "`.
- It applies the truncation policy. This keeps every primary write,
  newline included, within `LOG_MAX_WRITE` (PIPE_BUF, 4096) bytes, so
  the write is one atomic pipe write. It writes `"..."` into the message
  buffer in place and then emits one `TRUNCATED: …` notice line.
- It hands the segments to `write_line_iov`. That function either calls
  the installed writer with their concatenation, or issues one `writev`
  of at most 15 segments plus a newline to stdout (DBG, INF) or stderr
  (all higher levels).

Besides the log call, the model covers:
- `emlog_init` and the setters;
- `emlog_log_errno`'s message composition;
- the pure tables: level names, `EMLOG_LEVEL` parsing, and errno →
  category → name and exit code;
- the legacy variant: no truncation, one heap-assembled line (or two
  writes), an uncached timestamp, and its own tables.

Modules, one per file:
- `Wrappers` (`wrappers.dfy`): `Option`, standing for C's nullable
  pointers.
- `Api` (`api.dfy`): the vocabulary of `emlog.h`.
- `Decimal` (`decimal.dfy`): `%u`, `%llu`, `%0Nd` and `%d` rendering,
  with round trips.
- `Tables` (`tables.dfy`): the pure tables of `app/emlog.c`.
- `Sink` (`sink.dfy`): `write_line_iov`'s effects as a list of events,
  plus its copy loops.
- `Timestamp` (`timestamp.dfy`): the cache specification, and a class
  `TsCache` holding one thread's `ts_cache_*_tls` storage
  (`cacheSec`, `prefix[32]`, `tz[8]`).
- `Pipeline` (`pipeline.dfy`): vlog's message policy, header and
  truncation plan. It includes the in-place ellipsis on an `array<char>`.
- `Logger` (`logger.dfy`): a class `Logger` for the global `G`, with the
  setters, `Init`, `Log`, `LogErrno` and `WriteLineIov`.
- `Legacy` (`legacy.dfy`): the `src/emlog.c` variant, with its own class
  `LegacyLogger`.

The environment's services become inputs:
- the clock reading (`Clock`);
- `localtime_r` together with `strftime("%z")`, as a function
  `int -> LocalTime`;
- the thread id;
- the `EMLOG_LEVEL` value, as `Option<string>`;
- the `strerror_r` text;
- whether each `malloc` succeeds.

The formatted message is given as its full text, or `None` when
`vsnprintf` fails. Output is recorded as a sequence of `Event`s:
`Flush`, `Write` (stream and bytes) or `WriterCall` (callback, level,
bytes, user pointer). `tzset` calls are counted.

## Model

| member | source | states |
|---|---|---|
| Api.LevelsTotallyOrdered | app/include/emlog.h:39-46 | the five named levels are 0..4 in strictly increasing order, so comparing levels compares severity |
| Api.ExitCodesDistinct | app/include/emlog.h:80-87 | the five exit codes 0, 2, 3, 4, 5 are pairwise distinct |
| Decimal.TextRoundTrip | app/emlog.c:727-730 | the `%llu` rendering of n is all digits, has no leading zero, and reads back as n |
| Decimal.PaddedExact | app/emlog.c:425 | `%0wu` of a value below 10^w is exactly w digits whose value is the number |
| Decimal.Uint64Digits | app/emlog.c:726-730 | a uint64 thread id renders in 1..20 digits |
| Decimal.SignedInt32Length | app/emlog.c:258-261 | `%d` of a 32-bit int takes 1..11 characters |
| Tables.LvlStr | app/emlog.c:386-403 | every level code is three characters |
| Tables.LvlStrDistinct | app/emlog.c:386-403 | "UNK" is returned exactly for unnamed levels; named levels have distinct codes |
| Tables.DefaultStream | app/emlog.c:405-408 | stdout exactly for levels up to INFO, stderr above |
| Tables.ParseLevel | app/emlog.c:524-533 | the result is always a named level |
| Tables.ParseLevelMeaning | app/emlog.c:524-533 | each result holds iff the value equals its names ignoring ASCII case (debug; warn/warning; error; crit/fatal); INFO for "info", NULL or anything else |
| Tables.ParseLevelIgnoresCase | app/emlog.c:524-533 | a value parses the same as its lower-case form |
| Tables.FromErrno | app/emlog.c:265-315 | the category is at most FATAL_BUG and never FATAL_CONF or FATAL_CRYPTO |
| Tables.FromErrnoMatchesTable | app/emlog.c:265-315 | every listed Linux errno gets its table category, every other value FATAL_BUG |
| Tables.ErrName | app/emlog.c:317-350 | every name starts with "EML_" |
| Tables.ErrNameDistinct | app/emlog.c:317-350 | "EML__COUNT" for the sentinel, "EML_UNKNOWN" exactly above it, distinct names for 0..12 |
| Tables.ErrToExit | app/emlog.c:352-377 | the result is one of the five exit codes |
| Tables.ErrToExitMeaning | app/emlog.c:352-377 | exit 2 iff CONF or CRYPTO, 3 iff IO, 4 iff TEMP_RESOURCE, 5 iff BUG or the sentinel, 0 for the other categories and for out-of-range values |
| Tables.UnlistedErrnoIsBug | app/emlog.c:265-377 | an errno outside the table goes to exit code 5 |
| Sink.SinkEvents | app/emlog.c:545-616 | what write_line_iov emits for one call: with a writer, one call with the concatenation, dropped when the line exceeds 2048 bytes and the heap fails; otherwise an optional flush and one write of at most 15 segments and "\n" to the level's stream |
| Timestamp.Fresh | app/emlog.c:476-517 | the slow path's cache content for a second: the strftime prefix (empty when it does not fit) and the converted zone |
| Timestamp.Step | app/emlog.c:465-518 | one call's effect on the cache: unchanged on the cached second, rebuilt for any other |
| Timestamp.Clamp | app/emlog.c:427-436 | the copy into an n-byte buffer: nothing for n = 0, at most n-1 bytes |
| Timestamp.Compose | app/emlog.c:423-437 | copy_cached_ts: "%s.%03u%s" of prefix, ms and zone, clamped to the buffer |
| Pipeline.MessageBytes | app/emlog.c:697-723 | msg[..msglen]: empty on a formatting error, the whole text when it fits the stack or the heap succeeds, else its first 1023 bytes |
| Pipeline.HeaderText | app/emlog.c:725-731 | the text both header snprintf formats would produce; its length is hlen |
| Pipeline.NoticeText | app/emlog.c:805-807 | the "TRUNCATED: <LVL> [tid] [comp]" text; its length is w |
| Pipeline.TruncPlan | app/emlog.c:755-816 | the truncation policy on lengths, branch for branch: header length, iovcnt, message length, whether "..." is written and whether a notice follows |
| Pipeline.VlogEvents | app/emlog.c:688-818 | a whole vlog call: nothing below the minimum level, else the line's events |
| Pipeline.LineEvents | app/emlog.c:697-816 | the primary line through the sink, then the notice after a truncation |
| Logger.InitMessage | app/emlog.c:204-205 | the init line's text, naming the new level and the timestamp switch |
| Logger.ErrnoMessage | app/emlog.c:247-263 | "%s: %s (%d)" of the base text as it fits base[768], the description and the number |
| Sink.WriterReceivesConcatenation | app/emlog.c:547-580 | a custom writer gets exactly one call with the concatenated segments, no newline, its level and user pointer; nothing iff the line exceeds 2048 bytes and the heap fails |
| Sink.DefaultRouting | app/emlog.c:582-608 | with no writer and at most 15 segments: an optional flush, then one write of the segments and "\n" to the level's default stream |
| Sink.TotalLength | app/emlog.c:550-552 | the loop's total is the length of the concatenation |
| Sink.CopySegments | app/emlog.c:555-562 | the copy loop leaves the concatenation of the segments in the buffer's first `off` bytes, `off` being its length |
| Sink.CopyAt | app/emlog.c:558 | one memcpy puts the segment right after the first `off` bytes and leaves those unchanged |
| Sink.KeepSegments | app/emlog.c:597-601 | the loop copies the first min(n, 15) segments |
| Timestamp.MsInRange | app/emlog.c:457 | milliseconds are always 0..999 |
| Timestamp.CacheTransparent | app/emlog.c:459-520 | a step records the new second, rebuilds only when the second differs, keeps the cache coherent, and renders what an uncached computation for that second renders |
| Timestamp.ZoneConversion | app/emlog.c:500-515 | "+HHMM" becomes z[..3] ++ ":" ++ z[3..5]; anything that fails or is shorter than 5 becomes "+00:00"; always 6 characters with ':' at index 3 |
| Timestamp.ClampShape | app/emlog.c:433-436 | copying into an n-byte buffer keeps the first min(len, n-1) bytes |
| Timestamp.ComposeShape | app/emlog.c:423-437 | the output is prefix ++ "." ++ three digits whose value is ms ++ zone, clamped to n-1 bytes |
| Timestamp.DateHalfLayout | app/emlog.c:491 | a four-digit year gives YYYY-MM-DD with digit fields whose values are year, month and day |
| Timestamp.TimeHalfLayout | app/emlog.c:491 | THH:MM:SS with digit fields whose values are hour, minute and second |
| Timestamp.DateTextNoNul | app/emlog.c:491 | the rendered prefix has no NUL, so it survives as a C string |
| Timestamp.CStrOf | app/emlog.c:510 | a NUL-free text followed by NUL is the buffer's C string, whatever follows |
| Timestamp.RenderedIsRfc3339 | app/emlog.c:439-522 | with a four-digit year and a five-character %z, a rebuilt cache renders the 29-character RFC 3339 (section 5.6) date-time YYYY-MM-DDTHH:MM:SS.mmm+HH:MM, unclamped |
| Timestamp.TsCache.constructor | app/emlog.c:100-102 | the thread-local storage starts as second 0, empty prefix, "+00:00" |
| Timestamp.TsCache.StorePrefix | app/emlog.c:491-494 | the prefix buffer holds the strftime text, empty when it does not fit 32 bytes |
| Timestamp.TsCache.StoreZone | app/emlog.c:500-515 | the zone buffer holds the converted zone text |
| Timestamp.TsCache.CopyCached | app/emlog.c:423-437 | copy_cached_ts returns the composed text of the current cache clamped to n-1 bytes |
| Timestamp.TsCache.Format | app/emlog.c:439-522 | ms comes from the reading; the new cache state is the step function of the old one; the output is the composed text of the new state |
| Pipeline.MessagePolicy | app/emlog.c:697-723 | the message is the whole text iff it fits the stack buffer or the heap succeeds, otherwise its first 1023 bytes; a formatting error gives an empty message |
| Pipeline.PrepareMessage | app/emlog.c:697-723 | the buffer's first msglen bytes are the message of that policy, in a fresh buffer of 1024 or need+1 bytes |
| Pipeline.HeaderShape | app/emlog.c:725-731 | the header is [ts ++ " "] ++ LVL ++ " [" ++ tid ++ "] [" ++ comp-or-"-" ++ "] ", field by field |
| Pipeline.HeaderLengthOverrun | app/emlog.c:725-740 | a 120-byte tag makes the would-be header and notice lengths exceed their 128-byte buffers |
| Pipeline.PlanBounds | app/emlog.c:755-799 | the plan never lengthens a segment; two segments iff the message is non-empty and either kept or dotted; when dotting, 3 <= msgLen < msglen and msgLen = 4095 - hlen, so the three in-place writes are in bounds |
| Pipeline.PlanUnchangedIff | app/emlog.c:755-816 | nothing is changed and no notice follows iff header+message+1 <= 4096 or the message is empty |
| Pipeline.DottedOnlyThree | app/emlog.c:788-795 | the in-place ellipsis rewrites exactly positions msgLen-3 .. msgLen-1 to "..." and keeps every other byte |
| Pipeline.EmittedSegments | app/emlog.c:736-801 | the segments read from the buffer after the in-place write are the plan's primary segments |
| Pipeline.Truncate | app/emlog.c:755-799 | the method's plan is the truncation policy, and the buffer afterwards is the old buffer with the ellipsis applied |
| Pipeline.PrimaryLine | app/emlog.c:697-799 | formatting, truncating in place and slicing produce the plan's primary segments of the policy message |
| Pipeline.LevelFilter | app/emlog.c:688 | below the minimum nothing is emitted; at or above it at least one event, unless a custom writer loses the line to a failed heap |
| Pipeline.SinkRouted | app/emlog.c:545-616 | every sink event goes where the configuration says: without a writer only the level's stream, with flushes only when flushing is on; with a writer only calls of that writer with the level and user pointer |
| Pipeline.Routing | app/emlog.c:618-818 | a whole call, notice included, is routed that way |
| Pipeline.UnchangedWhenFits | app/emlog.c:755-816 | a line that fits, or has an empty message, reaches the sink as header plus message, without a notice |
| Pipeline.TruncatedLine | app/emlog.c:755-811 | a line too long is emitted as header ++ first remain-3 bytes ++ "...", exactly 4096 bytes with its newline, and is followed by exactly one TRUNCATED notice |
| Pipeline.DefaultWritesBounded | app/emlog.c:755-816 | on the default sink, every write of every call whose header fits `head[128]`, truncated or not, notice included, is at most LOG_MAX_WRITE bytes |
| Pipeline.TruncatedWritesBounded | app/emlog.c:755-811 | the truncated case: the cut primary line and the notice are each at most LOG_MAX_WRITE bytes |
| Logger.InitLevel | app/emlog.c:185-194 | a negative argument installs the parsed EMLOG_LEVEL (a named level), otherwise the argument itself |
| Logger.ErrnoBase | app/emlog.c:249-253 | the base text is at most 767 bytes and is the caller's text when that is NUL-free and shorter than 768 |
| Logger.ErrnoMessageLayout | app/emlog.c:247-263 | the errno line begins base ++ ": " and ends decimal(err) ++ ")" |
| Logger.ErrnoMessageFits | app/emlog.c:247-263 | with a 32-bit errno and a description under 128 bytes, the line fits the 1024-byte stack buffer and is never cut |
| Logger.InitLineShort | app/emlog.c:204-205 | the init line's header fits its buffer and the whole line is below LOG_MAX_WRITE |
| Logger.InitLineWhole | app/emlog.c:204-205 | when INFO passes the filter, the init line reaches the sink as header plus message, never truncated |
| Logger.Logger.constructor | app/emlog.c:29-48 | G starts at INFO, timestamps on, no writer, no flushing, generation 0, not initialized |
| Logger.Logger.SetLevel | app/emlog.c:208-213 | the minimum level is replaced and nothing else changes |
| Logger.Logger.EnableTimestamps | app/emlog.c:215-220 | the timestamp switch is replaced |
| Logger.Logger.SetWriter | app/emlog.c:222-228 | writer and user pointer are replaced; None restores default routing |
| Logger.Logger.SetWritevFlush | app/emlog.c:230-235 | the flush switch is replaced |
| Logger.Logger.WriteLineIov | app/emlog.c:545-616 | the events grow by exactly the sink events of the segments under the current configuration |
| Logger.Logger.Log | app/emlog.c:618-818 | the events grow by the vlog events; the cache steps only when the line passes the filter with timestamps on |
| Logger.Logger.EmitLine | app/emlog.c:697-816 | format, header, truncation, primary write and notice append exactly the line's events |
| Logger.Logger.WriteNotice | app/emlog.c:805-811 | the notice is written only after a truncation and only when non-empty |
| Logger.Logger.LogErrno | app/emlog.c:247-263 | logs the composed errno line through vlog |
| Logger.Logger.Init | app/emlog.c:182-206 | installs the level and switch, counts tzset only when timestamps are turned on for the first time or after being off, marks initialized, increments the generation modulo 2^32, then logs the init line at INFO; the thread's cache steps to the clock's second exactly when INFO passes the new level with timestamps on, and is otherwise unchanged |
| Logger.Logger.Configure | app/emlog.c:184-203 | the locked part of init, with the same state effects |
| Legacy.LegacyErrName | src/emlog.c:261-292 | names start with "EML_"; "EML_UNKNOWN" exactly for the sentinel and above |
| Legacy.LegacyErrToExit | src/emlog.c:297-312 | 2 iff FATAL_CONF, 3 iff FATAL_IO, 4 iff TEMP_RESOURCE, 5 iff FATAL_BUG, 0 otherwise, FATAL_CRYPTO and the sentinel included |
| Legacy.TablesAgreeExcept | src/emlog.c:261-312 | the two variants' names differ only at the sentinel, and their exit codes only at FATAL_CRYPTO and the sentinel |
| Legacy.ZoneBytes | src/emlog.c:365-366 | z[0..4] are always five bytes, "+0000" when %z fails |
| Legacy.LegacyZoneAgrees | src/emlog.c:365-368 | a five-character %z and a failed %z are rewritten exactly as the cached variant does |
| Legacy.CopyOverrunsTmp | src/emlog.c:373-384 | as written, a year-100000 local time makes memcpy read 31 bytes from the 30-byte tmp |
| Legacy.LegacyTimestamp | src/emlog.c:358-387 | the corrected copy of the legacy fmt_time_iso8601: the rendering clamped to what tmp holds (29 bytes), then to n-1; the legacy log call uses it |
| Legacy.LegacyTimestampAsWritten | src/emlog.c:373-385 | wherever the code as written is defined (a rendering of at most 29 bytes), the corrected timestamp is exactly the bytes it copies |
| Legacy.LegacyTsFor | src/emlog.c:417-422 | the timestamp of one legacy call, rendered for the clock's second into ts[40], or none when timestamps are off |
| Legacy.LineWrite | src/emlog.c:400-411 | write_line: one writer call without newline, or fwrite, "\n" and fflush on the level's stream |
| Legacy.LegacyVlogEvents | src/emlog.c:413-475 | a whole legacy call: nothing below the minimum, else one assembled line or header and message separately |
| Legacy.LegacyLineEvents | src/emlog.c:452-473 | the legacy line after the filter: header ++ message in one write_line when the line buffer can be had, else two |
| Legacy.LegacyTimestampShape | src/emlog.c:373-385 | the legacy timestamp is a prefix of the rendering of length min(len, 29, n-1) |
| Legacy.LegacyMatchesCached | src/emlog.c:358-387 | with a four-digit year and a five-character %z, the legacy and cached timestamps are the same text |
| Legacy.LegacyHeaderOverrun | src/emlog.c:452-458 | a 90-byte tag makes the would-be header length exceed head[96] |
| Legacy.LegacyLevelFilter | src/emlog.c:415 | a legacy call emits nothing iff its level is below the minimum |
| Legacy.LegacyLineShape | src/emlog.c:459-473 | with the line buffer, one write of header ++ message of length hlen+msglen, however long; without it, header and message as two lines; the default path writes, adds "\n", flushes |
| Legacy.LegacyNoCap | src/emlog.c:459-467 | a message of 4096 bytes or more is written whole in one write longer than LOG_MAX_WRITE |
| Legacy.LegacyLogger.constructor | src/emlog.c:26-36 | G starts at INFO, timestamps on, no writer |
| Legacy.LegacyLogger.Init | src/emlog.c:117-136 | installs level and switch, and counts one tzset every time timestamps are on |
| Legacy.LegacyLogger.SetLevel | src/emlog.c:141-146 | the minimum level is replaced |
| Legacy.LegacyLogger.EnableTimestamps | src/emlog.c:151-156 | the timestamp switch is replaced |
| Legacy.LegacyLogger.SetWriter | src/emlog.c:161-167 | writer and user pointer are replaced |
| Legacy.LegacyLogger.WriteLine | src/emlog.c:400-411 | a writer gets the bytes without newline; otherwise write, "\n" and flush on the level's stream |
| Legacy.LegacyLogger.Log | src/emlog.c:413-475 | the events grow by exactly the legacy vlog events |
| Legacy.LegacyLogger.LogErrno | src/emlog.c:185-201 | logs the composed errno line through the legacy vlog |
| Legacy.LegacyLogger.EmitLine | src/emlog.c:452-473 | one heap-assembled line when the buffer can be had, else header and message separately |

## Left out

- Mutexes and `_Thread_local` are not modelled, and neither are
  cross-thread or pipe-interleaving guarantees. Configuration is one
  sequential object, and one thread's cache is one `TsCache`. The
  atomicity of writes of at most PIPE_BUF bytes is an operating-system
  promise, so only the bound is proved.
- System calls are inputs or events:
  - `clock_gettime`, `localtime_r`, `strftime("%z")`, `getenv`,
    `strerror_r` and `syscall(SYS_gettid)` are inputs;
  - `writev`, `fflush`, `fwrite` and `fputc` are events;
  - `tzset` is a ghost counter.
- Return values of `writev` and of the writer callback are ignored by
  the source, and by the model too.
- The printf engine is not modelled. The message is given as its
  formatted text.
- `Logger.Logger.Log`: the model requires that the header and the
  notice fit `head[128]` and `warnbuf[128]`. The source never clamps
  the would-be length of `snprintf` (app/emlog.c:727-739 and 806-810),
  so a long enough component tag (about 80 bytes with a timestamp)
  makes it read past those buffers. `Pipeline.HeaderLengthOverrun` exhibits such a tag.
- `Logger.Logger.LogErrno`: carries the same header-fits precondition
  as `Log`.
- `Logger.Logger.EmitLine`: carries the same header-fits precondition
  as `Log`.
- `Pipeline.TruncatedLine`: also assumes the header fits. Because of
  that precondition, the header-too-long branch (app/emlog.c:762-769)
  is modelled in `TruncPlan` but is never reached from `Log`.
- `Pipeline.DefaultWritesBounded`: assumes the header fits, like
  `TruncatedLine`.
- `Pipeline.TruncatedWritesBounded`: assumes the header fits, like
  `TruncatedLine`.
- `Legacy.LegacyLogger.Log`: requires the header to fit `head[96]`
  (src/emlog.c:452-464). `Legacy.LegacyHeaderOverrun` exhibits a
  90-byte tag that breaks this.
- Negative returns of `snprintf` are never produced in the model.
  These formats are plain ASCII and cannot fail. This covers
  copy_cached_ts's empty output on error and the legacy "empty on
  formatting error" branch at src/emlog.c:378, and the `hlen < 0`
  guards at app/emlog.c:731 and src/emlog.c:458.
- strftime `%Y` is modelled as `%04d` (sign counted in the width),
  which agrees for years 0..9999 and for the lengths the proofs
  need.
- The non-POSIX `fwrite` fallback of write_line_iov
  (app/emlog.c:609-615) is not modelled: Linux takes the `writev` path.
- The kernel's gather of the iovec array is modelled as the
  concatenation of the segments.
- The initial cache state (second 0, empty prefix, "+00:00") is not a
  rendering of second 0. A clock reading of exactly second 0 would use
  it unchanged. `Timestamp.CacheTransparent` therefore asks for a
  coherent cache, or for a different second.
- `Logger.LogErrno` takes the description text as a parameter: for
  GNU `strerror_r` it is the text the call returns.
- `Logger.Logger.LogErrno`: the caller's `vsnprintf` into `base[768]`
  (app/emlog.c:252) is assumed to succeed. When it fails, `base` is left
  uninitialised and the source then reads it. The model takes the
  formatted base text as `text: string`, so it has no such path.
- `Legacy.LegacyLogger.LogErrno`: makes the same assumption about the
  `vsnprintf` into `base` at src/emlog.c:190.
- `eml_from_errno`, `lvl_str`, `parse_level` and `default_stream` in
  src/emlog.c are textually the same as in app/emlog.c. The legacy
  module reuses the `Tables` definitions for them.
- Doc comments that disagree with the code are not followed; the code
  is modelled instead:
  - app/include/emlog.h:145-154 says flushing before `writev` is on by
    default, but G sets it to 0.
  - app/emlog.c:662-666 describes a malloc'd single line, but the code
    uses iovecs.
  - app/include/emlog.h:134-143 says "errors and above" go to stderr,
    but WARN goes there too.
  - app/include/emlog.h:105-116 lists five EMLOG_LEVEL names, but
    "warning" and "fatal" are accepted as well.
  - app/include/emlog.h:98 promises the writer a NUL-terminated line.
    app/emlog.c:555-579 never writes that NUL. `buf[2048]` has no room
    for it when the line is 2048 bytes, and `malloc(total)` has none at
    all. A `WriterCall` records only the bytes and their count, so the
    model does not capture the missing terminator. The legacy variant
    does terminate its line (src/emlog.c:465).
- The `time_t` range, `int` overflow of `tm_year + 1900`, and
  `unsigned` wrap-around of ms are not modelled. Only the generation
  counter wraps (`% 2^32`), because it is the one value the code
  increments without bound.

## Findings

| source | as written | input that shows it | evidently intended | confidence | as-written member | corrected member |
|---|---|---|---|---|---|---|
| src/emlog.c:373-384 | `tocpy` is the would-be length `written`, clamped only to the caller's `n`, so memcpy can read past `tmp[30]` | a local time in year 100000 renders 31 bytes (latent on Linux, whose CLOCK_REALTIME cannot reach that year); with `n = 40`, 31 bytes are copied out of the 30-byte `tmp` | copy at most what `tmp` holds (29 bytes) and at most n-1 | not executed; high | Legacy.CopyOverrunsTmp | Legacy.LegacyTimestamp |
