/** The emission sink of app/emlog.c (write_line_iov): a custom writer gets
    the concatenated segments; otherwise the segments plus a newline go to
    stdout or stderr in one vectored write. Output is recorded as events. */
module Sink {
  import opened Wrappers
  import opened Api
  import opened Tables

  /** One observable effect of the sink. */
  datatype Event =
    | Flush(stream: Stream)
      /** one write-family call (writev, fwrite, fputc) with the bytes it was given */
    | Write(stream: Stream, bytes: string)
      /** one call of the installed writer: callback, level, line, user pointer */
    | WriterCall(callback: nat, level: Level, bytes: string, user: nat)

  /** Lines up to this size are assembled on the stack for a custom writer. */
  const WRITER_STACK: nat := 2048
  /** Size of the default path's local iovec array; one slot is the newline. */
  const LOCAL_IOV: nat := 16

  /** The in-order concatenation of the segments (the copy loop's result). */
  function Flatten(segs: seq<string>): string {
    if segs == [] then [] else Flatten(segs[..|segs| - 1]) + segs[|segs| - 1]
  }

  lemma FlattenAppend(segs: seq<string>, s: string)
    ensures Flatten(segs + [s]) == Flatten(segs) + s
  {
    assert (segs + [s])[..|segs|] == segs;
  }

  /** The segments the default path keeps: at most LOCAL_IOV - 1. */
  function Kept(segs: seq<string>): seq<string> {
    if |segs| <= LOCAL_IOV - 1 then segs else segs[..LOCAL_IOV - 1]
  }

  /** What write_line_iov emits for one line, given the configuration it
      reads and whether a heap buffer can be had. */
  function SinkEvents(writer: Option<nat>, user: nat, flush: bool, level: Level,
                      segs: seq<string>, heapOk: bool): seq<Event>
  {
    match writer
    case Some(fn) =>
      var line := Flatten(segs);
      if |line| <= WRITER_STACK || heapOk then [WriterCall(fn, level, line, user)] else []
    case None =>
      var s := DefaultStream(level);
      (if flush then [Flush(s)] else []) + [Write(s, Flatten(Kept(segs)) + "\n")]
  }

  /** A custom writer receives the segments' concatenation, without a
      newline; the line is lost only when it needs the heap and the heap fails. */
  lemma WriterReceivesConcatenation(fn: nat, user: nat, flush: bool, level: Level,
                                    segs: seq<string>, heapOk: bool)
    ensures var ev := SinkEvents(Some(fn), user, flush, level, segs, heapOk);
      (ev == [] <==> |Flatten(segs)| > WRITER_STACK && !heapOk) &&
      (ev != [] ==> ev == [WriterCall(fn, level, Flatten(segs), user)])
  {
  }

  /** Without a writer: one write of the (at most 15) segments and a newline,
      to stdout for DBG/INF and to stderr above, preceded by a flush only when
      flushing is on. */
  lemma DefaultRouting(user: nat, flush: bool, level: Level, segs: seq<string>, heapOk: bool)
    requires |segs| < LOCAL_IOV
    ensures var ev := SinkEvents(None, user, flush, level, segs, heapOk);
      var s := if level <= LEVEL_INFO then Stdout else Stderr;
      ev == (if flush then [Flush(s)] else []) + [Write(s, Flatten(segs) + "\n")]
  {
    var s := DefaultStream(level);
    assert s == (if level <= LEVEL_INFO then Stdout else Stderr);
  }

  /** The total loop of write_line_iov. */
  method TotalLength(segs: seq<string>) returns (total: nat)
    ensures total == |Flatten(segs)|
  {
    total := 0;
    var i := 0;
    while i < |segs|
      invariant 0 <= i <= |segs|
      invariant total == |Flatten(segs[..i])|
    {
      FlattenAppend(segs[..i], segs[i]);
      assert segs[..i + 1] == segs[..i] + [segs[i]];
      total := total + |segs[i]|;
      i := i + 1;
    }
    assert segs[..i] == segs;
  }

  /** The copy loop: memcpy each segment into buf at the running offset. */
  method CopySegments(segs: seq<string>, buf: array<char>) returns (off: nat)
    requires |Flatten(segs)| <= buf.Length
    modifies buf
    ensures off == |Flatten(segs)| && buf[..off] == Flatten(segs)
  {
    off := 0;
    var i := 0;
    while i < |segs|
      invariant 0 <= i <= |segs|
      invariant off == |Flatten(segs[..i])| <= buf.Length
      invariant buf[..off] == Flatten(segs[..i])
    {
      var seg := segs[i];
      assert segs[..i + 1] == segs[..i] + [seg];
      FlattenAppend(segs[..i], seg);
      FlattenSplit(segs, i + 1);
      CopyAt(buf, off, seg);
      off := off + |seg|;
      i := i + 1;
    }
    assert segs[..i] == segs;
  }

  /** One memcpy: seg placed right after the first off bytes, which stay. */
  method CopyAt(buf: array<char>, off: nat, seg: string)
    requires off + |seg| <= buf.Length
    modifies buf
    ensures buf[..off + |seg|] == old(buf[..off]) + seg
  {
    forall k | 0 <= k < |seg| {
      buf[off + k] := seg[k];
    }
  }

  lemma {:induction false} FlattenSplit(segs: seq<string>, i: nat)
    requires i <= |segs|
    ensures |Flatten(segs)| == |Flatten(segs[..i])| + |Flatten(segs[i..])|
    decreases |segs| - i
  {
    if i < |segs| {
      FlattenSplit(segs, i + 1);
      FlattenAppend(segs[..i], segs[i]);
      assert segs[..i + 1] == segs[..i] + [segs[i]];
      var rest := segs[i + 1..];
      assert segs[i..] == [segs[i]] + rest;
      FlattenCons(segs[i], rest);
    } else {
      assert segs[..i] == segs;
      assert segs[i..] == [];
    }
  }

  lemma {:induction false} FlattenCons(s: string, segs: seq<string>)
    ensures Flatten([s] + segs) == s + Flatten(segs)
    decreases |segs|
  {
    if segs != [] {
      var init := segs[..|segs| - 1];
      assert ([s] + segs)[..|segs|] == [s] + init;
      FlattenCons(s, init);
    } else {
      assert [s] + segs == [s];
      assert [s][..0] == [];
    }
  }

  /** The default path's copy of at most LOCAL_IOV - 1 segments. */
  method KeepSegments(segs: seq<string>) returns (kept: seq<string>)
    ensures kept == Kept(segs)
  {
    kept := [];
    var i := 0;
    while i < |segs| && |kept| < LOCAL_IOV - 1
      invariant 0 <= i <= |segs| && i <= LOCAL_IOV - 1 && |kept| == i
      invariant kept == segs[..i]
    {
      kept := kept + [segs[i]];
      i := i + 1;
    }
    assert i == |segs| ==> segs[..i] == segs;
  }
}
