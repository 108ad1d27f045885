/** The per-thread timestamp cache of app/emlog.c (copy_cached_ts and
    fmt_time_iso8601): the seconds prefix and the timezone text are
    rebuilt only when the wall-clock second changes. */
module Timestamp {
  import opened Decimal

  /** A CLOCK_REALTIME reading. */
  datatype Clock = Clock(sec: int, nsec: nat)

  /** The broken-down local time localtime_r yields (struct tm, with the
      year and month already offset to calendar values). */
  datatype Tm = Tm(year: int, mon: int, mday: int, hour: int, min: int, sec: int)

  /** The ranges localtime_r guarantees; the year is unbounded. */
  predicate TmValid(t: Tm) {
    1 <= t.mon <= 12 && 1 <= t.mday <= 31 && 0 <= t.hour <= 23 && 0 <= t.min <= 59 && 0 <= t.sec <= 60
  }

  predicate NoNul(s: string) {
    forall i :: 0 <= i < |s| ==> s[i] != '\0'
  }

  /** The C library's view of one second: its broken-down time and the
      text strftime("%z") would produce for it (a C string). */
  datatype Local = Local(tm: Tm, zone: string)

  type LocalTime = l: Local | TmValid(l.tm) && NoNul(l.zone)
    witness Local(Tm(1970, 1, 1, 0, 0, 0), "+0000")

  /** "%04d" for any int: the sign counts towards the width. */
  function PaddedSigned(i: int, w: nat): string {
    if i < 0 then "-" + Padded(-i, if w > 0 then w - 1 else 0) else Padded(i, w)
  }

  /** The "YYYY-MM-DDTHH:MM:SS" rendering of a broken-down time
      (strftime "%Y-%m-%dT%H:%M:%S", and "%04d-%02d-%02dT%02d:%02d:%02d"). */
  function DateText(t: Tm): string
    requires TmValid(t)
  {
    DatePart(t) + TimePart(t)
  }

  /** "YYYY-MM-DD" */
  function DatePart(t: Tm): string
    requires TmValid(t)
  {
    PaddedSigned(t.year, 4) + "-" + Padded(t.mon, 2) + "-" + Padded(t.mday, 2)
  }

  /** "THH:MM:SS" */
  function TimePart(t: Tm): string
    requires TmValid(t)
  {
    "T" + Padded(t.hour, 2) + ":" + Padded(t.min, 2) + ":" + Padded(t.sec, 2)
  }

  /** Every field but a non-negative year has its fixed width. */
  lemma DateTextLength(t: Tm)
    requires TmValid(t) && t.year >= 0
    ensures |DateText(t)| == |Padded(t.year, 4)| + 15
  {
    assert Pow10(2) == 100;
    PaddedExact(t.mon, 2);
    PaddedExact(t.mday, 2);
    PaddedExact(t.hour, 2);
    PaddedExact(t.min, 2);
    PaddedExact(t.sec, 2);
  }

  lemma PaddedNoNul(n: nat, w: nat)
    ensures NoNul(Padded(n, w)) && NoNul(PaddedSigned(n, w))
  {
    TextRoundTrip(n);
    ZerosDigits(if |Text(n)| < w then w - |Text(n)| else 0);
  }

  lemma NoNulConcat(a: string, b: string)
    requires NoNul(a) && NoNul(b)
    ensures NoNul(a + b)
  {
  }

  /** The rendered date contains no NUL, so it survives as a C string. */
  lemma DateTextNoNul(t: Tm)
    requires TmValid(t)
    ensures NoNul(DateText(t))
  {
    var y := if t.year < 0 then -t.year else t.year;
    PaddedNoNul(y, 4);
    PaddedNoNul(y, 3);
    var ys := PaddedSigned(t.year, 4);
    assert NoNul(ys);
    var mo, dd := Padded(t.mon, 2), Padded(t.mday, 2);
    var hh, mi, ss := Padded(t.hour, 2), Padded(t.min, 2), Padded(t.sec, 2);
    PaddedNoNul(t.mon, 2);
    PaddedNoNul(t.mday, 2);
    PaddedNoNul(t.hour, 2);
    PaddedNoNul(t.min, 2);
    PaddedNoNul(t.sec, 2);
    NoNulConcat(ys, "-");
    NoNulConcat(ys + "-", mo);
    NoNulConcat(ys + "-" + mo, "-");
    NoNulConcat(ys + "-" + mo + "-", dd);
    NoNulConcat("T", hh);
    NoNulConcat("T" + hh, ":");
    NoNulConcat("T" + hh + ":", mi);
    NoNulConcat("T" + hh + ":" + mi, ":");
    NoNulConcat("T" + hh + ":" + mi + ":", ss);
    NoNulConcat(DatePart(t), TimePart(t));
  }

  /** The text of a NUL-terminated buffer: everything before the first NUL. */
  function CStr(s: string): (r: string)
    ensures |r| <= |s| && NoNul(r)
  {
    if s == [] || s[0] == '\0' then [] else [s[0]] + CStr(s[1..])
  }

  /** Storing t followed by a NUL makes t the buffer's C string, whatever follows. */
  lemma {:induction false} CStrOf(t: string, rest: string)
    requires NoNul(t)
    ensures CStr(t + ['\0'] + rest) == t
    decreases |t|
  {
    if t != [] {
      assert (t + ['\0'] + rest)[1..] == t[1..] + ['\0'] + rest;
      CStrOf(t[1..], rest);
    }
  }

  /** A NUL-free text is its own C string. */
  lemma {:induction false} CStrSelf(t: string)
    requires NoNul(t)
    ensures CStr(t) == t
    decreases |t|
  {
    if t != [] {
      CStrSelf(t[1..]);
    }
  }

  /** The abstract content of one thread's cache. */
  datatype CacheState = CacheState(sec: int, prefix: string, tz: string)

  /** The thread-local initial values. */
  const INITIAL: CacheState := CacheState(0, "", "+00:00")

  /** Size of the caller's timestamp buffer (char ts[40]). */
  const TS_BUF: nat := 40
  /** Size of copy_cached_ts's scratch buffer. */
  const COMPOSE_BUF: nat := 64
  /** Sizes of the cached prefix and timezone buffers. */
  const PREFIX_BUF: nat := 32
  const TZ_BUF: nat := 8
  const ZONE_BUF: nat := 8

  /** strftime of the seconds prefix into 32 bytes: empty when it does not fit. */
  function CachePrefix(t: Tm): string
    requires TmValid(t)
  {
    var p := DateText(t);
    if 0 < |p| < PREFIX_BUF then p else ""
  }

  /** "+HHMM" becomes "+HH:MM"; a %z that fails or is shorter than 5 gives "+00:00". */
  function CacheZone(z: string): string {
    if 0 < |z| < ZONE_BUF && |z| >= 5 then z[..3] + ":" + z[3..5] else "+00:00"
  }

  /** The cache content freshly built for second sec. */
  function Fresh(sec: int, local: int -> LocalTime): CacheState {
    CacheState(sec, CachePrefix(local(sec).tm), CacheZone(local(sec).zone))
  }

  /** One call's effect on the cache: kept when the second is the cached
      one, rebuilt otherwise. */
  function Step(st: CacheState, sec: int, local: int -> LocalTime): CacheState {
    if sec == st.sec then st else Fresh(sec, local)
  }

  /** Milliseconds of the reading. */
  function Ms(nsec: nat): nat {
    (nsec / 1000000) % 1000
  }

  /** Copying a would-be text of length |text| into an n-byte C buffer:
      at most n-1 bytes, nothing when n is 0. */
  function Clamp(text: string, n: nat): string {
    if n == 0 then [] else if |text| >= n then text[..n - 1] else text
  }

  /** "%s.%03u%s" of the cached prefix, ms and cached zone. */
  function Composed(st: CacheState, ms: nat): string {
    st.prefix + "." + Padded(ms, 3) + st.tz
  }

  /** copy_cached_ts's result. */
  function Compose(st: CacheState, ms: nat, n: nat): string {
    Clamp(Composed(st, ms), n)
  }

  /** A cache is coherent for a clock when its content is what a rebuild
      for its own second would produce. */
  predicate Coherent(st: CacheState, local: int -> LocalTime) {
    st == Fresh(st.sec, local)
  }

  /** The milliseconds are always 0..999. */
  lemma MsInRange(nsec: nat)
    ensures Ms(nsec) <= 999
  {
  }

  /** The cache rebuilds exactly when the second changes, records the new
      second, keeps coherence, and then renders exactly what an uncached
      computation for that second would. */
  lemma CacheTransparent(st: CacheState, sec: int, local: int -> LocalTime, ms: nat, n: nat)
    requires Coherent(st, local) || st.sec != sec
    ensures Step(st, sec, local).sec == sec
    ensures (Step(st, sec, local) != st) ==> sec != st.sec
    ensures Coherent(Step(st, sec, local), local)
    ensures Compose(Step(st, sec, local), ms, n) == Compose(Fresh(sec, local), ms, n)
  {
  }

  /** The zone conversion: the colon is inserted after the sign and hours,
      and the result is always six characters. */
  lemma ZoneConversion(z: string)
    ensures |CacheZone(z)| == 6 && CacheZone(z)[3] == ':'
    ensures 5 <= |z| < ZONE_BUF ==> CacheZone(z) == z[..3] + [':'] + z[3..5]
    ensures !(5 <= |z| < ZONE_BUF) ==> CacheZone(z) == "+00:00"
  {
  }

  /** Clamping keeps a prefix of the text, of length min(|text|, n-1). */
  lemma ClampShape(text: string, n: nat)
    requires n > 0
    ensures |Clamp(text, n)| == if |text| < n then |text| else n - 1
    ensures Clamp(text, n) == text[..|Clamp(text, n)|]
  {
  }

  /** The composed timestamp is prefix ++ "." ++ three digits ++ zone, clamped. */
  lemma ComposeShape(st: CacheState, ms: nat, n: nat)
    requires ms <= 999 && n > 0
    ensures var text := Composed(st, ms);
      |text| == |st.prefix| + 4 + |st.tz| &&
      text[|st.prefix|] == '.' && IsDigits(text[|st.prefix| + 1..|st.prefix| + 4]) &&
      Value(text[|st.prefix| + 1..|st.prefix| + 4]) == ms &&
      Compose(st, ms, n) == text[..if |text| < n then |text| else n - 1]
  {
    assert Pow10(3) == 1000;
    PaddedExact(ms, 3);
    var text := Composed(st, ms);
    assert text[|st.prefix| + 1..|st.prefix| + 4] == Padded(ms, 3);
  }

  /** The date half "YYYY-MM-DD". */
  lemma DateHalfLayout(t: Tm)
    requires TmValid(t) && 0 <= t.year <= 9999
    ensures var a := PaddedSigned(t.year, 4) + "-" + Padded(t.mon, 2) + "-" + Padded(t.mday, 2);
      |a| == 10 && a[4] == '-' && a[7] == '-'
      && IsDigits(a[..4]) && Value(a[..4]) == t.year
      && IsDigits(a[5..7]) && Value(a[5..7]) == t.mon
      && IsDigits(a[8..10]) && Value(a[8..10]) == t.mday
  {
    assert Pow10(2) == 100;
    assert Pow10(4) == 10000;
    PaddedExact(t.year, 4);
    PaddedExact(t.mon, 2);
    PaddedExact(t.mday, 2);
    DateFields(Padded(t.year, 4), Padded(t.mon, 2), Padded(t.mday, 2));
  }

  /** The time half "THH:MM:SS". */
  lemma TimeHalfLayout(t: Tm)
    requires TmValid(t)
    ensures var b := TimePart(t);
      |b| == 9 && b[0] == 'T' && b[3] == ':' && b[6] == ':'
      && IsDigits(b[1..3]) && Value(b[1..3]) == t.hour
      && IsDigits(b[4..6]) && Value(b[4..6]) == t.min
      && IsDigits(b[7..9]) && Value(b[7..9]) == t.sec
  {
    assert Pow10(2) == 100;
    PaddedExact(t.hour, 2);
    PaddedExact(t.min, 2);
    PaddedExact(t.sec, 2);
    TimeFields(Padded(t.hour, 2), Padded(t.min, 2), Padded(t.sec, 2));
  }

  /** "YYYY-MM-DD" taken apart again. */
  lemma DateFields(y: string, m: string, d: string)
    requires |y| == 4 && |m| == 2 && |d| == 2
    ensures var a := y + "-" + m + "-" + d;
      |a| == 10 && a[..4] == y && a[4] == '-' && a[5..7] == m && a[7] == '-' && a[8..10] == d
  {
  }

  /** "THH:MM:SS" taken apart again. */
  lemma TimeFields(h: string, m: string, c: string)
    requires |h| == 2 && |m| == 2 && |c| == 2
    ensures var b := "T" + h + ":" + m + ":" + c;
      |b| == 9 && b[0] == 'T' && b[1..3] == h && b[3] == ':' && b[4..6] == m && b[6] == ':' && b[7..9] == c
  {
  }

  /** With a four-digit year and a five-character %z, a rebuilt cache renders
      the 29-character RFC 3339 (section 5.6) date-time
      "YYYY-MM-DDTHH:MM:SS.mmm+HH:MM", which fits the 40-byte buffer unclamped. */
  lemma RenderedIsRfc3339(sec: int, local: int -> LocalTime, ms: nat)
    requires 0 <= local(sec).tm.year <= 9999 && |local(sec).zone| == 5 && ms <= 999
    ensures var out := Compose(Fresh(sec, local), ms, TS_BUF);
      |out| == 29 && out[..10] == DatePart(local(sec).tm) && out[10..19] == TimePart(local(sec).tm)
      && out[19] == '.'
      && IsDigits(out[20..23]) && Value(out[20..23]) == ms
      && out[23..] == local(sec).zone[..3] + [':'] + local(sec).zone[3..]
  {
    var tm, z := local(sec).tm, local(sec).zone;
    DateHalfLayout(tm);
    TimeHalfLayout(tm);
    assert CachePrefix(tm) == DatePart(tm) + TimePart(tm);
    assert CacheZone(z) == z[..3] + [':'] + z[3..];
    assert Pow10(3) == 1000;
    PaddedExact(ms, 3);
    StampFields(DatePart(tm), TimePart(tm), Padded(ms, 3), CacheZone(z));
  }

  /** The 29 characters of a rendered stamp taken apart again. */
  lemma StampFields(date: string, time: string, milli: string, zone: string)
    requires |date| == 10 && |time| == 9 && |milli| == 3 && |zone| == 6
    ensures var out := date + time + "." + milli + zone;
      |out| == 29 && out[..10] == date && out[10..19] == time && out[19] == '.'
      && out[20..23] == milli && out[23..] == zone
  {
  }

  /** One thread's cache: ts_cache_sec_tls, ts_cache_prefix_tls[32] and ts_cache_tz_tls[8]. */
  class TsCache {
    var cacheSec: int
    var prefix: array<char>
    var tz: array<char>

    ghost predicate Valid()
      reads this
    {
      prefix.Length == PREFIX_BUF && tz.Length == TZ_BUF && prefix != tz
    }

    /** The cached second and the C strings held in the two buffers. */
    ghost function State(): CacheState
      reads this, prefix, tz
    {
      CacheState(cacheSec, CStr(prefix[..]), CStr(tz[..]))
    }

    /** The thread-local storage as it starts: second 0, empty prefix, "+00:00". */
    constructor ()
      ensures Valid() && fresh(prefix) && fresh(tz)
      ensures State() == INITIAL
    {
      cacheSec := 0;
      prefix := new char[PREFIX_BUF](_ => '\0');
      tz := new char[] ['+', '0', '0', ':', '0', '0', '\0', '\0'];
      new;
      assert tz[..] == "+00:00" + ['\0'] + ['\0'];
      CStrOf("+00:00", ['\0']);
    }

    /** Write s and a terminating NUL at the start of buffer a. */
    static method StoreCString(a: array<char>, s: string)
      requires |s| < a.Length && NoNul(s)
      modifies a
      ensures CStr(a[..]) == s
    {
      var i := 0;
      while i < |s|
        invariant 0 <= i <= |s|
        invariant forall k :: 0 <= k < i ==> a[k] == s[k]
      {
        a[i] := s[i];
        i := i + 1;
      }
      a[|s|] := '\0';
      assert a[..] == s + ['\0'] + a[|s| + 1..];
      CStrOf(s, a[|s| + 1..]);
    }

    /** strftime of the seconds prefix into the prefix buffer; an empty
        string when strftime reports failure. */
    static method StorePrefix(a: array<char>, t: Tm)
      requires a.Length == PREFIX_BUF && TmValid(t)
      modifies a
      ensures CStr(a[..]) == CachePrefix(t)
    {
      var p := DateText(t);
      DateTextNoNul(t);
      if 0 < |p| < PREFIX_BUF {
        StoreCString(a, p);
      } else {
        a[0] := '\0';
      }
    }

    /** The %z text rewritten as "+HH:MM" into the zone buffer, or "+00:00". */
    static method StoreZone(a: array<char>, z: string)
      requires a.Length == TZ_BUF && NoNul(z)
      modifies a
      ensures CStr(a[..]) == CacheZone(z)
    {
      if 0 < |z| < ZONE_BUF && |z| >= 5 {
        a[0] := z[0];
        a[1] := z[1];
        a[2] := z[2];
        a[3] := ':';
        a[4] := z[3];
        a[5] := z[4];
        a[6] := '\0';
        assert a[..] == (z[..3] + ":" + z[3..5]) + ['\0'] + a[7..];
        CStrOf(z[..3] + ":" + z[3..5], a[7..]);
      } else {
        StoreCString(a, "+00:00");
      }
    }

    /** copy_cached_ts: compose "<prefix>.<mmm><tz>" and clamp it to n-1 bytes. */
    method CopyCached(n: nat, ms: nat) returns (out: string)
      requires Valid() && ms <= 999
      ensures out == Compose(State(), ms, n)
    {
      var text := CStr(prefix[..]) + "." + Padded(ms, 3) + CStr(tz[..]);
      ComposeShape(State(), ms, 1);
      assert |text| < COMPOSE_BUF;
      if n == 0 {
        return [];
      }
      var copy := |text|;
      if copy >= n {
        copy := n - 1;
      }
      out := text[..copy];
    }

    /** fmt_time_iso8601: read the clock, rebuild the cache when the second
        changed, and render the timestamp into an n-byte buffer. */
    method Format(clock: Clock, local: int -> LocalTime, n: nat) returns (out: string, ms: nat)
      requires Valid()
      modifies this`cacheSec, prefix, tz
      ensures Valid()
      ensures ms == Ms(clock.nsec)
      ensures State() == Step(old(State()), clock.sec, local)
      ensures out == Compose(State(), ms, n)
    {
      ms := (clock.nsec / 1000000) % 1000;
      var sec := clock.sec;
      if sec == cacheSec {
        out := CopyCached(n, ms);
        return;
      }
      if sec != cacheSec {
        var lt := local(sec);
        StorePrefix(prefix, lt.tm);
        StoreZone(tz, lt.zone);
        cacheSec := sec;
      }
      out := CopyCached(n, ms);
    }
  }
}
