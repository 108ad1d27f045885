/** The pure lookup tables of app/emlog.c: level names, default routing,
    EMLOG_LEVEL parsing and the errno -> category -> {name, exit code} mapping. */
module Tables {
  import opened Wrappers
  import opened Api

  /** The two default destinations. */
  datatype Stream = Stdout | Stderr

  /** Linux errno values named by the mapping table. On Linux EWOULDBLOCK
      equals EAGAIN, so the guarded alias branch of the table is absent. */
  const EPERM: int := 1
  const ENOENT: int := 2
  const ESRCH: int := 3
  const EINTR: int := 4
  const EIO: int := 5
  const EAGAIN: int := 11
  const ENOMEM: int := 12
  const EACCES: int := 13
  const EBUSY: int := 16
  const EEXIST: int := 17
  const EINVAL: int := 22
  const ENFILE: int := 23
  const EMFILE: int := 24
  const ENOSPC: int := 28
  const EPROTO: int := 71
  const EBADMSG: int := 74
  const EADDRINUSE: int := 98
  const ENETDOWN: int := 100
  const ENETUNREACH: int := 101

  /** lvl_str: the three-letter code of a level, "UNK" for unnamed values. */
  function LvlStr(l: Level): (s: string)
    ensures |s| == 3
  {
    if l == LEVEL_DBG then "DBG"
    else if l == LEVEL_INFO then "INF"
    else if l == LEVEL_WARN then "WRN"
    else if l == LEVEL_ERROR then "ERR"
    else if l == LEVEL_CRIT then "CRT"
    else "UNK"
  }

  /** Each named level has its own code, and "UNK" is used exactly for
      the unnamed values. */
  lemma LvlStrDistinct(a: Level, b: Level)
    ensures LvlStr(a) == "UNK" <==> a > LEVEL_CRIT
    ensures a <= LEVEL_CRIT && b <= LEVEL_CRIT && a != b ==> LvlStr(a) != LvlStr(b)
  {
  }

  /** default_stream: debug and info go to stdout, everything above to stderr. */
  function DefaultStream(l: Level): (s: Stream)
    ensures s == Stdout <==> l <= LEVEL_INFO
  {
    if l <= LEVEL_INFO then Stdout else Stderr
  }

  /** tolower in the C locale. */
  function LowerAscii(c: char): char {
    if 'A' <= c <= 'Z' then (c as int + 32) as char else c
  }

  /** strcasecmp(s, t) == 0 in the C locale. */
  predicate EqualsIgnoreCase(s: string, t: string) {
    |s| == |t| && forall i :: 0 <= i < |s| ==> LowerAscii(s[i]) == LowerAscii(t[i])
  }

  /** The ASCII lower-case form of a string. */
  function Lower(s: string): (r: string)
    ensures |r| == |s|
    ensures forall i :: 0 <= i < |s| ==> r[i] == LowerAscii(s[i])
  {
    if s == [] then [] else [LowerAscii(s[0])] + Lower(s[1..])
  }

  /** parse_level: the level named by the EMLOG_LEVEL value, INFO when the
      variable is unset or names nothing. */
  function ParseLevel(s: Option<string>): (l: Level)
    ensures l <= LEVEL_CRIT
  {
    match s
    case None => LEVEL_INFO
    case Some(v) =>
      if EqualsIgnoreCase(v, "debug") then LEVEL_DBG
      else if EqualsIgnoreCase(v, "info") then LEVEL_INFO
      else if EqualsIgnoreCase(v, "warn") || EqualsIgnoreCase(v, "warning") then LEVEL_WARN
      else if EqualsIgnoreCase(v, "error") then LEVEL_ERROR
      else if EqualsIgnoreCase(v, "crit") || EqualsIgnoreCase(v, "fatal") then LEVEL_CRIT
      else LEVEL_INFO
  }

  /** The level names, exactly as parse_level accepts them in lower case. */
  predicate IsDebugName(v: string) { EqualsIgnoreCase(v, "debug") }
  predicate IsInfoName(v: string) { EqualsIgnoreCase(v, "info") }
  predicate IsWarnName(v: string) { EqualsIgnoreCase(v, "warn") || EqualsIgnoreCase(v, "warning") }
  predicate IsErrorName(v: string) { EqualsIgnoreCase(v, "error") }
  predicate IsCritName(v: string) { EqualsIgnoreCase(v, "crit") || EqualsIgnoreCase(v, "fatal") }

  /** What each result of parse_level means, both directions. */
  lemma ParseLevelMeaning(v: string)
    ensures ParseLevel(Some(v)) == LEVEL_DBG <==> IsDebugName(v)
    ensures ParseLevel(Some(v)) == LEVEL_WARN <==> IsWarnName(v)
    ensures ParseLevel(Some(v)) == LEVEL_ERROR <==> IsErrorName(v)
    ensures ParseLevel(Some(v)) == LEVEL_CRIT <==> IsCritName(v)
    ensures ParseLevel(Some(v)) == LEVEL_INFO <==>
              !(IsDebugName(v) || IsWarnName(v) || IsErrorName(v) || IsCritName(v))
    ensures ParseLevel(None) == LEVEL_INFO
  {
    if IsDebugName(v) {
      assert LowerAscii(v[0]) == 'd';
    }
    if IsErrorName(v) {
      assert LowerAscii(v[0]) == 'e';
    }
    if IsCritName(v) && |v| == 5 {
      assert LowerAscii(v[0]) == 'f';
    }
    if IsCritName(v) && |v| == 4 {
      assert LowerAscii(v[0]) == 'c';
    }
    if IsWarnName(v) && |v| == 4 {
      assert LowerAscii(v[0]) == 'w';
    }
  }

  /** Case does not matter: a value parses like its lower-case form. */
  lemma ParseLevelIgnoresCase(v: string)
    ensures ParseLevel(Some(v)) == ParseLevel(Some(Lower(v)))
  {
    LowerSameNames(v, "debug");
    LowerSameNames(v, "info");
    LowerSameNames(v, "warn");
    LowerSameNames(v, "warning");
    LowerSameNames(v, "error");
    LowerSameNames(v, "crit");
    LowerSameNames(v, "fatal");
  }

  /** Lower-casing a value does not change what it equals ignoring case. */
  lemma LowerSameNames(v: string, t: string)
    ensures EqualsIgnoreCase(v, t) <==> EqualsIgnoreCase(Lower(v), t)
  {
    var w := Lower(v);
    if |v| == |t| {
      assert forall i :: 0 <= i < |v| ==> LowerAscii(w[i]) == LowerAscii(v[i]);
    }
  }

  /** The category of each listed errno value. */
  const ERRNO_TABLE: map<int, Category> := map[
    0 := EML_OK,
    EINTR := EML_TRY_AGAIN, EAGAIN := EML_TRY_AGAIN,
    EMFILE := EML_TEMP_RESOURCE, ENFILE := EML_TEMP_RESOURCE, ENOMEM := EML_TEMP_RESOURCE,
    EBUSY := EML_TEMP_UNAVAILABLE, ENETDOWN := EML_TEMP_UNAVAILABLE, ENETUNREACH := EML_TEMP_UNAVAILABLE,
    ENOENT := EML_NOT_FOUND, ESRCH := EML_NOT_FOUND,
    EINVAL := EML_BAD_INPUT, EPROTO := EML_BAD_INPUT, EBADMSG := EML_BAD_INPUT,
    EACCES := EML_PERM, EPERM := EML_PERM,
    EEXIST := EML_CONFLICT, EADDRINUSE := EML_CONFLICT,
    EIO := EML_FATAL_IO, ENOSPC := EML_FATAL_IO
  ]

  /** eml_from_errno, as its switch is written. */
  function FromErrno(e: int): (c: Category)
    ensures c <= EML_FATAL_BUG && c != EML_FATAL_CONF && c != EML_FATAL_CRYPTO
  {
    if e == 0 then EML_OK
    else if e == EINTR || e == EAGAIN then EML_TRY_AGAIN
    else if e == EMFILE || e == ENFILE || e == ENOMEM then EML_TEMP_RESOURCE
    else if e == EBUSY || e == ENETDOWN || e == ENETUNREACH then EML_TEMP_UNAVAILABLE
    else if e == ENOENT || e == ESRCH then EML_NOT_FOUND
    else if e == EINVAL || e == EPROTO || e == EBADMSG then EML_BAD_INPUT
    else if e == EACCES || e == EPERM then EML_PERM
    else if e == EEXIST || e == EADDRINUSE then EML_CONFLICT
    else if e == EIO || e == ENOSPC then EML_FATAL_IO
    else EML_FATAL_BUG
  }

  /** eml_from_errno agrees with the table: listed codes get their
      category, every other code is a fatal bug. */
  lemma FromErrnoMatchesTable(e: int)
    ensures e in ERRNO_TABLE ==> FromErrno(e) == ERRNO_TABLE[e]
    ensures e !in ERRNO_TABLE ==> FromErrno(e) == EML_FATAL_BUG
  {
  }

  /** eml_err_name: the symbolic name of a category, with the sentinel named
      "EML__COUNT" and every other value "EML_UNKNOWN". */
  function ErrName(c: Category): (s: string)
    ensures |s| > 4 && s[..4] == "EML_"
  {
    if c == EML_OK then "EML_OK"
    else if c == EML_TRY_AGAIN then "EML_TRY_AGAIN"
    else if c == EML_TEMP_RESOURCE then "EML_TEMP_RESOURCE"
    else if c == EML_TEMP_UNAVAILABLE then "EML_TEMP_UNAVAILABLE"
    else if c == EML_BAD_INPUT then "EML_BAD_INPUT"
    else if c == EML_NOT_FOUND then "EML_NOT_FOUND"
    else if c == EML_PERM then "EML_PERM"
    else if c == EML_CONFLICT then "EML_CONFLICT"
    else if c == EML_FATAL_CONF then "EML_FATAL_CONF"
    else if c == EML_FATAL_IO then "EML_FATAL_IO"
    else if c == EML_FATAL_CRYPTO then "EML_FATAL_CRYPTO"
    else if c == EML_FATAL_BUG then "EML_FATAL_BUG"
    else if c == EML_COUNT then "EML__COUNT"
    else "EML_UNKNOWN"
  }

  /** Names are pairwise distinct over 0..12, and the fallback is used
      exactly for out-of-range values. */
  lemma ErrNameDistinct(a: Category, b: Category)
    ensures ErrName(a) == "EML_UNKNOWN" <==> a > EML_COUNT
    ensures ErrName(EML_COUNT) == "EML__COUNT"
    ensures a <= EML_COUNT && b <= EML_COUNT && a != b ==> ErrName(a) != ErrName(b)
  {
  }

  /** eml_err_to_exit. */
  function ErrToExit(c: Category): (x: int)
    ensures x in EXIT_CODES
  {
    if c == EML_OK || c == EML_TRY_AGAIN || c == EML_TEMP_UNAVAILABLE || c == EML_BAD_INPUT
       || c == EML_NOT_FOUND || c == EML_PERM || c == EML_CONFLICT then EXIT_OK
    else if c == EML_FATAL_CRYPTO || c == EML_FATAL_CONF then EXIT_CONF
    else if c == EML_FATAL_IO then EXIT_IO
    else if c == EML_TEMP_RESOURCE then EXIT_MEM
    else if c == EML_FATAL_BUG || c == EML_COUNT then EXIT_BUG
    else EXIT_OK
  }

  /** The preimage of each exit code, both directions. */
  lemma ErrToExitMeaning(c: Category)
    ensures ErrToExit(c) == EXIT_CONF <==> c == EML_FATAL_CONF || c == EML_FATAL_CRYPTO
    ensures ErrToExit(c) == EXIT_IO <==> c == EML_FATAL_IO
    ensures ErrToExit(c) == EXIT_MEM <==> c == EML_TEMP_RESOURCE
    ensures ErrToExit(c) == EXIT_BUG <==> c == EML_FATAL_BUG || c == EML_COUNT
    ensures ErrToExit(c) == EXIT_OK <==> (c <= EML_CONFLICT && c != EML_TEMP_RESOURCE) || c > EML_COUNT
  {
  }

  /** An errno value that the table does not list becomes exit code 5. */
  lemma UnlistedErrnoIsBug(e: int)
    requires e !in ERRNO_TABLE
    ensures ErrToExit(FromErrno(e)) == EXIT_BUG
  {
  }
}
