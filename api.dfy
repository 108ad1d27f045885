/** The public vocabulary of emlog.h: levels, canonical error categories,
    exit codes and the thread-id type. */
module Api {

  /** eml_level_t. The enum has only non-negative values, so the compiler
      makes it unsigned: a level is a natural number, and only 0..4 are named. */
  type Level = nat

  const LEVEL_DBG: Level := 0
  const LEVEL_INFO: Level := 1
  const LEVEL_WARN: Level := 2
  const LEVEL_ERROR: Level := 3
  const LEVEL_CRIT: Level := 4

  /** The five named levels, from least to most severe. */
  const NAMED_LEVELS: seq<Level> := [LEVEL_DBG, LEVEL_INFO, LEVEL_WARN, LEVEL_ERROR, LEVEL_CRIT]

  /** eml_err_t, likewise unsigned; 0..11 are categories, 12 is the sentinel. */
  type Category = nat

  const EML_OK: Category := 0
  const EML_TRY_AGAIN: Category := 1
  const EML_TEMP_RESOURCE: Category := 2
  const EML_TEMP_UNAVAILABLE: Category := 3
  const EML_BAD_INPUT: Category := 4
  const EML_NOT_FOUND: Category := 5
  const EML_PERM: Category := 6
  const EML_CONFLICT: Category := 7
  const EML_FATAL_CONF: Category := 8
  const EML_FATAL_IO: Category := 9
  const EML_FATAL_CRYPTO: Category := 10
  const EML_FATAL_BUG: Category := 11
  /** The sentinel EML__COUNT. */
  const EML_COUNT: Category := 12

  /** The suggested process exit codes. */
  const EXIT_OK: int := 0
  const EXIT_CONF: int := 2
  const EXIT_IO: int := 3
  const EXIT_MEM: int := 4
  const EXIT_BUG: int := 5

  const EXIT_CODES: seq<int> := [EXIT_OK, EXIT_CONF, EXIT_IO, EXIT_MEM, EXIT_BUG]

  /** uint64_t, the type of eml_tid(). */
  type Tid = n: nat | n < 0x1_0000_0000_0000_0000

  /** The named levels are listed in strictly increasing numeric order,
      so comparing levels compares severities. */
  lemma LevelsTotallyOrdered(i: nat, j: nat)
    requires i < j < |NAMED_LEVELS|
    ensures NAMED_LEVELS[i] < NAMED_LEVELS[j]
    ensures NAMED_LEVELS[i] == i
  {
  }

  /** The five exit codes are pairwise distinct. */
  lemma ExitCodesDistinct(i: nat, j: nat)
    requires i < j < |EXIT_CODES|
    ensures EXIT_CODES[i] != EXIT_CODES[j]
  {
  }
}
