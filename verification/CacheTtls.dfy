/** How long cache entries live, in milliseconds, and how the cleanup task shortens that. */
module CacheTtls {
  const CACHE_TTL: int := 300_000
  const NEGATIVE_CACHE_TTL: int := 30_000

  /** Above nine tenths of the cap, entries expire in half the time. */
  function CleanupTtl(len: nat, maxEntries: nat): int {
    if len > maxEntries * 9 / 10 then CACHE_TTL / 2 else CACHE_TTL
  }
}
