/** How many sessions fit into the container's memory (`cmd/browser-automation-service/capacity.go`). */
module Capacity {
  import opened Wrappers
  import Text
  import RuntimeProtocol

  const MIB := 1024 * 1024
  const SESSION_MIB := 1024
  const RESERVE_MIB := 768
  const DEFAULT_SESSIONS := 1
  const UNLIMITED := 0x1000_0000_0000_0000  // 1 << 60

  /** One cgroup file; None when it cannot be read. */
  function ReadMemoryLimit(content: Option<string>): Option<int> {
    if content.None? then None
    else
      var value := Text.Trim(content.value);
      if value == "" || value == "max" then Some(UNLIMITED)
      else match Text.Atoi(value)
        case None => None
        case Some(parsed) => if parsed <= 0 then None else Some(parsed)
  }

  /** The cgroup v2 file first, the v1 file if that says nothing. */
  function CgroupMemoryLimit(v2: Option<string>, v1: Option<string>): Option<int> {
    if ReadMemoryLimit(v2).Some? then ReadMemoryLimit(v2) else ReadMemoryLimit(v1)
  }

  function DeriveMaxConcurrentSessions(configured: int, limit: Option<int>): (sessions: nat)
    ensures sessions >= 1
  {
    if configured > 0 then configured
    else if limit.None? || limit.value <= 0 || limit.value >= UNLIMITED then DEFAULT_SESSIONS
    else
      var available := limit.value - RESERVE_MIB * MIB;
      if available <= 0 then DEFAULT_SESSIONS
      else
        var derived := available / (SESSION_MIB * MIB);
        if derived < DEFAULT_SESSIONS then DEFAULT_SESSIONS else derived
  }

  /** normalize() of the runtime configuration. */
  function NormalizeMaxSessions(sessions: int): nat { if sessions < 1 then 1 else sessions }

  /** The memory set aside for a number of sessions. */
  function Footprint(sessions: nat): nat { RESERVE_MIB * MIB + sessions * SESSION_MIB * MIB }

  /** A limit that is read at all is positive. */
  lemma LimitIsPositive(v2: Option<string>, v1: Option<string>)
    ensures CgroupMemoryLimit(v2, v1).Some? ==> CgroupMemoryLimit(v2, v1).value > 0
  {
  }

  /**
   Under every interleaving of runtime calls, when the maximum was derived from the memory limit in the
   container's files (version 2, else version 1): the sessions fit, exactly when the limit leaves room for the
   one session the service always allows, and one session more would not.  Without a limit there is one session.
   */
  lemma SessionsFitMemory(kind: RuntimeProtocol.Kind, v2: Option<string>, v1: Option<string>, trace: seq<RuntimeProtocol.State>, n: nat)
    requires n < |trace|
    requires var sessions := NormalizeMaxSessions(DeriveMaxConcurrentSessions(0, CgroupMemoryLimit(v2, v1)));
             RuntimeProtocol.IsRun(RuntimeProtocol.Config(kind, sessions), trace)
    ensures var limit := CgroupMemoryLimit(v2, v1); var sessions := DeriveMaxConcurrentSessions(0, limit);
            if limit.None? || limit.value >= UNLIMITED then
              |trace[n].sessions| <= 1
            else
              && (limit.value >= 1792 * MIB ==> Footprint(|trace[n].sessions|) <= limit.value)
              && (limit.value >= 1792 * MIB <==> Footprint(sessions) <= limit.value)
              && Footprint(sessions + 1) > limit.value
  {
    var sessions := DeriveMaxConcurrentSessions(0, CgroupMemoryLimit(v2, v1));
    LimitIsPositive(v2, v1);
    RuntimeProtocol.CapacityRespected(RuntimeProtocol.Config(kind, sessions), trace, n);
  }

  /** A configured maximum counts, whatever the container's files say. */
  lemma ConfiguredCounts(kind: RuntimeProtocol.Kind, configured: int, v2: Option<string>, v1: Option<string>, trace: seq<RuntimeProtocol.State>, n: nat)
    requires configured > 0 && n < |trace|
    requires var sessions := NormalizeMaxSessions(DeriveMaxConcurrentSessions(configured, CgroupMemoryLimit(v2, v1)));
             RuntimeProtocol.IsRun(RuntimeProtocol.Config(kind, sessions), trace)
    ensures NormalizeMaxSessions(DeriveMaxConcurrentSessions(configured, CgroupMemoryLimit(v2, v1))) == configured
    ensures |trace[n].sessions| <= configured
  {
    RuntimeProtocol.CapacityRespected(RuntimeProtocol.Config(kind, configured), trace, n);
  }

  /** Without a configured maximum it is derived, and the version 1 file is asked exactly if that of version 2 cannot be read as a limit. */
  lemma DerivedFromFiles(configured: int, v2: Option<string>, v1: Option<string>)
    requires configured <= 0
    ensures var file := if Readable(v2) then v2 else v1;
            DeriveMaxConcurrentSessions(configured, CgroupMemoryLimit(v2, v1)) ==
            if !Readable(file) || Says(file.value, "") || Says(file.value, "max") then 1
            else DeriveMaxConcurrentSessions(0, Text.Atoi(Text.Trim(file.value)))
  {
  }

  predicate Says(content: string, word: string) { Text.Trim(content) == word }

  /** The file is there and says nothing, "max", or a positive number. */
  predicate Readable(content: Option<string>) {
    && content.Some?
    && (Says(content.value, "") || Says(content.value, "max") ||
        (Text.Atoi(Text.Trim(content.value)).Some? && Text.Atoi(Text.Trim(content.value)).value > 0))
  }

  /** A cgroup file written by the kernel, a plain numeral, is read as its value. */
  lemma NumeralIsRead(n: nat)
    requires 0 < n <= Text.MAX_INT64
    ensures ReadMemoryLimit(Some(Text.Sprint(n) + "\n")) == Some(n)
  {
    var digits := Text.Sprint(n);
    Text.AtoiOfSprint(n);
    TrimNewline(digits);
    assert digits[0] != 'm';
  }

  lemma TrimNewline(digits: string)
    requires digits != "" && forall i :: 0 <= i < |digits| ==> Text.IsDigit(digits[i])
    ensures Text.Trim(digits + "\n") == digits
  {
    var s := digits + "\n";
    assert !Text.IsSpace(s[0]) && Text.TrimLeft(s) == s;
    assert s[..|s| - 1] == digits && Text.IsSpace(s[|s| - 1]);
    assert Text.TrimRight(digits) == digits;
  }
}
