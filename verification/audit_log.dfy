/** The audit log (library/server-data/audit-log.js): an append-only file of
    JSON lines, one per logged action, trimmed at start-up and then at most
    once a day to the lines from the first one newer than the maximum age.
    The file is modelled as its list of lines. */
module AuditLogs {
  import opened Common
  import opened Values

  /** `parseDuration('1d')` in milliseconds. */
  const WholeDay: int := 86400000

  /** `parseDuration('30d')`, the default maximum age, in milliseconds. */
  const DefaultMaxAge: int := 2592000000

  /** A line of the file: blank (empty once trimmed of white space), or
      the JSON record `log` writes. */
  datatype Line =
    | Blank
    | Record(kind: Value, actor: Value, message: Value, timestamp: int)

  /** The test `findIndex` applies: a non-blank line whose `timestamp` is
      after the cutoff. */
  predicate Recent(line: Line, cutoff: int) {
    line.Record? && line.timestamp > cutoff
  }

  /** `lines.findIndex(Recent)`, with `-1` read as `lines.length`. */
  function KeepFrom(lines: seq<Line>, cutoff: int): (i: nat)
    ensures i <= |lines|
    ensures i < |lines| ==> Recent(lines[i], cutoff)
    ensures forall j :: 0 <= j < i ==> !Recent(lines[j], cutoff)
  {
    if lines == [] then 0
    else if Recent(lines[0], cutoff) then 0
    else 1 + KeepFrom(lines[1..], cutoff)
  }

  /** What `trim` writes back: the lines from the first recent one on. */
  function Trimmed(lines: seq<Line>, cutoff: int): (r: seq<Line>)
    ensures |r| <= |lines| && r == lines[|lines| - |r|..]
    ensures r != [] ==> Recent(r[0], cutoff)
    ensures forall j :: 0 <= j < |lines| - |r| ==> !Recent(lines[j], cutoff)
  {
    lines[KeepFrom(lines, cutoff)..]
  }

  /** No recent line at all leaves an empty log. */
  lemma NothingRecentEmpties(lines: seq<Line>, cutoff: int)
    requires forall j :: 0 <= j < |lines| ==> !Recent(lines[j], cutoff)
    ensures Trimmed(lines, cutoff) == []
  {
  }

  /** Trimming twice with the same cutoff is trimming once. */
  lemma TrimmedIdempotent(lines: seq<Line>, cutoff: int)
    ensures Trimmed(Trimmed(lines, cutoff), cutoff) == Trimmed(lines, cutoff)
  {
    var r := Trimmed(lines, cutoff);
    if r != [] {
      assert KeepFrom(r, cutoff) == 0;
    }
  }

  /** Every recent line survives a trim, and so does everything after it,
      old or blank. */
  lemma TrimmedKeepsRecent(lines: seq<Line>, cutoff: int, j: nat)
    requires j < |lines| && Recent(lines[j], cutoff)
    ensures lines[j..] == Trimmed(lines, cutoff)[|Trimmed(lines, cutoff)| - (|lines| - j)..]
  {
    var r := Trimmed(lines, cutoff);
    assert |lines| - |r| <= j;
  }

  /** A record newer than the cutoff, appended last, is the last line after
      the trim. */
  lemma TrimmedKeepsAppended(lines: seq<Line>, rec: Line, cutoff: int)
    requires Recent(rec, cutoff)
    ensures var r := Trimmed(lines + [rec], cutoff);
      r != [] && r[|r| - 1] == rec
  {
    TrimmedKeepsRecent(lines + [rec], cutoff, |lines|);
  }

  /** `Math.abs`. */
  function Abs(x: int): nat {
    if x < 0 then -x else x
  }

  /** `Date.now() > Math.abs(this.lastTrim) + wholeDay`: false while
      `lastTrim` is unset, since the sum is then `NaN`. */
  predicate TrimDue(lastTrim: Option<int>, now: int) {
    lastTrim.Some? && now > Abs(lastTrim.value) + WholeDay
  }

  class AuditLog {
    var lines: seq<Line>
    /** When the last trim ran, unset before the first. */
    var lastTrim: Option<int>
    /** The maximum age in milliseconds. */
    const maxAge: int

    /** `new AuditLog(path, config)` over the file's lines: the maximum age
        defaults to thirty days, and the file is trimmed at once. */
    constructor (lines: seq<Line>, maxAge: Option<int>, now: int)
      ensures this.maxAge == if maxAge.Some? then maxAge.value else DefaultMaxAge
      ensures lastTrim == Some(now)
      ensures this.lines == Trimmed(lines, now - this.maxAge)
    {
      this.lines := lines;
      this.maxAge := if maxAge.Some? then maxAge.value else DefaultMaxAge;
      lastTrim := None;
      new;
      Trim(now);
    }

    /** `trim()`: note the time and keep the lines from the first one newer
        than `now - maxAge`. */
    method Trim(now: int)
      modifies this
      ensures lastTrim == Some(now)
      ensures lines == Trimmed(old(lines), now - maxAge)
    {
      lastTrim := Some(now);
      var cutoff := now - maxAge;
      var index := KeepFrom(lines, cutoff);
      lines := lines[index..];
    }

    /** `log(type, actor, message)`: append one record stamped `now`, then
        trim if the last trim is more than a day old. */
    method Log(kind: Value, actor: Value, message: Value, now: int)
      modifies this
      ensures var appended := old(lines) + [Record(kind, actor, message, now)];
        if TrimDue(old(lastTrim), now) then
          lines == Trimmed(appended, now - maxAge) && lastTrim == Some(now)
        else
          lines == appended && lastTrim == old(lastTrim)
      ensures maxAge > 0 ==> lines != [] && lines[|lines| - 1] == Record(kind, actor, message, now)
    {
      lines := lines + [Record(kind, actor, message, now)];
      if TrimDue(lastTrim, now) {
        if maxAge > 0 {
          TrimmedKeepsAppended(old(lines), Record(kind, actor, message, now), now - maxAge);
        }
        Trim(now);
      }
    }
  }
}
