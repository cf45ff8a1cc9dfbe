/**
 The rules cache: a compiled artifact kept for a while, then revalidated by its version, against
 a file that may be written at any moment, also between the stat and the read of one fetch.
 */
module ConfigStores {
  import opened Wrappers

  datatype VersionTag = Etag(tag: string) | Version(number: int) | Mtime(nanos: nat) | Untagged

  const U64_MAX: nat := 0xFFFF_FFFF_FFFF_FFFF
  const NANOS: nat := 1_000_000_000

  /** What one write leaves behind: the content and the file's modification time. */
  datatype Revision = Revision(content: string, secs: nat, subsec: nat)

  function Saturating(n: nat): nat {
    if n > U64_MAX then U64_MAX else n
  }

  /** Nanoseconds since the epoch, saturating in each step. */
  function TagOf(r: Revision): VersionTag {
    Mtime(Saturating(Saturating(r.secs * NANOS) + r.subsec))
  }

  /** The tag is the modification time in nanoseconds, or the largest number of 64 bits where that is too small. */
  lemma TagIsNanoseconds(r: Revision)
    ensures var time := r.secs * 1_000_000_000 + r.subsec;
            TagOf(r) == Mtime(if time <= 0xFFFF_FFFF_FFFF_FFFF then time else 0xFFFF_FFFF_FFFF_FFFF)
  {
  }

  /** Short of saturation, two modification times share a tag only if they are the same to the nanosecond. */
  lemma TagsTellTimesApart(a: Revision, b: Revision)
    requires a.subsec < 1_000_000_000 && a.secs * 1_000_000_000 + a.subsec <= 0xFFFF_FFFF_FFFF_FFFF
    requires b.subsec < 1_000_000_000 && b.secs * 1_000_000_000 + b.subsec <= 0xFFFF_FFFF_FFFF_FFFF
    ensures TagOf(a) == TagOf(b) <==> a.secs == b.secs && a.subsec == b.subsec
  {
    assert a.secs < b.secs ==> a.secs * NANOS + NANOS <= b.secs * NANOS;
    assert b.secs < a.secs ==> b.secs * NANOS + NANOS <= a.secs * NANOS;
  }

  /** Every write left a tag the file never had before. */
  ghost predicate TagsDistinct(history: seq<Revision>) {
    forall i, j :: 0 <= i < j < |history| ==> TagOf(history[i]) != TagOf(history[j])
  }

  /** The file: every revision it ever had, the last one current; and how often it was looked at. */
  class ConfigFile {
    var history: seq<Revision>
    ghost var stats: nat
    ghost var readings: nat

    constructor (first: Revision)
      ensures history == [first] && stats == readings == 0
    {
      history, stats, readings := [first], 0, 0;
    }

    ghost predicate Valid()
      reads this
    {
      history != []
    }

    method WriteAll(revisions: seq<Revision>)
      modifies this`history
      ensures history == old(history) + revisions
    {
      history := history + revisions;
    }

    method Stat(fails: bool) returns (tag: Option<VersionTag>)
      requires Valid()
      modifies this`stats
      ensures tag == if fails then None else Some(TagOf(history[|history| - 1]))
      ensures stats == old(stats) + 1
    {
      stats := stats + 1;
      tag := if fails then None else Some(TagOf(history[|history| - 1]));
    }

    method ReadAll(fails: bool) returns (content: Option<string>)
      requires Valid()
      modifies this`readings
      ensures content == if fails then None else Some(history[|history| - 1].content)
      ensures readings == old(readings) + 1
    {
      readings := readings + 1;
      content := if fails then None else Some(history[|history| - 1].content);
    }
  }

  /** How one call goes: the writes that fall between its awaits, and which operations fail. */
  datatype Weather = Weather(
    first: seq<Revision>, versionFails: bool, second: seq<Revision>, statFails: bool, between: seq<Revision>, readFails: bool)

  class FileConfigSource {
    const file: ConfigFile

    constructor (file: ConfigFile)
      ensures this.file == file
    {
      this.file := file;
    }

    method CurrentVersion(fails: bool) returns (tag: Option<VersionTag>)
      requires file.Valid()
      modifies file`stats
      ensures tag == if fails then None else Some(TagOf(file.history[|file.history| - 1]))
      ensures file.stats == old(file.stats) + 1
    {
      tag := file.Stat(fails);
    }

    /** Stat first, then read: the content is the tagged one or a later one. */
    method Fetch(w: Weather) returns (fetched: Option<(string, VersionTag)>, ghost statAt: nat, ghost readAt: nat)
      requires file.Valid()
      modifies file
      ensures file.Valid() && file.history == old(file.history) + if w.statFails then [] else w.between
      ensures file.stats == old(file.stats) + 1 && file.readings == old(file.readings) + if w.statFails then 0 else 1
      ensures fetched.Some? <==> !w.statFails && !w.readFails
      ensures fetched.Some? ==>
                && |old(file.history)| - 1 == statAt <= readAt == |file.history| - 1
                && fetched.value == (file.history[readAt].content, TagOf(file.history[statAt]))
    {
      statAt, readAt := 0, 0;
      var tag := file.Stat(w.statFails);
      if tag.None? {
        return None, 0, 0;
      }
      statAt := |file.history| - 1;
      file.WriteAll(w.between);
      readAt := |file.history| - 1;
      var content := file.ReadAll(w.readFails);
      if content.None? {
        return None, 0, 0;
      }
      fetched := Some((content.value, tag.value));
    }
  }

  datatype Cached<T> = Cached(value: T, version: VersionTag, fetchedAt: nat)

  class ConfigStore<T(!new)> {
    const source: FileConfigSource
    const ttl: nat
    const compile: string -> Option<T>
    var cached: Option<Cached<T>>
    var loadErrors: nat
    ghost var statAt: nat
    ghost var readAt: nat

    constructor (source: FileConfigSource, ttl: nat, compile: string -> Option<T>)
      ensures this.source == source && this.ttl == ttl && this.compile == compile && cached == None && loadErrors == 0
    {
      this.source, this.ttl, this.compile := source, ttl, compile;
      cached, loadErrors, statAt, readAt := None, 0, 0, 0;
    }

    /** The cached value was compiled from a revision no older than the one its tag names. */
    ghost predicate Valid()
      reads this, source.file
    {
      && source.file.Valid()
      && (cached.Some? ==>
            && statAt <= readAt < |source.file.history|
            && cached.value.version == TagOf(source.file.history[statAt])
            && compile(source.file.history[readAt].content) == Some(cached.value.value))
    }

    function Since(now: nat): nat
      requires cached.Some?
      reads this
    {
      if now > cached.value.fetchedAt then now - cached.value.fetchedAt else 0
    }

    method Store(value: T, version: VersionTag, now: nat)
      modifies this`cached
      ensures cached == Some(Cached(value, version, now))
    {
      cached := Some(Cached(value, version, now));
    }

    /** Resets the clock of an unchanged value. */
    method Touch(now: nat)
      modifies this`cached
      ensures cached == if old(cached).Some? then Some(old(cached).value.(fetchedAt := now)) else None
    {
      if cached.Some? {
        cached := Some(cached.value.(fetchedAt := now));
      }
    }

    /** Fetches, compiles and stores; or counts a load error and leaves the cache alone. */
    method FetchAndStore(now: nat, w: Weather) returns (ok: bool)
      requires Valid()
      modifies this, source.file
      ensures Valid() && source.file.history == old(source.file.history) + if w.statFails then [] else w.between
      ensures source.file.stats == old(source.file.stats) + 1 && source.file.readings == old(source.file.readings) + if w.statFails then 0 else 1
      ensures ok <==> !w.statFails && !w.readFails && compile(source.file.history[|source.file.history| - 1].content).Some?
      ensures ok ==>
                && statAt == |old(source.file.history)| - 1 && readAt == |source.file.history| - 1 && loadErrors == old(loadErrors)
                && cached == Some(Cached(compile(source.file.history[|source.file.history| - 1].content).value,
                                         TagOf(old(source.file.history[|source.file.history| - 1])), now))
      ensures !ok ==> cached == old(cached) && loadErrors == old(loadErrors) + 1 && statAt == old(statAt) && readAt == old(readAt)
    {
      var fetched, stat, read := source.Fetch(w);
      if fetched.None? {
        loadErrors := loadErrors + 1;
        return false;
      }
      var value := compile(fetched.value.0);
      if value.None? {
        loadErrors := loadErrors + 1;
        return false;
      }
      Store(value.value, fetched.value.1, now);
      statAt, readAt := stat, read;
      ok := true;
    }

    /**
     Warm-up: an unconditional load. The value is that of the content read, and the version that
     of the file when the load began; a failure is counted and changes nothing.
     */
    method Prime(now: nat, w: Weather)
      requires Valid()
      modifies this, source.file
      ensures Valid() && source.file.history == old(source.file.history) + if w.statFails then [] else w.between
      ensures source.file.stats == old(source.file.stats) + 1 && source.file.readings == old(source.file.readings) + if w.statFails then 0 else 1
      ensures if w.statFails || w.readFails || compile(source.file.history[|source.file.history| - 1].content).None? then
                cached == old(cached) && loadErrors == old(loadErrors) + 1
              else
                && loadErrors == old(loadErrors)
                && cached == Some(Cached(compile(source.file.history[|source.file.history| - 1].content).value,
                                         TagOf(old(source.file.history[|source.file.history| - 1])), now))
    {
      var ok := FetchAndStore(now, w);
    }

    /**
     What a refresh does: revalidate, and load again when the version has moved, or when there is
     nothing to revalidate. `sampled` is when the version was looked at and found unmoved.
     */
    method Refresh(now: nat, w: Weather) returns (ghost sampled: Option<nat>)
      requires Valid()
      modifies this, source.file
      ensures Valid() && old(source.file.history) <= source.file.history
      ensures old(cached).Some? && w.versionFails ==>
                && loadErrors == old(loadErrors) + 1 && cached == old(cached)
                && source.file.history == old(source.file.history) + w.first
                && source.file.stats == old(source.file.stats) + 1 && source.file.readings == old(source.file.readings)
      ensures old(cached).Some? && !w.versionFails ==>
                var seen := old(source.file.history) + w.first;
                && (sampled.Some? <==> TagOf(seen[|seen| - 1]) == old(cached).value.version)
                && (sampled.Some? ==>
                      && sampled == Some(|seen| - 1) && source.file.history == seen
                      && source.file.stats == old(source.file.stats) + 1 && source.file.readings == old(source.file.readings)
                      && loadErrors == old(loadErrors) && cached == Some(old(cached).value.(fetchedAt := now)))
      ensures sampled.Some? ==> old(cached).Some? && !w.versionFails
      ensures sampled.None? && !(old(cached).Some? && w.versionFails) ==>
                var began := old(source.file.history) + if old(cached).Some? then w.first + w.second else [];
                && source.file.history == began + (if w.statFails then [] else w.between)
                && source.file.stats == old(source.file.stats) + (if old(cached).Some? then 2 else 1)
                && source.file.readings == old(source.file.readings) + (if w.statFails then 0 else 1)
                && if w.statFails || w.readFails || compile(source.file.history[|source.file.history| - 1].content).None? then
                     cached == old(cached) && loadErrors == old(loadErrors) + 1
                   else
                     && loadErrors == old(loadErrors)
                     && cached == Some(Cached(compile(source.file.history[|source.file.history| - 1].content).value,
                                              TagOf(began[|began| - 1]), now))
    {
      hide TagOf;
      sampled := None;
      if cached.None? {
        assert source.file.history == source.file.history + [];
        var ok := FetchAndStore(now, w);
        return;
      }
      var cachedVersion := cached.value.version;
      source.file.WriteAll(w.first);
      var newVersion := source.CurrentVersion(w.versionFails);
      if newVersion.None? {
        loadErrors := loadErrors + 1;
        return;
      }
      if newVersion.value == cachedVersion {
        sampled := Some(|source.file.history| - 1);
        Touch(now);
        return;
      }
      source.file.WriteAll(w.second);
      ghost var began := source.file.history;
      assert began == old(source.file.history) + (w.first + w.second);
      var ok := FetchAndStore(now, w);
    }

    /**
     The cached value, refreshed first when it is missing or its lifetime is over: within it
     neither the file nor the cache is touched, and a clock behind the value's own counts as
     within. Afterwards the answer is the compile of content that was current during the call,
     unless the refresh failed, which never empties the cache.
     */
    method Get(now: nat, w: Weather) returns (value: Option<T>)
      requires Valid()
      modifies this, source.file
      ensures Valid() && old(source.file.history) <= source.file.history
      ensures value == (if cached.Some? then Some(cached.value.value) else None)
      ensures old(cached).Some? && ttl > 0 && now < old(cached).value.fetchedAt + ttl ==>
                && cached == old(cached) && loadErrors == old(loadErrors)
                && source.file.history == old(source.file.history)
                && source.file.stats == old(source.file.stats) && source.file.readings == old(source.file.readings)
      ensures old(cached).None? || ttl == 0 || now >= old(cached).value.fetchedAt + ttl ==>
                && source.file.stats > old(source.file.stats)
                && if loadErrors == old(loadErrors) then cached.Some? && cached.value.fetchedAt == now
                   else cached == old(cached) && loadErrors == old(loadErrors) + 1
      ensures old(cached).None? || ttl == 0 || now >= old(cached).value.fetchedAt + ttl ==>
                loadErrors == old(loadErrors) && TagsDistinct(source.file.history) ==>
                  exists v :: |old(source.file.history)| - 1 <= v < |source.file.history| && value == compile(source.file.history[v].content)
      ensures old(cached).None? || ttl == 0 || now >= old(cached).value.fetchedAt + ttl ==>
                !(old(cached).Some? && w.versionFails) && !w.statFails && !w.readFails &&
                compile(source.file.history[|source.file.history| - 1].content).Some? ==>
                  loadErrors == old(loadErrors)
    {
      hide TagOf;
      var stale := if cached.None? then true else Since(now) >= ttl;
      if stale {
        ghost var sampled := Refresh(now, w);
        ghost var v := if sampled.Some? then sampled.value else |source.file.history| - 1;
        assert loadErrors == old(loadErrors) && TagsDistinct(source.file.history) ==>
            Some(cached.value.value) == compile(source.file.history[v].content) by {
          assert sampled.Some? ==> TagOf(source.file.history[old(statAt)]) == TagOf(source.file.history[v]);
        }
      }
      value := if cached.Some? then Some(cached.value.value) else None;
    }
  }
}
