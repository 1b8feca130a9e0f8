/** The persistent log store: a bounded buffer of recent entries, backed by a file that is appended to
    and now and then rewritten.

    A line of the file is blank, a whole entry or a broken one. `Broken(true)` is what the loader recognises as
    a truncated entry when it ends the file. A write may be cut short, so the last line may lack its
    newline, and the next write then lands on the same line and spoils it. */
module LogStore {
  import opened Sequences

  datatype Line<T> = Blank | Whole(entry: T) | Broken(recognised: bool)

  /** `open`: the last line has no newline. An absent file is an empty one. */
  datatype Disk<T> = Disk(lines: seq<Line<T>>, open: bool)

  /** What one append did to the file. Every outcome but `Written` is an error to the caller.
      `Partial(true, _)` lost only the newline; `recognised` is the loader's view of what is then on
      the line, if it is not a whole entry. */
  datatype Write = Written | Untouched | CloseFailed | Partial(whole: bool, recognised: bool)

  const DEFAULT_QUERY_LIMIT: int := 200
  const MAX_QUERY_LIMIT: int := 1000

  function Entries<T>(lines: seq<Line<T>>): (r: seq<T>)
    ensures |r| <= |lines|
  {
    if lines == [] then []
    else
      var before := Entries(lines[..|lines| - 1]);
      if lines[|lines| - 1].Whole? then before + [lines[|lines| - 1].entry] else before
  }

  function AsLines<T>(entries: seq<T>): seq<Line<T>> {
    seq(|entries|, i requires 0 <= i < |entries| => Whole(entries[i]))
  }

  /** The file after one append. */
  function Appended<T>(disk: Disk<T>, entry: T, write: Write): Disk<T> {
    if write.Untouched? then disk
    else
      var n := |disk.lines|;
      var cut := write.Partial? && !write.whole;
      var line := if cut then Broken(write.recognised) else Whole(entry);
      if disk.open && n > 0 then
        var shared := if disk.lines[n - 1].Blank? then line else Broken(write.Partial? && write.recognised);
        Disk(disk.lines[..n - 1] + [shared], write.Partial?)
      else Disk(disk.lines + [line], write.Partial?)
  }

  /** The loader accepts the file: only a truncated end may be broken. */
  predicate Readable<T>(disk: Disk<T>) {
    forall i :: 0 <= i < |disk.lines| && disk.lines[i].Broken? ==>
      i == |disk.lines| - 1 && disk.open && disk.lines[i].recognised
  }

  predicate EndsBroken<T>(disk: Disk<T>) {
    |disk.lines| > 0 && disk.lines[|disk.lines| - 1].Broken?
  }

  class LogStore<T> {
    const maxEntries: nat
    const compactAt: nat
    var disk: Disk<T>
    var entries: seq<T>
    var fileEntries: nat
    var version: nat

    constructor (maxEntries: nat, compactAt: nat, disk: Disk<T>)
      ensures this.maxEntries == maxEntries && this.compactAt == compactAt && this.disk == disk
      ensures entries == [] && fileEntries == 0 && version == 0
    {
      this.maxEntries, this.compactAt, this.disk := maxEntries, compactAt, disk;
      entries, fileEntries, version := [], 0, 0;
    }

    ghost function View(): State<T>
      reads this
    {
      State(disk, entries, fileEntries, version)
    }

    /** Rebuilds the buffer after a restart. The store is unusable when this fails. */
    method Load(compacts: bool) returns (ok: bool)
      requires entries == [] && fileEntries == 0
      modifies this
      ensures ok <==> LoadSucceeds(old(disk), maxEntries, compacts)
      ensures ok ==> View() == Loaded(old(disk), maxEntries).(version := old(version))
    {
      var loaded: seq<T> := [];
      var lines, needsCompaction := disk.lines, false;
      for i := 0 to |lines|
        invariant loaded == Entries(lines[..i]) && disk == old(disk)
        invariant needsCompaction <==> i == |lines| && EndsBroken(disk)
        invariant forall k :: 0 <= k < i && lines[k].Broken? ==>
                    k == |lines| - 1 && disk.open && lines[k].recognised
        modifies {}
      {
        assert lines[..i + 1][..i] == lines[..i];
        if lines[i].Blank? {
          continue;
        }
        if lines[i].Whole? {
          loaded := loaded + [lines[i].entry];
        } else if i == |lines| - 1 && disk.open && lines[i].recognised {
          needsCompaction := true;
        } else {
          return false;
        }
      }
      assert lines[..|lines|] == lines;
      fileEntries := |loaded|;
      if |loaded| > maxEntries {
        loaded := loaded[|loaded| - maxEntries..];
        needsCompaction := true;
      }
      entries := loaded;
      ok := true;
      if needsCompaction {
        ok := Compact(compacts);
      }
    }

    /** Rewrites the file from the buffer through a temporary file, so a failure leaves it as it was. */
    method Compact(succeeds: bool) returns (ok: bool)
      modifies this
      ensures ok == succeeds
      ensures View() == if ok then Compacted(old(View())) else old(View())
    {
      var lines: seq<Line<T>> := [];
      for i := 0 to |entries|
        invariant lines == AsLines(entries[..i])
        modifies {}
      {
        lines := lines + [Whole(entries[i])];
      }
      assert entries[..|entries|] == entries;
      if !succeeds {
        return false;
      }
      disk, fileEntries, ok := Disk(lines, false), |entries|, true;
    }

    method Record(entry: T, write: Write, compacts: bool) returns (ok: bool)
      modifies this
      ensures View() == Recorded(old(View()), maxEntries, compactAt, Event(entry, write, compacts))
      ensures write != Written ==> !ok && entries == old(entries) && version == old(version)
      ensures write == Written ==>
                var due := |old(entries)| + 1 > maxEntries || 0 < compactAt < old(fileEntries) + 1;
                && (ok <==> (due ==> compacts)) && version == old(version) + 1
                && (due && compacts ==> fileEntries == |entries| && disk == Disk(AsLines(entries), false))
                && (!due || !compacts ==>
                      fileEntries == old(fileEntries) + 1 && disk == Appended(old(disk), entry, write))
    {
      disk := Appended(disk, entry, write);
      if !write.Written? {
        return false;
      }
      entries, fileEntries, version := entries + [entry], fileEntries + 1, version + 1;
      var trimmed := false;
      if |entries| > maxEntries {
        entries := entries[|entries| - maxEntries..];
        trimmed := true;
      }
      if trimmed || (compactAt > 0 && fileEntries > compactAt) {
        ok := Compact(compacts);
        return;
      }
      ok := true;
    }

    /** The newest matching entries first, at most the normalized limit of them. */
    method Query(limit: int, matches: T -> bool) returns (results: seq<T>, ghost positions: seq<nat>)
      ensures AreNewest(entries, matches, NormalizedLimit(limit), results, positions)
      ensures results == First(NormalizedLimit(limit), Matching(entries, matches))
    {
      hide MatchesFrom, AreNewest;
      var bound := NormalizedLimit(limit);
      results, positions := [], [];
      var i := |entries|;
      MatchingSplit(entries, i, matches);
      NoMatches(entries, matches);
      while i > 0
        invariant 0 <= i <= |entries|
        invariant results == Matching(entries[i..], matches) && |positions| == |results| < bound
        invariant MatchesFrom(entries, i, matches, results, positions)
      {
        i := i - 1;
        assert entries[i..][1..] == entries[i + 1..];
        MatchingSplit(entries, i, matches);
        MatchesStep(entries, i, matches, results, positions);
        if !matches(entries[i]) {
          continue;
        }
        results, positions := results + [entries[i]], positions + [i];
        if |results| == bound {
          NewestAre(entries, i, matches, bound, results, positions);
          return;
        }
      }
      assert entries[0..] == entries;
      NewestAre(entries, 0, matches, bound, results, positions);
    }
  }

  /** `results` are the newest of the matching entries, at most `limit` of them, the newest first. */
  ghost predicate AreNewest<T>(entries: seq<T>, matches: T -> bool, limit: nat, results: seq<T>, positions: seq<nat>) {
    && |positions| == |results| <= limit
    && (forall k :: 0 <= k < |results| ==>
          positions[k] < |entries| && results[k] == entries[positions[k]] && matches(results[k]))
    && (forall k, l :: 0 <= k < l < |results| ==> positions[l] < positions[k])
    && (forall i :: 0 <= i < |entries| && matches(entries[i]) && i !in positions ==>
          |results| == limit && forall k :: 0 <= k < |positions| ==> i < positions[k])
  }

  /** The matching entries from position `i` on. */
  ghost predicate MatchesFrom<T>(entries: seq<T>, i: nat, matches: T -> bool, results: seq<T>, positions: seq<nat>) {
    && |positions| == |results|
    && (forall k :: 0 <= k < |results| ==>
          i <= positions[k] < |entries| && results[k] == entries[positions[k]] && matches(results[k]))
    && (forall k, l :: 0 <= k < l < |results| ==> positions[l] < positions[k])
    && (forall j :: i <= j < |entries| && matches(entries[j]) ==> j in positions)
  }

  lemma NoMatches<T>(entries: seq<T>, matches: T -> bool)
    ensures MatchesFrom(entries, |entries|, matches, [], [])
  {
  }

  lemma MatchesStep<T>(entries: seq<T>, i: nat, matches: T -> bool, results: seq<T>, positions: seq<nat>)
    requires i < |entries| && MatchesFrom(entries, i + 1, matches, results, positions)
    ensures if matches(entries[i]) then MatchesFrom(entries, i, matches, results + [entries[i]], positions + [i])
            else MatchesFrom(entries, i, matches, results, positions)
  {
    forall j | i <= j < |entries| && matches(entries[j])
      ensures j in positions + [i] && (j > i ==> j in positions)
    {
    }
  }

  lemma NewestAre<T>(entries: seq<T>, i: nat, matches: T -> bool, limit: nat, results: seq<T>, positions: seq<nat>)
    requires MatchesFrom(entries, i, matches, results, positions)
    requires |results| <= limit && (i == 0 || |results| == limit)
    ensures AreNewest(entries, matches, limit, results, positions)
  {
  }

  function NormalizedLimit(limit: int): (r: nat)
    ensures (limit <= 0 ==> r == 200) && (limit > 1000 ==> r == 1000) && (0 < limit <= 1000 ==> r == limit)
  {
    if limit <= 0 then DEFAULT_QUERY_LIMIT else if limit > MAX_QUERY_LIMIT then MAX_QUERY_LIMIT else limit
  }

  function First<T>(n: nat, s: seq<T>): seq<T> {
    if |s| <= n then s else s[..n]
  }

  /** All matching entries, the last one first. */
  ghost function Matching<T>(entries: seq<T>, matches: T -> bool): seq<T> {
    if entries == [] then []
    else Matching(entries[1..], matches) + if matches(entries[0]) then [entries[0]] else []
  }

  lemma {:induction false} MatchingSplit<T>(entries: seq<T>, i: nat, matches: T -> bool)
    requires i <= |entries|
    ensures Matching(entries, matches) == Matching(entries[i..], matches) + Matching(entries[..i], matches)
  {
    if i > 0 {
      MatchingSplit(entries[1..], i - 1, matches);
      assert entries[1..][i - 1..] == entries[i..];
      assert entries[..i][1..] == entries[1..][..i - 1];
    } else {
      assert entries[i..] == entries;
    }
  }

  // ---------- runs ----------

  datatype State<T> = State(disk: Disk<T>, entries: seq<T>, fileEntries: nat, version: nat)

  datatype Event<T> = Event(entry: T, write: Write, compacts: bool)

  function Compacted<T>(s: State<T>): State<T> {
    s.(disk := Disk(AsLines(s.entries), false), fileEntries := |s.entries|)
  }

  /** Recording one more entry makes the store rewrite its file. */
  predicate CompactionDue<T>(s: State<T>, max: nat, compactAt: nat) {
    |s.entries| + 1 > max || (compactAt > 0 && s.fileEntries + 1 > compactAt)
  }

  predicate Compacts<T>(s: State<T>, max: nat, compactAt: nat, e: Event<T>) {
    e.write.Written? && e.compacts && CompactionDue(s, max, compactAt)
  }

  function Recorded<T>(s: State<T>, max: nat, compactAt: nat, e: Event<T>): State<T> {
    var disk := Appended(s.disk, e.entry, e.write);
    if !e.write.Written? then s.(disk := disk)
    else
      var added := State(disk, Last(max, s.entries + [e.entry]), s.fileEntries + 1, s.version + 1);
      if Compacts(s, max, compactAt, e) then Compacted(added) else added
  }

  function Run<T>(s: State<T>, max: nat, compactAt: nat, events: seq<Event<T>>): State<T> {
    if events == [] then s
    else Recorded(Run(s, max, compactAt, events[..|events| - 1]), max, compactAt, events[|events| - 1])
  }

  predicate LoadCompacts<T>(disk: Disk<T>, max: nat) {
    |Entries(disk.lines)| > max || EndsBroken(disk)
  }

  predicate LoadSucceeds<T>(disk: Disk<T>, max: nat, compacts: bool) {
    Readable(disk) && (LoadCompacts(disk, max) ==> compacts)
  }

  /** A file loads if only its unfinished last line is broken, recognisably, and the rewrite that a broken end or
      too many entries call for succeeds. */
  lemma LoadSucceedsIff<T>(disk: Disk<T>, max: nat, compacts: bool)
    ensures LoadSucceeds(disk, max, compacts) <==>
              && (forall i :: 0 <= i < |disk.lines| && disk.lines[i].Broken? ==>
                    i == |disk.lines| - 1 && disk.open && disk.lines[i].recognised)
              && (|Entries(disk.lines)| > max ==> compacts)
              && ((exists i :: 0 <= i < |disk.lines| && disk.lines[i].Broken?) ==> compacts)
  {
    hide Entries;
  }

  function Loaded<T>(disk: Disk<T>, max: nat): State<T> {
    var all := Entries(disk.lines);
    var s := State(disk, Last(max, all), |all|, 0);
    if LoadCompacts(disk, max) then Compacted(s) else s
  }

  /** The entries whose append succeeded, in order. */
  ghost function Accepted<T>(events: seq<Event<T>>): seq<T> {
    if events == [] then []
    else
      var e := events[|events| - 1];
      Accepted(events[..|events| - 1]) + if e.write.Written? then [e.entry] else []
  }

  /** File and buffer agree: no line is broken, the count is right, and the buffer is the end
      of the file. */
  ghost predicate Sound<T>(s: State<T>, max: nat) {
    && (forall i :: 0 <= i < |s.disk.lines| ==> !s.disk.lines[i].Broken?)
    && !s.disk.open
    && s.fileEntries == |Entries(s.disk.lines)|
    && s.entries == Last(max, Entries(s.disk.lines))
  }

  ghost predicate Damaging(write: Write) {
    write.CloseFailed? || write.Partial?
  }

  /** Some append wrote to the file and yet failed, and no rewrite has succeeded since. */
  ghost predicate DamagePending<T>(s: State<T>, max: nat, compactAt: nat, events: seq<Event<T>>) {
    if events == [] then false
    else
      var before, e := events[..|events| - 1], events[|events| - 1];
      || Damaging(e.write)
      || (DamagePending(s, max, compactAt, before) && !Compacts(Run(s, max, compactAt, before), max, compactAt, e))
  }

  lemma {:induction false} EntriesOfLines<T>(entries: seq<T>)
    ensures Entries(AsLines(entries)) == entries
  {
    if entries != [] {
      var before := entries[..|entries| - 1];
      EntriesOfLines(before);
      assert AsLines(entries)[..|entries| - 1] == AsLines(before);
    }
  }

  /** Whatever happens to the file, the buffer holds the last entries among those whose append
      succeeded, and the version counts them. */
  lemma {:induction false} BufferIsRecent<T>(s: State<T>, max: nat, compactAt: nat, events: seq<Event<T>>)
    requires |s.entries| <= max
    ensures Run(s, max, compactAt, events).entries == Last(max, s.entries + Accepted(events))
    ensures Run(s, max, compactAt, events).version == s.version + |Accepted(events)|
  {
    if events == [] {
      assert s.entries + [] == s.entries;
    } else {
      var before, e := events[..|events| - 1], events[|events| - 1];
      BufferIsRecent(s, max, compactAt, before);
      LastOfLast(max, s.entries + Accepted(before), [e.entry]);
      assert s.entries + (Accepted(before) + [e.entry]) == s.entries + Accepted(before) + [e.entry];
      assert s.entries + (Accepted(before) + []) == s.entries + Accepted(before);
    }
  }

  /** Some line is broken or unfinished, or the file holds entries that were never counted. */
  ghost predicate Spoiled<T>(s: State<T>) {
    || (exists i :: 0 <= i < |s.disk.lines| && s.disk.lines[i].Broken?)
    || (s.disk.open && s.disk.lines != [] && !s.disk.lines[|s.disk.lines| - 1].Blank?)
    || |Entries(s.disk.lines)| > s.fileEntries
  }

  lemma SpoiledIsUnsound<T>(s: State<T>, max: nat)
    requires Spoiled(s)
    ensures !Sound(s, max)
  {
  }

  lemma CompactedIsSound<T>(s: State<T>, max: nat)
    requires |s.entries| <= max
    ensures Sound(Compacted(s), max)
  {
    EntriesOfLines(s.entries);
  }

  lemma RecordedStaysSound<T>(s: State<T>, max: nat, compactAt: nat, e: Event<T>)
    requires Sound(s, max) && !Damaging(e.write)
    ensures Sound(Recorded(s, max, compactAt, e), max)
  {
    if Compacts(s, max, compactAt, e) {
      CompactedIsSound(State(Appended(s.disk, e.entry, e.write), Last(max, s.entries + [e.entry]), s.fileEntries + 1,
                             s.version + 1), max);
    } else if e.write.Written? {
      LastOfLast(max, Entries(s.disk.lines), [e.entry]);
      OneMoreLine(s.disk.lines, Whole(e.entry));
    }
  }

  lemma DamagingSpoils<T>(s: State<T>, max: nat, compactAt: nat, e: Event<T>)
    requires Sound(s, max) || Spoiled(s)
    requires Damaging(e.write)
    ensures Spoiled(Recorded(s, max, compactAt, e))
  {
    StaysSpoiled(s, max, compactAt, e);
  }

  lemma BrokenStays<T>(disk: Disk<T>, entry: T, write: Write, i: nat)
    requires i < |disk.lines| && disk.lines[i].Broken?
    ensures i < |Appended(disk, entry, write).lines| && Appended(disk, entry, write).lines[i].Broken?
  {
  }

  lemma OneMoreLine<T>(lines: seq<Line<T>>, line: Line<T>)
    ensures Entries(lines + [line]) == Entries(lines) + if line.Whole? then [line.entry] else []
  {
    assert (lines + [line])[..|lines|] == lines;
  }

  lemma StaysSpoiled<T>(s: State<T>, max: nat, compactAt: nat, e: Event<T>)
    requires Spoiled(s) || (Damaging(e.write) && s.fileEntries == |Entries(s.disk.lines)|)
    requires !Compacts(s, max, compactAt, e)
    ensures Spoiled(Recorded(s, max, compactAt, e))
  {
    hide Entries, Last;
    var d := s.disk;
    var after := Appended(d, e.entry, e.write);
    if e.write.Untouched? {
    } else if d.open && d.lines != [] && !d.lines[|d.lines| - 1].Blank? {
      assert after.lines[|d.lines| - 1].Broken?;
    } else if i :| 0 <= i < |d.lines| && d.lines[i].Broken? {
      BrokenStays(d, e.entry, e.write, i);
    } else {
      var n := if d.open && d.lines != [] then |d.lines| - 1 else |d.lines|;
      OneMoreLine(d.lines[..n], after.lines[n]);
      OneMoreLine(d.lines[..n], Blank);
      assert after.lines == d.lines[..n] + [after.lines[n]];
      assert n < |d.lines| ==> d.lines == d.lines[..n] + [Blank];
      assert n == |d.lines| ==> d.lines[..n] == d.lines;
      assert Entries(d.lines) == Entries(d.lines[..n]) + [];
    }
  }

  /** Exactly when the file and the buffer agree. */
  lemma {:induction false} SoundIff<T>(s: State<T>, max: nat, compactAt: nat, events: seq<Event<T>>)
    requires Sound(s, max)
    ensures Sound(Run(s, max, compactAt, events), max) <==> !DamagePending(s, max, compactAt, events)
    ensures Sound(Run(s, max, compactAt, events), max) || Spoiled(Run(s, max, compactAt, events))
  {
    if events != [] {
      var before, e := events[..|events| - 1], events[|events| - 1];
      var now := Run(s, max, compactAt, before);
      SoundIff(s, max, compactAt, before);
      BufferIsRecent(s, max, compactAt, before);
      if Damaging(e.write) {
        DamagingSpoils(now, max, compactAt, e);
        SpoiledIsUnsound(Run(s, max, compactAt, events), max);
      } else if Sound(now, max) {
        RecordedStaysSound(now, max, compactAt, e);
      } else if Compacts(now, max, compactAt, e) {
        CompactedIsSound(State(Appended(now.disk, e.entry, e.write), Last(max, now.entries + [e.entry]),
                               now.fileEntries + 1, now.version + 1), max);
      } else {
        StaysSpoiled(now, max, compactAt, e);
        SpoiledIsUnsound(Run(s, max, compactAt, events), max);
      }
    }
  }

  // ---------- restarts ----------

  /** A restart of a sound store rebuilds the same buffer, and fails exactly when the file is longer than
      the buffer and cannot be rewritten. */
  lemma RestartKeepsBuffer<T>(s: State<T>, max: nat, compacts: bool)
    requires Sound(s, max)
    ensures LoadSucceeds(s.disk, max, compacts) <==> s.fileEntries <= max || compacts
    ensures Loaded(s.disk, max).entries == s.entries && Sound(Loaded(s.disk, max), max)
  {
    EntriesOfLines(s.entries);
  }

  /** A crash in the middle of an append: if only part of the entry reached the file, the restarted store
      holds the old buffer and a repaired file; if all of it did, the entry is there although its record
      never succeeded. */
  lemma CrashRecovery<T>(s: State<T>, max: nat, entry: T, write: Write)
    requires Sound(s, max) && Damaging(write)
    requires write.Partial? && !write.whole ==> write.recognised
    ensures LoadSucceeds(Appended(s.disk, entry, write), max, true)
    ensures var restarted := Loaded(Appended(s.disk, entry, write), max);
            if write.Partial? && !write.whole then restarted.entries == s.entries && Sound(restarted, max)
            else restarted.entries == Last(max, s.entries + [entry])
  {
    var lines := s.disk.lines;
    var after := Appended(s.disk, entry, write).lines;
    OneMoreLine(lines, after[|lines|]);
    assert after == lines + [after[|lines|]];
    EntriesOfLines(s.entries);
    LastOfLast(max, Entries(lines), [entry]);
  }

  lemma {:induction false} StaysUnreadable<T>(s: State<T>, max: nat, compactAt: nat, events: seq<Event<T>>, i: nat)
    requires i < |s.disk.lines| && s.disk.lines[i].Broken?
    requires i < |s.disk.lines| - 1 || !s.disk.open
    requires forall e :: e in events ==> !e.compacts
    ensures var d := Run(s, max, compactAt, events).disk;
            i < |d.lines| && d.lines[i].Broken? && (i < |d.lines| - 1 || !d.open)
  {
    if events != [] {
      StaysUnreadable(s, max, compactAt, events[..|events| - 1], i);
    }
  }

  /** A short write followed by a successful one spoils the line they share: until the file is rewritten,
      no restart succeeds, whatever else is recorded. */
  lemma SharedLineBlocksRestart<T>(s: State<T>, max: nat, compactAt: nat, entry: T, write: Write, next: T,
                                   events: seq<Event<T>>, compacts: bool)
    requires write.Partial?
    requires forall e :: e in events ==> !e.compacts
    ensures var spoiled := Run(s, max, compactAt, [Event(entry, write, false), Event(next, Written, false)]);
            !LoadSucceeds(Run(spoiled, max, compactAt, events).disk, max, compacts)
  {
    var first, second := Event(entry, write, false), Event(next, Written, false);
    assert [first, second][..1] == [first];
    var one := Recorded(s, max, compactAt, first);
    assert Run(s, max, compactAt, [first]) == one;
    var spoiled := Recorded(one, max, compactAt, second);
    var i := |spoiled.disk.lines| - 1;
    assert spoiled.disk.lines[i].Broken?;
    StaysUnreadable(spoiled, max, compactAt, events, i);
  }
}
