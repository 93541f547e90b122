/**
 * `cleanup_old_files` (lines 18-25): a pass over a directory listing that
 * removes every regular file older than a maximum age. A directory is a map
 * from entry name to what `os.path.isfile` and `os.path.getmtime` report
 * for it; times are integers in microseconds, the resolution of `datetime`.
 */
module Cleanup {

  /** One directory entry: is it a regular file, and its modification time. */
  datatype Entry = Entry(isFile: bool, mtime: int)

  const MicrosPerHour: nat := 3_600_000_000
  const DefaultMaxAgeHours: nat := 24

  /** `os.path.isfile(path)` and `now - mtime > timedelta(hours=maxAgeHours)`: the entry is removed. */
  predicate Expired(e: Entry, now: int, maxAgeHours: nat) {
    e.isFile && now - e.mtime > maxAgeHours * MicrosPerHour
  }

  /** The directory after the pass: the entries that are not expired, unchanged. */
  function Survivors(entries: map<string, Entry>, now: int, maxAgeHours: nat): map<string, Entry> {
    map name | name in entries && !Expired(entries[name], now, maxAgeHours) :: entries[name]
  }

  /**
   * What the pass promises: every expired regular file is gone; every other entry,
   * young files and non-files alike, is kept unchanged; nothing is added.
   */
  lemma SurvivorsSpec(entries: map<string, Entry>, now: int, maxAgeHours: nat)
    ensures var m := Survivors(entries, now, maxAgeHours);
            && m.Keys <= entries.Keys
            && (forall name :: name in entries ==>
                 (name in m <==> !(entries[name].isFile && now - entries[name].mtime > maxAgeHours * MicrosPerHour)))
            && (forall name :: name in m ==> m[name] == entries[name])
  {
  }

  /** A second pass at the same time removes nothing more. */
  lemma SurvivorsIdempotent(entries: map<string, Entry>, now: int, maxAgeHours: nat)
    ensures Survivors(Survivors(entries, now, maxAgeHours), now, maxAgeHours) == Survivors(entries, now, maxAgeHours)
  {
  }

  /** Two passes, the second one later, leave what the later pass alone leaves (successive requests). */
  lemma SurvivorsLaterPass(entries: map<string, Entry>, earlier: int, later: int, maxAgeHours: nat)
    requires earlier <= later
    ensures Survivors(Survivors(entries, earlier, maxAgeHours), later, maxAgeHours) == Survivors(entries, later, maxAgeHours)
  {
    var once := Survivors(entries, later, maxAgeHours);
    var twice := Survivors(Survivors(entries, earlier, maxAgeHours), later, maxAgeHours);
    forall name | name in entries && !Expired(entries[name], later, maxAgeHours)
      ensures !Expired(entries[name], earlier, maxAgeHours)
    {
    }
    assert twice.Keys == once.Keys;
  }

  /** A longer maximum age keeps at least the entries a shorter one keeps. */
  lemma SurvivorsMonotone(entries: map<string, Entry>, now: int, shorter: nat, longer: nat)
    requires shorter <= longer
    ensures Survivors(entries, now, shorter).Keys <= Survivors(entries, now, longer).Keys
  {
    forall name | name in entries && !Expired(entries[name], now, shorter)
      ensures !Expired(entries[name], now, longer)
    {
      assert shorter * MicrosPerHour <= longer * MicrosPerHour;
    }
  }

  /** A directory whose contents the cleanup pass changes in place. */
  class Directory {
    var entries: map<string, Entry>

    constructor (initial: map<string, Entry>)
      ensures entries == initial
    {
      entries := initial;
    }

    /**
     * `for filename in os.listdir(folder)`: the listing is taken once, and the names
     * are visited in an order the model leaves open.
     */
    method CleanupOldFiles(now: int, maxAgeHours: nat)
      modifies this
      ensures entries == Survivors(old(entries), now, maxAgeHours)
    {
      ghost var start := entries;
      var listing := entries.Keys;
      while listing != {}
        invariant listing <= start.Keys
        invariant entries.Keys == set name | name in start && (name in listing || !Expired(start[name], now, maxAgeHours))
        invariant forall name :: name in entries ==> entries[name] == start[name]
        decreases listing
      {
        var name :| name in listing;
        var entry := entries[name];
        if entry.isFile {
          var fileAge := now - entry.mtime;
          if fileAge > maxAgeHours * MicrosPerHour {
            entries := entries - {name};
          }
        }
        listing := listing - {name};
      }
      assert entries.Keys == Survivors(start, now, maxAgeHours).Keys;
    }

    /** `save(path)`: the file `name` is created, or replaced, with modification time `now`. */
    method Save(name: string, now: int)
      modifies this
      ensures entries == old(entries)[name := Entry(true, now)]
    {
      entries := entries[name := Entry(true, now)];
    }
  }
}
