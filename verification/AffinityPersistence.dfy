/**
 * Saving the affinity store: the dirty flag is raised by puts while they hold the map's lock, and a
 * snapshotter lowers it before it takes that lock, serializes the map and writes the file.
 */
module AffinityPersistence {
  import opened FiniteSets
  import opened Options
  import opened AffinityStore

  // ---------- Keys in the file ----------

  function HexDigit(n: nat): (c: char)
    requires n < 16
  {
    if n < 10 then '0' + n as char else 'a' + (n - 10) as char
  }

  function DigitValue(c: char): Option<nat> {
    if '0' <= c <= '9' then Some((c - '0') as nat)
    else if 'a' <= c <= 'f' then Some((c - 'a') as nat + 10)
    else if 'A' <= c <= 'F' then Some((c - 'A') as nat + 10)
    else None
  }

  /** `format!("{key:0width$x}")` for a key that fits */
  function HexFixed(k: nat, width: nat): (s: string)
    ensures |s| == width
  {
    if width == 0 then "" else HexFixed(k / 16, width - 1) + [HexDigit(k % 16)]
  }

  function HexValue(s: string): Option<nat> {
    if s == "" then Some(0)
    else
      match (HexValue(s[..|s| - 1]), DigitValue(s[|s| - 1]))
      case (Some(high), Some(low)) => Some(high * 16 + low)
      case _ => None
  }

  /** `u64::from_str_radix(s, 16)` */
  function ParseKey(s: string): Option<SessionKey> {
    var digits := if s != "" && s[0] == '+' then s[1..] else s;
    if digits == "" then None
    else
      match HexValue(digits)
      case Some(k) => if k < 0x1_0000_0000_0000_0000 then Some(k) else None
      case None => None
  }

  function Pow16(n: nat): nat {
    if n == 0 then 1 else 16 * Pow16(n - 1)
  }

  lemma {:induction false} HexFixedValue(k: nat, width: nat)
    requires k < Pow16(width)
    ensures HexValue(HexFixed(k, width)) == Some(k)
  {
    if width > 0 {
      HexFixedValue(k / 16, width - 1);
      var s := HexFixed(k, width);
      assert s[..|s| - 1] == HexFixed(k / 16, width - 1);
      assert DigitValue(HexDigit(k % 16)) == Some(k % 16);
    }
  }

  function KeyText(k: SessionKey): string {
    HexFixed(k, 16)
  }

  lemma Pow16Of16()
    ensures Pow16(16) == 0x1_0000_0000_0000_0000
  {
    assert Pow16(4) == 0x1_0000;
    assert Pow16(8) == 0x1_0000_0000;
    assert Pow16(12) == 0x1_0000_0000_0000;
  }

  lemma {:induction false} HexFixedDigits(k: nat, width: nat)
    ensures forall i :: 0 <= i < width ==> '0' <= HexFixed(k, width)[i] <= '9' || 'a' <= HexFixed(k, width)[i] <= 'f'
  {
    if width > 0 {
      HexFixedDigits(k / 16, width - 1);
    }
  }

  /** A key is printed as 16 lower-case hexadecimal digits and read back as itself. */
  lemma KeyRoundTrip(k: SessionKey)
    ensures ParseKey(KeyText(k)) == Some(k) && |KeyText(k)| == 16
    ensures forall i :: 0 <= i < 16 ==> '0' <= KeyText(k)[i] <= '9' || 'a' <= KeyText(k)[i] <= 'f'
  {
    Pow16Of16();
    HexFixedValue(k, 16);
    HexFixedDigits(k, 16);
  }

  // ---------- The file ----------

  type File = map<string, Binding>

  /** The file that `snapshot_if_dirty` serializes */
  ghost predicate Serializes(m: Bindings, file: File) {
    && (forall k: SessionKey :: k in m ==> KeyText(k) in file && file[KeyText(k)] == m[k])
    && (forall s :: s in file ==> exists k: SessionKey :: k in m && KeyText(k) == s)
  }

  /** A map that `load` may build from a file: unreadable keys are skipped, any of several spellings of a key wins */
  ghost predicate Reads(file: File, m: Bindings) {
    && (forall s :: s in file && ParseKey(s).Some? ==> ParseKey(s).value in m)
    && (forall k: SessionKey :: k in m ==> exists s :: s in file && ParseKey(s) == Some(k) && m[k] == file[s])
  }

  lemma SavedKeyIsRead(m: Bindings, file: File, loaded: Bindings, k: SessionKey)
    requires Serializes(m, file) && Reads(file, loaded) && k in m
    ensures k in loaded
  {
    hide ParseKey, KeyText;
    KeyRoundTrip(k);
    assert KeyText(k) in file;
  }

  lemma ReadKeyWasSaved(m: Bindings, file: File, loaded: Bindings, k: SessionKey)
    requires Serializes(m, file) && Reads(file, loaded) && k in loaded
    ensures k in m && loaded[k] == m[k]
  {
    hide ParseKey, KeyText;
    var s :| s in file && ParseKey(s) == Some(k) && loaded[k] == file[s];
    var j: SessionKey :| j in m && KeyText(j) == s;
    KeyRoundTrip(j);
  }

  /** What was serialized is what is read. */
  lemma FileRoundTrip(m: Bindings, file: File, loaded: Bindings)
    requires Serializes(m, file) && Reads(file, loaded)
    ensures loaded == m
  {
    hide Serializes, Reads;
    forall k: SessionKey | k in m ensures k in loaded {
      SavedKeyIsRead(m, file, loaded, k);
    }
    forall k: SessionKey | k in loaded ensures k in m && loaded[k] == m[k] {
      ReadKeyWasSaved(m, file, loaded, k);
    }
  }

  // ---------- The store object ----------

  class Store {
    var bindings: Bindings
    var dirty: bool
    const hasPath: bool

    /** `AffinityStore::load`; `file` is None when it is missing or not JSON. */
    constructor Load(file: Option<File>, now: int)
      ensures !dirty && hasPath
      ensures exists m :: Reads(if file.Some? then file.value else map[], m) && bindings == Trimmed(m, now, MAX_BINDINGS)
    {
      hasPath, dirty, bindings := true, false, map[];
      new;
      var m := ReadFile(if file.Some? then file.value else map[]);
      bindings := Trim(m, now, MAX_BINDINGS);
    }

    method Get(key: SessionKey, now: int) returns (r: Option<string>)
      ensures r == Lookup(bindings, key, now)
    {
      if key in bindings && now - bindings[key].lastUsed <= BINDING_TTL_SECS {
        return Some(bindings[key].account);
      }
      return None;
    }

    /** `AffinityStore::put` */
    method Put(key: SessionKey, account: string, now: int)
      modifies this
      ensures bindings == AfterPut(old(bindings), key, account, now, MAX_BINDINGS)
      ensures dirty
    {
      bindings := bindings[key := Binding(account, now)];
      if |bindings| > MAX_BINDINGS {
        bindings := Trim(bindings, now, MAX_BINDINGS);
      }
      dirty := true;
    }

    /** `AffinityStore::snapshot_if_dirty`, when nothing runs between its two steps */
    method SnapshotIfDirty(now: int) returns (r: Option<File>)
      modifies this
      ensures r.Some? <==> hasPath && old(dirty)
      ensures r.None? ==> bindings == old(bindings) && dirty == old(dirty)
      ensures r.Some? ==>
                !dirty && bindings == Trimmed(old(bindings), now, MAX_BINDINGS) && Serializes(bindings, r.value)
    {
      if !hasPath {
        return None;
      }
      if !dirty {
        return None;
      }
      dirty := false;
      bindings := Trim(bindings, now, MAX_BINDINGS);
      var file := WriteFile(bindings);
      return Some(file);
    }
  }

  method WriteFile(m: Bindings) returns (file: File)
    ensures Serializes(m, file)
  {
    hide KeyText;
    file := map[];
    var todo := m.Keys;
    while todo != {}
      invariant todo <= m.Keys
      invariant forall k: SessionKey :: k in m && k !in todo ==> KeyText(k) in file && file[KeyText(k)] == m[k]
      invariant forall s :: s in file ==> exists k: SessionKey :: k in m && k !in todo && KeyText(k) == s
      decreases |todo|
    {
      var k :| k in todo;
      forall j: SessionKey | j in m && j !in todo ensures KeyText(j) != KeyText(k) {
        KeyRoundTrip(j);
        KeyRoundTrip(k);
      }
      ghost var before := file;
      file := file[KeyText(k) := m[k]];
      todo := todo - {k};
      forall s | s in file ensures exists j: SessionKey :: j in m && j !in todo && KeyText(j) == s {
        if s != KeyText(k) {
          var j: SessionKey :| j in m && j !in todo + {k} && KeyText(j) == s;
        }
      }
    }
  }

  method ReadFile(file: File) returns (m: Bindings)
    ensures Reads(file, m)
  {
    hide ParseKey;
    m := map[];
    var todo := file.Keys;
    while todo != {}
      invariant todo <= file.Keys
      invariant forall s :: s in file && s !in todo && ParseKey(s).Some? ==> ParseKey(s).value in m
      invariant forall k: SessionKey :: k in m ==> exists s :: s in file && ParseKey(s) == Some(k) && m[k] == file[s]
      decreases |todo|
    {
      var s :| s in todo;
      if ParseKey(s).Some? {
        m := m[ParseKey(s).value := file[s]];
      }
      todo := todo - {s};
    }
  }

  // ---------- Interleavings ----------

  /** Who holds the map's lock: a put does so from its insertion until it has raised the flag. */
  datatype Holder = Free | Putting

  type Text = seq<char>

  /** Where a file write stands: it opens the temporary file, writes it, and renames it over the file. */
  datatype Phase = Waiting | Opened(inode: nat) | Written(inode: nat)

  datatype State = State(
    bindings: Bindings,
    dirty: bool,
    lock: Holder,
    cleared: nat,            // snapshotters that lowered the flag and have not read the map yet
    contents: seq<Bindings>, // the file at start, then everything serialized, in order
    texts: seq<Text>,        // the same as text
    writers: map<nat, Phase>, // the writes under way, by the position of what they write
    inodes: seq<Text>,       // what was ever stored on disk
    temp: Option<nat>,       // the one temporary file, if it exists
    path: nat,               // the file
    landed: nat)             // the position of what was renamed last

  /** What was serialized last, or read from the file at start */
  function Snapshot(s: State): Bindings
    requires s.contents != []
  {
    s.contents[|s.contents| - 1]
  }

  datatype Step =
    | Insert(key: SessionKey, account: string, now: int)
    | Mark
    | LowerFlag
    | Serialize(now: int, text: Text)
    | Open(i: nat)
    | Write(i: nat, n: nat)  // the first `n` characters; fewer than all mean that the write fails
    | Rename(i: nat)
    | Fail(i: nat)

  /** Reading a file; one that is not JSON counts as empty. */
  function Loaded(parse: Text -> Option<Bindings>, text: Text): Bindings {
    var m := parse(text);
    if m.Some? then m.value else map[]
  }

  /** The positions in the state exist; every run keeps this. */
  predicate Sane(s: State) {
    && 0 < |s.contents| == |s.texts| && s.landed < |s.contents|
    && s.path < |s.inodes| && (s.temp.Some? ==> s.temp.value < |s.inodes|)
    && (forall i :: i in s.writers ==> i < |s.contents| && (!s.writers[i].Waiting? ==> s.writers[i].inode < |s.inodes|))
  }

  /** Times are read before the lock is taken, so they come in any order; writes proceed side by side. */
  predicate Enabled(parse: Text -> Option<Bindings>, s: State, step: Step) {
    && Sane(s)
    && match step
       case Insert(_, _, _) => s.lock.Free?
       case Mark => s.lock.Putting?
       case LowerFlag => true
       case Serialize(now, text) =>
         s.lock.Free? && s.cleared > 0 && parse(text) == Some(Trimmed(s.bindings, now, MAX_BINDINGS))
       case Open(i) => i in s.writers && s.writers[i].Waiting?
       case Write(i, n) => i in s.writers && s.writers[i].Opened? && n <= |s.texts[i]|
       case Rename(i) => i in s.writers && s.writers[i].Written?
       case Fail(i) => i in s.writers
  }

  /** Text written from the start of a file over what it held */
  function Over(text: Text, below: Text): Text {
    if |text| < |below| then text + below[|text|..] else text
  }

  function Next(parse: Text -> Option<Bindings>, s: State, step: Step): State
    requires Enabled(parse, s, step)
  {
    match step
    case Insert(key, account, now) =>
      s.(bindings := AfterPut(s.bindings, key, account, now, MAX_BINDINGS), lock := Putting)
    case Mark => s.(dirty := true, lock := Free)
    case LowerFlag => if s.dirty then s.(dirty := false, cleared := s.cleared + 1) else s
    case Serialize(now, text) =>
      var kept := Trimmed(s.bindings, now, MAX_BINDINGS);
      s.(bindings := kept, contents := s.contents + [kept], texts := s.texts + [text],
         writers := s.writers[|s.contents| := Waiting], cleared := s.cleared - 1)
    case Open(i) =>
      if s.temp.Some?
      then s.(inodes := s.inodes[s.temp.value := ""], writers := s.writers[i := Opened(s.temp.value)])
      else s.(inodes := s.inodes + [""], temp := Some(|s.inodes|), writers := s.writers[i := Opened(|s.inodes|)])
    case Write(i, n) =>
      var inode := s.writers[i].inode;
      s.(inodes := s.inodes[inode := Over(s.texts[i][..n], s.inodes[inode])],
         writers := if n == |s.texts[i]| then s.writers[i := Written(inode)] else s.writers - {i})
    case Rename(i) =>
      if s.temp.Some? then s.(path := s.temp.value, temp := None, landed := i, writers := s.writers - {i})
      else s.(writers := s.writers - {i})
    case Fail(i) => s.(writers := s.writers - {i})
  }

  /** A process that has just loaded a file */
  function Started(parse: Text -> Option<Bindings>, file: Text, now: int): State {
    var m := Loaded(parse, file);
    State(Trimmed(m, now, MAX_BINDINGS), false, Free, 0, [m], [file], map[], [file], None, 0, 0)
  }

  ghost predicate IsRun(parse: Text -> Option<Bindings>, s: State, steps: seq<Step>)
    decreases |steps|
  {
    steps == [] || (Enabled(parse, s, steps[0]) && IsRun(parse, Next(parse, s, steps[0]), steps[1..]))
  }

  ghost function Last(parse: Text -> Option<Bindings>, s: State, steps: seq<Step>): State
    requires IsRun(parse, s, steps)
    decreases |steps|
  {
    if steps == [] then s else Last(parse, Next(parse, s, steps[0]), steps[1..])
  }

  ghost predicate WithinCap(m: Bindings) {
    forall k :: k in m ==> |Newer(m, m[k].lastUsed)| < MAX_BINDINGS
  }

  /** A change since the last serialized snapshot is announced. */
  ghost predicate ChangeAnnounced(s: State, start: int)
    requires s.contents != []
  {
    || s.bindings == Snapshot(s) || s.bindings == Trimmed(Snapshot(s), start, MAX_BINDINGS)
    || s.dirty || s.cleared > 0 || s.lock.Putting?
  }

  ghost predicate Inv(parse: Text -> Option<Bindings>, s: State, start: int) {
    && Sane(s) && WithinCap(s.bindings) && ChangeAnnounced(s, start)
    && forall i :: 0 <= i < |s.texts| ==> Loaded(parse, s.texts[i]) == s.contents[i]
  }

  lemma TrimmedWithinCap(m: Bindings, now: int)
    ensures WithinCap(Trimmed(m, now, MAX_BINDINGS))
  {
    hide Trimmed;
    var kept := Trimmed(m, now, MAX_BINDINGS);
    TrimmedIsPart(m, now, MAX_BINDINGS);
    forall k | k in kept ensures |Newer(kept, kept[k].lastUsed)| < MAX_BINDINGS {
      TrimmedMembers(m, now, MAX_BINDINGS, k);
      SubsetSize(Newer(kept, kept[k].lastUsed), Newer(m, m[k].lastUsed));
    }
  }

  lemma PutWithinCap(m: Bindings, key: SessionKey, account: string, now: int)
    ensures WithinCap(AfterPut(m, key, account, now, MAX_BINDINGS))
  {
    var inserted := m[key := Binding(account, now)];
    if |inserted| > MAX_BINDINGS {
      TrimmedWithinCap(inserted, now);
    } else {
      forall k | k in inserted ensures |Newer(inserted, inserted[k].lastUsed)| < MAX_BINDINGS {
        SmallEnough(inserted, MAX_BINDINGS, k);
      }
    }
  }

  lemma StepKeepsInv(parse: Text -> Option<Bindings>, s: State, step: Step, start: int)
    requires Inv(parse, s, start) && Enabled(parse, s, step)
    ensures Inv(parse, Next(parse, s, step), start)
  {
    hide WithinCap, AfterPut, Trimmed, Over;
    match step
    case Insert(key, account, now) => PutWithinCap(s.bindings, key, account, now);
    case Serialize(now, _) => TrimmedWithinCap(s.bindings, now);
    case _ =>
  }

  lemma {:induction false} RunKeepsInv(parse: Text -> Option<Bindings>, s: State, steps: seq<Step>, start: int)
    requires Inv(parse, s, start) && IsRun(parse, s, steps)
    ensures Inv(parse, Last(parse, s, steps), start)
    decreases |steps|
  {
    hide Inv, Next, Enabled;
    if steps != [] {
      StepKeepsInv(parse, s, steps[0], start);
      RunKeepsInv(parse, Next(parse, s, steps[0]), steps[1..], start);
    }
  }

  lemma StartedKeepsInv(parse: Text -> Option<Bindings>, file: Text, start: int, steps: seq<Step>)
    requires IsRun(parse, Started(parse, file, start), steps)
    ensures Inv(parse, Last(parse, Started(parse, file, start), steps), start)
  {
    hide IsRun, Last, Next, Enabled;
    TrimmedWithinCap(Loaded(parse, file), start);
    RunKeepsInv(parse, Started(parse, file, start), steps, start);
  }

  // ---------- What a later process answers ----------

  /** Nothing is running and no change is announced. */
  predicate Quiet(s: State) {
    !s.dirty && s.cleared == 0 && s.lock.Free?
  }

  /** A process that loads `m` at `t` answers `key` at `now`. */
  function Reloaded(m: Bindings, t: int, key: SessionKey, now: int): Option<string> {
    Lookup(Trimmed(m, t, MAX_BINDINGS), key, now)
  }

  /** When a map was trimmed, before the lookup, does not change the answer. */
  lemma TrimTimeIsIrrelevant(m: Bindings, t: int, u: int, key: SessionKey, now: int)
    requires t <= now && u <= now
    ensures Reloaded(m, t, key, now) == Reloaded(m, u, key, now)
  {
    hide Trimmed;
    TrimmedIsPart(m, t, MAX_BINDINGS);
    TrimmedIsPart(m, u, MAX_BINDINGS);
    TrimmedMembers(m, t, MAX_BINDINGS, key);
    TrimmedMembers(m, u, MAX_BINDINGS, key);
  }

  /** A trim does not change what a map within the cap answers. */
  lemma TrimmedAnswers(m: Bindings, t: int, key: SessionKey, now: int)
    requires WithinCap(m) && t <= now
    ensures Reloaded(m, t, key, now) == Lookup(m, key, now)
  {
    hide Trimmed;
    TrimmedIsPart(m, t, MAX_BINDINGS);
    TrimmedMembers(m, t, MAX_BINDINGS, key);
  }

  lemma QuietAnswers(s: State, start: int, t: int, key: SessionKey, now: int)
    requires s.contents != [] && WithinCap(s.bindings) && ChangeAnnounced(s, start)
    requires Quiet(s) && t <= now && start <= now
    ensures Reloaded(Snapshot(s), t, key, now) == Lookup(s.bindings, key, now)
  {
    hide Trimmed, WithinCap;
    if s.bindings == Snapshot(s) {
      TrimmedAnswers(s.bindings, t, key, now);
    } else {
      TrimTimeIsIrrelevant(Snapshot(s), t, start, key, now);
    }
  }

  /**
   * The persistence protocol over every interleaving of puts, snapshotters and file writes, whatever times
   * they read: a change since the last serialized snapshot implies that the flag is up, a snapshotter has
   * lowered it and not yet read the map, or a put still holds the lock. With none of these, a process that
   * loads the file of the last snapshot, at any time `t`, answers every later lookup as this one would.
   */
  lemma QuietSnapshotIsComplete(parse: Text -> Option<Bindings>, file: Text, start: int, steps: seq<Step>,
                                saved: File, loaded: Bindings, t: int, key: SessionKey, now: int)
    requires IsRun(parse, Started(parse, file, start), steps)
    ensures var s := Last(parse, Started(parse, file, start), steps);
            && s.contents != [] && ChangeAnnounced(s, start)
            && (Quiet(s) && Serializes(Snapshot(s), saved) && Reads(saved, loaded) && t <= now && start <= now ==>
                  Reloaded(loaded, t, key, now) == Lookup(s.bindings, key, now))
  {
    hide IsRun, Last, Serializes, Reads;
    StartedKeepsInv(parse, file, start, steps);
    var s := Last(parse, Started(parse, file, start), steps);
    if Quiet(s) && Serializes(Snapshot(s), saved) && Reads(saved, loaded) && t <= now && start <= now {
      FileRoundTrip(Snapshot(s), saved, loaded);
      QuietAnswers(s, start, t, key, now);
    }
  }

  /** Two files answer alike from time `from` on, whenever they are loaded. */
  ghost predicate AnswerAlike(a: Bindings, b: Bindings, from: int) {
    forall t: int, key: SessionKey, now: int :: t <= now && from <= now ==> Reloaded(a, t, key, now) == Reloaded(b, t, key, now)
  }

  lemma AnswersDecideTimes(a: Bindings, b: Bindings, from: int, k: SessionKey)
    requires AnswerAlike(a, b, from) && k in Trimmed(a, from, MAX_BINDINGS)
    ensures k in Trimmed(b, from, MAX_BINDINGS)
    ensures Trimmed(a, from, MAX_BINDINGS)[k] == Trimmed(b, from, MAX_BINDINGS)[k]
  {
    hide Trimmed;
    TrimmedIsPart(a, from, MAX_BINDINGS);
    TrimmedIsPart(b, from, MAX_BINDINGS);
    TrimmedMembers(a, from, MAX_BINDINGS, k);
    assert Reloaded(a, from, k, from) == Reloaded(b, from, k, from);
    TrimmedMembers(b, from, MAX_BINDINGS, k);
    var earlier := if a[k].lastUsed < b[k].lastUsed then a[k].lastUsed else b[k].lastUsed;
    var expired := earlier + BINDING_TTL_SECS + 1;
    assert Reloaded(a, from, k, expired) == Reloaded(b, from, k, expired);
  }

  /** They do so exactly when they hold the same bindings, as far as a trim at that time can tell. */
  lemma AlikeMeansEqual(a: Bindings, b: Bindings, from: int)
    ensures AnswerAlike(a, b, from) <==> Trimmed(a, from, MAX_BINDINGS) == Trimmed(b, from, MAX_BINDINGS)
  {
    hide Trimmed;
    if AnswerAlike(a, b, from) {
      forall k | k in Trimmed(a, from, MAX_BINDINGS)
        ensures k in Trimmed(b, from, MAX_BINDINGS) && Trimmed(a, from, MAX_BINDINGS)[k] == Trimmed(b, from, MAX_BINDINGS)[k]
      {
        AnswersDecideTimes(a, b, from, k);
      }
      assert AnswerAlike(b, a, from);
      forall k | k in Trimmed(b, from, MAX_BINDINGS) ensures k in Trimmed(a, from, MAX_BINDINGS) {
        AnswersDecideTimes(b, a, from, k);
      }
    }
    if Trimmed(a, from, MAX_BINDINGS) == Trimmed(b, from, MAX_BINDINGS) {
      forall t: int, key: SessionKey, now: int | t <= now && from <= now
        ensures Reloaded(a, t, key, now) == Reloaded(b, t, key, now)
      {
        TrimTimeIsIrrelevant(a, t, from, key, now);
        TrimTimeIsIrrelevant(b, t, from, key, now);
      }
    }
  }

  /**
   * The file on disk, exactly: when nothing is running and every write has ended, however writes overlapped or
   * failed, a process that loads the file answers all lookups from time `from` on as this one would if and
   * only if what it reads trims to the same bindings as the newest snapshot.
   */
  lemma QuietDiskIsComplete(parse: Text -> Option<Bindings>, file: Text, start: int, steps: seq<Step>, from: int)
    requires IsRun(parse, Started(parse, file, start), steps) && start <= from
    requires var s := Last(parse, Started(parse, file, start), steps); Quiet(s) && s.writers == map[]
    ensures var s := Last(parse, Started(parse, file, start), steps);
            && Sane(s)
            && var disk := Loaded(parse, s.inodes[s.path]);
            && ((forall t: int, key: SessionKey, now: int :: t <= now && from <= now ==>
                   Reloaded(disk, t, key, now) == Lookup(s.bindings, key, now))
                <==> Trimmed(disk, from, MAX_BINDINGS) == Trimmed(Snapshot(s), from, MAX_BINDINGS))
  {
    hide IsRun, Last, Trimmed, Reloaded, Loaded;
    StartedKeepsInv(parse, file, start, steps);
    var s := Last(parse, Started(parse, file, start), steps);
    forall t: int, key: SessionKey, now: int | t <= now && from <= now
      ensures Reloaded(Snapshot(s), t, key, now) == Lookup(s.bindings, key, now)
    {
      QuietAnswers(s, start, t, key, now);
    }
    AlikeMeansEqual(Loaded(parse, s.inodes[s.path]), Snapshot(s), from);
  }

  // ---------- Writes that do not overlap ----------

  /** Some write has opened the temporary file and not ended. */
  ghost predicate Busy(s: State) {
    exists i :: i in s.writers && !s.writers[i].Waiting?
  }

  /** Every write opens the temporary file only when no other one is using it. */
  ghost predicate TakeTurns(parse: Text -> Option<Bindings>, s: State, steps: seq<Step>)
    requires IsRun(parse, s, steps)
    decreases |steps|
  {
    steps == [] || ((steps[0].Open? ==> !Busy(s)) && TakeTurns(parse, Next(parse, s, steps[0]), steps[1..]))
  }

  /** The file holds one whole text, and the write at work has the temporary file to itself. */
  ghost predicate WholeFile(s: State) {
    && Sane(s)
    && s.inodes[s.path] == s.texts[s.landed]
    && (s.temp.Some? ==> s.temp.value != s.path)
    && (forall i :: i in s.writers && !s.writers[i].Waiting? ==> s.temp == Some(s.writers[i].inode))
    && (forall i :: i in s.writers && s.writers[i].Opened? ==> s.inodes[s.writers[i].inode] == "")
    && (forall i :: i in s.writers && s.writers[i].Written? ==> s.inodes[s.writers[i].inode] == s.texts[i])
    && (forall i, j :: i in s.writers && j in s.writers && !s.writers[i].Waiting? && !s.writers[j].Waiting? ==> i == j)
  }

  lemma OpenKeepsWhole(parse: Text -> Option<Bindings>, s: State, i: nat)
    requires WholeFile(s) && Enabled(parse, s, Open(i)) && !Busy(s) && Sane(Next(parse, s, Open(i)))
    ensures WholeFile(Next(parse, s, Open(i)))
  {
  }

  lemma WriteKeepsWhole(parse: Text -> Option<Bindings>, s: State, i: nat, n: nat)
    requires WholeFile(s) && Enabled(parse, s, Write(i, n)) && Sane(Next(parse, s, Write(i, n)))
    ensures WholeFile(Next(parse, s, Write(i, n)))
  {
    assert n == |s.texts[i]| ==> s.texts[i][..n] == s.texts[i];
  }

  lemma RenameKeepsWhole(parse: Text -> Option<Bindings>, s: State, i: nat)
    requires WholeFile(s) && Enabled(parse, s, Rename(i)) && Sane(Next(parse, s, Rename(i)))
    ensures WholeFile(Next(parse, s, Rename(i)))
  {
  }

  lemma SerializeKeepsWhole(parse: Text -> Option<Bindings>, s: State, now: int, text: Text)
    requires WholeFile(s) && Enabled(parse, s, Serialize(now, text)) && Sane(Next(parse, s, Serialize(now, text)))
    ensures WholeFile(Next(parse, s, Serialize(now, text)))
  {
    hide Trimmed;
  }

  lemma TurnKeepsWhole(parse: Text -> Option<Bindings>, s: State, step: Step, start: int)
    requires Inv(parse, s, start) && WholeFile(s) && Enabled(parse, s, step) && (step.Open? ==> !Busy(s))
    ensures WholeFile(Next(parse, s, step))
  {
    hide WithinCap, AfterPut, Trimmed, ChangeAnnounced, Loaded, Over;
    assert Sane(Next(parse, s, step)) by { StepKeepsInv(parse, s, step, start); }
    match step
    case Open(i) => OpenKeepsWhole(parse, s, i);
    case Write(i, n) => WriteKeepsWhole(parse, s, i, n);
    case Rename(i) => RenameKeepsWhole(parse, s, i);
    case Serialize(now, text) => SerializeKeepsWhole(parse, s, now, text);
    case _ =>
  }

  lemma {:induction false} TurnsKeepWhole(parse: Text -> Option<Bindings>, s: State, steps: seq<Step>, start: int)
    requires Inv(parse, s, start) && WholeFile(s) && IsRun(parse, s, steps) && TakeTurns(parse, s, steps)
    ensures WholeFile(Last(parse, s, steps))
    decreases |steps|
  {
    hide Inv, WholeFile, Next, Enabled, Busy;
    if steps != [] {
      StepKeepsInv(parse, s, steps[0], start);
      TurnKeepsWhole(parse, s, steps[0], start);
      TurnsKeepWhole(parse, Next(parse, s, steps[0]), steps[1..], start);
    }
  }

  /**
   * When writes take turns with the temporary file, the file always holds exactly what the last completed write
   * wrote. So a quiet store's file is complete if and only if the contents that landed last trim to the
   * bindings of the newest snapshot; it is when the newest write landed last.
   */
  lemma TurnsLandWhole(parse: Text -> Option<Bindings>, file: Text, start: int, steps: seq<Step>)
    requires IsRun(parse, Started(parse, file, start), steps) && TakeTurns(parse, Started(parse, file, start), steps)
    ensures var s := Last(parse, Started(parse, file, start), steps);
            && Sane(s) && s.inodes[s.path] == s.texts[s.landed]
            && Loaded(parse, s.inodes[s.path]) == s.contents[s.landed]
  {
    hide IsRun, Last, Next, Enabled, TakeTurns;
    TrimmedWithinCap(Loaded(parse, file), start);
    TurnsKeepWhole(parse, Started(parse, file, start), steps, start);
    StartedKeepsInv(parse, file, start, steps);
  }

  // ---------- Runs that lose a change ----------

  /** The steps by which one binding of session 7 is made and serialized as `text`, all at time 100 */
  function Saving(account: string, text: Text): seq<Step> {
    [Insert(7, account, 100), Mark, LowerFlag, Serialize(100, text)]
  }

  function Only(account: string): Bindings {
    map[7 := Binding(account, 100)]
  }

  /** A state in which the store holds nothing, or one binding of session 7 */
  ghost predicate AtRest(s: State) {
    Sane(s) && Quiet(s) && (s.bindings == map[] || exists a :: s.bindings == Only(a))
  }

  function AfterSaving(s: State, account: string, text: Text): State {
    s.(bindings := Only(account), contents := s.contents + [Only(account)], texts := s.texts + [text],
       writers := s.writers[|s.contents| := Waiting])
  }

  lemma SavingRuns(parse: Text -> Option<Bindings>, s: State, account: string, text: Text)
    requires AtRest(s) && parse(text) == Some(Only(account))
    ensures IsRun(parse, s, Saving(account, text))
    ensures Last(parse, s, Saving(account, text)) == AfterSaving(s, account, text)
    ensures AtRest(AfterSaving(s, account, text))
  {
    hide Trimmed, AfterPut, IsRun, Last;
    PutOfOne(s.bindings, account);
    TrimOfOne(account);
    var put, ser := Insert(7, account, 100), Serialize(100, text);
    var s1 := Next(parse, s, put);
    var s2 := Next(parse, s1, Mark);
    var s3 := Next(parse, s2, LowerFlag);
    var s4 := Next(parse, s3, ser);
    RunOfNone(parse, s4);
    FirstStep(parse, s3, ser, []);
    assert [ser] + [] == [ser];
    FirstStep(parse, s2, LowerFlag, [ser]);
    assert [LowerFlag] + [ser] == [LowerFlag, ser];
    FirstStep(parse, s1, Mark, [LowerFlag, ser]);
    assert [Mark] + [LowerFlag, ser] == [Mark, LowerFlag, ser];
    FirstStep(parse, s, put, [Mark, LowerFlag, ser]);
    assert [put] + [Mark, LowerFlag, ser] == Saving(account, text);
  }

  /** One undisturbed write */
  function Writing(i: nat, text: Text): seq<Step> {
    [Open(i), Write(i, |text|), Rename(i)]
  }

  function AfterWriting(s: State, i: nat, text: Text): State {
    s.(inodes := s.inodes + [text], path := |s.inodes|, landed := i, writers := s.writers - {i})
  }

  lemma WritingRuns(parse: Text -> Option<Bindings>, s: State, i: nat)
    requires Sane(s) && s.temp == None && i in s.writers && s.writers[i].Waiting?
    ensures IsRun(parse, s, Writing(i, s.texts[i]))
    ensures Last(parse, s, Writing(i, s.texts[i])) == AfterWriting(s, i, s.texts[i])
  {
    hide IsRun, Last;
    var text := s.texts[i];
    var s1 := Next(parse, s, Open(i));
    assert text[..|text|] == text;
    var s2 := Next(parse, s1, Write(i, |text|));
    ThreeSteps(parse, s, Open(i), Write(i, |text|), Rename(i));
    assert Next(parse, s2, Rename(i)) == AfterWriting(s, i, text);
  }

  lemma ThreeSteps(parse: Text -> Option<Bindings>, s: State, a: Step, b: Step, c: Step)
    requires Enabled(parse, s, a) && Enabled(parse, Next(parse, s, a), b)
    requires Enabled(parse, Next(parse, Next(parse, s, a), b), c)
    ensures IsRun(parse, s, [a, b, c])
    ensures Last(parse, s, [a, b, c]) == Next(parse, Next(parse, Next(parse, s, a), b), c)
  {
    hide IsRun, Last, Next, Enabled;
    var s1 := Next(parse, s, a);
    var s2 := Next(parse, s1, b);
    RunOfNone(parse, Next(parse, s2, c));
    FirstStep(parse, s2, c, []);
    assert [c] + [] == [c];
    FirstStep(parse, s1, b, [c]);
    assert [b] + [c] == [b, c];
    FirstStep(parse, s, a, [b, c]);
    assert [a] + [b, c] == [a, b, c];
  }

  /**
   * A failed write is not announced again: after one put, its snapshot and a failed write, the flag is down
   * and nothing is running, yet the file does not know the binding.
   */
  lemma FailedWriteIsForgotten(parse: Text -> Option<Bindings>, text: Text)
    requires parse("") == None && parse(text) == Some(Only("account"))
    ensures var steps := Saving("account", text) + [Fail(1)];
            && IsRun(parse, Started(parse, "", 0), steps)
            && var s := Last(parse, Started(parse, "", 0), steps);
            && Sane(s) && Quiet(s) && s.writers == map[]
            && Lookup(s.bindings, 7, 100) == Some("account")
            && Reloaded(Loaded(parse, s.inodes[s.path]), 100, 7, 100) == None
  {
    hide Trimmed, AfterPut, IsRun, Last;
    var s0 := Started(parse, "", 0);
    TrimOfNothing(0);
    TrimOfNothing(100);
    SavingRuns(parse, s0, "account", text);
    var s1 := AfterSaving(s0, "account", text);
    RunOfNone(parse, Next(parse, s1, Fail(1)));
    FirstStep(parse, s1, Fail(1), []);
    assert [Fail(1)] + [] == [Fail(1)];
    RunsConcat(parse, s0, Saving("account", text), [Fail(1)]);
  }

  /** Two snapshots of session 7, made one after the other and not yet written */
  lemma TwoSavings(parse: Text -> Option<Bindings>, a: Text, b: Text) returns (s: State)
    requires parse("") == None && parse(a) == Some(Only("old")) && parse(b) == Some(Only("new"))
    ensures s == State(Only("new"), false, Free, 0, [map[], Only("old"), Only("new")], ["", a, b],
                       map[1 := Waiting, 2 := Waiting], [""], None, 0, 0)
    ensures var steps := Saving("old", a) + Saving("new", b);
            IsRun(parse, Started(parse, "", 0), steps) && Last(parse, Started(parse, "", 0), steps) == s
  {
    hide Trimmed, AfterPut, IsRun, Last;
    var s0 := Started(parse, "", 0);
    TrimOfNothing(0);
    SavingRuns(parse, s0, "old", a);
    var s1 := AfterSaving(s0, "old", a);
    SavingRuns(parse, s1, "new", b);
    s := AfterSaving(s1, "new", b);
    RunsConcat(parse, s0, Saving("old", a), Saving("new", b));
  }

  /**
   * An overtaken write takes the newer one back: two snapshots are written, the newer lands first, no write
   * fails, the writes do not overlap, and then the file answers with the older binding.
   */
  lemma OvertakenWriteIsStale(parse: Text -> Option<Bindings>, a: Text, b: Text)
    requires parse("") == None && parse(a) == Some(Only("old")) && parse(b) == Some(Only("new"))
    ensures var steps := (Saving("old", a) + Saving("new", b)) + (Writing(2, b) + Writing(1, a));
            && IsRun(parse, Started(parse, "", 0), steps)
            && var s := Last(parse, Started(parse, "", 0), steps);
            && Sane(s) && Quiet(s) && s.writers == map[]
            && Lookup(s.bindings, 7, 100) == Some("new")
            && Reloaded(Loaded(parse, s.inodes[s.path]), 100, 7, 100) == Some("old")
  {
    hide Trimmed, AfterPut, IsRun, Last;
    var s := TwoSavings(parse, a, b);
    TrimOfOne("old");
    WritingRuns(parse, s, 2);
    var s1 := AfterWriting(s, 2, b);
    WritingRuns(parse, s1, 1);
    var s2 := AfterWriting(s1, 1, a);
    assert s2.writers == map[];
    RunsConcat(parse, s, Writing(2, b), Writing(1, a));
    RunsConcat(parse, Started(parse, "", 0), Saving("old", a) + Saving("new", b), Writing(2, b) + Writing(1, a));
  }

  /** Two writes that use the temporary file at once, the newer, shorter one over the older */
  function Overlapping(a: Text, b: Text): seq<Step> {
    [Open(1), Open(2), Write(1, |a|)] + [Write(2, |b|), Rename(1), Rename(2)]
  }

  lemma BothWrite(parse: Text -> Option<Bindings>, s: State, a: Text, b: Text) returns (s': State)
    requires Sane(s) && s.temp == None && s.inodes == [""] && s.texts == ["", a, b]
    requires s.writers == map[1 := Waiting, 2 := Waiting]
    ensures var steps := [Open(1), Open(2), Write(1, |a|)]; IsRun(parse, s, steps) && Last(parse, s, steps) == s'
    ensures s' == s.(inodes := ["", a], temp := Some(1), writers := map[1 := Written(1), 2 := Opened(1)])
  {
    hide IsRun, Last;
    assert a[..|a|] == a;
    var s1 := Next(parse, s, Open(1));
    assert s1 == s.(inodes := ["", ""], temp := Some(1), writers := map[1 := Opened(1), 2 := Waiting]);
    var s2 := Next(parse, s1, Open(2));
    assert s2 == s.(inodes := ["", ""], temp := Some(1), writers := map[1 := Opened(1), 2 := Opened(1)]);
    s' := Next(parse, s2, Write(1, |a|));
    ThreeSteps(parse, s, Open(1), Open(2), Write(1, |a|));
  }

  lemma BothRename(parse: Text -> Option<Bindings>, s: State, a: Text, b: Text) returns (s': State)
    requires Sane(s) && s.temp == Some(1) && s.inodes == ["", a] && s.texts == ["", a, b] && |b| < |a|
    requires s.writers == map[1 := Written(1), 2 := Opened(1)]
    ensures var steps := [Write(2, |b|), Rename(1), Rename(2)]; IsRun(parse, s, steps) && Last(parse, s, steps) == s'
    ensures s' == s.(inodes := ["", b + a[|b|..]], temp := None, path := 1, landed := 1, writers := map[])
  {
    hide IsRun, Last;
    assert b[..|b|] == b;
    var s1 := Next(parse, s, Write(2, |b|));
    assert s1 == s.(inodes := ["", b + a[|b|..]], writers := map[1 := Written(1), 2 := Written(1)]);
    var s2 := Next(parse, s1, Rename(1));
    assert s2 == s1.(temp := None, path := 1, landed := 1, writers := map[2 := Written(1)]);
    s' := Next(parse, s2, Rename(2));
    assert s'.writers == map[];
    ThreeSteps(parse, s, Write(2, |b|), Rename(1), Rename(2));
  }

  /**
   * Overlapping writes mix: both writers use the one temporary file, and the file ends up with the newer text
   * continued by the rest of the older one.
   */
  lemma OverlappingWritesMix(parse: Text -> Option<Bindings>, a: Text, b: Text)
    requires parse("") == None && parse(a) == Some(Only("old")) && parse(b) == Some(Only("new")) && |b| < |a|
    ensures var steps := (Saving("old", a) + Saving("new", b)) + Overlapping(a, b);
            && IsRun(parse, Started(parse, "", 0), steps)
            && var s := Last(parse, Started(parse, "", 0), steps);
            && Sane(s) && Quiet(s) && s.writers == map[]
            && s.inodes[s.path] == b + a[|b|..] != b
  {
    hide Trimmed, AfterPut, IsRun, Last;
    var s := TwoSavings(parse, a, b);
    var s1 := BothWrite(parse, s, a, b);
    var s2 := BothRename(parse, s1, a, b);
    RunsConcat(parse, s, [Open(1), Open(2), Write(1, |a|)], [Write(2, |b|), Rename(1), Rename(2)]);
    RunsConcat(parse, Started(parse, "", 0), Saving("old", a) + Saving("new", b), Overlapping(a, b));
  }

  lemma RunOfNone(parse: Text -> Option<Bindings>, s: State)
    ensures IsRun(parse, s, []) && Last(parse, s, []) == s
  {
  }

  lemma FirstStep(parse: Text -> Option<Bindings>, s: State, first: Step, rest: seq<Step>)
    requires Enabled(parse, s, first) && IsRun(parse, Next(parse, s, first), rest)
    ensures IsRun(parse, s, [first] + rest) && Last(parse, s, [first] + rest) == Last(parse, Next(parse, s, first), rest)
  {
    hide Next, Enabled;
    assert ([first] + rest)[1..] == rest;
  }

  lemma {:induction false} RunsConcat(parse: Text -> Option<Bindings>, s: State, a: seq<Step>, b: seq<Step>)
    requires IsRun(parse, s, a) && IsRun(parse, Last(parse, s, a), b)
    ensures IsRun(parse, s, a + b) && Last(parse, s, a + b) == Last(parse, Last(parse, s, a), b)
    decreases |a|
  {
    hide Next, Enabled;
    if a == [] {
      assert a + b == b;
    } else {
      RunsConcat(parse, Next(parse, s, a[0]), a[1..], b);
      assert (a + b)[1..] == a[1..] + b;
    }
  }

  lemma TrimOfNothing(now: int)
    ensures Trimmed(map[], now, MAX_BINDINGS) == map[]
  {
  }

  lemma PutOfOne(m: Bindings, account: string)
    requires m == map[] || exists a :: m == Only(a)
    ensures AfterPut(m, 7, account, 100, MAX_BINDINGS) == Only(account)
  {
    var one := Only(account);
    assert m[7 := Binding(account, 100)] == one;
    assert one.Keys == {7};
    assert |one| == 1;
  }

  lemma TrimOfOne(account: string)
    ensures Trimmed(Only(account), 100, MAX_BINDINGS) == Only(account)
  {
    var one := Only(account);
    assert Live(one, 100) == one;
    assert Newer(one, 100) == {};
  }
}
