/** Session transcripts (src/session_log.rs): a writer that rotates its file by
    size and keeps only the newest files of its directory. */
module SessionLog {
  type Bytes = seq<bv8>

  datatype File = File(mtime: nat, bytes: Bytes)

  /** Path::extension is "log". */
  predicate IsLog(name: string) {
    |name| > 4 && name[|name| - 4..] == ".log"
  }

  /** A name before ".log", whatever it is. */
  lemma LogNames(name: string)
    ensures IsLog(name) <==> exists stem :: stem != "" && name == stem + ".log"
  {
    if IsLog(name) {
      assert name == name[..|name| - 4] + ".log";
    }
  }

  function Logs(files: map<string, File>): set<string> {
    set n | n in files && IsLog(n)
  }

  // ---------------------------------------------------------------- the directory

  /** The oldest logs go until `keep` are left; no limit when it is zero. Between
      logs of the same age the order of the listing decides. */
  ghost predicate Pruned(before: map<string, File>, after: map<string, File>, keep: nat) {
    if keep == 0 || |Logs(before)| <= keep then after == before
    else
      after.Keys <= before.Keys
      && (forall n :: n in after ==> after[n] == before[n])
      && (forall n :: n in before && !IsLog(n) ==> n in after)
      && |Logs(after)| == keep
      && forall gone, kept :: gone in Logs(before) && gone !in after && kept in Logs(after) ==>
           before[gone].mtime <= before[kept].mtime
  }

  ghost predicate Sorted(names: seq<string>, files: map<string, File>)
    requires forall n :: n in names ==> n in files
  {
    forall i, j :: 0 <= i < j < |names| ==> files[names[i]].mtime <= files[names[j]].mtime
  }

  predicate Distinct(names: seq<string>) {
    forall i, j :: 0 <= i < j < |names| ==> names[i] != names[j]
  }

  function Elements(names: seq<string>): (r: set<string>)
  {
    set n | n in names
  }

  /** Insertion behind every log that is not newer. */
  method Insert(sorted: seq<string>, name: string, files: map<string, File>) returns (r: seq<string>)
    requires Distinct(sorted) && name in files && name !in sorted && forall n :: n in sorted ==> n in files
    requires Sorted(sorted, files)
    ensures Elements(r) == Elements(sorted) + {name} && Distinct(r) && |r| == |sorted| + 1
    ensures forall n :: n in r ==> n in files
    ensures Sorted(r, files)
  {
    var k := |sorted|;
    while k > 0 && files[sorted[k - 1]].mtime > files[name].mtime
      invariant 0 <= k <= |sorted|
      invariant forall j :: k <= j < |sorted| ==> files[sorted[j]].mtime > files[name].mtime
    {
      k := k - 1;
    }
    r := sorted[..k] + [name] + sorted[k..];
    InsertedElements(sorted, name, k);
    InsertedOrder(sorted, name, k, files);
  }

  lemma ElementsJoin(a: seq<string>, b: seq<string>)
    ensures Elements(a + b) == Elements(a) + Elements(b)
  {
  }

  lemma InsertedElements(names: seq<string>, name: string, k: nat)
    requires k <= |names|
    ensures Elements(names[..k] + [name] + names[k..]) == Elements(names) + {name}
  {
  }

  lemma InsertedOrder(sorted: seq<string>, name: string, k: nat, files: map<string, File>)
    requires k <= |sorted| && name in files && name !in sorted && forall n :: n in sorted ==> n in files
    requires Distinct(sorted) && Sorted(sorted, files)
    requires k > 0 ==> files[sorted[k - 1]].mtime <= files[name].mtime
    requires forall j :: k <= j < |sorted| ==> files[sorted[j]].mtime > files[name].mtime
    ensures var r := sorted[..k] + [name] + sorted[k..];
            Distinct(r) && (forall n :: n in r ==> n in files) && Sorted(r, files)
  {
    var r := sorted[..k] + [name] + sorted[k..];
    forall i, j | 0 <= i < j < |r|
      ensures r[i] != r[j] && r[i] in files && r[j] in files && files[r[i]].mtime <= files[r[j]].mtime
    {
      assert i < k ==> r[i] == sorted[i];
      assert i > k ==> r[i] == sorted[i - 1];
      assert j < k ==> r[j] == sorted[j];
      assert j > k ==> r[j] == sorted[j - 1];
      if j == k && i < k - 1 {
        assert files[sorted[i]].mtime <= files[sorted[k - 1]].mtime;
      }
    }
  }

  /** sort_by_key on a listing, by modification time. */
  method SortByMtime(listing: seq<string>, files: map<string, File>) returns (sorted: seq<string>)
    requires Distinct(listing) && forall n :: n in listing ==> n in files
    ensures Elements(sorted) == Elements(listing) && Distinct(sorted) && |sorted| == |listing|
    ensures forall n :: n in sorted ==> n in files
    ensures Sorted(sorted, files)
  {
    sorted := [];
    for i := 0 to |listing|
      invariant Elements(sorted) == Elements(listing[..i]) && Distinct(sorted) && |sorted| == i
      invariant forall n :: n in sorted ==> n in files
      invariant Sorted(sorted, files)
    {
      assert listing[..i + 1] == listing[..i] + [listing[i]];
      assert listing[i] !in Elements(listing[..i]);
      sorted := Insert(sorted, listing[i], files);
    }
    assert listing[..|listing|] == listing;
  }

  /** read_dir in whatever order it comes, logs only. */
  method ListLogs(files: map<string, File>) returns (listing: seq<string>)
    ensures Elements(listing) == Logs(files) && Distinct(listing) && |listing| == |Logs(files)|
  {
    listing := [];
    var left := Logs(files);
    while left != {}
      invariant left <= Logs(files) && Elements(listing) == Logs(files) - left && Distinct(listing)
      invariant |listing| + |left| == |Logs(files)|
      decreases left
    {
      var name :| name in left;
      assert name !in Elements(listing);
      ElementsJoin(listing, [name]);
      left := left - {name};
      listing := listing + [name];
    }
  }

  class HostDir {
    var files: map<string, File>
    /** Advances with every write, so later writes have later times. */
    var clock: nat

    constructor ()
      ensures files == map[] && clock == 0
    {
      files, clock := map[], 0;
    }

    ghost predicate Settled()
      reads this
    {
      forall n :: n in files ==> files[n].mtime < clock
    }

    method Create(name: string)
      requires Settled() && name !in files
      modifies this
      ensures Settled() && files == old(files)[name := File(old(clock), [])]
    {
      files := files[name := File(clock, [])];
      clock := clock + 1;
    }

    method Write(name: string, bytes: Bytes)
      requires Settled() && name in files
      modifies this
      ensures Settled() && files == old(files)[name := File(old(clock), old(files)[name].bytes + bytes)]
    {
      files := files[name := File(clock, files[name].bytes + bytes)];
      clock := clock + 1;
    }

    method PruneRetention(keep: nat)
      modifies this`files
      ensures Pruned(old(files), files, keep)
    {
      if keep == 0 {
        return;
      }
      var logs := ListLogs(files);
      if |logs| <= keep {
        return;
      }
      assert forall n :: n in logs ==> n in Elements(logs);
      var sorted := SortByMtime(logs, files);
      var excess := |logs| - keep;
      ghost var before := files;
      for i := 0 to excess
        invariant files == before - Elements(sorted[..i])
      {
        assert sorted[..i + 1] == sorted[..i] + [sorted[i]];
        files := files - {sorted[i]};
      }
      OldestAreGone(before, sorted, excess);
    }
  }

  /** The front of a sorted listing is no newer than the rest. */
  lemma FrontIsOlder(sorted: seq<string>, files: map<string, File>, k: nat)
    requires k <= |sorted| && (forall n :: n in sorted ==> n in files) && Sorted(sorted, files)
    ensures forall g, r :: g in Elements(sorted[..k]) && r in Elements(sorted[k..]) ==>
              g in files && r in files && files[g].mtime <= files[r].mtime
  {
  }

  lemma OldestAreGone(before: map<string, File>, sorted: seq<string>, excess: nat)
    requires Elements(sorted) == Logs(before) && Distinct(sorted) && |sorted| == |Logs(before)|
    requires 0 < excess < |sorted| && (forall n :: n in sorted ==> n in before) && Sorted(sorted, before)
    ensures Pruned(before, before - Elements(sorted[..excess]), |sorted| - excess)
  {
    var gone, kept := Elements(sorted[..excess]), Elements(sorted[excess..]);
    SplitElements(sorted, excess);
    SplitApart(sorted, excess);
    DistinctSize(sorted[excess..]);
    FrontIsOlder(sorted, before, excess);
    RemovalIsPruning(before, gone, kept, |sorted| - excess);
  }

  lemma RemovalIsPruning(before: map<string, File>, gone: set<string>, kept: set<string>, keep: nat)
    requires Logs(before) == gone + kept && gone !! kept && |kept| == keep && 0 < keep < |Logs(before)|
    requires forall g, r :: g in gone && r in kept ==> g in before && r in before && before[g].mtime <= before[r].mtime
    ensures Pruned(before, before - gone, keep)
  {
    var after := before - gone;
    assert forall n :: n in gone ==> n in Logs(before);
    forall n ensures n in Logs(after) <==> n in kept {
      if n in kept {
        assert n in Logs(before) && n !in gone;
      }
    }
    assert Logs(after) == kept;
  }

  lemma SplitElements(names: seq<string>, k: nat)
    requires k <= |names|
    ensures Elements(names) == Elements(names[..k]) + Elements(names[k..])
  {
  }

  lemma SplitApart(names: seq<string>, k: nat)
    requires Distinct(names) && k <= |names|
    ensures Elements(names[..k]) !! Elements(names[k..]) && Distinct(names[k..])
  {
  }

  lemma {:induction false} DistinctSize(names: seq<string>)
    requires Distinct(names)
    ensures |Elements(names)| == |names|
  {
    if names != [] {
      var init := names[..|names| - 1];
      DistinctSize(init);
      assert Elements(names) == Elements(init) + {names[|names| - 1]};
      assert names[|names| - 1] !in Elements(init);
    }
  }

  // ---------------------------------------------------------------- what a writer has written

  /** A file of this writer by the non-empty appends that went into it. */
  datatype Segment = Segment(path: string, chunks: seq<Bytes>)

  /** All segments in creation order; the last is the one being written. */
  datatype History = History(closed: seq<Segment>, current: Segment)

  function Flat(chunks: seq<Bytes>): Bytes {
    if chunks == [] then [] else Flat(chunks[..|chunks| - 1]) + chunks[|chunks| - 1]
  }

  function FlatClosed(segments: seq<Segment>): Bytes {
    if segments == [] then [] else FlatClosed(segments[..|segments| - 1]) + Flat(segments[|segments| - 1].chunks)
  }

  function Stream(h: History): Bytes {
    FlatClosed(h.closed) + Flat(h.current.chunks)
  }

  function Rotated(h: History, next: string): History {
    History(h.closed + [h.current], Segment(next, []))
  }

  /** One append: the chunk goes to the current segment, which is closed when it
      has reached the limit; `next` is the name of the next. */
  function Appended(h: History, bytes: Bytes, max: nat, next: string): History {
    if bytes == [] then h
    else
      var grown := h.current.(chunks := h.current.chunks + [bytes]);
      if |Flat(grown.chunks)| >= max then Rotated(h.(current := grown), next) else h.(current := grown)
  }

  /** Without its last append a segment is below the limit, or empty. */
  ghost predicate BelowUntilLast(chunks: seq<Bytes>, max: nat) {
    forall k :: 0 < k < |chunks| ==> |Flat(chunks[..k])| < max
  }

  ghost predicate WellFilled(h: History, max: nat) {
    (forall s :: s in h.closed ==> s.chunks != [] && |Flat(s.chunks)| >= max && BelowUntilLast(s.chunks, max))
    && BelowUntilLast(h.current.chunks, max) && (h.current.chunks != [] ==> |Flat(h.current.chunks)| < max)
  }

  lemma AppendGrowsStream(h: History, bytes: Bytes, max: nat, next: string)
    ensures Stream(Appended(h, bytes, max, next)) == Stream(h) + bytes
  {
  }

  lemma AppendFillsWell(h: History, bytes: Bytes, max: nat, next: string)
    requires WellFilled(h, max)
    ensures WellFilled(Appended(h, bytes, max, next), max)
  {
    if bytes != [] {
      var was := h.current.chunks;
      var chunks := was + [bytes];
      forall k | 0 < k < |chunks| ensures |Flat(chunks[..k])| < max {
        assert chunks[..k] == was[..k];
        assert k == |was| ==> was[..k] == was;
      }
      assert BelowUntilLast(chunks, max);
    }
  }

  /** A run of appends, each with the name its rotation would use. */
  function Run(h: History, appends: seq<(Bytes, string)>, max: nat): History {
    if appends == [] then h
    else Appended(Run(h, appends[..|appends| - 1], max), appends[|appends| - 1].0, max, appends[|appends| - 1].1)
  }

  function Sent(appends: seq<(Bytes, string)>): Bytes {
    if appends == [] then [] else Sent(appends[..|appends| - 1]) + appends[|appends| - 1].0
  }

  /** Over every run the segments in creation order hold exactly the bytes that
      were appended, and no segment was rotated away early or late. */
  lemma {:induction false} RunKeepsStream(first: string, appends: seq<(Bytes, string)>, max: nat)
    ensures var h := Run(History([], Segment(first, [])), appends, max);
            Stream(h) == Sent(appends) && WellFilled(h, max)
  {
    if appends != [] {
      var (bytes, next) := appends[|appends| - 1];
      RunKeepsStream(first, appends[..|appends| - 1], max);
      var h := Run(History([], Segment(first, [])), appends[..|appends| - 1], max);
      AppendGrowsStream(h, bytes, max, next);
      AppendFillsWell(h, bytes, max, next);
    }
  }

  // ---------------------------------------------------------------- what is on disk

  ghost predicate OwnPaths(h: History) {
    IsLog(h.current.path)
    && (forall i :: 0 <= i < |h.closed| ==> IsLog(h.closed[i].path) && h.closed[i].path != h.current.path)
    && forall i, j :: 0 <= i < j < |h.closed| ==> h.closed[i].path != h.closed[j].path
  }

  /** The closed segments still on disk are the latest ones, whole, and older the
      earlier they were created; the current one is the newest file and holds all
      but what is still buffered. */
  ghost predicate OnDisk(h: History, files: map<string, File>, buffered: Bytes) {
    h.current.path in files && files[h.current.path].bytes + buffered == Flat(h.current.chunks)
    && (forall n :: n in files && n != h.current.path ==> files[n].mtime < files[h.current.path].mtime)
    && (forall i :: 0 <= i < |h.closed| && h.closed[i].path in files ==>
        files[h.closed[i].path].bytes == Flat(h.closed[i].chunks))
    && forall i, j :: 0 <= i < j < |h.closed| && h.closed[i].path in files ==>
         h.closed[j].path in files && files[h.closed[i].path].mtime < files[h.closed[j].path].mtime
  }

  /** Pruning takes the earliest segments first and never the current one. */
  lemma PruneKeepsSuffix(h: History, before: map<string, File>, after: map<string, File>, buffered: Bytes, keep: nat)
    requires OwnPaths(h) && OnDisk(h, before, buffered) && Pruned(before, after, keep)
    ensures OnDisk(h, after, buffered)
    ensures keep > 0 ==> |Logs(after)| <= keep
  {
  }

  /** What is left on disk of the closed segments, in creation order. */
  function Stored(segments: seq<Segment>, files: map<string, File>): Bytes {
    if segments == [] then []
    else
      var last := segments[|segments| - 1].path;
      Stored(segments[..|segments| - 1], files) + if last in files then files[last].bytes else []
  }

  /** Once flushed, the files left hold a suffix of everything ever appended. */
  lemma StoredIsSuffix(h: History, files: map<string, File>)
    requires OwnPaths(h) && OnDisk(h, files, [])
    ensures exists k :: 0 <= k <= |Stream(h)| && Stored(h.closed, files) + files[h.current.path].bytes == Stream(h)[k..]
  {
    var k := StoredClosed(h.closed, files);
    assert files[h.current.path].bytes + [] == files[h.current.path].bytes;
    assert Stream(h)[k..] == FlatClosed(h.closed)[k..] + Flat(h.current.chunks);
  }

  ghost predicate Latest(segments: seq<Segment>, files: map<string, File>) {
    (forall i :: 0 <= i < |segments| && segments[i].path in files ==>
        files[segments[i].path].bytes == Flat(segments[i].chunks))
    && forall i, j :: 0 <= i < j < |segments| && segments[i].path in files ==> segments[j].path in files
  }

  lemma {:induction false} StoredClosed(segments: seq<Segment>, files: map<string, File>) returns (k: nat)
    requires Latest(segments, files)
    ensures k <= |FlatClosed(segments)| && Stored(segments, files) == FlatClosed(segments)[k..]
  {
    k := 0;
    if segments != [] {
      var init, last := segments[..|segments| - 1], segments[|segments| - 1];
      if last.path in files {
        k := StoredClosed(init, files);
        assert FlatClosed(segments)[k..] == FlatClosed(init)[k..] + Flat(last.chunks);
      } else {
        NothingStored(init, files);
        k := |FlatClosed(segments)|;
      }
    }
  }

  lemma {:induction false} NothingStored(segments: seq<Segment>, files: map<string, File>)
    requires forall i :: 0 <= i < |segments| ==> segments[i].path !in files
    ensures Stored(segments, files) == []
  {
    if segments != [] {
      NothingStored(segments[..|segments| - 1], files);
    }
  }

  /** File names carry a counter that never repeats. */
  ghost predicate IsNew(h: History, name: string) {
    name != h.current.path && forall s :: s in h.closed ==> s.path != name
  }

  lemma FlushKeepsOnDisk(h: History, files: map<string, File>, buffered: Bytes, clock: nat)
    requires OwnPaths(h) && OnDisk(h, files, buffered) && forall n :: n in files ==> files[n].mtime < clock
    ensures OnDisk(h, files[h.current.path := File(clock, files[h.current.path].bytes + buffered)], [])
  {
  }

  lemma RotationOnDisk(h: History, files: map<string, File>, next: string, clock: nat)
    requires OwnPaths(h) && OnDisk(h, files, []) && forall n :: n in files ==> files[n].mtime < clock
    requires IsLog(next) && next !in files && IsNew(h, next)
    ensures OwnPaths(Rotated(h, next)) && OnDisk(Rotated(h, next), files[next := File(clock, [])], [])
  {
  }

  // ---------------------------------------------------------------- the writer

  class SessionLogWriter {
    const dir: HostDir
    const maxFileBytes: nat
    const retentionFiles: nat
    var currentPath: string
    /** What BufWriter has not passed on to the file yet. */
    var buffered: Bytes
    var bytesWritten: nat
    var fileSerial: nat
    var closed: bool
    ghost var history: History

    ghost predicate Valid()
      reads this, dir
    {
      dir.Settled() && OwnPaths(history) && WellFilled(history, maxFileBytes)
      && currentPath == history.current.path && bytesWritten == |Flat(history.current.chunks)|
      && OnDisk(history, dir.files, buffered)
    }

    /** A new log in a directory no one else writes to; `next` is a name that is
        not taken there. */
    constructor Open(dir: HostDir, maxFileBytes: nat, retentionFiles: nat, next: string)
      requires dir.Settled() && next !in dir.files && IsLog(next)
      modifies dir
      ensures Valid() && this.dir == dir && history == History([], Segment(next, [])) && !closed
      ensures this.maxFileBytes == maxFileBytes && this.retentionFiles == retentionFiles
    {
      this.dir, this.maxFileBytes, this.retentionFiles := dir, maxFileBytes, retentionFiles;
      currentPath, buffered, bytesWritten, fileSerial, closed := next, [], 0, 0, false;
      history := History([], Segment(next, []));
      new;
      dir.Create(next);
    }

    method Flush()
      requires Valid()
      modifies dir, this`buffered
      ensures Valid() && buffered == [] && dir.files.Keys == old(dir.files.Keys)
    {
      FlushKeepsOnDisk(history, dir.files, buffered, dir.clock);
      dir.Write(currentPath, buffered);
      buffered := [];
    }

    /** `next` is the name a rotation would create, unused so far. */
    method Append(bytes: Bytes, next: string)
      requires Valid() && IsLog(next) && next !in dir.files && IsNew(history, next)
      modifies this, dir
      ensures Valid() && history == Appended(old(history), bytes, maxFileBytes, next)
      ensures closed == old(closed)
      ensures |history.closed| > |old(history).closed| && retentionFiles > 0 ==> |Logs(dir.files)| <= retentionFiles
    {
      if bytes == [] {
        return;
      }
      ghost var grown := history.current.(chunks := history.current.chunks + [bytes]);
      assert grown.chunks[..|grown.chunks| - 1] == history.current.chunks;
      AppendFillsWell(history, bytes, maxFileBytes, next);
      buffered := buffered + bytes;
      bytesWritten := bytesWritten + |bytes|;
      history := history.(current := grown);
      assert OnDisk(history, dir.files, buffered);
      if bytesWritten >= maxFileBytes {
        Rotate(next);
      }
    }

    method Rotate(next: string)
      requires dir.Settled() && OwnPaths(history) && currentPath == history.current.path
      requires OnDisk(history, dir.files, buffered)
      requires WellFilled(Rotated(history, next), maxFileBytes)
      requires IsLog(next) && next !in dir.files && IsNew(history, next)
      modifies this, dir
      ensures Valid() && history == Rotated(old(history), next)
      ensures closed == old(closed)
      ensures retentionFiles > 0 ==> |Logs(dir.files)| <= retentionFiles
    {
      NextFile(next);
      ghost var before := dir.files;
      dir.PruneRetention(retentionFiles);
      PruneKeepsSuffix(history, before, dir.files, [], retentionFiles);
    }

    /** The flush and the new file of a rotation. */
    method NextFile(next: string)
      requires dir.Settled() && OwnPaths(history) && currentPath == history.current.path
      requires OnDisk(history, dir.files, buffered)
      requires IsLog(next) && next !in dir.files && IsNew(history, next)
      modifies dir, this`currentPath, this`buffered, this`bytesWritten, this`fileSerial, this`history
      ensures dir.Settled() && currentPath == next && buffered == [] && bytesWritten == 0
      ensures history == Rotated(old(history), next) && OwnPaths(history) && OnDisk(history, dir.files, [])
    {
      ghost var h, files := history, dir.files;
      FlushKeepsOnDisk(h, files, buffered, dir.clock);
      dir.Write(currentPath, buffered);
      ghost var flushed, clock := dir.files, dir.clock;
      RotationOnDisk(h, flushed, next, clock);
      dir.Create(next);
      assert dir.files == flushed[next := File(clock, [])];
      buffered := [];
      fileSerial := fileSerial + 1;
      currentPath := next;
      bytesWritten := 0;
      history := Rotated(history, next);
    }

    method Close()
      requires Valid()
      modifies this, dir
      ensures Valid() && closed && history == old(history) && buffered == []
      ensures retentionFiles > 0 ==> |Logs(dir.files)| <= retentionFiles
      ensures exists k :: 0 <= k <= |Stream(history)| &&
                Stored(history.closed, dir.files) + dir.files[history.current.path].bytes == Stream(history)[k..]
    {
      Flush();
      ghost var before := dir.files;
      dir.PruneRetention(retentionFiles);
      PruneKeepsSuffix(history, before, dir.files, [], retentionFiles);
      closed := true;
      StoredIsSuffix(history, dir.files);
    }
  }
}
