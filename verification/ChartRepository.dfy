/**
 The state of an HTTP chart repository, internal/helm/repository/chart_repository.go: a path, the index
 loaded from it, whether the file is one we downloaded, and the digests computed of it. Every method is a
 sequence of locked sections. The sections are functions here and coherence is proved for every
 interleaving of them; the class at the end runs them as the methods do.
 */
module ChartRepository {
  import opened Helpers
  import opened Wrappers

  type Bytes = seq<bv8>

  datatype Index = Index(entries: map<string, seq<string>>)

  /** IndexFromBytes and the digest algorithms. */
  datatype Library = Library(parse: Bytes -> Option<Index>, digest: (string, Bytes) -> string)

  /** helm.MaxIndexSize. */
  const MAX_INDEX_SIZE: nat := 50 * 1024 * 1024

  /**
   The fields of the repository, the regular files on disk, and those temporary files that were created
   for a download but are not published yet. Files are immutable once written.
   */
  datatype State = State(
    path: string,
    index: Option<Index>,
    cached: bool,
    digests: map<string, string>,
    disk: map<string, Bytes>,
    pending: set<string>)

  /** A locked section, or a step on a temporary file outside the lock. The flags are I/O errors. */
  datatype Section =
    | Download(file: string, content: Bytes)
    | DiscardDownload(file: string)
    | Publish(file: string)
    | LoadFromPath
    | Digest(algorithm: string, ioError: bool)
    | Clear(removeFails: bool)
    | Invalidate

  /** What io.LimitReader lets through. */
  function Limited(content: Bytes): Bytes {
    if |content| <= MAX_INDEX_SIZE then content else content[..MAX_INDEX_SIZE]
  }

  function IndexFromFile(lib: Library, s: State, file: string): Option<Index> {
    if file in s.disk && |s.disk[file]| <= MAX_INDEX_SIZE then lib.parse(s.disk[file]) else None
  }

  /** A name that os.CreateTemp may return. */
  predicate Fresh(s: State, file: string) {
    file != "" && file !in s.disk && file != s.path
  }

  predicate Enabled(s: State, e: Section) {
    match e
    case Download(file, _) => Fresh(s, file)
    case DiscardDownload(file) => file in s.pending
    case Publish(file) => file in s.pending
    case _ => true
  }

  function Loaded(lib: Library, s: State): State {
    if s.path != "" && IndexFromFile(lib, s, s.path).Some? then s.(index := IndexFromFile(lib, s, s.path)) else s
  }

  function Digested(lib: Library, s: State, algorithm: string, ioError: bool): State {
    if algorithm !in s.digests && s.path in s.disk && !ioError
    then s.(digests := s.digests[algorithm := lib.digest(algorithm, Limited(s.disk[s.path]))])
    else s
  }

  /** A failing removal returns before the path, the flag and the digests are reset. */
  function Cleared(s: State, removeFails: bool): State {
    if !s.cached then s.(index := None, digests := map[])
    else if removeFails || s.path !in s.disk then s.(index := None)
    else State("", None, false, map[], s.disk - {s.path}, s.pending)
  }

  function Apply(lib: Library, s: State, e: Section): State {
    match e
    case Download(file, content) => s.(disk := s.disk[file := content], pending := s.pending + {file})
    case DiscardDownload(file) => s.(disk := s.disk - {file}, pending := s.pending - {file})
    case Publish(file) =>
      s.(path := file, index := None, cached := true, digests := map[], pending := s.pending - {file})
    case LoadFromPath => Loaded(lib, s)
    case Digest(algorithm, ioError) => Digested(lib, s, algorithm, ioError)
    case Clear(removeFails) => Cleared(s, removeFails)
    case Invalidate => s.(digests := map[])
  }

  /** The index and the digests are those of the file at the path, and a cache is a file of its own. */
  ghost predicate Coherent(lib: Library, s: State) {
    && (s.index.Some? ==> s.path != "" && IndexFromFile(lib, s, s.path) == s.index)
    && (forall a :: a in s.digests ==>
          s.path in s.disk && s.digests[a] == lib.digest(a, Limited(s.disk[s.path])))
    && (s.cached ==> s.path != "" && s.path in s.disk)
    && s.path !in s.pending && s.pending <= s.disk.Keys && "" !in s.pending
  }

  lemma SectionKeepsCoherence(lib: Library, s: State, e: Section)
    requires Coherent(lib, s) && Enabled(s, e)
    ensures Coherent(lib, Apply(lib, s, e))
  {
    match e
    case DiscardDownload(file) => assert file != s.path;
    case _ =>
  }

  /** A download that is discarded leaves nothing behind. */
  lemma DiscardUndoesDownload(lib: Library, s: State, file: string, content: Bytes)
    requires Coherent(lib, s) && Fresh(s, file)
    ensures var s' := Apply(lib, s, Download(file, content));
      Enabled(s', DiscardDownload(file)) && Apply(lib, s', DiscardDownload(file)) == s
  {
    assert file !in s.pending;
    assert s.disk[file := content] - {file} == s.disk;
  }

  /** A new repository with the given path; nothing is loaded yet. */
  function New(path: string, disk: map<string, Bytes>): State {
    State(path, None, false, map[], disk, {})
  }

  ghost predicate StepAt(lib: Library, states: seq<State>, sections: seq<Section>, i: nat)
    requires i < |sections| && |states| == |sections| + 1
  {
    Enabled(states[i], sections[i]) && states[i+1] == Apply(lib, states[i], sections[i])
  }

  /** Any interleaving of the sections of any number of callers. */
  ghost predicate Run(lib: Library, states: seq<State>, sections: seq<Section>) {
    && |states| == |sections| + 1
    && states[0] == New(states[0].path, states[0].disk)
    && forall i :: 0 <= i < |sections| ==> StepAt(lib, states, sections, i)
  }

  lemma {:induction false} EveryRunIsCoherent(lib: Library, states: seq<State>, sections: seq<Section>, i: nat)
    requires Run(lib, states, sections) && i < |states|
    ensures Coherent(lib, states[i])
  {
    if i > 0 {
      EveryRunIsCoherent(lib, states, sections, i - 1);
      assert StepAt(lib, states, sections, i - 1);
      SectionKeepsCoherence(lib, states[i-1], sections[i-1]);
    }
  }

  /** The path does not change from `i` to `j`. */
  ghost predicate SamePath(states: seq<State>, i: nat, j: nat) {
    i <= j < |states| && forall k :: i <= k <= j ==> states[k].path == states[i].path
  }

  lemma StepKeepsFile(lib: Library, s: State, e: Section)
    requires Coherent(lib, s) && Enabled(s, e) && s.path in s.disk
    requires Apply(lib, s, e).path == s.path
    ensures s.path in Apply(lib, s, e).disk && Apply(lib, s, e).disk[s.path] == s.disk[s.path]
  {
  }

  lemma {:induction false} FileStays(lib: Library, states: seq<State>, sections: seq<Section>, i: nat, j: nat)
    requires Run(lib, states, sections) && SamePath(states, i, j)
    requires states[i].path in states[i].disk
    ensures states[i].path in states[j].disk && states[j].disk[states[i].path] == states[i].disk[states[i].path]
    decreases j
  {
    if i < j {
      FileStays(lib, states, sections, i, j - 1);
      EveryRunIsCoherent(lib, states, sections, j - 1);
      assert StepAt(lib, states, sections, j - 1);
      assert states[j-1].path == states[i].path == states[j].path;
      StepKeepsFile(lib, states[j-1], sections[j-1]);
    }
  }

  /**
   As long as the path stays the same, callers that see an index see the same one, and so do callers that
   see a digest, however often either is dropped and computed again in between.
   */
  lemma AnswersAreStable(lib: Library, states: seq<State>, sections: seq<Section>, i: nat, j: nat)
    requires Run(lib, states, sections) && SamePath(states, i, j)
    ensures states[i].index.Some? && states[j].index.Some? ==> states[i].index == states[j].index
    ensures forall a :: a in states[i].digests && a in states[j].digests ==> states[i].digests[a] == states[j].digests[a]
  {
    EveryRunIsCoherent(lib, states, sections, i);
    EveryRunIsCoherent(lib, states, sections, j);
    assert states[j].path == states[i].path;
    if states[i].path in states[i].disk {
      FileStays(lib, states, sections, i, j);
    }
  }

  /** Nobody publishes another cache or clears the repository from `i` to `j`. */
  ghost predicate LeftInPlace(sections: seq<Section>, i: nat, j: nat)
    requires j <= |sections|
  {
    forall k :: i <= k < j ==> !sections[k].Publish? && !sections[k].Clear?
  }

  /**
   An index that was loaded is still there, and the same, as long as nobody publishes another cache or clears
   the repository; a concurrent caller doing either is what can take it away from under StrategicallyLoadIndex.
   */
  lemma {:induction false} IndexStays(lib: Library, states: seq<State>, sections: seq<Section>, i: nat, j: nat)
    requires Run(lib, states, sections) && i <= j < |states| && states[i].index.Some?
    requires LeftInPlace(sections, i, j)
    ensures states[j].index == states[i].index
    decreases j
  {
    if i < j {
      IndexStays(lib, states, sections, i, j - 1);
      EveryRunIsCoherent(lib, states, sections, j - 1);
      assert StepAt(lib, states, sections, j - 1);
      assert !sections[j-1].Publish? && !sections[j-1].Clear?;
    }
  }

  /** The section before state `m` was a load, and it succeeded: the file at the path is an index. */
  ghost predicate LoadedAt(lib: Library, states: seq<State>, sections: seq<Section>, m: nat)
    requires |states| == |sections| + 1 && m < |states|
  {
    m > 0 && sections[m-1].LoadFromPath? && states[m-1].path != ""
    && IndexFromFile(lib, states[m-1], states[m-1].path).Some?
  }

  /**
   An index is there exactly if it was loaded at some point after which nobody has published another cache or
   cleared the repository.
   */
  lemma {:induction false} IndexPresentIff(lib: Library, states: seq<State>, sections: seq<Section>, j: nat)
    requires Run(lib, states, sections) && j < |states|
    ensures states[j].index.Some? <==>
            exists m :: 0 <= m <= j && LoadedAt(lib, states, sections, m) && LeftInPlace(sections, m, j)
    decreases j
  {
    if states[j].index.Some? {
      var m := LoadedBefore(lib, states, sections, j);
    }
    if m :| 0 <= m <= j && LoadedAt(lib, states, sections, m) && LeftInPlace(sections, m, j) {
      assert StepAt(lib, states, sections, m - 1);
      IndexStays(lib, states, sections, m, j);
    }
  }

  lemma {:induction false} LoadedBefore(lib: Library, states: seq<State>, sections: seq<Section>, j: nat) returns (m: nat)
    requires Run(lib, states, sections) && j < |states| && states[j].index.Some?
    ensures m <= j && LoadedAt(lib, states, sections, m) && LeftInPlace(sections, m, j)
    decreases j
  {
    assert StepAt(lib, states, sections, j - 1);
    if LoadedAt(lib, states, sections, j) {
      return j;
    }
    m := LoadedBefore(lib, states, sections, j - 1);
    assert !sections[j-1].Publish? && !sections[j-1].Clear?;
  }

  /**
   What a caller of StrategicallyLoadIndex can rely on: from a state with an index, there is one later exactly if
   nobody has published or cleared since then, or somebody has loaded it again and nobody has since.
   */
  lemma IndexStaysIff(lib: Library, states: seq<State>, sections: seq<Section>, i: nat, j: nat)
    requires Run(lib, states, sections) && i <= j < |states| && states[i].index.Some?
    ensures states[j].index.Some? <==>
            exists m :: i <= m <= j && (m == i || LoadedAt(lib, states, sections, m)) && LeftInPlace(sections, m, j)
  {
    if states[j].index.Some? {
      var m := LoadedBefore(lib, states, sections, j);
      if m < i {
        assert LeftInPlace(sections, i, j);
      }
    }
    if m :| i <= m <= j && (m == i || LoadedAt(lib, states, sections, m)) && LeftInPlace(sections, m, j) {
      if m > i {
        assert StepAt(lib, states, sections, m - 1);
      }
      IndexStays(lib, states, sections, m, j);
    }
  }

  /** Two callers: the second one clears the repository before the first one has returned. */
  lemma IndexCanBeTakenAway(lib: Library, file: string, content: Bytes)
    requires file != "" && |content| <= MAX_INDEX_SIZE && lib.parse(content).Some?
    ensures exists states: seq<State>, sections: seq<Section> ::
      && Run(lib, states, sections) && sections == [Download(file, content), Publish(file), LoadFromPath, Clear(false)]
      && states[3].index.Some? && states[4].index.None?
  {
    var sections := [Download(file, content), Publish(file), LoadFromPath, Clear(false)];
    var s0 := New("", map[]);
    var s1 := Apply(lib, s0, sections[0]);
    var s2 := Apply(lib, s1, sections[1]);
    var s3 := Apply(lib, s2, sections[2]);
    var states := [s0, s1, s2, s3, Apply(lib, s3, sections[3])];
    forall i | 0 <= i < |sections| ensures StepAt(lib, states, sections, i) {
      assert i == 0 || i == 1 || i == 2 || i == 3;
    }
    assert Run(lib, states, sections);
  }

  /** The files that were there at the start are none of ours. */
  ghost predicate Foreign(files: map<string, Bytes>, s: State) {
    && (forall f :: f in files ==> f in s.disk && s.disk[f] == files[f])
    && files.Keys !! s.pending
    && (s.cached ==> s.path !in files)
  }

  lemma StepKeepsForeign(lib: Library, files: map<string, Bytes>, s: State, e: Section)
    requires Foreign(files, s) && Enabled(s, e)
    ensures Foreign(files, Apply(lib, s, e))
  {
  }

  /** No file that was there at the start is ever changed or removed, not even one the path names. */
  lemma {:induction false} ForeignFilesAreKept(lib: Library, states: seq<State>, sections: seq<Section>, i: nat)
    requires Run(lib, states, sections) && i < |states|
    ensures Foreign(states[0].disk, states[i])
  {
    if i > 0 {
      ForeignFilesAreKept(lib, states, sections, i - 1);
      assert StepAt(lib, states, sections, i - 1);
      StepKeepsForeign(lib, states[0].disk, states[i-1], sections[i-1]);
    }
  }

  /** How many of the first `i` sections published a new cache while one was in place. */
  function Replaced(states: seq<State>, sections: seq<Section>, i: nat): nat
    requires i <= |sections| && |states| == |sections| + 1
  {
    if i == 0 then 0
    else Replaced(states, sections, i - 1) + Bit(sections[i-1].Publish? && states[i-1].cached)
  }

  lemma OneMore<K, V>(m: map<K, V>, k: K, v: V)
    requires k !in m
    ensures |m[k := v]| == |m| + 1
  {
    assert m[k := v].Keys == m.Keys + {k};
  }

  lemma OneLess<K, V>(m: map<K, V>, k: K)
    requires k in m
    ensures |m - {k}| == |m| - 1
  {
    assert (m - {k}).Keys == m.Keys - {k};
  }

  /** The files that are neither pending nor the cache in place. */
  function Others(s: State): int {
    |s.disk| - |s.pending| - Bit(s.cached)
  }

  lemma PendingCounts(pending: set<string>, file: string)
    ensures file !in pending ==> |pending + {file}| == |pending| + 1
    ensures file in pending ==> |pending - {file}| == |pending| - 1
  {
  }

  lemma TransferCountsFiles(lib: Library, s: State, e: Section)
    requires e.Download? || e.DiscardDownload? || e.Publish?
    requires Enabled(s, e) && s.pending <= s.disk.Keys
    ensures Others(Apply(lib, s, e)) == Others(s) + Bit(e.Publish? && s.cached)
  {
    PendingCounts(s.pending, e.file);
    match e
    case Download(file, content) => OneMore(s.disk, file, content);
    case DiscardDownload(file) => OneLess(s.disk, file);
    case Publish(file) =>
  }

  lemma StepCountsFiles(lib: Library, s: State, e: Section)
    requires Coherent(lib, s) && Enabled(s, e)
    ensures Others(Apply(lib, s, e)) == Others(s) + Bit(e.Publish? && s.cached)
  {
    match e
    case Clear(removeFails) =>
      if s.cached && !removeFails {
        OneLess(s.disk, s.path);
      }
    case LoadFromPath =>
    case Digest(_, _) =>
    case Invalidate =>
    case _ => TransferCountsFiles(lib, s, e);
  }

  /**
   Every downloaded file is pending, or is the cache in place, or was replaced by a later cache. The
   replaced ones are the only ones left behind: Clear removes just the file the path names.
   */
  lemma {:induction false} DownloadsAreAccountedFor(lib: Library, states: seq<State>, sections: seq<Section>, i: nat)
    requires Run(lib, states, sections) && i < |states|
    ensures |states[i].disk|
         == |states[0].disk| + |states[i].pending| + Bit(states[i].cached) + Replaced(states, sections, i)
  {
    if i > 0 {
      DownloadsAreAccountedFor(lib, states, sections, i - 1);
      EveryRunIsCoherent(lib, states, sections, i - 1);
      assert StepAt(lib, states, sections, i - 1);
      StepCountsFiles(lib, states[i-1], sections[i-1]);
    }
  }

  /** What the file system and the client do during a CacheIndex. */
  datatype Transfer =
    | CreateFails
    | DownloadFails(file: string, part: Bytes)
    | CloseFails(file: string, content: Bytes)
    | Transferred(file: string, content: Bytes)

  predicate Possible(s: State, t: Transfer) {
    t.CreateFails? || Fresh(s, t.file)
  }

  /** The repository, its methods run by one caller. */
  class Repository {
    const lib: Library
    var path: string
    var index: Option<Index>
    var cached: bool
    var digests: map<string, string>
    var disk: map<string, Bytes>
    ghost var pending: set<string>

    ghost function Current(): State
      reads this
    {
      State(path, index, cached, digests, disk, pending)
    }

    constructor (lib: Library, path: string, disk: map<string, Bytes>)
      ensures this.lib == lib && Current() == New(path, disk) && Coherent(lib, Current())
    {
      this.lib, this.path, this.disk := lib, path, disk;
      index, cached, digests, pending := None, false, map[], {};
    }

    method CacheIndex(t: Transfer) returns (ok: bool)
      requires Coherent(lib, Current()) && Possible(Current(), t)
      modifies this
      ensures Coherent(lib, Current())
      ensures ok <==> t.Transferred?
      ensures !ok ==> Current() == old(Current())
      ensures ok ==>
        Current() == Apply(lib, Apply(lib, old(Current()), Section.Download(t.file, t.content)), Section.Publish(t.file))
    {
      ghost var s := Current();
      if t.CreateFails? {
        return false;
      }
      disk, pending := disk[t.file := if t.DownloadFails? then t.part else t.content], pending + {t.file};
      if t.DownloadFails? || t.CloseFails? {
        disk, pending := disk - {t.file}, pending - {t.file};
        assert disk == s.disk && pending == s.pending;
        return false;
      }
      SectionKeepsCoherence(lib, s, Section.Download(t.file, t.content));
      SectionKeepsCoherence(lib, Current(), Section.Publish(t.file));
      path := t.file;
      index := None;
      cached := true;
      digests, pending := map[], pending - {t.file};
      return true;
    }

    method LoadFromPath() returns (ok: bool)
      requires Coherent(lib, Current())
      modifies this
      ensures Coherent(lib, Current())
      ensures Current() == Apply(lib, old(Current()), Section.LoadFromPath)
      ensures ok <==> path != "" && IndexFromFile(lib, Current(), path).Some?
      ensures ok ==> index == IndexFromFile(lib, Current(), path)
    {
      SectionKeepsCoherence(lib, Current(), Section.LoadFromPath);
      if path == "" {
        return false;
      }
      if path !in disk || |disk[path]| > MAX_INDEX_SIZE {
        return false;
      }
      var i := lib.parse(disk[path]);
      if i.None? {
        return false;
      }
      index := i;
      return true;
    }

    predicate HasFile()
      reads this
    {
      path != "" && path in disk
    }

    /**
     After a success the index is there; it fails exactly when no index was there and the file at the path,
     or without one the freshly downloaded file, is not an index.
     */
    method StrategicallyLoadIndex(t: Transfer) returns (ok: bool)
      requires Coherent(lib, Current()) && Possible(Current(), t)
      modifies this
      ensures Coherent(lib, Current())
      ensures ok <==> index.Some?
      ensures ok <==>
        || old(index).Some?
        || (old(HasFile()) && IndexFromFile(lib, old(Current()), old(path)).Some?)
        || (!old(HasFile()) && t.Transferred? && |t.content| <= MAX_INDEX_SIZE && lib.parse(t.content).Some?)
      ensures old(index).Some? ==> Current() == old(Current())
      ensures old(index).Some? || old(HasFile()) ==> path == old(path) && cached == old(cached) && disk == old(disk)
    {
      if index.Some? {
        return true;
      }
      if !HasFile() {
        var stored := CacheIndex(t);
        if !stored {
          return false;
        }
      }
      ok := LoadFromPath();
    }

    /** The answer is empty or the digest of the limited file at the path. */
    method Digest(algorithm: string, ioError: bool) returns (d: string)
      requires Coherent(lib, Current())
      modifies this`digests
      ensures Coherent(lib, Current())
      ensures Current() ==
        if HasFile() then Apply(lib, old(Current()), Section.Digest(algorithm, ioError)) else old(Current())
      ensures !HasFile() ==> d == ""
      ensures HasFile() && (d != "" || !ioError) ==>
        d == lib.digest(algorithm, if |disk[path]| <= 52428800 then disk[path] else disk[path][..52428800])
    {
      if !HasFile() {
        return "";
      }
      SectionKeepsCoherence(lib, Current(), Section.Digest(algorithm, ioError));
      if algorithm !in digests {
        if !ioError {
          digests := digests[algorithm := lib.digest(algorithm, Limited(disk[path]))];
        }
      }
      return if algorithm in digests then digests[algorithm] else "";
    }

    method Clear(removeFails: bool) returns (ok: bool)
      requires Coherent(lib, Current())
      modifies this
      ensures Coherent(lib, Current())
      ensures Current() == Apply(lib, old(Current()), Section.Clear(removeFails))
      ensures ok <==> !(old(cached) && removeFails)
      ensures index == None && (ok ==> digests == map[] && !cached)
      ensures ok && old(cached) ==> !HasFile() && old(path) !in disk
    {
      SectionKeepsCoherence(lib, Current(), Section.Clear(removeFails));
      index := None;
      if cached {
        if removeFails {
          return false;
        }
        disk := disk - {path};
        path := "";
        cached := false;
      }
      digests := map[];
      return true;
    }

    method Invalidate()
      requires Coherent(lib, Current())
      modifies this`digests
      ensures Coherent(lib, Current())
      ensures Current() == Apply(lib, old(Current()), Section.Invalidate)
    {
      digests := map[];
    }
  }
}
