/**
 * The template cache's index: one entry per AI tool, updated in place by Get,
 * Put, Remove, Clear and Prune. The clock (`now`, in seconds, like the TTL),
 * whether a cached file is missing, the SHA-256 of file contents, and the
 * errors of writing, removing and reading files are given as parameters.
 */
module TemplateCache {
  import opened Wrappers

  datatype CacheEntry = CacheEntry(
    aiTool: string, version: string, checksum: string, cachedAt: int,
    filePath: string, originalUrl: string, size: nat)

  const IndexVersion := "1.0"

  /** The default time-to-live of a cached template, 24 hours, with the clock in seconds. */
  const DefaultCacheTtl := 24 * 60 * 60

  /** An entry is expired when it is strictly older than the TTL. */
  predicate Expired(entry: CacheEntry, ttl: int, now: int) {
    now - entry.cachedAt > ttl
  }

  /** The cache file name of a template: tool, version and the first 8 digits of the checksum. */
  function CacheFileName(aiTool: string, version: string, checksum: string): string
    requires |checksum| >= 8
  {
    aiTool + "-" + version + "-" + checksum[..8] + ".zip"
  }

  /** The total size of the entries. */
  ghost function TotalSize(entries: map<string, CacheEntry>): int
    decreases |entries|
  {
    if entries == map[] then 0
    else
      var k :| k in entries.Keys;
      entries[k].size + TotalSize(entries - {k})
  }

  /** The total does not depend on the order the entries are summed in. */
  lemma {:induction false} TotalSizeRemove(entries: map<string, CacheEntry>, k: string)
    requires k in entries
    ensures TotalSize(entries) == entries[k].size + TotalSize(entries - {k})
    decreases |entries|
  {
    var j :| j in entries.Keys && TotalSize(entries) == entries[j].size + TotalSize(entries - {j});
    if j != k {
      TotalSizeRemove(entries - {j}, k);
      TotalSizeRemove(entries - {k}, j);
      assert entries - {j} - {k} == entries - {k} - {j};
    }
  }

  /** An entry whose file cannot be read, or whose contents do not match its checksum, is corrupted. */
  predicate Corrupted(entry: CacheEntry, fileChecksum: string -> Result<string>) {
    fileChecksum(entry.filePath).Err? || fileChecksum(entry.filePath).value != entry.checksum
  }

  class Cache {
    const cacheDir: string
    var version: string
    var entries: map<string, CacheEntry>
    var updatedAt: int

    /** NewCache: the loaded index, or a fresh one when there is none. */
    constructor (cacheDir: string, loaded: Option<(string, map<string, CacheEntry>, int)>)
      ensures this.cacheDir == cacheDir
      ensures loaded.Some? ==> (version, entries, updatedAt) == loaded.value
      ensures loaded.None? ==> version == IndexVersion && entries == map[] && updatedAt == 0
    {
      this.cacheDir := cacheDir;
      if loaded.Some? {
        version, entries, updatedAt := loaded.value.0, loaded.value.1, loaded.value.2;
      } else {
        version, entries, updatedAt := IndexVersion, map[], 0;
      }
    }

    /** saveIndex: stamp the index; `saveError` is what writing it reports. */
    method SaveIndex(now: int, saveError: Option<string>) returns (err: Option<string>)
      modifies this
      ensures updatedAt == now && version == old(version) && entries == old(entries)
      ensures err == if saveError.Some? then Some("failed to write cache index: " + saveError.value) else None
    {
      updatedAt := now;
      if saveError.Some? {
        return Some("failed to write cache index: " + saveError.value);
      }
      return None;
    }

    /**
     * Get: the entry of a tool if it is cached, not expired and its file still
     * exists; a missing file drops the entry.
     */
    method Get(aiTool: string, ttl: int, now: int, missing: string -> bool, saveError: Option<string>)
      returns (r: Result<CacheEntry>)
      modifies this
      ensures version == old(version)
      ensures aiTool !in old(entries) ==>
                r == Err("template not in cache: " + aiTool) && entries == old(entries) && updatedAt == old(updatedAt)
      ensures aiTool in old(entries) ==>
                var entry := old(entries)[aiTool];
                if Expired(entry, ttl, now) then
                  r == Err("cache entry expired") && entries == old(entries) && updatedAt == old(updatedAt)
                else if missing(entry.filePath) then
                  r == Err("cached file not found") && entries == old(entries) - {aiTool} && updatedAt == now
                else r == Ok(entry) && entries == old(entries) && updatedAt == old(updatedAt)
    {
      if aiTool !in entries {
        return Err("template not in cache: " + aiTool);
      }
      var entry := entries[aiTool];
      if now - entry.cachedAt > ttl {
        return Err("cache entry expired");
      }
      if missing(entry.filePath) {
        entries := entries - {aiTool};
        var _ := SaveIndex(now, saveError);
        return Err("cached file not found");
      }
      return Ok(entry);
    }

    /**
     * Put: write the data to its cache file and record the entry of the tool;
     * `checksum` is the hex SHA-256 of the data. A failed index save still
     * leaves the new entry in memory.
     */
    method Put(aiTool: string, version_: string, originalUrl: string, data: seq<bv8>, checksum: string,
               now: int, writeError: Option<string>, saveError: Option<string>)
      returns (err: Option<string>)
      requires |checksum| == 64
      modifies this
      ensures version == old(version)
      ensures writeError.Some? ==>
                err == Some("failed to write cache file: " + writeError.value)
                && entries == old(entries) && updatedAt == old(updatedAt)
      ensures writeError.None? ==>
                && entries == old(entries)[aiTool := CacheEntry(aiTool, version_, checksum, now,
                                                                cacheDir + "/" + CacheFileName(aiTool, version_, checksum),
                                                                originalUrl, |data|)]
                && updatedAt == now
                && err == if saveError.Some? then Some("failed to write cache index: " + saveError.value) else None
    {
      var cachePath := cacheDir + "/" + CacheFileName(aiTool, version_, checksum);
      if writeError.Some? {
        return Some("failed to write cache file: " + writeError.value);
      }
      entries := entries[aiTool := CacheEntry(aiTool, version_, checksum, now, cachePath, originalUrl, |data|)];
      err := SaveIndex(now, saveError);
    }

    /** GetCachedFile: the path of a cached tool's file once it opens; `openError` is what opening reports. */
    function GetCachedFile(aiTool: string, openError: string -> Option<string>): (r: Result<string>)
      reads this
      ensures r.Ok? <==> aiTool in entries && openError(entries[aiTool].filePath).None?
      ensures r.Ok? ==> r.value == entries[aiTool].filePath
      ensures aiTool !in entries ==> r == Err("template not in cache: " + aiTool)
    {
      if aiTool !in entries then Err("template not in cache: " + aiTool)
      else
        var path := entries[aiTool].filePath;
        if openError(path).Some? then Err("failed to open cached file: " + openError(path).value)
        else Ok(path)
    }

    /**
     * Remove: drop a tool's entry after removing its file; an absent tool is
     * no error. `removeError` is what removing a file reports (a file that is
     * already gone reports None).
     */
    method Remove(aiTool: string, now: int, removeError: string -> Option<string>, saveError: Option<string>)
      returns (err: Option<string>)
      modifies this
      ensures version == old(version)
      ensures aiTool !in old(entries) ==> err.None? && entries == old(entries) && updatedAt == old(updatedAt)
      ensures aiTool in old(entries) && removeError(old(entries)[aiTool].filePath).Some? ==>
                err == Some("failed to remove cache file: " + removeError(old(entries)[aiTool].filePath).value)
                && entries == old(entries) && updatedAt == old(updatedAt)
      ensures aiTool in old(entries) && removeError(old(entries)[aiTool].filePath).None? ==>
                && entries == old(entries) - {aiTool} && updatedAt == now
                && err == if saveError.Some? then Some("failed to write cache index: " + saveError.value) else None
    {
      if aiTool !in entries {
        return None;
      }
      var entry := entries[aiTool];
      var removeErr := removeError(entry.filePath);
      if removeErr.Some? {
        return Some("failed to remove cache file: " + removeErr.value);
      }
      entries := entries - {aiTool};
      err := SaveIndex(now, saveError);
    }

    /** Clear: remove every entry (going on past errors), then reset the index. */
    method Clear(now: int, removeError: string -> Option<string>, saveError: Option<string>)
      returns (err: Option<string>)
      modifies this
      ensures entries == map[] && version == IndexVersion && updatedAt == now
      ensures err == if saveError.Some? then Some("failed to write cache index: " + saveError.value) else None
    {
      ghost var before := entries;
      var tools := entries.Keys;
      // The per-file removals: an entry whose file was removed is gone, the others stay until the reset.
      while tools != {}
        invariant tools <= before.Keys
        invariant entries == map t | t in before && !(t !in tools && removeError(before[t].filePath).None?)
                               :: before[t]
        decreases tools
      {
        var aiTool :| aiTool in tools;
        assert aiTool in entries && entries[aiTool] == before[aiTool];
        var _ := Remove(aiTool, now, removeError, saveError);
        tools := tools - {aiTool};
      }
      version := IndexVersion;
      entries := map[];
      err := SaveIndex(now, saveError);
    }

    /**
     * List: every entry once, in no particular order. `keys` names the tool
     * each element was read from: every tool exactly once.
     */
    method List() returns (r: seq<CacheEntry>, ghost keys: seq<string>)
      ensures |r| == |entries|
      ensures forall t :: t in entries ==> entries[t] in r
      ensures forall e :: e in r ==> exists t :: t in entries && entries[t] == e
      ensures |keys| == |r| && forall i, j :: 0 <= i < j < |keys| ==> keys[i] != keys[j]
      ensures forall t :: t in entries <==> t in keys
      ensures forall i :: 0 <= i < |r| ==> keys[i] in entries && r[i] == entries[keys[i]]
    {
      r, keys := [], [];
      var tools := entries.Keys;
      while tools != {}
        invariant tools <= entries.Keys
        invariant |r| + |tools| == |entries.Keys|
        invariant |keys| == |r| && forall i, j :: 0 <= i < j < |keys| ==> keys[i] != keys[j]
        invariant forall t :: t in keys <==> t in entries.Keys - tools
        invariant forall i :: 0 <= i < |r| ==> keys[i] in entries && r[i] == entries[keys[i]]
        invariant forall t :: t in entries.Keys - tools ==> entries[t] in r
        invariant forall e :: e in r ==> exists t :: t in entries.Keys - tools && entries[t] == e
        decreases tools
      {
        var aiTool :| aiTool in tools;
        r := r + [entries[aiTool]];
        keys := keys + [aiTool];
        tools := tools - {aiTool};
      }
    }

    /** Size: the total size of the cached templates. */
    method Size() returns (total: int)
      ensures total == TotalSize(entries)
    {
      total := 0;
      var rest := entries;
      while rest != map[]
        invariant total + TotalSize(rest) == TotalSize(entries)
        decreases |rest|
      {
        var aiTool :| aiTool in rest;
        TotalSizeRemove(rest, aiTool);
        total := total + rest[aiTool].size;
        rest := rest - {aiTool};
      }
    }

    /**
     * Prune: remove the expired entries. An entry whose file cannot be removed
     * stays; every other entry is kept exactly when it is not expired. The
     * index is stamped with `now` when an entry goes, and keeps its stamp otherwise.
     */
    method Prune(ttl: int, now: int, removeError: string -> Option<string>, saveError: Option<string>)
      returns (err: Option<string>)
      modifies this
      ensures err.None? && version == old(version)
      ensures entries == map t | t in old(entries) &&
                                 !(Expired(old(entries)[t], ttl, now) && removeError(old(entries)[t].filePath).None?)
                               :: old(entries)[t]
      ensures updatedAt == if entries == old(entries) then old(updatedAt) else now
    {
      ghost var before := entries;
      var tools := entries.Keys;
      while tools != {}
        invariant tools <= before.Keys
        invariant version == old(version)
        invariant entries == map t | t in before && !(t !in tools && Expired(before[t], ttl, now)
                                                      && removeError(before[t].filePath).None?) :: before[t]
        invariant updatedAt == if entries == before then old(updatedAt) else now
        decreases tools
      {
        var aiTool :| aiTool in tools;
        assert aiTool in entries && entries[aiTool] == before[aiTool];
        var entry := entries[aiTool];
        if now - entry.cachedAt > ttl {
          var _ := Remove(aiTool, now, removeError, saveError);
        }
        tools := tools - {aiTool};
      }
      return None;
    }

    /** VerifyIntegrity: the tools whose files are corrupted, each once; true exactly when there is none. */
    method VerifyIntegrity(fileChecksum: string -> Result<string>) returns (ok: bool, corrupted: seq<string>)
      ensures ok <==> corrupted == []
      ensures forall t :: t in corrupted <==> t in entries && Corrupted(entries[t], fileChecksum)
      ensures forall i, j :: 0 <= i < j < |corrupted| ==> corrupted[i] != corrupted[j]
    {
      corrupted := [];
      var tools := entries.Keys;
      while tools != {}
        invariant tools <= entries.Keys
        invariant forall t :: t in corrupted <==> t in entries.Keys - tools && Corrupted(entries[t], fileChecksum)
        invariant forall i, j :: 0 <= i < j < |corrupted| ==> corrupted[i] != corrupted[j]
        decreases tools
      {
        var aiTool :| aiTool in tools;
        var entry := entries[aiTool];
        var data := fileChecksum(entry.filePath);
        if data.Err? {
          corrupted := corrupted + [aiTool];
        } else if data.value != entry.checksum {
          corrupted := corrupted + [aiTool];
        }
        tools := tools - {aiTool};
      }
      ok := |corrupted| == 0;
    }
  }

  /** With no removal error, Prune keeps exactly the entries that are not expired. */
  lemma PruneWithoutErrors(entries: map<string, CacheEntry>, ttl: int, now: int, removeError: string -> Option<string>)
    requires forall t :: t in entries ==> removeError(entries[t].filePath).None?
    ensures (map t | t in entries && !(Expired(entries[t], ttl, now) && removeError(entries[t].filePath).None?)
                   :: entries[t])
         == (map t | t in entries && !Expired(entries[t], ttl, now) :: entries[t])
  {
  }

  /** The size of a single entry is its own size, and adding an entry for a new tool adds its size. */
  lemma TotalSizeAdd(entries: map<string, CacheEntry>, aiTool: string, entry: CacheEntry)
    requires aiTool !in entries
    ensures TotalSize(entries[aiTool := entry]) == TotalSize(entries) + entry.size
  {
    TotalSizeRemove(entries[aiTool := entry], aiTool);
    assert entries[aiTool := entry] - {aiTool} == entries;
  }
}
