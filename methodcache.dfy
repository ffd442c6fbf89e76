/**
 * `MethodTableCache` (etsy/_core.py:140-189): keeps the server's method table
 * in a JSON file and reuses it for a day.
 */
module MethodCache {
  import opened Results
  import opened Descriptors
  import PyStr

  /** `max_age`: one day, in seconds. */
  const MaxAge := 60 * 60 * 24

  /** `EtsyAPI.api_version`. */
  const ApiVersion := "v2"

  /** A cache file: the table it holds and its modification time in whole seconds. */
  datatype CacheFile = CacheFile(table: MethodTable, mtime: int)

  /** The files the cache reads and writes, by path. */
  class Disk {
    var files: map<string, CacheFile>

    constructor (files: map<string, CacheFile>)
      ensures this.files == files
    {
      this.files := files;
    }
  }

  /**
   * What the default file name depends on: the expanded `~/.etsy`, whether it
   * is a directory, and `tempfile.gettempdir()`.
   */
  datatype Host = Host(etsyHome: string, etsyHomeIsDir: bool, tempDir: string)

  /** `os.path.join(a, b)` on POSIX. */
  function PathJoin(a: string, b: string): (r: string)
    ensures PyStr.StartsWith(b, "/") ==> r == b
    ensures !PyStr.StartsWith(b, "/") ==> PyStr.StartsWith(r, a) && PyStr.EndsWith(r, b) && |r| >= |a| + |b|
  {
    if PyStr.StartsWith(b, "/") then b
    else if a == [] || PyStr.EndsWith(a, "/") then a + b
    else a + "/" + b
  }

  /** `default_file`: `methods.v2.json` in `~/.etsy` if that is a directory, else in the temp directory. */
  function DefaultFile(host: Host): (f: string)
    ensures PyStr.StartsWith(f, if host.etsyHomeIsDir then host.etsyHome else host.tempDir)
    ensures PyStr.EndsWith(f, "methods." + ApiVersion + ".json")
  {
    assert ("methods." + ApiVersion + ".json")[0] == 'm';
    PathJoin(if host.etsyHomeIsDir then host.etsyHome else host.tempDir, "methods." + ApiVersion + ".json")
  }

  /** `resolve_file`: a given name is used as it is; none selects the default file. */
  function ResolveFile(methodCache: Option<string>, host: Host): (f: string)
    ensures methodCache.Some? ==> f == methodCache.value
    ensures methodCache.None? ==> f == DefaultFile(host)
  {
    if methodCache.None? then DefaultFile(host) else methodCache.value
  }

  /** A file written at `mtime` is still fresh at `now`: at most `MaxAge` seconds old. */
  predicate Fresh(mtime: int, now: int) {
    now - mtime <= MaxAge
  }

  /** What `get_cached` returns: the table of an existing, fresh file; nothing otherwise. */
  function CachedTable(filename: Option<string>, files: map<string, CacheFile>, now: int): (r: Option<MethodTable>)
    ensures r.Some? <==> filename.Some? && filename.value in files && Fresh(files[filename.value].mtime, now)
    ensures r.Some? ==> r.value == files[filename.value].table
  {
    if filename.None? || filename.value !in files then None
    else if now - files[filename.value].mtime > MaxAge then None
    else Some(files[filename.value].table)
  }

  /** `get` falls back to the server when the cache gives nothing or an empty table (`not ms`). */
  predicate Refetches(filename: Option<string>, files: map<string, CacheFile>, now: int) {
    var cached := CachedTable(filename, files, now);
    cached.None? || cached.value == []
  }

  /** The table `get` returns, given the table the server would send. */
  function GetTable(filename: Option<string>, files: map<string, CacheFile>, server: MethodTable, now: int): (ms: MethodTable)
    ensures Refetches(filename, files, now) ==> ms == server
    ensures !Refetches(filename, files, now) ==> ms == files[filename.value].table && ms != []
  {
    if Refetches(filename, files, now) then server else CachedTable(filename, files, now).value
  }

  /** The files after `get`: a refetched table is written back, stamped `now`, unless there is no file name. */
  function FilesAfterGet(filename: Option<string>, files: map<string, CacheFile>, server: MethodTable, now: int): map<string, CacheFile> {
    if Refetches(filename, files, now) && filename.Some? then files[filename.value := CacheFile(server, now)] else files
  }

  class MethodTableCache {
    /** The cache file; `None` would disable caching, which the constructor never selects. */
    var filename: Option<string>
    var usedCache: bool
    var wroteCache: bool

    constructor (methodCache: Option<string>, host: Host)
      ensures filename == Some(ResolveFile(methodCache, host))
      ensures !usedCache && !wroteCache
    {
      filename := Some(ResolveFile(methodCache, host));
      usedCache := false;
      wroteCache := false;
    }

    /** `get_cached`: reading the file is what sets `used_cache`. */
    method GetCached(disk: Disk, now: int) returns (ms: Option<MethodTable>)
      modifies this`usedCache
      ensures ms == CachedTable(filename, disk.files, now)
      ensures usedCache == (old(usedCache) || ms.Some?)
    {
      if filename.None? || filename.value !in disk.files {
        return None;
      }
      if now - disk.files[filename.value].mtime > MaxAge {
        return None;
      }
      usedCache := true;
      ms := Some(disk.files[filename.value].table);
    }

    /** `cache`: writes the table unless there is no file name; writing is what sets `wrote_cache`. */
    method Cache(methods: MethodTable, disk: Disk, now: int)
      modifies this`wroteCache, disk
      ensures filename.None? ==> disk.files == old(disk.files) && wroteCache == old(wroteCache)
      ensures filename.Some? ==> disk.files == old(disk.files)[filename.value := CacheFile(methods, now)] && wroteCache
    {
      if filename.None? {
        return;
      }
      disk.files := disk.files[filename.value := CacheFile(methods, now)];
      wroteCache := true;
    }

    /** `get`: the cached table if there is a usable one, else the server's, written back. */
    method Get(disk: Disk, server: MethodTable, now: int) returns (ms: MethodTable)
      modifies this`usedCache, this`wroteCache, disk
      ensures ms == GetTable(filename, old(disk.files), server, now)
      ensures disk.files == FilesAfterGet(filename, old(disk.files), server, now)
      ensures usedCache == (old(usedCache) || CachedTable(filename, old(disk.files), now).Some?)
      ensures wroteCache == (old(wroteCache) || (Refetches(filename, old(disk.files), now) && filename.Some?))
    {
      var cached := GetCached(disk, now);
      if cached.None? || cached.value == [] {
        ms := server;
        Cache(ms, disk, now);
      } else {
        ms := cached.value;
      }
    }
  }

  /** A file is fresh for exactly `MaxAge` seconds after it is written, the last second included. */
  lemma FreshWindow(filename: string, files: map<string, CacheFile>, table: MethodTable, written: int, now: int)
    ensures var files' := files[filename := CacheFile(table, written)];
      CachedTable(Some(filename), files', now) == if now - written <= 86400 then Some(table) else None
  {
  }

  /**
   * After a `get` that fetched a non-empty table and wrote it back, a `get`
   * within the next day returns that table without asking the server, and
   * writes nothing.
   */
  lemma SecondGetUsesCache(filename: string, files: map<string, CacheFile>, server: MethodTable, server': MethodTable, now: int, later: int)
    requires Refetches(Some(filename), files, now) && server != []
    requires now <= later <= now + MaxAge
    ensures var files' := FilesAfterGet(Some(filename), files, server, now);
      GetTable(Some(filename), files', server', later) == server &&
      FilesAfterGet(Some(filename), files', server', later) == files'
  {
  }

  /** An expired or missing cache file makes `get` return and store the server's table. */
  lemma StaleCacheRefetches(filename: string, files: map<string, CacheFile>, server: MethodTable, now: int)
    requires filename !in files || now - files[filename].mtime > MaxAge
    ensures GetTable(Some(filename), files, server, now) == server
    ensures FilesAfterGet(Some(filename), files, server, now) == files[filename := CacheFile(server, now)]
  {
  }

  /** An empty cached table counts as no table: `get` asks the server again. */
  lemma EmptyCachedTableRefetches(filename: string, files: map<string, CacheFile>, server: MethodTable, now: int)
    requires filename in files && files[filename].table == [] && Fresh(files[filename].mtime, now)
    ensures GetTable(Some(filename), files, server, now) == server
  {
  }

  /** Without a file name nothing is read or written and the server's table is used. */
  lemma NoFileNoCaching(files: map<string, CacheFile>, server: MethodTable, now: int)
    ensures CachedTable(None, files, now).None?
    ensures GetTable(None, files, server, now) == server
    ensures FilesAfterGet(None, files, server, now) == files
  {
  }
}
