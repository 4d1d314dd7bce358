/** Batch uploads: size caps enforced while streaming, and a batch that lands on disk
    and in the database as a whole or not at all. */
module Uploads {
  import opened Wrappers

  type Byte = bv8
  type Path = nat
  type Checksum = nat

  const SNIFF_SIZE: nat := 1024

  datatype TypeVerdict = Accepted(extension: string) | Unsupported | Corrupted

  /** A plan's ceilings, in bytes. */
  datatype Limits = Limits(maxFiles: nat, maxFileBytes: nat, maxTotalBytes: nat)

  /** One multipart upload: `content` is everything its stream delivers; a `broken`
      stream then raises instead of ending. */
  datatype Upload = Upload(name: string, content: seq<Byte>, broken: bool)

  datatype Record = Record(name: string, path: Path, extension: string, size: nat, checksum: Checksum)

  datatype Error =
    | NoFiles | TooManyFiles
    | UnsupportedType | CorruptedFile
    | ReadFailed
    | PerFileLimit | CombinedLimit
    | FlushFailed | CommitFailed

  /** Type validation and SHA-256, both left uninterpreted, and the database's own failures. */
  datatype Env = Env(
    validate: (string, seq<Byte>) -> TypeVerdict,
    sha: seq<Byte> -> Checksum,
    flushFails: nat -> bool,
    commitFails: bool)

  function Min(x: nat, y: nat): nat {
    if y < x then y else x
  }

  function Head(u: Upload): seq<Byte> {
    u.content[..Min(SNIFF_SIZE, |u.content|)]
  }

  /** A write: the file's size and the bytes on the whole disk right after it. */
  datatype Write = Write(path: Path, size: nat, disk: nat)

  /** The bytes all files hold. */
  ghost function Bytes(files: map<Path, seq<Byte>>): nat
    decreases |files|
  {
    if files == map[] then 0
    else
      var p :| p in files;
      |files[p]| + Bytes(files - {p})
  }

  lemma {:induction false} BytesWithout(files: map<Path, seq<Byte>>, p: Path)
    requires p in files
    ensures Bytes(files) == |files[p]| + Bytes(files - {p})
    decreases |files|
  {
    var q: Path :| q in files && Bytes(files) == |files[q]| + Bytes(files - {q});
    if q != p {
      BytesWithout(files - {q}, p);
      BytesWithout(files - {p}, q);
      assert files - {q} - {p} == files - {p} - {q};
    }
  }

  lemma BytesAdd(files: map<Path, seq<Byte>>, p: Path, content: seq<Byte>)
    requires p !in files
    ensures Bytes(files[p := content]) == Bytes(files) + |content|
  {
    BytesWithout(files[p := content], p);
    assert files[p := content] - {p} == files;
  }

  /** The files on disk. `log` remembers every write. */
  class Storage {
    var files: map<Path, seq<Byte>>
    ghost var log: seq<Write>

    constructor ()
      ensures files == map[] && log == []
    {
      files, log := map[], [];
    }

    /** Reserve an unused location. */
    method Allocate() returns (path: Path)
      ensures path !in files
    {
      path := FreshPath(files.Keys);
    }

    /** Write what an upload delivers, in chunks of any size up to `chunkSize`, while the
        file stays within the cap; on failure no file is left. */
    method WriteStream(u: Upload, destination: Path, maxBytes: nat, firstChunk: seq<Byte>, chunkSize: nat,
                       sha: seq<Byte> -> Checksum)
      returns (r: Result<(nat, Checksum), Error>)
      requires destination !in files && chunkSize > 0 && firstChunk <= u.content
      modifies this
      ensures r == if |u.content| > maxBytes then Failure(PerFileLimit)
                   else if u.broken then Failure(ReadFailed)
                   else Success((|u.content|, sha(u.content)))
      ensures files == if r.Success? then old(files)[destination := u.content] else old(files)
      ensures Appended(old(log), log, destination, maxBytes, Bytes(old(files)))
    {
      hide Appended, Bytes;
      NoWrites(log, destination, maxBytes, Bytes(files));
      var written := 0;
      var hashed: seq<Byte> := [];  // bytes fed to the digest so far
      var rest := u.content[|firstChunk|..];
      files := files[destination := []];
      if firstChunk != [] {
        written := written + |firstChunk|;
        if written > maxBytes {
          files := files - {destination};
          return Failure(PerFileLimit);
        }
        OneWrite(old(log), log, destination, maxBytes, old(files), hashed + firstChunk);
        Append(destination, firstChunk, old(files), hashed);
        hashed := hashed + firstChunk;
      }
      while rest != []
        invariant destination in files && files == old(files)[destination := hashed]
        invariant hashed + rest == u.content && written == |hashed| <= maxBytes
        invariant Appended(old(log), log, destination, maxBytes, Bytes(old(files)))
        decreases |rest|
      {
        var n: nat :| 0 < n <= |rest| && n <= chunkSize;
        var chunk := rest[..n];
        rest := rest[n..];
        written := written + |chunk|;
        if written > maxBytes {
          files := files - {destination};
          return Failure(PerFileLimit);
        }
        assert hashed + chunk + rest == u.content;
        OneWrite(old(log), log, destination, maxBytes, old(files), hashed + chunk);
        Append(destination, chunk, old(files), hashed);
        hashed := hashed + chunk;
      }
      if u.broken {
        files := files - {destination};
        return Failure(ReadFailed);
      }
      assert hashed == u.content;
      return Success((written, sha(hashed)));
    }

    /** Append to a file that so far holds `before`, next to the `others`. */
    method Append(path: Path, chunk: seq<Byte>, ghost others: map<Path, seq<Byte>>, ghost before: seq<Byte>)
      requires path !in others && files == others[path := before]
      modifies this
      ensures files == others[path := before + chunk]
      ensures log == old(log) + [Write(path, |before + chunk|, Bytes(others[path := before + chunk]))]
    {
      Overwrite(others, path, before, chunk);
      files := files[path := files[path] + chunk];
      log := log + [Write(path, |files[path]|, Bytes(files))];
    }

    method Delete(path: Path)
      modifies this
      ensures files == old(files) - {path} && log == old(log)
    {
      files := files - {path};
    }
  }

  /** Every write since `before` went to `path` and left it within `cap`, while the other
      files held `rest` bytes. */
  ghost predicate Appended(before: seq<Write>, after: seq<Write>, path: Path, cap: nat, rest: nat) {
    && before <= after
    && forall i :: |before| <= i < |after| ==>
      after[i].path == path && after[i].size <= cap && after[i].disk == rest + after[i].size
  }

  lemma NoWrites(log: seq<Write>, path: Path, cap: nat, rest: nat)
    ensures Appended(log, log, path, cap, rest)
  {
  }

  lemma OneWrite(before: seq<Write>, mid: seq<Write>, path: Path, cap: nat, rest: map<Path, seq<Byte>>,
                 content: seq<Byte>)
    requires Appended(before, mid, path, cap, Bytes(rest)) && path !in rest && |content| <= cap
    ensures Appended(before, mid + [Write(path, |content|, Bytes(rest[path := content]))], path, cap, Bytes(rest))
  {
    BytesAdd(rest, path, content);
    hide Bytes;
  }

  lemma Overwrite(files: map<Path, seq<Byte>>, path: Path, content: seq<Byte>, more: seq<Byte>)
    ensures files[path := content][path := files[path := content][path] + more] == files[path := content + more]
  {
  }

  method FreshPath(used: set<Path>) returns (p: Path)
    ensures p !in used
  {
    p := 0;
    ghost var left := used;
    while p in used
      invariant forall q :: q in used && q >= p ==> q in left
      invariant left <= used
      decreases |left|
    {
      left := left - {p};
      p := p + 1;
    }
  }

  // ---- What a batch amounts to ----

  function TotalSize(us: seq<Upload>): nat {
    if us == [] then 0 else TotalSize(us[..|us| - 1]) + |us[|us| - 1].content|
  }

  /** Why the file at `index`, allowed `maxBytes`, fails, if it does. */
  function StoreError(env: Env, u: Upload, index: nat, maxBytes: nat, totalIsBinding: bool): Option<Error> {
    if u.broken && |u.content| < SNIFF_SIZE then Some(ReadFailed)
    else match env.validate(u.name, Head(u))
      case Unsupported => Some(UnsupportedType)
      case Corrupted => Some(CorruptedFile)
      case Accepted(_) =>
        if |u.content| > maxBytes then Some(if totalIsBinding then CombinedLimit else PerFileLimit)
        else if u.broken then Some(ReadFailed)
        else if env.flushFails(index) then Some(FlushFailed)
        else None
  }

  /** The same with `remaining` of the batch budget left. */
  function FileError(env: Env, limits: Limits, u: Upload, index: nat, remaining: nat): Option<Error> {
    StoreError(env, u, index, Min(limits.maxFileBytes, remaining), remaining < limits.maxFileBytes)
  }

  /** A file whose first 1024 bytes cannot be read fails unseen; then its type decides, judged
      by its name and these bytes; then its size against the tighter of the two caps, blamed
      on the batch when what is left of it is the tighter; then a broken stream; then the
      flush of its row. */
  lemma WhyAFileFails(env: Env, limits: Limits, u: Upload, index: nat, remaining: nat)
    ensures var size, error := |u.content|, FileError(env, limits, u, index, remaining);
      var head := if size < 1024 then u.content else u.content[..1024];
      var verdict := env.validate(u.name, head);
      && (u.broken && size < 1024 ==> error == Some(ReadFailed))
      && (!(u.broken && size < 1024) ==>
            && (error == Some(UnsupportedType) <==> verdict.Unsupported?)
            && (error == Some(CorruptedFile) <==> verdict.Corrupted?)
            && (verdict.Accepted? ==>
                  && (error == Some(CombinedLimit) <==> remaining < limits.maxFileBytes && size > remaining)
                  && (error == Some(PerFileLimit) <==> limits.maxFileBytes <= remaining && size > limits.maxFileBytes)
                  && (error == Some(ReadFailed) <==> size <= remaining && size <= limits.maxFileBytes && u.broken)
                  && (error == Some(FlushFailed) <==>
                        size <= remaining && size <= limits.maxFileBytes && !u.broken && env.flushFails(index))))
  {
    assert u.content[..|u.content|] == u.content;
  }

  /** The first `n` files pass, each within what the earlier ones left of the budget. */
  ghost predicate PassUpTo(env: Env, limits: Limits, us: seq<Upload>, n: nat)
    requires n <= |us|
  {
    forall i :: 0 <= i < n ==>
      && TotalSize(us[..i]) <= limits.maxTotalBytes
      && FileError(env, limits, us[i], i, limits.maxTotalBytes - TotalSize(us[..i])) == None
  }

  /** File `k` is the first to fail, with error `e`. */
  ghost predicate FirstFailure(env: Env, limits: Limits, us: seq<Upload>, k: nat, e: Error) {
    && k < |us| && PassUpTo(env, limits, us, k) && TotalSize(us[..k]) <= limits.maxTotalBytes
    && FileError(env, limits, us[k], k, limits.maxTotalBytes - TotalSize(us[..k])) == Some(e)
  }

  ghost predicate CountOk(limits: Limits, us: seq<Upload>) {
    0 < |us| <= limits.maxFiles
  }

  /** A file that is sound by itself, whatever is left of the batch budget. */
  predicate Sound(env: Env, limits: Limits, u: Upload, index: nat) {
    && env.validate(u.name, Head(u)).Accepted?
    && |u.content| <= limits.maxFileBytes
    && !u.broken && !env.flushFails(index)
  }

  lemma PassesIffSoundAndFits(env: Env, limits: Limits, u: Upload, index: nat, remaining: nat)
    ensures FileError(env, limits, u, index, remaining) == None <==>
      Sound(env, limits, u, index) && |u.content| <= remaining
  {
  }

  /** All files pass exactly when every file passes type validation, every size is
      within the per-file cap, the sizes add up to at most the batch cap, and neither a
      stream nor a flush fails. */
  lemma {:induction false} PassIffWithinLimits(env: Env, limits: Limits, us: seq<Upload>, n: nat)
    requires n <= |us|
    ensures PassUpTo(env, limits, us, n) && TotalSize(us[..n]) <= limits.maxTotalBytes <==>
      (forall i :: 0 <= i < n ==> Sound(env, limits, us[i], i)) && TotalSize(us[..n]) <= limits.maxTotalBytes
  {
    hide FileError, Sound, TotalSize, PassUpTo;
    if n == 0 {
      NoFilesPass(env, limits, us);
    } else {
      PassIffWithinLimits(env, limits, us, n - 1);
      PassOneMore(env, limits, us, n - 1);
    }
  }

  lemma NoFilesPass(env: Env, limits: Limits, us: seq<Upload>)
    ensures PassUpTo(env, limits, us, 0)
  {
  }

  lemma PassOneMore(env: Env, limits: Limits, us: seq<Upload>, n: nat)
    requires n < |us|
    ensures TotalSize(us[..n + 1]) == TotalSize(us[..n]) + |us[n].content|
    ensures PassUpTo(env, limits, us, n + 1) && TotalSize(us[..n + 1]) <= limits.maxTotalBytes <==>
      PassUpTo(env, limits, us, n) && Sound(env, limits, us[n], n) && TotalSize(us[..n + 1]) <= limits.maxTotalBytes
  {
    hide FileError, Sound;
    assert us[..n + 1][..n] == us[..n] && us[..n + 1][n] == us[n];
    var spent := TotalSize(us[..n]);
    if spent <= limits.maxTotalBytes {
      PassesIffSoundAndFits(env, limits, us[n], n, limits.maxTotalBytes - spent);
    }
  }

  /** A "combined limit" error means the batch so far truly exceeds the batch cap; a
      "per-file limit" error means that file truly exceeds the per-file cap. */
  lemma LimitErrorsAreHonest(env: Env, limits: Limits, us: seq<Upload>, k: nat, e: Error)
    requires FirstFailure(env, limits, us, k, e)
    ensures e == CombinedLimit ==> TotalSize(us[..k + 1]) > limits.maxTotalBytes
    ensures e == PerFileLimit ==> |us[k].content| > limits.maxFileBytes
    ensures |us[k].content| > limits.maxFileBytes || TotalSize(us[..k + 1]) > limits.maxTotalBytes ==>
      e in {ReadFailed, UnsupportedType, CorruptedFile, CombinedLimit, PerFileLimit}
  {
    assert us[..k + 1][..k] == us[..k] && us[..k + 1][k] == us[k];
  }

  /** The stored batch: one record a file, each path holding exactly the file's bytes. */
  ghost predicate Stored(env: Env, us: seq<Upload>, records: seq<Record>) {
    && |records| == |us|
    && (forall i, j :: 0 <= i < j < |records| ==> records[i].path != records[j].path)
    && forall i :: 0 <= i < |us| ==>
      && records[i].name == us[i].name
      && env.validate(us[i].name, Head(us[i])) == Accepted(records[i].extension)
      && records[i].size == |us[i].content|
      && records[i].checksum == env.sha(us[i].content)
  }

  /** `files` with the contents of the batch added at the recorded paths. */
  function AddAll(files: map<Path, seq<Byte>>, us: seq<Upload>, records: seq<Record>): map<Path, seq<Byte>>
    requires |us| == |records|
  {
    if us == [] then files
    else
      var last := |us| - 1;
      AddAll(files, us[..last], records[..last])[records[last].path := us[last].content]
  }

  function PathsOf(records: seq<Record>): set<Path> {
    set i | 0 <= i < |records| :: records[i].path
  }

  lemma {:induction false} AddAllKeys(files: map<Path, seq<Byte>>, us: seq<Upload>, records: seq<Record>)
    requires |us| == |records| && forall i :: 0 <= i < |records| ==> records[i].path !in files
    ensures AddAll(files, us, records).Keys == files.Keys + PathsOf(records)
    ensures AddAll(files, us, records) - PathsOf(records) == files
  {
    if us != [] {
      var last := |us| - 1;
      AddAllKeys(files, us[..last], records[..last]);
      assert PathsOf(records) == PathsOf(records[..last]) + {records[last].path};
      var before := AddAll(files, us[..last], records[..last]);
      assert before - PathsOf(records[..last]) == files;
      assert before[records[last].path := us[last].content] - PathsOf(records) == files;
    }
  }

  /** Each recorded path of a stored batch holds the full source bytes. */
  lemma {:induction false} AddAllContents(files: map<Path, seq<Byte>>, us: seq<Upload>, records: seq<Record>, i: nat)
    requires |us| == |records| && i < |us|
    requires forall a, b :: 0 <= a < b < |records| ==> records[a].path != records[b].path
    ensures records[i].path in AddAll(files, us, records)
    ensures AddAll(files, us, records)[records[i].path] == us[i].content
  {
    var last := |us| - 1;
    if i < last {
      AddAllContents(files, us[..last], records[..last], i);
    }
  }

  class UploadService {
    const storage: Storage
    var pending: seq<Record>
    var rows: seq<Record>  // committed

    constructor (storage: Storage)
      ensures this.storage == storage && pending == [] && rows == []
    {
      this.storage, pending, rows := storage, [], [];
    }

    /** Validate and stream one file, then add its row; a failed flush leaves the file. */
    method StoreOne(env: Env, limits: Limits, u: Upload, index: nat, maxBytes: nat, totalIsBinding: bool,
                    chunkSize: nat)
      returns (r: Result<Record, Error>)
      requires chunkSize > 0
      modifies this`pending, storage
      ensures var log0, log := old(storage.log), storage.log;
        Appended(log0, log, FirstNew(log0, log), maxBytes, Bytes(old(storage.files)))
      ensures r.Failure? && r.error != FlushFailed ==> storage.files == old(storage.files)
      ensures r.Failure? && r.error == FlushFailed ==> LeavesOneFile(old(storage.files), storage.files, u.content)
      ensures r.Success? ==>
        && r.value.path !in old(storage.files)
        && storage.files == old(storage.files)[r.value.path := u.content]
        && r.value.name == u.name && r.value.size == |u.content| && r.value.checksum == env.sha(u.content)
        && env.validate(u.name, Head(u)) == Accepted(r.value.extension)
        && pending == old(pending) + [r.value]
      ensures match r
        case Success(_) => StoreError(env, u, index, maxBytes, totalIsBinding) == None
        case Failure(e) => StoreError(env, u, index, maxBytes, totalIsBinding) == Some(e)
    {
      if u.broken && |u.content| < SNIFF_SIZE {
        return Failure(ReadFailed);
      }
      var head := Head(u);
      var spec := env.validate(u.name, head);
      if spec.Unsupported? {
        return Failure(UnsupportedType);
      }
      if spec.Corrupted? {
        return Failure(CorruptedFile);
      }
      var path := storage.Allocate();
      var streamed := storage.WriteStream(u, path, maxBytes, head, chunkSize, env.sha);
      if streamed.Failure? {
        if streamed.error == PerFileLimit && totalIsBinding {
          return Failure(CombinedLimit);
        }
        return Failure(streamed.error);
      }
      var record := Record(u.name, path, spec.extension, streamed.value.0, streamed.value.1);
      pending := pending + [record];
      if env.flushFails(index) {
        return Failure(FlushFailed);
      }
      return Success(record);
    }

    /** The storing loop of a batch: stop at the first file that fails. */
    method StoreAll(env: Env, limits: Limits, uploads: seq<Upload>, chunkSize: nat)
      returns (stored: seq<Record>, failed: Option<Error>)
      requires chunkSize > 0 && pending == []
      modifies this`pending, storage
      ensures |stored| <= |uploads| && PassUpTo(env, limits, uploads, |stored|)
      ensures Stored(env, uploads[..|stored|], stored) && NewPaths(old(storage.files), stored)
      ensures failed.None? ==> |stored| == |uploads| && pending == stored && TotalSize(uploads) <= limits.maxTotalBytes
      ensures failed.Some? ==> FirstFailure(env, limits, uploads, |stored|, failed.value)
      ensures var landed := AddAll(old(storage.files), uploads[..|stored|], stored);
        if failed == Some(FlushFailed) then LeavesOneFile(landed, storage.files, uploads[|stored|].content)
        else storage.files == landed
      ensures LogWithin(old(storage.log), storage.log, limits, Bytes(old(storage.files)))
    {
      hide StoreError, AddAll, Sound, Stored, NewPaths, PathsOf, Head, TotalSize, LogWithin, PassUpTo, FirstFailure,
           Appended, FirstNew, Bytes;
      stored, failed := [], None;
      var remaining: nat := limits.maxTotalBytes;
      NothingStored(env, limits, uploads, storage.files, storage.log);
      for i := 0 to |uploads|
        invariant |stored| == i && PassUpTo(env, limits, uploads, i) && failed == None
        invariant Stored(env, uploads[..i], stored) && NewPaths(old(storage.files), stored)
        invariant TotalSize(uploads[..i]) + remaining == limits.maxTotalBytes
        invariant pending == stored && storage.files == AddAll(old(storage.files), uploads[..i], stored)
        invariant Bytes(storage.files) == Bytes(old(storage.files)) + TotalSize(uploads[..i])
        invariant LogWithin(old(storage.log), storage.log, limits, Bytes(old(storage.files)))
      {
        var u := uploads[i];
        ghost var log, files := storage.log, storage.files;
        var one := StoreOne(env, limits, u, i, Min(limits.maxFileBytes, remaining), remaining < limits.maxFileBytes,
                            chunkSize);
        LogGrows(old(storage.log), log, storage.log, limits, Bytes(old(storage.files)), TotalSize(uploads[..i]),
                 remaining);
        PassStep(env, limits, uploads, i, remaining);
        if one.Failure? {
          failed := Some(one.error);
          return;
        }
        AddOne(old(storage.files), uploads, stored, one.value);
        BytesAdd(files, one.value.path, u.content);
        assert uploads[..i + 1][..i] == uploads[..i] && uploads[..i + 1][i] == u;
        StoredOne(env, uploads, i, old(storage.files), stored, one.value);
        stored := stored + [one.value];
        remaining := remaining - one.value.size;
      }
      assert uploads[..|uploads|] == uploads;
    }

    /** Remove the batch's files from disk again. */
    method RollBack(stored: seq<Record>)
      modifies storage
      ensures storage.files == old(storage.files) - PathsOf(stored) && storage.log == old(storage.log)
    {
      for n := 0 to |stored|
        invariant storage.files == old(storage.files) - PathsOf(stored[..n]) && storage.log == old(storage.log)
      {
        storage.Delete(stored[n].path);
        assert PathsOf(stored[..n + 1]) == PathsOf(stored[..n]) + {stored[n].path};
      }
      assert stored[..|stored|] == stored;
    }

    /** A whole batch: all its files and rows, or an error. */
    method UploadFiles(env: Env, limits: Limits, uploads: seq<Upload>, chunkSize: nat)
      returns (r: Result<seq<Record>, Error>)
      requires chunkSize > 0 && pending == []
      modifies this, storage
      ensures pending == []
      // success: everything passed, and disk and rows gained exactly the batch
      ensures r.Success? <==> CountOk(limits, uploads) && WithinLimits(env, limits, uploads) && !env.commitFails
      ensures r.Success? ==>
        && Stored(env, uploads, r.value) && NewPaths(old(storage.files), r.value)
        && storage.files == AddAll(old(storage.files), uploads, r.value)
        && rows == old(rows) + r.value
      // failure: the reported error is real and no row is committed
      ensures r.Failure? ==> rows == old(rows)
      ensures r.Failure? ==>
        || (r.error == NoFiles && uploads == [])
        || (r.error == TooManyFiles && |uploads| > limits.maxFiles)
        || (CountOk(limits, uploads) && exists k :: FirstFailure(env, limits, uploads, k, r.error))
        || (r.error == CommitFailed && env.commitFails
            && CountOk(limits, uploads) && WithinLimits(env, limits, uploads))
      // the disk is as before exactly unless the first file to fail fails in the flush of
      // its row: that leaves the file just written
      ensures r.Failure? ==> (storage.files == old(storage.files) <==> !FlushFailsFirst(env, limits, uploads))
      ensures FlushFailsFirst(env, limits, uploads) ==>
        exists k :: 0 <= k < |uploads| && LeavesOneFile(old(storage.files), storage.files, uploads[k].content)
      // no write ever left a file or the batch above its cap
      ensures LogWithin(old(storage.log), storage.log, limits, Bytes(old(storage.files)))
    {
      hide StoreError, AddAll, Sound, FileError, LeavesOneFile, Stored, NewPaths, PassUpTo, LogWithin, PathsOf,
           TotalSize, FirstFailure, WithinLimits, Bytes;
      LogStarts(storage.log, limits, Bytes(storage.files));
      if uploads == [] {
        return Failure(NoFiles);
      }
      if |uploads| > limits.maxFiles {
        return Failure(TooManyFiles);
      }
      var stored, failed := StoreAll(env, limits, uploads, chunkSize);
      assert uploads[..|uploads|] == uploads;
      if failed.None? {
        PassDecides(env, limits, uploads);
        if !env.commitFails {
          rows := rows + pending;
          pending := [];
          return Success(stored);
        }
        failed := Some(CommitFailed);
      } else {
        FailureDecides(env, limits, uploads, |stored|, failed.value);
      }
      pending := [];
      RolledBack(old(storage.files), uploads[..|stored|], stored, storage.files);
      RollBack(stored);
      if failed.value == FlushFailed {
        OneFileDiffers(old(storage.files), storage.files, uploads[|stored|].content);
      }
      return Failure(failed.value);
    }
  }

  /** The files before `k` pass, and `k` passes up to the flush of its row. */
  ghost predicate FlushFailsFirst(env: Env, limits: Limits, us: seq<Upload>) {
    CountOk(limits, us) && exists k :: FirstFailure(env, limits, us, k, FlushFailed)
  }

  lemma FirstFailureUnique(env: Env, limits: Limits, us: seq<Upload>, j: nat, d: Error, k: nat, e: Error)
    requires FirstFailure(env, limits, us, j, d) && FirstFailure(env, limits, us, k, e)
    ensures j == k && d == e
  {
    hide FileError, TotalSize;
  }

  /** A batch with a first failure is not within its limits; it fails in a flush exactly
      when that failure is one. */
  lemma FailureDecides(env: Env, limits: Limits, us: seq<Upload>, k: nat, e: Error)
    requires FirstFailure(env, limits, us, k, e)
    ensures k < |us| && !WithinLimits(env, limits, us)
    ensures e != CommitFailed && e != NoFiles && e != TooManyFiles
    ensures FlushFailsFirst(env, limits, us) <==> CountOk(limits, us) && e == FlushFailed
  {
    FailureExcludesPass(env, limits, us, k, e);
    hide FirstFailure, Sound, TotalSize, PassUpTo;
    PassIffWithinLimits(env, limits, us, |us|);
    assert us[..|us|] == us;
    if j, d :| FirstFailure(env, limits, us, j, d) && d == FlushFailed {
      FirstFailureUnique(env, limits, us, j, d, k, e);
    }
  }

  lemma PassDecides(env: Env, limits: Limits, us: seq<Upload>)
    requires PassUpTo(env, limits, us, |us|) && TotalSize(us) <= limits.maxTotalBytes
    ensures WithinLimits(env, limits, us) && !FlushFailsFirst(env, limits, us)
  {
    hide FirstFailure, Sound, TotalSize, PassUpTo;
    PassIffWithinLimits(env, limits, us, |us|);
    assert us[..|us|] == us;
    if j: nat :| FirstFailure(env, limits, us, j, FlushFailed) {
      FailureDecides(env, limits, us, j, FlushFailed);
    }
  }

  ghost predicate WithinLimits(env: Env, limits: Limits, us: seq<Upload>) {
    && (forall i :: 0 <= i < |us| ==> Sound(env, limits, us[i], i))
    && TotalSize(us) <= limits.maxTotalBytes
  }

  lemma LogStarts(log: seq<Write>, limits: Limits, base: nat)
    ensures LogWithin(log, log, limits, base)
  {
  }

  lemma FailureExcludesPass(env: Env, limits: Limits, us: seq<Upload>, k: nat, e: Error)
    requires FirstFailure(env, limits, us, k, e)
    ensures !PassUpTo(env, limits, us, |us|) && k < |us|
    ensures e != CommitFailed && e != NoFiles && e != TooManyFiles
  {
  }

  ghost predicate NewPaths(before: map<Path, seq<Byte>>, records: seq<Record>) {
    forall i :: 0 <= i < |records| ==> records[i].path !in before
  }

  /** `after` is `before` with one more file, of the given content. */
  ghost predicate LeavesOneFile(before: map<Path, seq<Byte>>, after: map<Path, seq<Byte>>, content: seq<Byte>) {
    exists p: Path :: p !in before && after == before[p := content]
  }

  /** No write left its file above the per-file cap, nor the disk more than the batch cap
      above the `base` bytes it held before the batch. */
  ghost predicate LogWithin(before: seq<Write>, after: seq<Write>, limits: Limits, base: nat) {
    && before <= after
    && forall i :: |before| <= i < |after| ==>
      after[i].size <= limits.maxFileBytes && after[i].disk <= base + limits.maxTotalBytes
  }

  lemma StoredOne(env: Env, us: seq<Upload>, n: nat, files: map<Path, seq<Byte>>, records: seq<Record>, r: Record)
    requires n < |us| && |records| == n && Stored(env, us[..n], records) && NewPaths(files, records)
    requires r.path !in files && r.path !in PathsOf(records)
    requires r.name == us[n].name && env.validate(us[n].name, Head(us[n])) == Accepted(r.extension)
    requires r.size == |us[n].content| && r.checksum == env.sha(us[n].content)
    ensures Stored(env, us[..n + 1], records + [r]) && NewPaths(files, records + [r])
  {
    hide Head;
    var after := records + [r];
    forall i | 0 <= i < |after|
      ensures after[i].name == us[..n + 1][i].name
        && env.validate(us[..n + 1][i].name, Head(us[..n + 1][i])) == Accepted(after[i].extension)
        && after[i].size == |us[..n + 1][i].content| && after[i].checksum == env.sha(us[..n + 1][i].content)
    {
      if i < n { assert us[..n][i] == us[..n + 1][i]; }
    }
    assert forall i :: 0 <= i < n ==> records[i].path in PathsOf(records);
  }

  /** Removing the stored paths undoes the batch, up to the file a failed flush left. */
  lemma RolledBack(files: map<Path, seq<Byte>>, us: seq<Upload>, records: seq<Record>, current: map<Path, seq<Byte>>)
    requires |us| == |records| && NewPaths(files, records)
    ensures current == AddAll(files, us, records) ==> current - PathsOf(records) == files
    ensures forall content :: LeavesOneFile(AddAll(files, us, records), current, content) ==>
      LeavesOneFile(files, current - PathsOf(records), content)
  {
    AddAllKeys(files, us, records);
    var landed := AddAll(files, us, records);
    forall content | LeavesOneFile(landed, current, content)
      ensures LeavesOneFile(files, current - PathsOf(records), content)
    {
      var p: Path :| p !in landed && current == landed[p := content];
      assert current - PathsOf(records) == files[p := content];
    }
  }

  lemma OneFileDiffers(files: map<Path, seq<Byte>>, current: map<Path, seq<Byte>>, content: seq<Byte>)
    requires LeavesOneFile(files, current, content)
    ensures current != files
  {
  }

  lemma NothingStored(env: Env, limits: Limits, us: seq<Upload>, files: map<Path, seq<Byte>>, log: seq<Write>)
    ensures us[..0] == [] && TotalSize(us[..0]) == 0 && PassUpTo(env, limits, us, 0)
    ensures Stored(env, us[..0], []) && NewPaths(files, []) && AddAll(files, us[..0], []) == files
    ensures LogWithin(log, log, limits, Bytes(files))
  {
  }

  lemma PassStep(env: Env, limits: Limits, us: seq<Upload>, i: nat, remaining: nat)
    requires i < |us| && PassUpTo(env, limits, us, i) && TotalSize(us[..i]) + remaining == limits.maxTotalBytes
    ensures FileError(env, limits, us[i], i, remaining) == None ==>
      PassUpTo(env, limits, us, i + 1) && TotalSize(us[..i + 1]) + remaining - |us[i].content| == limits.maxTotalBytes
      && |us[i].content| <= remaining
    ensures forall e :: FileError(env, limits, us[i], i, remaining) == Some(e) ==> FirstFailure(env, limits, us, i, e)
  {
    hide FileError;
    PassesIffSoundAndFits(env, limits, us[i], i, remaining);
    assert us[..i + 1][..i] == us[..i] && us[..i + 1][i] == us[i];
  }

  lemma LogGrows(before: seq<Write>, mid: seq<Write>, after: seq<Write>, limits: Limits, base: nat, spent: nat,
                 remaining: nat)
    requires LogWithin(before, mid, limits, base) && spent + remaining == limits.maxTotalBytes
    requires Appended(mid, after, FirstNew(mid, after), Min(limits.maxFileBytes, remaining), base + spent)
    ensures LogWithin(before, after, limits, base)
  {
    forall i | |before| <= i < |after|
      ensures after[i].size <= limits.maxFileBytes && after[i].disk <= base + limits.maxTotalBytes
    {
      if i < |mid| { assert after[i] == mid[i]; }
    }
  }

  lemma AddOne(files: map<Path, seq<Byte>>, us: seq<Upload>, records: seq<Record>, r: Record)
    requires |records| < |us| && NewPaths(files, records)
    ensures var n := |records|;
      && AddAll(files, us[..n + 1], records + [r]) == AddAll(files, us[..n], records)[r.path := us[n].content]
      && AddAll(files, us[..n], records).Keys == files.Keys + PathsOf(records)
  {
    var n := |records|;
    assert us[..n + 1][..n] == us[..n] && (records + [r])[..n] == records;
    AddAllKeys(files, us[..n], records);
  }

  /** The path of the first write since `before`, if any. */
  ghost function FirstNew(before: seq<Write>, after: seq<Write>): Path {
    if |before| < |after| then after[|before|].path else 0
  }
}
