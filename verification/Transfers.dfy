/**
  Whole-file upload and download through a temporary file and one rename.

  Every RPC may fail at any point: never delivered, carried out in part, or
  carried out in full with the answer lost. `history` records each state of a
  disk that another process could have seen, and `faults` counts the operations
  that failed although nothing was wrong with the request.
 */
module Transfers {
  import opened Files
  import opened Options

  const TRANSFER_CHUNK_BYTES: nat := 1024 * 1024

  function Look(m: map<Path, File>, p: Path): Option<File> {
    if p in m then Some(m[p]) else None
  }

  function Fault(fine: bool): nat { if fine then 0 else 1 }

  class Disk {
    var files: map<Path, File>
    ghost var history: seq<map<Path, File>>
    ghost var faults: nat

    constructor (initial: map<Path, File>)
      ensures files == initial && history == [initial] && faults == 0
    {
      files, history, faults := initial, [initial], 0;
    }

    /** Record the state an operation left behind, and whether it failed without being refused. */
    ghost method Log(fine: bool)
      modifies this`history, this`faults
      ensures history == old(history) + [files] && faults == old(faults) + Fault(fine)
    {
      history, faults := history + [files], faults + Fault(fine);
    }

    /** Truncate or create an empty file. */
    method CreateEmpty(p: Path) returns (ok: bool)
      modifies this
      ensures files == old(files) || files == old(files)[p := []]
      ensures ok ==> files == old(files)[p := []]
      ensures history == old(history) + [files] && faults == old(faults) + Fault(ok)
    {
      ok := false;
      if * {
        files := files[p := []];
        ok := *;
      }
      Log(ok);
    }

    /** Positioned write to an existing file, refused when the payload is too large. */
    method WriteAtOp(p: Path, off: nat, data: File) returns (ok: bool)
      modifies this
      ensures files - {p} == old(files) - {p} && (p in files <==> p in old(files))
      ensures ok ==> p in old(files) && files == old(files)[p := WriteAt(old(files)[p], off, data)]
      ensures Base64Length(|data|) > MAX_DIRECT_FILE_BASE64_BYTES ==> !ok && files == old(files)
      ensures history == old(history) + [files]
      ensures var refused := Base64Length(|data|) > MAX_DIRECT_FILE_BASE64_BYTES || p !in old(files);
        faults == old(faults) + Fault(ok || refused)
    {
      ok := false;
      ghost var refused := Base64Length(|data|) > MAX_DIRECT_FILE_BASE64_BYTES || p !in files;
      if Base64Length(|data|) <= MAX_DIRECT_FILE_BASE64_BYTES && p in files {
        var n: nat :| n <= |data|;
        files := files[p := WriteAt(files[p], off, data[..n])];
        if n == |data| {
          assert data[..n] == data;
          ok := *;
        }
      }
      Log(ok || refused);
    }

    method Truncate(p: Path, size: nat) returns (ok: bool)
      modifies this
      ensures files == old(files) || (p in old(files) && files == old(files)[p := SetLen(old(files)[p], size)])
      ensures ok ==> p in old(files) && files == old(files)[p := SetLen(old(files)[p], size)]
      ensures history == old(history) + [files] && faults == old(faults) + Fault(ok || p !in old(files))
    {
      ok := false;
      var carriedOut: bool := *;
      if carriedOut && p in files {
        files := files[p := SetLen(files[p], size)];
        ok := *;
      }
      Log(ok || p !in files);
    }

    method Remove(p: Path)
      modifies this
      ensures files == old(files) || files == old(files) - {p}
      ensures p in files ==> faults == old(faults) + 1
      ensures history == old(history) + [files] && old(faults) <= faults <= old(faults) + 1
    {
      var ok := p !in files;
      if * {
        files := files - {p};
        ok := *;
      }
      Log(ok);
    }

    /** Atomic: the target of the name either is what it was or is the whole source. */
    method Rename(from: Path, to: Path) returns (ok: bool)
      requires from != to
      modifies this
      ensures files == old(files) || (from in old(files) && files == (old(files) - {from})[to := old(files)[from]])
      ensures ok ==> from in old(files) && files == (old(files) - {from})[to := old(files)[from]]
      ensures history == old(history) + [files] && faults == old(faults) + Fault(ok || from !in old(files))
    {
      ok := false;
      ghost var refused := from !in files;
      var carriedOut: bool := *;
      if carriedOut && from in files {
        files := (files - {from})[to := files[from]];
        ok := *;
      }
      Log(ok || refused);
    }

    /**
      READ_FILE: up to `limit` bytes from `off`, and `eof` when fewer came back.
      With `fullReads` a read stops short only at the end of the file.
     */
    method ReadFile(p: Path, off: nat, limit: nat, fullReads: bool) returns (r: Option<(File, bool)>)
      modifies this`faults
      ensures var refused := limit > MAX_DIRECT_FILE_BYTES || p !in files;
        (refused ==> r == None) && faults == old(faults) + Fault(r.Some? || refused)
      ensures r.Some? ==>
        var data, eof := r.value.0, r.value.1;
        && p in files && |data| <= limit && data == Slice(files[p], off, |data|)
        && (data == [] <==> limit == 0 || |files[p]| <= off)
        && (eof <==> |data| < limit)
        && (fullReads ==> data == Slice(files[p], off, limit))
    {
      var answered: bool := *;
      if limit > MAX_DIRECT_FILE_BYTES || p !in files {
        return None;
      }
      if !answered {
        faults := faults + 1;
        return None;
      }
      var most := Slice(files[p], off, limit);
      var n: nat := |most|;
      if !fullReads && |most| > 0 {
        n :| 0 < n <= |most|;
      }
      var data := most[..n];
      assert data == Slice(files[p], off, |data|);
      r := Some((data, |data| < limit));
    }
  }

  /** An open local file. */
  class Source {
    const bytes: File
    ghost var faults: nat

    constructor (bytes: File)
      ensures this.bytes == bytes && faults == 0
    {
      this.bytes, faults := bytes, 0;
    }

    /** Up to one buffer from `at`; nothing only at the end. */
    method Read(at: nat) returns (r: Option<File>)
      requires at <= |bytes|
      modifies this
      ensures r.Some? ==>
        && |r.value| <= TRANSFER_CHUNK_BYTES && at + |r.value| <= |bytes|
        && r.value == bytes[at..at + |r.value|] && (r.value == [] <==> at == |bytes|)
      ensures faults == old(faults) + Fault(r.Some?)
    {
      if * {
        faults := faults + 1;
        return None;
      }
      var n: nat := 0;
      if at < |bytes| {
        n :| 0 < n <= TRANSFER_CHUNK_BYTES && at + n <= |bytes|;
      }
      r := Some(bytes[at..at + n]);
    }
  }

  /** From entry `from` on, the name `p` was always seen as `was` or as `now`. */
  ghost predicate SeenOnly(history: seq<map<Path, File>>, from: nat, p: Path, was: Option<File>, now: Option<File>) {
    forall k | from <= k < |history| :: Look(history[k], p) == was || Look(history[k], p) == now
  }

  lemma AppendChunk(source: File, at: nat, n: nat)
    requires at + n <= |source|
    ensures WriteAt(source[..at], at, source[at..at + n]) == source[..at + n]
  {
    WriteAtExtendsPrefix(source[..at], at, source, n);
    assert source[..at] <= source;
  }

  /** Fill the temporary file with the source, then cut it to length; this works exactly if nothing fails. */
  method SendToTemp(target: Disk, source: Source, temp: Path) returns (sent: Option<nat>)
    modifies target, source
    ensures target.files - {temp} == old(target.files) - {temp}
    ensures sent.Some? ==> sent.value == |source.bytes| && target.files == old(target.files)[temp := source.bytes]
    ensures target.faults + source.faults == old(target.faults + source.faults) + Fault(sent.Some?)
    ensures |old(target.history)| <= |target.history| && old(target.history) <= target.history
    ensures forall k | |old(target.history)| <= k < |target.history| ::
              target.history[k] - {temp} == old(target.files) - {temp}
  {
    ghost var rest := target.files - {temp};
    var ok := target.CreateEmpty(temp);
    if !ok {
      return None;
    }
    var offset := 0;
    while true
      invariant offset <= |source.bytes| && target.files == old(target.files)[temp := source.bytes[..offset]]
      invariant target.files - {temp} == rest
      invariant target.faults == old(target.faults) && source.faults == old(source.faults)
      invariant old(target.history) <= target.history
      invariant forall k | |old(target.history)| <= k < |target.history| :: target.history[k] - {temp} == rest
      decreases |source.bytes| - offset
    {
      var chunk := source.Read(offset);
      if chunk.None? {
        return None;
      }
      if chunk.value == [] {
        break;
      }
      AppendChunk(source.bytes, offset, |chunk.value|);
      ok := target.WriteAtOp(temp, offset, chunk.value);
      if !ok {
        return None;
      }
      offset := offset + |chunk.value|;
    }
    assert source.bytes[..offset] == source.bytes;
    assert SetLen(source.bytes, offset) == source.bytes;
    ok := target.Truncate(temp, offset);
    if !ok {
      return None;
    }
    sent := Some(offset);
  }

  /**
    The upload succeeds exactly if no operation fails, and then the source is
    there. Whatever fails, every observer sees the destination as it was or as the
    whole source: an error after the RENAME was carried out can leave it in place.
    A temporary file is left behind only if its removal failed too.
   */
  method UploadFile(target: Disk, source: Source, temp: Path, dest: Path) returns (sent: Option<nat>)
    requires temp != dest
    modifies target, source
    ensures sent.Some? <==> target.faults + source.faults == old(target.faults + source.faults)
    ensures sent.Some? ==>
      sent.value == |source.bytes| && Look(target.files, dest) == Some(source.bytes) && temp !in target.files
    ensures sent.None? && temp in target.files ==>
      target.faults + source.faults == old(target.faults + source.faults) + 2
    ensures SeenOnly(target.history, |old(target.history)|, dest, old(Look(target.files, dest)), Some(source.bytes))
    ensures old(target.history) <= target.history
    ensures Look(target.files, dest) == old(Look(target.files, dest)) || Look(target.files, dest) == Some(source.bytes)
    ensures target.files - {temp, dest} == old(target.files) - {temp, dest}
  {
    ghost var was, entry := Look(target.files, dest), |target.history|;
    ghost var base := target.files;
    sent := SendToTemp(target, source, temp);
    KeepsOthers(base, target.files, temp, dest);
    forall k | entry <= k < |target.history| ensures Look(target.history[k], dest) == was {
      KeepsOthers(base, target.history[k], temp, dest);
    }
    if sent.None? {
      target.Remove(temp);
      return None;
    }
    var ok := target.Rename(temp, dest);
    if !ok {
      target.Remove(temp);
      return None;
    }
  }

  lemma KeepsOthers(m: map<Path, File>, m': map<Path, File>, temp: Path, dest: Path)
    requires m' - {temp} == m - {temp} && temp != dest
    ensures Look(m', dest) == Look(m, dest) && m' - {temp, dest} == m - {temp, dest}
  {
    assert Look(m', dest) == Look(m' - {temp}, dest) && Look(m, dest) == Look(m - {temp}, dest);
    assert m' - {temp, dest} == m' - {temp} - {dest} && m - {temp, dest} == m - {temp} - {dest};
  }

  // ----- download

  /** Append to the local temporary file; a failing disk may keep any part. */
  method AppendLocal(local: Disk, temp: Path, data: File) returns (ok: bool)
    requires temp in local.files
    modifies local
    ensures local.files - {temp} == old(local.files) - {temp} && temp in local.files
    ensures ok ==> local.files == old(local.files)[temp := old(local.files)[temp] + data]
    ensures local.history == old(local.history) + [local.files] && local.faults == old(local.faults) + Fault(ok)
  {
    var n: nat :| n <= |data|;
    local.files := local.files[temp := local.files[temp] + data[..n]];
    ok := false;
    if n == |data| {
      assert data[..n] == data;
      ok := *;
    }
    local.Log(ok);
  }

  /**
    The read loop: it works exactly if the remote file is there and nothing fails.
    `calls` counts the READ_FILE calls that were answered.
   */
  method FetchToTemp(target: Disk, remote: Path, local: Disk, temp: Path, fullReads: bool)
    returns (got: Option<nat>, calls: nat)
    requires target != local
    modifies local, target`faults
    ensures local.files - {temp} == old(local.files) - {temp}
    ensures old(local.history) <= local.history
    ensures forall k | |old(local.history)| <= k < |local.history| ::
              local.history[k] - {temp} == old(local.files) - {temp}
    ensures got.Some? ==>
      && remote in target.files && got.value <= |target.files[remote]|
      && Look(local.files, temp) == Some(target.files[remote][..got.value])
      && (fullReads ==> got.value == |target.files[remote]|)
      && (fullReads ==> calls == |target.files[remote]| / TRANSFER_CHUNK_BYTES + 1)
    ensures got.Some? <==> local.faults + target.faults == old(local.faults + target.faults) && remote in target.files
    ensures old(local.faults) <= local.faults && old(target.faults) <= target.faults
  {
    ghost var rest := local.files - {temp};
    calls := 0;
    var ok := local.CreateEmpty(temp);
    if !ok {
      return None, calls;
    }
    ghost var whole := if remote in target.files then target.files[remote] else [];
    var offset: nat, eof := 0, false;
    while !eof
      invariant local.files - {temp} == rest && temp in local.files
      invariant old(local.history) <= local.history
      invariant forall k | |old(local.history)| <= k < |local.history| :: local.history[k] - {temp} == rest
      invariant local.faults == old(local.faults) && target.faults == old(target.faults)
      invariant offset > 0 || eof ==> remote in target.files
      invariant offset <= |whole| && local.files[temp] == whole[..offset]
      invariant fullReads && !eof ==> offset == calls * TRANSFER_CHUNK_BYTES
      invariant fullReads && eof ==>
        && offset == |target.files[remote]| && calls > 0
        && (calls - 1) * TRANSFER_CHUNK_BYTES <= offset < calls * TRANSFER_CHUNK_BYTES
      decreases !eof, |whole| - offset
    {
      var reply := target.ReadFile(remote, offset, TRANSFER_CHUNK_BYTES, fullReads);
      if reply.None? {
        return None, calls;
      }
      var data := reply.value.0;
      eof := reply.value.1;
      calls := calls + 1;
      // an empty chunk is always final here: `eof` is set whenever fewer than `limit` bytes came
      assert whole[..offset] + data == whole[..offset + |data|];
      ok := AppendLocal(local, temp, data);
      if !ok {
        return None, calls;
      }
      offset := offset + |data|;
    }
    got := Some(offset);
  }

  /** The local rename at the end: done, or refused by the disk. */
  method ReplaceLocal(local: Disk, temp: Path, dest: Path) returns (ok: bool)
    requires temp != dest && temp in local.files
    modifies local
    ensures local.faults == old(local.faults) + Fault(ok) && local.history == old(local.history) + [local.files]
    ensures local.files == if ok then (old(local.files) - {temp})[dest := old(local.files)[temp]] else old(local.files)
  {
    ok := *;
    if ok {
      local.files := (local.files - {temp})[dest := local.files[temp]];
    }
    local.Log(ok);
  }

  /**
    The download succeeds exactly if the remote file is there and nothing fails.
    The destination is then replaced in one step by a prefix of the remote file,
    and with full reads by the whole of it, after exactly size / 1 MiB + 1 reads.
    If not, the temporary file stays behind only when the last rename or the
    removal failed.
   */
  method DownloadFile(target: Disk, remote: Path, local: Disk, temp: Path, dest: Path, fullReads: bool)
    returns (got: Option<nat>, calls: nat)
    requires target != local && temp != dest
    modifies local, target`faults
    ensures got.Some? <==> local.faults + target.faults == old(local.faults + target.faults) && remote in target.files
    ensures old(local.history) <= local.history
    ensures got.None? ==>
      && SeenOnly(local.history, |old(local.history)|, dest, old(Look(local.files, dest)), old(Look(local.files, dest)))
      && Look(local.files, dest) == old(Look(local.files, dest))
    ensures got.Some? ==>
      && remote in target.files && got.value <= |target.files[remote]|
      && var copy := Some(target.files[remote][..got.value]);
      && Look(local.files, dest) == copy && temp !in local.files
      && SeenOnly(local.history, |old(local.history)|, dest, old(Look(local.files, dest)), copy)
      && (fullReads ==> copy == Some(target.files[remote]) && got.value == |target.files[remote]|)
      && (fullReads ==> calls == |target.files[remote]| / TRANSFER_CHUNK_BYTES + 1)
    ensures got.None? && temp in local.files ==> local.faults > old(local.faults)
    ensures local.files - {temp, dest} == old(local.files) - {temp, dest}
  {
    ghost var was, entry := Look(local.files, dest), |local.history|;
    ghost var base := local.files;
    got, calls := FetchToTemp(target, remote, local, temp, fullReads);
    KeepsOthers(base, local.files, temp, dest);
    forall k | entry <= k < |local.history| ensures Look(local.history[k], dest) == was {
      KeepsOthers(base, local.history[k], temp, dest);
    }
    if got.None? {
      local.Remove(temp);
      return None, calls;
    }
    assert fullReads ==> target.files[remote][..got.value] == target.files[remote];
    var ok := ReplaceLocal(local, temp, dest);
    if !ok {
      return None, calls;
    }
  }
}
