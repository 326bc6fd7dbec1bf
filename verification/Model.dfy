/** The values that travel through the backup pipeline: scanned metadata, the differences
    computed from it, the wire entries, and the files a dataset stores. */
module Model {
  newtype Byte = b: int | 0 <= b < 256
  type Bytes = seq<Byte>

  /** The mode word of a file; its low nine bits are the permissions. */
  type Mode = nat

  datatype Option<+T> = None | Some(value: T)

  datatype Result<+T, +E> = Ok(value: T) | Err(error: E)

  /** A stored file. Only the nine permission bits of a mode reach a dataset. */
  datatype File = File(content: Bytes, mode: Mode)

  // mode & 0777
  function Perm(mode: Mode): Mode { mode % 512 }

  /** m is the low nine bits of a mode word: below 512, and a multiple of 512 away from it. */
  ghost predicate Permissions(m: Mode, mode: Mode) { m < 512 && (mode - m) % 512 == 0 }

  /** The nine bits are kept, all the others dropped; a mode that has no others is kept as it is. */
  lemma {:induction false} PermIff(mode: Mode, m: Mode)
    ensures Permissions(m, mode) <==> m == Perm(mode)
    ensures mode < 512 ==> Permissions(mode, mode)
  {
    assert mode == 512 * (mode / 512) + mode % 512;
  }

  datatype FileInfo = FileInfo(path: string, size: int, mtime: int, mode: Mode, sha: Bytes)

  datatype Action = Skip | Add | Modify | Delete

  datatype FileDiff = FileDiff(file: FileInfo, action: Action)

  datatype FileEntry = FileEntry(path: string, content: Bytes, mode: Mode, deleted: bool,
                                 chunked: bool, chunkOffset: nat, finalChunk: bool)

  datatype Batch = Batch(username: string, ruleType: string, files: seq<FileEntry>)

  /** The digest of a scan. Nothing is assumed of it except, where a result needs it, that
      different contents have different digests. */
  type Digest = Bytes -> Bytes

  ghost predicate Injective(digest: Digest) {
    forall a, b :: digest(a) == digest(b) ==> a == b
  }

  function Lookup<K, V>(m: map<K, V>, k: K): Option<V> {
    if k in m then Some(m[k]) else None
  }
}
