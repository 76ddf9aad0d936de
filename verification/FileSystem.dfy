/**
 A directory on a journalling file system, as the publication protocols see it.

 Every name has two entries: the one running processes see and the one that is on
 stable storage.  `fsync` of the directory makes the visible entries durable.  The
 kernel may also write any entries back on its own, a failed `fsync` may have written
 some of them, and a power loss forgets whatever was not written.
 */
module FileSystem {

  newtype Byte = x: int | 0 <= x < 256
  type Bytes = seq<Byte>
  type Inode = nat

  datatype Option<+T> = None | Some(value: T) {
    function GetOr(default: T): T {
      if None? then default else value
    }
  }

  /** `intended` is the document the creator of the inode set out to write; no program
      reads it.  `synced` says that the data of the inode is on stable storage. */
  datatype File<C(==)> = File(data: C, synced: bool, intended: C) {
    predicate Complete() {
      synced && data == intended
    }
  }

  datatype Disk<N(==), C(==)> = Disk(files: map<Inode, File<C>>, visible: map<N, Inode>, durable: map<N, Inode>)

  function Entry<N>(names: map<N, Inode>, n: N): (e: Option<Inode>)
  {
    if n in names then Some(names[n]) else None
  }

  /** The kernel writes the visible entries of the names in `picked` back to disk. */
  function Writeback<N(!new), C>(d: Disk<N, C>, picked: set<N>): (r: Disk<N, C>)
    ensures r.files == d.files && r.visible == d.visible
    ensures forall n :: Entry(r.durable, n) == if n in picked then Entry(d.visible, n) else Entry(d.durable, n)
  {
    d.(durable := map n | n in d.durable.Keys + d.visible.Keys && (if n in picked then n in d.visible else n in d.durable)
                     :: if n in picked then d.visible[n] else d.durable[n])
  }

  /** A successful `fsync` of the directory. */
  function SyncDirectory<N, C>(d: Disk<N, C>): (r: Disk<N, C>)
  {
    d.(durable := d.visible)
  }

  /** Power loss.  The entries of `picked` happened to reach the disk in time, and data that
      was never synced may be torn: `torn` says what is left of it. */
  function Crash<N(!new), C>(d: Disk<N, C>, picked: set<N>, torn: map<Inode, C>): (r: Disk<N, C>)
  {
    var w := Writeback(d, picked);
    Disk(map i | i in d.files ::
           if d.files[i].synced || i !in torn then d.files[i] else d.files[i].(data := torn[i]),
         w.durable, w.durable)
  }

  /** Each entry on disk is the old one or the visible one: what any mixture of successful,
      failed and spontaneous writing back comes to. */
  ghost predicate Flushed<N(!new), C>(d: Disk<N, C>, r: Disk<N, C>)
  {
    && r.files == d.files && r.visible == d.visible
    && forall n ::
         || Entry(r.durable, n) == Entry(d.durable, n)
         || Entry(r.durable, n) == Entry(d.visible, n)
  }

  lemma SyncFlushes<N(!new), C>(d: Disk<N, C>)
    ensures Flushed(d, SyncDirectory(d))
  {}

  lemma WritebackFlushes<N(!new), C>(d: Disk<N, C>, picked: set<N>)
    ensures Flushed(d, Writeback(d, picked))
  {}
}
