/** Cluster chains and file data of kernel/fs/fat32/fat32_file_system.cpp, read and
    written through the buffer cache of kernel/fs/buf/BufferLayer.cpp. */
module Fat32 {
  import opened Common

  const EOC: nat := 0x0fff_ffff
  const BSIZE: nat := 4096
  const BUFFER_NUM: nat := 20

  /** The part of MsdosInodeInfo and inode that file data depends on: the first
      cluster, the cached cursor, the size, and where the directory entry of the
      file is. */
  datatype Inode = Inode(start: nat, clus: nat, logi: nat, sz: nat, dir: nat, dirOff: nat)

  const ENTRY: nat := 32

  datatype Buf = Buf(valid: bool, blockno: nat, tick: nat, refcnt: nat, data: seq<Byte>)

  type Disk = map<nat, seq<Byte>>
  type Chains = map<nat, seq<nat>>

  /** Who has a cluster: position idx of the chain of file id, or a directory. */
  datatype Owner = File(id: nat, idx: nat) | Directory
  type Owners = map<nat, Owner>

  // ---- The allocation table --------------------------------------------------

  // GetFatEntry: out of range clusters read as all ones.
  function GetEntry(fat: seq<nat>, c: nat): nat {
    if c < |fat| then fat[c] else 0xffff_ffff
  }

  predicate Hop(fat: seq<nat>, ch: seq<nat>, i: nat)
    requires i < |ch|
  {
    && 2 <= ch[i] < |fat|
    && fat[ch[i]] == if i + 1 < |ch| then ch[i + 1] else 0x0fff_ffff
  }

  // ch is a cluster chain in the table, ended by the end mark.
  ghost predicate ChainOk(fat: seq<nat>, ch: seq<nat>) {
    |ch| > 0 && forall i {:trigger Hop(fat, ch, i)} :: 0 <= i < |ch| ==> Hop(fat, ch, i)
  }

  // The chain of a file is its own: every cluster knows its one file and position.
  ghost predicate OwnedBy(owner: Owners, id: nat, ch: seq<nat>) {
    forall i :: 0 <= i < |ch| ==> ch[i] in owner && owner[ch[i]] == File(id, i)
  }

  predicate OwnerOk(o: Owner, chains: Chains, c: nat) {
    o.File? ==> o.id in chains && o.idx < |chains[o.id]| && chains[o.id][o.idx] == c
  }

  ghost predicate FatOk(fat: seq<nat>, chains: Chains, owner: Owners) {
    && |fat| <= EOC
    && (forall id :: id in chains ==> ChainOk(fat, chains[id]) && OwnedBy(owner, id, chains[id]))
    && (forall c :: c in owner ==> 2 <= c < |fat| && fat[c] != 0 && OwnerOk(owner[c], chains, c))
  }

  // The free clusters.
  ghost function FreeSet(fat: seq<nat>): set<nat> {
    set c | 2 <= c < |fat| && fat[c] == 0
  }

  // Marking a free cluster as an end changes no chain.
  lemma MarkOk(fat: seq<nat>, chains: Chains, owner: Owners, c: nat)
    requires FatOk(fat, chains, owner) && 2 <= c < |fat| && fat[c] == 0
    ensures FatOk(fat[c := EOC], chains, owner) && c !in owner
    ensures FreeSet(fat[c := EOC]) == FreeSet(fat) - {c}
  {
    var fat' := fat[c := EOC];
    forall id | id in chains ensures ChainOk(fat', chains[id]) {
      forall i {:trigger Hop(fat', chains[id], i)} | 0 <= i < |chains[id]| ensures Hop(fat', chains[id], i) {
        assert Hop(fat, chains[id], i);
      }
    }
  }

  // Linking a marked cluster behind the last one of a chain.
  lemma LinkOk(fat: seq<nat>, chains: Chains, owner: Owners, id: nat, c: nat)
    requires FatOk(fat, chains, owner) && id in chains && 2 <= c < |fat| && fat[c] == EOC && c !in owner
    ensures var ch := chains[id]; var last := ch[|ch| - 1];
            && 2 <= last < |fat| && fat[last] == EOC
            && FatOk(fat[last := c], chains[id := ch + [c]], owner[c := File(id, |ch|)])
            && FreeSet(fat[last := c]) == FreeSet(fat)
  {
    var ch := chains[id];
    var last := ch[|ch| - 1];
    assert Hop(fat, ch, |ch| - 1);
    var fat', chains' := fat[last := c], chains[id := ch + [c]];
    forall f | f in chains' ensures ChainOk(fat', chains'[f]) && OwnedBy(owner[c := File(id, |ch|)], f, chains'[f]) {
      forall i {:trigger Hop(fat', chains'[f], i)} | 0 <= i < |chains'[f]| ensures Hop(fat', chains'[f], i) {
        if i < |chains[f]| { assert Hop(fat, chains[f], i); }
        assert i < |chains[f]| ==> chains[f][i] in owner && owner[chains[f][i]] == File(f, i);
      }
    }
  }

  // ---- File contents -----------------------------------------------------------

  ghost predicate DiskOk(disk: Disk, n: nat) {
    forall c :: 2 <= c < n ==> c in disk && |disk[c]| == BSIZE
  }

  function ByteAt(disk: Disk, ch: seq<nat>, x: nat): Byte {
    if x / BSIZE < |ch| && ch[x / BSIZE] in disk && |disk[ch[x / BSIZE]]| == BSIZE
    then disk[ch[x / BSIZE]][x % BSIZE] else 0
  }

  // The file as a flat byte sequence.
  function Content(disk: Disk, ch: seq<nat>, sz: nat): (s: seq<Byte>)
    ensures |s| == sz && forall x :: 0 <= x < sz ==> s[x] == ByteAt(disk, ch, x)
  {
    seq(sz, x requires 0 <= x < sz => ByteAt(disk, ch, x))
  }

  // Writing d at offset o of s, growing s when d goes past its end.
  function Splice(s: seq<Byte>, o: nat, d: seq<Byte>): seq<Byte>
    requires o <= |s|
  {
    s[..o] + d + if o + |d| < |s| then s[o + |d|..] else []
  }

  lemma SpliceTwice(s: seq<Byte>, o: nat, d: seq<Byte>, e: seq<Byte>)
    requires o <= |s|
    ensures o + |d| <= |Splice(s, o, d)|
    ensures Splice(Splice(s, o, d), o + |d|, e) == Splice(s, o, d + e)
  {
  }

  lemma SameContent(disk: Disk, disk': Disk, ch: seq<nat>, ch': seq<nat>, sz: nat)
    requires ch <= ch' && sz <= |ch| * BSIZE
    requires forall i :: 0 <= i < |ch| ==>
               (ch[i] in disk <==> ch[i] in disk') && (ch[i] in disk ==> disk'[ch[i]] == disk[ch[i]])
    ensures Content(disk', ch', sz) == Content(disk, ch, sz)
  {
    forall x: nat | x < sz ensures ByteAt(disk', ch', x) == ByteAt(disk, ch, x) {
      assert x / BSIZE < |ch| && ch'[x / BSIZE] == ch[x / BSIZE];
    }
  }

  // Byte y of the cluster at position idx of a chain belongs to a file of size sz.
  predicate InFile(idx: nat, y: nat, sz: nat) { idx * BSIZE + y < sz }

  lemma SplitOffset(x: nat, k: nat, y: nat)
    requires x == k * BSIZE + y && y < BSIZE
    ensures x / BSIZE == k && x % BSIZE == y
  {
  }

  // New data for the cluster at position k: d at offset mod, and the old bytes of the file elsewhere.
  ghost predicate ClusterWrite(old_: seq<Byte>, new_: seq<Byte>, k: nat, mod: nat, d: seq<Byte>, sz: nat) {
    && |old_| == BSIZE == |new_| && mod + |d| <= BSIZE
    && new_[mod..mod + |d|] == d
    && forall y :: 0 <= y < BSIZE && InFile(k, y, sz) && !(mod <= y < mod + |d|) ==> new_[y] == old_[y]
  }

  lemma WriteContent(disk: Disk, owner: Owners, id: nat, ch: seq<nat>, sz: nat, k: nat, mod: nat, d: seq<Byte>,
                     new_: seq<Byte>)
    requires k < |ch| && OwnedBy(owner, id, ch) && ch[k] in disk && sz <= |ch| * BSIZE
    requires ClusterWrite(disk[ch[k]], new_, k, mod, d, sz) && k * BSIZE + mod <= sz
    ensures var o := k * BSIZE + mod;
            Content(disk[ch[k] := new_], ch, if sz < o + |d| then o + |d| else sz) ==
            Splice(Content(disk, ch, sz), o, d)
  {
    var o := k * BSIZE + mod;
    var disk' := disk[ch[k] := new_];
    var sz' := if sz < o + |d| then o + |d| else sz;
    var s, s' := Splice(Content(disk, ch, sz), o, d), Content(disk', ch, sz');
    assert |s| == |s'|;
    forall x: nat | x < |s| ensures s[x] == s'[x] {
      SplitOffset(x, x / BSIZE, x % BSIZE);
      WriteByte(disk, owner, id, ch, sz, k, mod, d, new_, x);
    }
  }

  lemma WriteByte(disk: Disk, owner: Owners, id: nat, ch: seq<nat>, sz: nat, k: nat, mod: nat, d: seq<Byte>,
                  new_: seq<Byte>, x: nat)
    requires k < |ch| && OwnedBy(owner, id, ch) && ch[k] in disk && x / BSIZE < |ch|
    requires ClusterWrite(disk[ch[k]], new_, k, mod, d, sz)
    ensures var o := k * BSIZE + mod;
            && (o <= x < o + |d| ==> ByteAt(disk[ch[k] := new_], ch, x) == d[x - o])
            && (x < sz && !(o <= x < o + |d|) ==> ByteAt(disk[ch[k] := new_], ch, x) == ByteAt(disk, ch, x))
  {
    var j, y := x / BSIZE, x % BSIZE;
    assert x == j * BSIZE + y;
    var o := k * BSIZE + mod;
    if o <= x < o + |d| {
      SplitOffset(x, k, x - k * BSIZE);
      assert new_[mod..mod + |d|][x - o] == new_[y];
    }
    if j == k && x < sz && !(o <= x < o + |d|) { assert InFile(k, y, sz); }
    if j != k { assert ch[j] != ch[k]; }
  }

  // ---- The buffer cache ----------------------------------------------------------

  /** Every valid buffer agrees with the disk on the bytes that belong to a file. (It
      may hold old bytes of a cluster that was freed and zeroed on disk since.) */
  ghost predicate Agrees(b: Buf, disk: Disk, owner: Owners, szs: map<nat, nat>)
    requires |b.data| == BSIZE
  {
    (b.valid && b.blockno in owner && owner[b.blockno].File? && owner[b.blockno].id in szs
     && b.blockno in disk && |disk[b.blockno]| == BSIZE) ==>
      forall y :: 0 <= y < BSIZE && InFile(owner[b.blockno].idx, y, szs[owner[b.blockno].id]) ==>
        b.data[y] == disk[b.blockno][y]
  }

  ghost predicate CacheOk(bufs: seq<Buf>) {
    && |bufs| == BUFFER_NUM
    && (forall i :: 0 <= i < |bufs| ==> |bufs[i].data| == BSIZE)
    && (forall i, j :: 0 <= i < j < |bufs| && bufs[i].blockno == bufs[j].blockno ==> bufs[i].blockno < 2)
  }

  ghost predicate Coherent(bufs: seq<Buf>, disk: Disk, owner: Owners, szs: map<nat, nat>) {
    forall i :: 0 <= i < |bufs| && |bufs[i].data| == BSIZE ==> Agrees(bufs[i], disk, owner, szs)
  }

  // ---- The file system ---------------------------------------------------------

  // The cursor of an inode stands on its chain.
  predicate CursorOk(ip: Inode, ch: seq<nat>) {
    |ch| > 0 && ip.start == ch[0] && ip.logi < |ch| && ip.clus == ch[ip.logi]
  }

  ghost predicate InodesOk(inodes: map<nat, Inode>, chains: Chains, owner: Owners, szs: map<nat, nat>) {
    && inodes.Keys <= chains.Keys == szs.Keys
    && (forall id :: id in szs ==> szs[id] <= |chains[id]| * BSIZE)
    && forall id :: id in inodes ==>
         && CursorOk(inodes[id], chains[id])
         && inodes[id].dir in owner && owner[inodes[id].dir] == Directory && inodes[id].dirOff + ENTRY <= BSIZE
  }

  // An open file has its size in its inode.
  ghost predicate SizesMatch(inodes: map<nat, Inode>, sizes: map<nat, nat>) {
    forall id :: id in inodes ==> id in sizes && inodes[id].sz == sizes[id]
  }

  // The contents of all files are as before.
  ghost predicate SameFiles(disk: Disk, chains: Chains, disk': Disk, chains': Chains, szs: map<nat, nat>) {
    && szs.Keys <= chains.Keys && szs.Keys <= chains'.Keys
    && forall id :: id in szs ==> Content(disk', chains'[id], szs[id]) == Content(disk, chains[id], szs[id])
  }

  // Zeroing a cluster that no file has, behind the cache.
  lemma ZeroOk(bufs: seq<Buf>, disk: Disk, fat: seq<nat>, chains: Chains, owner: Owners, szs: map<nat, nat>, c: nat,
               z: seq<Byte>)
    requires FatOk(fat, chains, owner) && DiskOk(disk, |fat|) && Coherent(bufs, disk, owner, szs) && c !in owner
    requires |z| == BSIZE
    requires szs.Keys <= chains.Keys && forall id :: id in szs ==> szs[id] <= |chains[id]| * BSIZE
    ensures DiskOk(disk[c := z], |fat|) && Coherent(bufs, disk[c := z], owner, szs)
    ensures SameFiles(disk, chains, disk[c := z], chains, szs)
  {
    var disk' := disk[c := z];
    forall i | 0 <= i < |bufs| && |bufs[i].data| == BSIZE ensures Agrees(bufs[i], disk', owner, szs) {
      assert Agrees(bufs[i], disk, owner, szs);
    }
    forall id | id in szs ensures Content(disk', chains[id], szs[id]) == Content(disk, chains[id], szs[id]) {
      assert OwnedBy(owner, id, chains[id]);
      SameContent(disk, disk', chains[id], chains[id], szs[id]);
    }
  }

  // A chain that grows past the end of its file shows no new byte of it.
  lemma GrowOk(bufs: seq<Buf>, disk: Disk, chains: Chains, owner: Owners, szs: map<nat, nat>, id: nat, c: nat)
    requires Coherent(bufs, disk, owner, szs) && c !in owner && id in chains && id in szs
    requires szs[id] <= |chains[id]| * BSIZE
    requires szs.Keys <= chains.Keys
    ensures Coherent(bufs, disk, owner[c := File(id, |chains[id]|)], szs)
    ensures SameFiles(disk, chains, disk, chains[id := chains[id] + [c]], szs)
  {
    var owner' := owner[c := File(id, |chains[id]|)];
    forall i | 0 <= i < |bufs| && |bufs[i].data| == BSIZE ensures Agrees(bufs[i], disk, owner', szs) {
      assert Agrees(bufs[i], disk, owner, szs);
    }
    SameContent(disk, disk, chains[id], chains[id] + [c], szs[id]);
  }

  lemma SameFilesTrans(d0: Disk, c0: Chains, d1: Disk, c1: Chains, d2: Disk, c2: Chains, szs: map<nat, nat>)
    requires SameFiles(d0, c0, d1, c1, szs) && SameFiles(d1, c1, d2, c2, szs)
    ensures SameFiles(d0, c0, d2, c2, szs)
  {
    hide Content;
  }

  lemma InodesGrow(inodes: map<nat, Inode>, chains: Chains, owner: Owners, szs: map<nat, nat>, id: nat, c: nat)
    requires InodesOk(inodes, chains, owner, szs) && id in chains && c !in owner
    ensures InodesOk(inodes, chains[id := chains[id] + [c]], owner[c := File(id, |chains[id]|)], szs)
  {
  }

  lemma FatSize(fat: seq<nat>, chains: Chains, owner: Owners)
    requires FatOk(fat, chains, owner)
    ensures |fat| <= EOC
  {
  }

  lemma InodeKeys(inodes: map<nat, Inode>, chains: Chains, owner: Owners, szs: map<nat, nat>)
    requires InodesOk(inodes, chains, owner, szs)
    ensures inodes.Keys <= chains.Keys == szs.Keys
    ensures forall id :: id in szs ==> szs[id] <= |chains[id]| * BSIZE
  {
  }

  lemma InodeFacts(inodes: map<nat, Inode>, chains: Chains, owner: Owners, szs: map<nat, nat>, id: nat)
    requires InodesOk(inodes, chains, owner, szs) && id in inodes
    ensures id in chains && inodes.Keys <= chains.Keys == szs.Keys && CursorOk(inodes[id], chains[id])
    ensures forall g :: g in szs ==> szs[g] <= |chains[g]| * BSIZE
  {
  }

  lemma HopFacts(fat: seq<nat>, chains: Chains, owner: Owners, id: nat, i: nat)
    requires FatOk(fat, chains, owner) && id in chains && i < |chains[id]|
    ensures 2 <= chains[id][i] < |fat| <= EOC
    ensures fat[chains[id][i]] == if i + 1 < |chains[id]| then chains[id][i + 1] else EOC
    ensures fat[chains[id][i]] == EOC <==> i + 1 == |chains[id]|
    ensures chains[id][i] in owner && owner[chains[id][i]] == File(id, i)
    ensures forall c :: c in owner && owner[c] == File(id, i) ==> c == chains[id][i]
  {
    assert Hop(fat, chains[id], i);
    if i + 1 < |chains[id]| { assert Hop(fat, chains[id], i + 1); }
  }

  lemma FreeFacts(fat: seq<nat>, c: nat)
    ensures c in FreeSet(fat) <==> 2 <= c < |fat| && fat[c] == 0
  {
  }

  lemma Reflexive(disk: Disk, chains: Chains, szs: map<nat, nat>)
    requires szs.Keys <= chains.Keys
    ensures SameFiles(disk, chains, disk, chains, szs)
  {
  }

  // Only the chain of id grew, with clusters that were free, and up to position k at most.
  ghost predicate Extended(chains: Chains, chains': Chains, id: nat, k: nat, fat: seq<nat>, fat': seq<nat>) {
    && chains'.Keys == chains.Keys && id in chains
    && (forall g :: g in chains && g != id ==> chains'[g] == chains[g])
    && chains[id] <= chains'[id]
    && (if |chains'[id]| > |chains[id]| then |chains'[id]| <= k + 1 else fat' == fat)
    && (forall j :: |chains[id]| <= j < |chains'[id]| ==> chains'[id][j] in FreeSet(fat))
    && FreeSet(fat') <= FreeSet(fat)
    && |FreeSet(fat')| + |chains'[id]| == |FreeSet(fat)| + |chains[id]|
  }

  lemma CanGrow(chains: Chains, chains': Chains, id: nat, i: nat, fat: seq<nat>, fat': seq<nat>, k: nat)
    requires Extended(chains, chains', id, i, fat, fat') && i < k && k + 1 <= |chains[id]| + |FreeSet(fat)|
    ensures i + 1 == |chains'[id]| ==> FreeSet(fat') != {}
  {
  }

  lemma ExtendedMore(c0: Chains, c1: Chains, c2: Chains, id: nat, i: nat, f0: seq<nat>, f1: seq<nat>, f2: seq<nat>,
                     now: nat)
    requires Extended(c0, c1, id, i, f0, f1) && c2.Keys == c1.Keys && i < |c1[id]|
    requires forall g :: g in c2 && g != id ==> c2[g] == c1[g]
    requires i + 1 < |c1[id]| ==> c2 == c1 && f2 == f1
    requires i + 1 == |c1[id]| ==> c2[id] == c1[id] + [now] && now in FreeSet(f1) && FreeSet(f2) == FreeSet(f1) - {now}
    ensures Extended(c0, c2, id, i + 1, f0, f2)
  {
    hide FreeSet;
  }

  lemma CursorMoved(inodes: map<nat, Inode>, chains: Chains, owner: Owners, szs: map<nat, nat>, id: nat, k: nat)
    requires InodesOk(inodes, chains, owner, szs) && id in inodes && k < |chains[id]|
    ensures InodesOk(inodes[id := inodes[id].(logi := k, clus := chains[id][k])], chains, owner, szs)
  {
  }

  // The size of a file of size sz after a write of n bytes at o.
  function Grown(sz: nat, o: nat, n: nat): nat { if sz < o + n then o + n else sz }

  lemma ReadAgrees(bufs: seq<Buf>, bufs': seq<Buf>, b: nat, disk: Disk, owner: Owners, szs: map<nat, nat>)
    requires Coherent(bufs, disk, owner, szs) && CacheOk(bufs) && CacheOk(bufs') && b < |bufs|
    requires bufs' == bufs[b := bufs'[b]]
    requires bufs'[b].blockno in disk
    requires bufs'[b].data ==
               if bufs[b].valid && bufs[b].blockno == bufs'[b].blockno then bufs[b].data else disk[bufs'[b].blockno]
    ensures Coherent(bufs', disk, owner, szs) && Agrees(bufs'[b], disk, owner, szs)
  {
    forall i | 0 <= i < |bufs'| && |bufs'[i].data| == BSIZE ensures Agrees(bufs'[i], disk, owner, szs) {
      assert Agrees(bufs[i], disk, owner, szs);
    }
  }

  lemma Released(bufs: seq<Buf>, bufs': seq<Buf>, b: nat, disk: Disk, owner: Owners, szs: map<nat, nat>)
    requires Coherent(bufs, disk, owner, szs) && CacheOk(bufs) && b < |bufs| == |bufs'|
    requires bufs' == bufs[b := bufs[b].(refcnt := bufs'[b].refcnt)]
    ensures Coherent(bufs', disk, owner, szs) && CacheOk(bufs')
  {
    forall i | 0 <= i < |bufs'| && |bufs'[i].data| == BSIZE ensures Agrees(bufs'[i], disk, owner, szs) {
      assert Agrees(bufs[i], disk, owner, szs);
    }
  }

  // A coherent buffer, changed in place, is the right new data for its cluster.
  lemma StoreWrites(b: Buf, disk: Disk, owner: Owners, szs: map<nat, nat>, id: nat, k: nat, mod: nat, d: seq<Byte>)
    requires b.valid && |b.data| == BSIZE && Agrees(b, disk, owner, szs) && b.blockno in disk
    requires |disk[b.blockno]| == BSIZE
    requires b.blockno in owner && owner[b.blockno] == File(id, k) && id in szs && mod + |d| <= BSIZE
    ensures ClusterWrite(disk[b.blockno], b.data[..mod] + d + b.data[mod + |d|..], k, mod, d, szs[id])
  {
  }

  // Writing the buffer through keeps the cache coherent, also for the bytes that become part of the file.
  lemma StoreCoherent(bufs: seq<Buf>, bufs': seq<Buf>, b: nat, disk: Disk, disk': Disk, owner: Owners,
                      szs: map<nat, nat>,
                      id: nat, sz': nat, k: nat, mod: nat, d: seq<Byte>)
    requires Coherent(bufs, disk, owner, szs) && CacheOk(bufs) && b < |bufs| && bufs[b].blockno >= 2
    requires |bufs'| == |bufs|
    requires bufs' == bufs[b := bufs[b].(data := bufs'[b].data)] && |bufs'[b].data| == BSIZE
    requires disk' == disk[bufs[b].blockno := bufs'[b].data]
    requires bufs[b].blockno in owner && owner[bufs[b].blockno] == File(id, k) && id in szs
    requires sz' == Grown(szs[id], k * BSIZE + mod, |d|) && k * BSIZE + mod <= szs[id] && mod + |d| <= BSIZE
    requires forall c :: c in owner && owner[c] == File(id, k) ==> c == bufs[b].blockno
    ensures Coherent(bufs', disk', owner, szs[id := sz']) && CacheOk(bufs')
  {
    var c, szs' := bufs[b].blockno, szs[id := sz'];
    forall i | 0 <= i < |bufs'| && |bufs'[i].data| == BSIZE ensures Agrees(bufs'[i], disk', owner, szs') {
      assert Agrees(bufs[i], disk, owner, szs);
      if i != b { OtherCluster(bufs[i], disk, owner, szs, id, sz', k, c); }
    }
  }

  // Growing a file within its cluster at position k adds no byte to its other clusters.
  lemma OtherCluster(b: Buf, disk: Disk, owner: Owners, szs: map<nat, nat>, id: nat, sz': nat, k: nat, c: nat)
    requires |b.data| == BSIZE && Agrees(b, disk, owner, szs) && id in szs
    requires b.blockno in owner && owner[b.blockno].File? && owner[b.blockno].id == id ==> owner[b.blockno].idx != k
    requires k * BSIZE <= szs[id] && (sz' == szs[id] || sz' <= (k + 1) * BSIZE) && sz' >= szs[id]
    ensures Agrees(b, disk, owner, szs[id := sz'])
  {
  }

  lemma InodesSized(inodes: map<nat, Inode>, chains: Chains, owner: Owners, szs: map<nat, nat>, id: nat, k: nat,
                    mod: nat, n: nat)
    requires InodesOk(inodes, chains, owner, szs) && id in inodes && k < |chains[id]| && mod + n <= BSIZE
    ensures InodesOk(inodes, chains, owner, szs[id := Grown(szs[id], k * BSIZE + mod, n)])
  {
    assert k * BSIZE + mod + n <= |chains[id]| * BSIZE;
  }

  // The part of s in [off, off + n).
  function Window(s: seq<Byte>, off: nat, n: nat): seq<Byte> {
    if off > |s| then [] else if off + n > |s| then s[off..] else s[off..off + n]
  }

  lemma WindowMore(s: seq<Byte>, off: nat, a: nat, b: nat)
    requires off + a + b <= |s|
    ensures Window(s, off, a) + s[off + a..off + a + b] == Window(s, off, a + b)
  {
  }

  lemma EmptyWindow(s: seq<Byte>, off: nat, n: nat)
    ensures off > |s| ==> Window(s, off, n) == []
    ensures Window(s, off, 0) == []
  {
  }

  lemma WholeWindow(s: seq<Byte>, off: nat, n: nat)
    requires off <= |s|
    ensures Window(s, off, n) == Window(s, off, if off + n > |s| then |s| - off else n)
  {
  }

  lemma OneFile(disk: Disk, chains: Chains, disk': Disk, chains': Chains, szs: map<nat, nat>, id: nat)
    requires SameFiles(disk, chains, disk', chains', szs) && id in szs
    ensures id in chains && id in chains' && Content(disk', chains'[id], szs[id]) == Content(disk, chains[id], szs[id])
  {
  }

  lemma InChain(o: nat, sz: nat, len: nat)
    requires o < sz <= len * BSIZE
    ensures o / BSIZE < len
  {
  }

  // Asking for a position inside the chain does not extend it.
  lemma NoGrowth(chains: Chains, chains': Chains, id: nat, k: nat, fat: seq<nat>, fat': seq<nat>)
    requires Extended(chains, chains', id, k, fat, fat') && k < |chains[id]|
    ensures chains' == chains && fat' == fat
  {
    hide FreeSet;
    assert chains'[id] == chains[id];
  }

  lemma ReadChunk(disk: Disk, fat: seq<nat>, chains: Chains, owner: Owners, id: nat, sz: nat, o: nat, n: nat,
                  data: seq<Byte>)
    requires FatOk(fat, chains, owner) && DiskOk(disk, |fat|) && id in chains && o / BSIZE < |chains[id]|
    requires o % BSIZE + n <= BSIZE && o + n <= sz && |data| == BSIZE
    requires forall y ::
               (0 <= y < BSIZE && InFile(o / BSIZE, y, sz) && chains[id][o / BSIZE] in disk &&
                |disk[chains[id][o / BSIZE]]| == BSIZE) ==>
               data[y] == disk[chains[id][o / BSIZE]][y]
    ensures data[o % BSIZE..o % BSIZE + n] == Content(disk, chains[id], sz)[o..o + n]
  {
    var k, mod := o / BSIZE, o % BSIZE;
    HopFacts(fat, chains, owner, id, k);
    var a, b := data[mod..mod + n], Content(disk, chains[id], sz)[o..o + n];
    forall j | 0 <= j < n ensures a[j] == b[j] {
      SplitOffset(o + j, k, mod + j);
      assert InFile(k, mod + j, sz);
    }
  }

  // Only the cursor of id moved.
  ghost predicate SameButCursor(inodes: map<nat, Inode>, inodes': map<nat, Inode>, id: nat) {
    && id in inodes && id in inodes'
    && inodes' == inodes[id := inodes[id].(logi := inodes'[id].logi, clus := inodes'[id].clus)]
  }

  lemma SizesUpdated(inodes0: map<nat, Inode>, inodes: map<nat, Inode>, sizes: map<nat, nat>, id: nat, sz: nat)
    requires SizesMatch(inodes0, sizes) && SameButCursor(inodes0, inodes, id)
    ensures id in inodes && id in inodes0 && inodes[id].sz == inodes0[id].sz
    ensures SizesMatch(inodes[id := inodes[id].(sz := sz)], sizes[id := sz])
    ensures inodes[id := inodes[id].(sz := sz)].Keys == inodes0.Keys
    ensures forall g :: g in inodes0 && g != id ==> inodes[id := inodes[id].(sz := sz)][g] == inodes0[g]
  {
  }

  lemma SizesKept(inodes0: map<nat, Inode>, inodes: map<nat, Inode>, sizes: map<nat, nat>, id: nat)
    requires SizesMatch(inodes0, sizes) && SameButCursor(inodes0, inodes, id)
    ensures SizesMatch(inodes, sizes)
  {
  }

  lemma CursorTwice(i0: map<nat, Inode>, i1: map<nat, Inode>, i2: map<nat, Inode>, id: nat)
    requires SameButCursor(i0, i1, id) && SameButCursor(i1, i2, id)
    ensures SameButCursor(i0, i2, id)
  {
  }

  // The chain of id can be extended to hold size bytes.
  ghost predicate Room(size: nat, chains: Chains, id: nat, fat: seq<nat>) {
    id in chains && size <= (|chains[id]| + |FreeSet(fat)|) * BSIZE
  }

  lemma RoomFor(o: nat, n: nat, chains: Chains, id: nat, fat: seq<nat>)
    requires Room(o + n, chains, id, fat) && n > 0
    ensures o / BSIZE + 1 <= |chains[id]| + |FreeSet(fat)|
  {
    InChain(o, o + n, |chains[id]| + |FreeSet(fat)|);
  }

  lemma RoomKept(size: nat, chains: Chains, chains': Chains, id: nat, k: nat, fat: seq<nat>, fat': seq<nat>)
    requires Room(size, chains, id, fat) && Extended(chains, chains', id, k, fat, fat')
    ensures Room(size, chains', id, fat')
  {
    hide FreeSet;
  }

  // File id has d written at o; every other file is as before.
  ghost predicate Wrote(disk: Disk, chains: Chains, disk': Disk, chains': Chains, szs: map<nat, nat>, id: nat, o: nat,
                        d: seq<Byte>) {
    && szs.Keys <= chains.Keys && szs.Keys <= chains'.Keys && id in szs && o <= szs[id]
    && Content(disk', chains'[id], Grown(szs[id], o, |d|)) == Splice(Content(disk, chains[id], szs[id]), o, d)
    && forall g :: g in szs && g != id ==> Content(disk', chains'[g], szs[g]) == Content(disk, chains[g], szs[g])
  }

  lemma WroteAfterSame(d0: Disk, c0: Chains, d1: Disk, c1: Chains, d2: Disk, c2: Chains, szs: map<nat, nat>, id: nat,
                       o: nat, d: seq<Byte>)
    requires SameFiles(d0, c0, d1, c1, szs) && Wrote(d1, c1, d2, c2, szs, id, o, d)
    ensures Wrote(d0, c0, d2, c2, szs, id, o, d)
  {
    hide Content;
  }

  lemma WroteTwice(d0: Disk, c0: Chains, d1: Disk, c1: Chains, d2: Disk, c2: Chains, szs: map<nat, nat>,
                   id: nat, o: nat, d: seq<Byte>, e: seq<Byte>)
    requires Wrote(d0, c0, d1, c1, szs, id, o, d)
    requires Wrote(d1, c1, d2, c2, szs[id := Grown(szs[id], o, |d|)], id, o + |d|, e)
    ensures Wrote(d0, c0, d2, c2, szs, id, o, d + e)
  {
    hide Content;
    SpliceTwice(Content(d0, c0[id], szs[id]), o, d, e);
    var szs' := szs[id := Grown(szs[id], o, |d|)];
    forall g | g in szs && g != id ensures Content(d2, c2[g], szs[g]) == Content(d0, c0[g], szs[g]) {
      assert g in szs' && szs'[g] == szs[g];
    }
  }

  lemma StoreContents(disk: Disk, fat: seq<nat>, chains: Chains, owner: Owners, szs: map<nat, nat>,
                      id: nat, o: nat, d: seq<Byte>, new_: seq<Byte>)
    requires FatOk(fat, chains, owner) && szs.Keys <= chains.Keys && id in szs && o <= szs[id]
    requires o / BSIZE < |chains[id]|
    requires forall g :: g in szs ==> szs[g] <= |chains[g]| * BSIZE
    requires chains[id][o / BSIZE] in disk
    requires ClusterWrite(disk[chains[id][o / BSIZE]], new_, o / BSIZE, o % BSIZE, d, szs[id])
    ensures Wrote(disk, chains, disk[chains[id][o / BSIZE] := new_], chains, szs, id, o, d)
  {
    var c := chains[id][o / BSIZE];
    HopFacts(fat, chains, owner, id, o / BSIZE);
    WriteContent(disk, owner, id, chains[id], szs[id], o / BSIZE, o % BSIZE, d, new_);
    hide Content, ClusterWrite, ChainOk;
    forall g | g in szs && g != id
      ensures Content(disk[c := new_], chains[g], szs[g]) == Content(disk, chains[g], szs[g])
    {
      assert OwnedBy(owner, g, chains[g]);
      SameContent(disk, disk[c := new_], chains[g], chains[g], szs[g]);
    }
  }

  lemma DirectoryWrite(bufs: seq<Buf>, disk: Disk, fat: seq<nat>, chains: Chains, owner: Owners, szs: map<nat, nat>,
                       c: nat, z: seq<Byte>)
    requires FatOk(fat, chains, owner) && DiskOk(disk, |fat|) && Coherent(bufs, disk, owner, szs) && |z| == BSIZE
    requires c in owner && owner[c] == Directory
    requires szs.Keys <= chains.Keys && forall id :: id in szs ==> szs[id] <= |chains[id]| * BSIZE
    ensures DiskOk(disk[c := z], |fat|) && Coherent(bufs, disk[c := z], owner, szs)
    ensures SameFiles(disk, chains, disk[c := z], chains, szs)
  {
    var disk' := disk[c := z];
    forall i | 0 <= i < |bufs| && |bufs[i].data| == BSIZE ensures Agrees(bufs[i], disk', owner, szs) {
      assert Agrees(bufs[i], disk, owner, szs);
    }
    hide Content, ChainOk;
    forall id | id in szs ensures Content(disk', chains[id], szs[id]) == Content(disk, chains[id], szs[id]) {
      assert OwnedBy(owner, id, chains[id]);
      SameContent(disk, disk', chains[id], chains[id], szs[id]);
    }
  }

  // The directory entry of an inode holds these bytes.
  predicate EntryIs(disk: Disk, ip: Inode, entry: seq<Byte>) {
    && ip.dir in disk && |disk[ip.dir]| == BSIZE && ip.dirOff + 32 <= BSIZE
    && disk[ip.dir][ip.dirOff..ip.dirOff + 32] == entry
  }

  lemma EntryPut(disk: Disk, ip: Inode, entry: seq<Byte>)
    requires ip.dir in disk && |disk[ip.dir]| == BSIZE && ip.dirOff + ENTRY <= BSIZE && |entry| == ENTRY
    ensures var was, at := disk[ip.dir], ip.dirOff;
            var now := was[..at] + entry + was[at + ENTRY..];
            && |now| == BSIZE && EntryIs(disk[ip.dir := now], ip, entry)
            && forall x :: 0 <= x < BSIZE && !(at <= x < at + ENTRY) ==> now[x] == was[x]
  {
  }

  lemma NothingWritten(disk: Disk, chains: Chains, szs: map<nat, nat>, id: nat, o: nat)
    requires szs.Keys <= chains.Keys && id in szs && o <= szs[id]
    ensures Wrote(disk, chains, disk, chains, szs, id, o, [])
  {
    hide Content;
  }

  lemma InodesResized(inodes: map<nat, Inode>, chains: Chains, owner: Owners, szs: map<nat, nat>, id: nat, sz: nat)
    requires InodesOk(inodes, chains, owner, szs) && id in inodes
    ensures InodesOk(inodes[id := inodes[id].(sz := sz)], chains, owner, szs)
  {
  }

  lemma Finished(d0: Disk, c0: Chains, d1: Disk, d2: Disk, c1: Chains, szs: map<nat, nat>, id: nat, o: nat,
                 d: seq<Byte>)
    requires Wrote(d0, c0, d1, c1, szs, id, o, d)
    requires SameFiles(d1, c1, d2, c1, szs[id := Grown(szs[id], o, |d|)])
    ensures Wrote(d0, c0, d2, c1, szs, id, o, d)
  {
    hide Content;
    var szs' := szs[id := Grown(szs[id], o, |d|)];
    forall g | g in szs && g != id ensures Content(d2, c1[g], szs[g]) == Content(d0, c0[g], szs[g]) {
      assert g in szs' && szs'[g] == szs[g];
    }
    assert id in szs';
  }

  function ToSet(s: seq<nat>): set<nat> { set c | c in s }

  ghost predicate Distinct(ch: seq<nat>) {
    forall i, j :: 0 <= i < j < |ch| ==> ch[i] != ch[j]
  }

  lemma ChainDistinct(fat: seq<nat>, chains: Chains, owner: Owners, id: nat)
    requires FatOk(fat, chains, owner) && id in chains
    ensures ChainOk(fat, chains[id]) && Distinct(chains[id])
  {
    assert OwnedBy(owner, id, chains[id]);
  }

  // The owners without those of file id.
  ghost function Without(owner: Owners, id: nat): Owners {
    map c | c in owner && !(owner[c].File? && owner[c].id == id) :: owner[c]
  }

  lemma RemovedFat(fat: seq<nat>, fat': seq<nat>, chains: Chains, owner: Owners, id: nat)
    requires FatOk(fat, chains, owner) && id in chains && |fat'| == |fat|
    requires forall c :: 0 <= c < |fat| ==> fat'[c] == if c in chains[id] then 0 else fat[c]
    ensures FatOk(fat', chains - {id}, Without(owner, id))
    ensures FreeSet(fat') == FreeSet(fat) + ToSet(chains[id])
    ensures |FreeSet(fat')| == |FreeSet(fat)| + |chains[id]|
  {
    var ch, chains', owner' := chains[id], chains - {id}, Without(owner, id);
    assert OwnedBy(owner, id, ch) && ChainOk(fat, ch);
    forall g | g in chains' ensures ChainOk(fat', chains'[g]) && OwnedBy(owner', g, chains'[g]) {
      assert OwnedBy(owner, g, chains[g]) && ChainOk(fat, chains[g]);
      forall i {:trigger Hop(fat', chains[g], i)} | 0 <= i < |chains[g]| ensures Hop(fat', chains[g], i) {
        assert Hop(fat, chains[g], i);
        assert chains[g][i] in owner && owner[chains[g][i]] == File(g, i);
      }
    }
    RemovedFree(fat, fat', chains, owner, id);
  }

  lemma RemovedFree(fat: seq<nat>, fat': seq<nat>, chains: Chains, owner: Owners, id: nat)
    requires FatOk(fat, chains, owner) && id in chains && |fat'| == |fat|
    requires forall c :: 0 <= c < |fat| ==> fat'[c] == if c in chains[id] then 0 else fat[c]
    ensures FreeSet(fat') == FreeSet(fat) + ToSet(chains[id])
    ensures |FreeSet(fat')| == |FreeSet(fat)| + |chains[id]|
  {
    var ch := chains[id];
    assert ChainOk(fat, ch);
    forall i | 0 <= i < |ch| ensures 2 <= ch[i] < |fat| && fat[ch[i]] != 0 { assert Hop(fat, ch, i); }
    assert FreeSet(fat') == FreeSet(fat) + ToSet(ch);
    ChainDistinct(fat, chains, owner, id);
    DistinctCount(ch);
    assert FreeSet(fat) !! ToSet(ch);
  }

  lemma {:induction false} DistinctCount(s: seq<nat>)
    requires Distinct(s)
    ensures |ToSet(s)| == |s|
  {
    if s != [] {
      var r := s[..|s| - 1];
      DistinctCount(r);
      assert s == r + [s[|s| - 1]];
      assert ToSet(s) == ToSet(r) + {s[|s| - 1]};
      assert s[|s| - 1] !in ToSet(r);
    }
  }

  lemma RemovedCache(bufs: seq<Buf>, disk: Disk, owner: Owners, szs: map<nat, nat>, id: nat)
    requires Coherent(bufs, disk, owner, szs)
    ensures Coherent(bufs, disk, Without(owner, id), szs - {id})
  {
    forall i | 0 <= i < |bufs| && |bufs[i].data| == BSIZE
      ensures Agrees(bufs[i], disk, Without(owner, id), szs - {id})
    {
      assert Agrees(bufs[i], disk, owner, szs);
    }
  }

  lemma NewChain(fat: seq<nat>, chains: Chains, owner: Owners, id: nat, c: nat)
    requires FatOk(fat, chains, owner) && id !in chains && 2 <= c < |fat| && fat[c] == EOC && c !in owner
    ensures FatOk(fat, chains[id := [c]], owner[c := File(id, 0)])
  {
    var chains', owner' := chains[id := [c]], owner[c := File(id, 0)];
    forall g | g in chains' ensures ChainOk(fat, chains'[g]) && OwnedBy(owner', g, chains'[g]) {
      if g == id { assert Hop(fat, [c], 0); } else { assert ChainOk(fat, chains[g]) && OwnedBy(owner, g, chains[g]); }
    }
  }

  lemma NewInode(inodes: map<nat, Inode>, chains: Chains, owner: Owners, szs: map<nat, nat>, id: nat, c: nat, dir: nat,
                 dirOff: nat)
    requires InodesOk(inodes, chains, owner, szs) && c !in owner && id !in chains
    requires dir in owner && owner[dir] == Directory && dirOff + ENTRY <= BSIZE
    ensures InodesOk(inodes[id := Inode(c, c, 0, 0, dir, dirOff)], chains[id := [c]], owner[c := File(id, 0)],
              szs[id := 0])
  {
  }

  lemma NewCache(bufs: seq<Buf>, disk: Disk, chains: Chains, owner: Owners, szs: map<nat, nat>, id: nat, c: nat)
    requires Coherent(bufs, disk, owner, szs) && c !in owner && id !in szs && szs.Keys <= chains.Keys && id !in chains
    ensures Coherent(bufs, disk, owner[c := File(id, 0)], szs[id := 0])
    ensures SameFiles(disk, chains, disk, chains[id := [c]], szs)
  {
    hide Content;
    var owner', szs' := owner[c := File(id, 0)], szs[id := 0];
    forall i | 0 <= i < |bufs| && |bufs[i].data| == BSIZE ensures Agrees(bufs[i], disk, owner', szs') {
      assert Agrees(bufs[i], disk, owner, szs);
    }
  }

  lemma InodesRemoved(inodes: map<nat, Inode>, chains: Chains, owner: Owners, szs: map<nat, nat>, id: nat)
    requires InodesOk(inodes, chains, owner, szs)
    ensures InodesOk(inodes - {id}, chains - {id}, Without(owner, id), szs - {id})
  {
  }

  // The highest cluster position that n bytes at off reach.
  function LastCluster(off: nat, n: nat): nat { if n == 0 then off / BSIZE else (off + n - 1) / BSIZE }

  lemma SameCluster(o: nat, n: nat)
    requires n > 0 && o % BSIZE + n <= BSIZE
    ensures LastCluster(o, n) == o / BSIZE
  {
  }

  lemma LastMore(off: nat, a: nat, b: nat)
    requires b > 0
    ensures LastCluster(off, a) <= LastCluster(off, a + b) && LastCluster(off + a, b) == LastCluster(off, a + b)
  {
  }

  lemma NotExtended(chains: Chains, id: nat, k: nat, fat: seq<nat>)
    requires id in chains
    ensures Extended(chains, chains, id, k, fat, fat)
  {
  }

  lemma ExtendedTwice(c0: Chains, c1: Chains, c2: Chains, id: nat, k1: nat, k2: nat, f0: seq<nat>, f1: seq<nat>,
                      f2: seq<nat>)
    requires Extended(c0, c1, id, k1, f0, f1) && Extended(c1, c2, id, k2, f1, f2) && k1 <= k2
    ensures Extended(c0, c2, id, k2, f0, f2)
  {
    hide FreeSet;
    forall j | |c0[id]| <= j < |c2[id]| ensures c2[id][j] in FreeSet(f0) {
      if j < |c1[id]| { assert c2[id][j] == c1[id][j]; }
    }
  }

  // The chain ends up just long enough for what was written, or stays as it was.
  lemma GrewExactly(chains: Chains, chains': Chains, id: nat, off: nat, n: nat, sz: nat, fat: seq<nat>, fat': seq<nat>)
    requires Extended(chains, chains', id, LastCluster(off, n), fat, fat') && n > 0
    requires off + n <= sz <= |chains'[id]| * BSIZE
    ensures |chains'[id]| == if |chains[id]| > LastCluster(off, n) then |chains[id]| else LastCluster(off, n) + 1
  {
    hide FreeSet;
    InChain(off + n - 1, sz, |chains'[id]|);
  }

  // What a finished write says about every file, and about the number of clusters.
  lemma WriteEnds(disk: Disk, chains: Chains, disk': Disk, chains': Chains, szs: map<nat, nat>,
                  id: nat, o: nat, d: seq<Byte>, k: nat, fat: seq<nat>, fat': seq<nat>)
    requires Wrote(disk, chains, disk', chains', szs, id, o, d) && Extended(chains, chains', id, k, fat, fat')
    requires szs.Keys == chains.Keys
    ensures id in chains && id in chains' && id in szs && chains'.Keys == chains.Keys && o <= szs[id]
    ensures Content(disk', chains'[id], Grown(szs[id], o, |d|)) == Splice(Content(disk, chains[id], szs[id]), o, d)
    ensures forall g :: g in chains' && g != id ==>
              chains'[g] == chains[g] && Content(disk', chains'[g], szs[g]) == Content(disk, chains[g], szs[g])
    ensures Clusters(fat', chains') == Clusters(fat, chains)
  {
    hide Content, FreeSet, Clusters;
    ExtendedConserves(chains, chains', id, k, fat, fat');
  }

  // ---- The number of clusters ----------------------------------------------------------------------

  // The clusters of all files.
  ghost function Total(chains: Chains): nat {
    if chains.Keys == {} then 0
    else
      var id :| id in chains;
      |chains[id]| + Total(chains - {id})
  }

  lemma {:induction false} TotalMinus(chains: Chains, id: nat)
    requires id in chains
    ensures Total(chains) == |chains[id]| + Total(chains - {id})
    decreases |chains|
  {
    var k: nat :| k in chains && Total(chains) == |chains[k]| + Total(chains - {k});
    if k != id {
      TotalMinus(chains - {k}, id);
      TotalMinus(chains - {id}, k);
      assert chains - {k} - {id} == chains - {id} - {k};
    }
  }

  lemma TotalSet(chains: Chains, id: nat, ch: seq<nat>)
    ensures Total(chains[id := ch]) == Total(chains - {id}) + |ch|
  {
    TotalMinus(chains[id := ch], id);
    assert chains[id := ch] - {id} == chains - {id};
  }

  // Free clusters and clusters of files together.
  ghost function Clusters(fat: seq<nat>, chains: Chains): nat { |FreeSet(fat)| + Total(chains) }

  /** Growing a chain, making a file and freeing one all leave the number of clusters. */
  lemma ExtendedConserves(chains: Chains, chains': Chains, id: nat, k: nat, fat: seq<nat>, fat': seq<nat>)
    requires Extended(chains, chains', id, k, fat, fat')
    ensures Clusters(fat', chains') == Clusters(fat, chains)
  {
    hide FreeSet;
    TotalMinus(chains, id);
    TotalSet(chains, id, chains'[id]);
    assert chains' == chains[id := chains'[id]];
  }

  lemma CreateConserves(fat: seq<nat>, fat': seq<nat>, chains: Chains, id: nat, c: nat)
    requires id !in chains && c in FreeSet(fat) && FreeSet(fat') == FreeSet(fat) - {c}
    ensures Clusters(fat', chains[id := [c]]) == Clusters(fat, chains)
  {
    hide FreeSet;
    TotalSet(chains, id, [c]);
    assert chains - {id} == chains;
  }

  lemma RemoveConserves(fat: seq<nat>, fat': seq<nat>, chains: Chains, id: nat)
    requires id in chains && |FreeSet(fat')| == |FreeSet(fat)| + |chains[id]|
    ensures Clusters(fat', chains - {id}) == Clusters(fat, chains)
  {
    hide FreeSet;
    TotalMinus(chains, id);
  }

  // ---- Opening -----------------------------------------------------------------------------------

  lemma EmptyCache(bufs: seq<Buf>, disk: Disk, owner: Owners, szs: map<nat, nat>)
    requires |bufs| == BUFFER_NUM
    requires forall i :: 0 <= i < |bufs| ==> !bufs[i].valid && bufs[i].blockno == 0 && |bufs[i].data| == BSIZE
    ensures CacheOk(bufs) && Coherent(bufs, disk, owner, szs)
  {
  }

  lemma InodeOpened(inodes: map<nat, Inode>, chains: Chains, owner: Owners, szs: map<nat, nat>, id: nat, ip: Inode)
    requires InodesOk(inodes, chains, owner, szs) && id in chains && |chains[id]| > 0 && ip.start == chains[id][0]
    requires ip.clus == ip.start && ip.logi == 0
    requires ip.dir in owner && owner[ip.dir] == Directory && ip.dirOff + ENTRY <= BSIZE
    ensures InodesOk(inodes[id := ip], chains, owner, szs) && InodesOk(inodes - {id}, chains, owner, szs)
  {
  }

  // Buffer b now serves the cluster: it did before, or it was in no use, longer than any other.
  ghost predicate Taken(bufs: seq<Buf>, bufs': seq<Buf>, b: nat, cluster: nat, now: nat)
    requires |bufs| == BUFFER_NUM && b < BUFFER_NUM
  {
    if bufs[b].blockno == cluster then
      bufs' == bufs[b := bufs[b].(refcnt := bufs[b].refcnt + 1, tick := now)]
    else
      && bufs' == bufs[b := Buf(false, cluster, now, 1, bufs[b].data)] && bufs[b].refcnt == 0
      && (forall j :: 0 <= j < BUFFER_NUM ==> bufs[j].blockno != cluster)
      && (forall j :: 0 <= j < BUFFER_NUM && bufs[j].refcnt == 0 ==> bufs[b].tick <= bufs[j].tick)
  }

  class FatFs {
    var fat: seq<nat>
    var disk: Disk
    var bufs: seq<Buf>
    var inodes: map<nat, Inode>
    // All files of the disk, open or not: their chains, who has which cluster, their sizes.
    ghost var chains: Chains
    ghost var owner: Owners
    ghost var sizes: map<nat, nat>

    // The invariant, for given file sizes.
    ghost predicate Core(szs: map<nat, nat>)
      reads this
    {
      && FatOk(fat, chains, owner) && DiskOk(disk, |fat|)
      && CacheOk(bufs) && Coherent(bufs, disk, owner, szs)
      && InodesOk(inodes, chains, owner, szs)
      && forall i :: 0 <= i < |bufs| ==> bufs[i].refcnt == 0
    }

    ghost predicate Valid()
      reads this
    {
      Core(sizes) && SizesMatch(inodes, sizes)
    }

    /** Mounting a disk whose files have chains of their own: no file is open and every
        buffer is empty. */
    constructor (fat: seq<nat>, disk: Disk, ghost chains: Chains, ghost owner: Owners, ghost sizes: map<nat, nat>)
      requires FatOk(fat, chains, owner) && DiskOk(disk, |fat|) && sizes.Keys == chains.Keys
      requires forall id :: id in sizes ==> sizes[id] <= |chains[id]| * BSIZE
      ensures Valid() && inodes == map[] && this.fat == fat && this.disk == disk
      ensures this.chains == chains && this.owner == owner && this.sizes == sizes
    {
      this.fat, this.disk, this.inodes := fat, disk, map[];
      var b := Buf(false, 0, 0, 0, seq(BSIZE, _ => 0));
      this.bufs := seq(BUFFER_NUM, _ => b);
      this.chains, this.owner, this.sizes := chains, owner, sizes;
      new;
      EmptyCache(bufs, disk, owner, sizes);
    }

    /** BuildInode: an existing file is opened from what its directory entry says, with the
        cursor on its first cluster; a file already open keeps its inode. */
    method BuildInode(id: nat, start: nat, sz: nat, dir: nat, dirOff: nat)
      requires Valid() && id in chains && |chains[id]| > 0 && start == chains[id][0] && id in sizes && sz == sizes[id]
      requires dir in owner && owner[dir] == Directory && dirOff + ENTRY <= BSIZE
      modifies this`inodes
      ensures Valid() && id in inodes && inodes[id].sz == sizes[id]
      ensures inodes ==
                if id in old(inodes) then old(inodes) else old(inodes)[id := Inode(start, start, 0, sz, dir, dirOff)]
    {
      hide CacheOk, FatOk, Coherent, InodesOk, DiskOk;
      if id in inodes { return; }
      InodeOpened(inodes, chains, owner, sizes, id, Inode(start, start, 0, sz, dir, dirOff));
      inodes := inodes[id := Inode(start, start, 0, sz, dir, dirOff)];
    }

    // DeleteInode: the inode goes, the file stays.
    method DeleteInode(id: nat)
      requires Valid() && id in inodes
      modifies this`inodes
      ensures Valid() && inodes == old(inodes) - {id}
    {
      hide CacheOk, FatOk, Coherent, DiskOk;
      inodes := inodes - {id};
    }

    // The first free cluster becomes the end of a chain, zeroed on disk.
    method AllocCluster(ghost szs: map<nat, nat>) returns (cluster: nat)
      requires Core(szs) && FreeSet(fat) != {}
      modifies this`fat, this`disk
      ensures Core(szs) && |fat| == |old(fat)|
      ensures 2 <= cluster < |fat| && old(fat)[cluster] == 0 && fat == old(fat)[cluster := EOC] && cluster !in owner
      ensures forall c :: 2 <= c < cluster ==> old(fat)[c] != 0
      ensures FreeSet(fat) == FreeSet(old(fat)) - {cluster}
      ensures cluster in disk && disk[cluster] == seq(BSIZE, _ => 0)
      ensures SameFiles(old(disk), chains, disk, chains, szs)
    {
      hide Coherent, CacheOk;
      ghost var w :| w in FreeSet(fat);
      cluster := 2;
      while GetEntry(fat, cluster) != 0
        invariant 2 <= cluster <= w
        invariant forall c :: 2 <= c < cluster ==> fat[c] != 0
        decreases w - cluster
      {
        cluster := cluster + 1;
      }
      MarkOk(fat, chains, owner, cluster);
      ZeroOk(bufs, disk, fat, chains, owner, szs, cluster, seq(BSIZE, _ => 0));
      fat := fat[cluster := EOC];
      disk := disk[cluster := seq(BSIZE, _ => 0)];
    }

    // One hop of bmap: the next cluster, appended when cur is the last.
    method NextCluster(id: nat, cur: nat, ghost i: nat, ghost szs: map<nat, nat>) returns (now: nat)
      requires Core(szs) && id in inodes && i < |chains[id]| && cur == chains[id][i]
      requires i + 1 == |chains[id]| ==> FreeSet(fat) != {}
      modifies this`fat, this`disk, this`chains, this`owner
      ensures Core(szs) && |fat| == |old(fat)| && chains.Keys == old(chains.Keys)
      ensures i + 1 < |chains[id]| && now == chains[id][i + 1]
      ensures forall g :: g in chains && g != id ==> chains[g] == old(chains)[g]
      ensures i + 1 < |old(chains)[id]| ==> chains == old(chains) && fat == old(fat)
      ensures i + 1 == |old(chains)[id]| ==>
                && chains[id] == old(chains)[id] + [now] && now in FreeSet(old(fat))
                && FreeSet(fat) == FreeSet(old(fat)) - {now}
      ensures SameFiles(old(disk), old(chains), disk, chains, szs)
    {
      hide Coherent, CacheOk, FatOk, InodesOk, DiskOk, SameFiles, FreeSet;
      InodeFacts(inodes, chains, owner, szs, id);
      HopFacts(fat, chains, owner, id, i);
      Reflexive(disk, chains, szs);
      now := GetEntry(fat, cur);
      if now == EOC {
        now := AllocCluster(szs);
        FreeFacts(old(fat), now);
        LinkOk(fat, chains, owner, id, now);
        GrowOk(bufs, disk, chains, owner, szs, id, now);
        InodesGrow(inodes, chains, owner, szs, id, now);
        SameFilesTrans(old(disk), chains, disk, chains, disk, chains[id := chains[id] + [now]], szs);
        fat := fat[cur := now];
        owner := owner[now := File(id, |chains[id]|)];
        chains := chains[id := chains[id] + [now]];
      }
    }

    /** bmap: started from the cached cursor, it finds what a walk from the first
        cluster finds, extending this chain, and no further than needed. */
    method Bmap(id: nat, k: nat, ghost szs: map<nat, nat>) returns (cur: nat)
      requires Core(szs) && id in inodes && k + 1 <= |chains[id]| + |FreeSet(fat)|
      modifies this`fat, this`disk, this`chains, this`owner, this`inodes
      ensures Core(szs) && |fat| == |old(fat)|
      ensures Extended(old(chains), chains, id, k, old(fat), fat)
      ensures k < |chains[id]| && cur == chains[id][k]
      ensures inodes == old(inodes)[id := old(inodes)[id].(logi := k, clus := cur)]
      ensures SameFiles(old(disk), old(chains), disk, chains, szs)
    {
      hide Coherent, CacheOk, FatOk, InodesOk, DiskOk, SameFiles, FreeSet;
      InodeFacts(inodes, chains, owner, szs, id);
      Reflexive(disk, chains, szs);
      var i := 0;
      cur := inodes[id].start;
      if k >= inodes[id].logi {
        cur, i := inodes[id].clus, inodes[id].logi;
      }
      while i < k && cur != EOC
        invariant Core(szs) && |fat| == |old(fat)| && inodes == old(inodes)
        invariant chains.Keys == old(chains.Keys)
        invariant i <= k && i < |chains[id]| && cur == chains[id][i]
        invariant Extended(old(chains), chains, id, i, old(fat), fat)
        invariant SameFiles(old(disk), old(chains), disk, chains, szs)
      {
        ghost var chains0, fat0, disk0 := chains, fat, disk;
        CanGrow(old(chains), chains, id, i, old(fat), fat, k);
        cur := NextCluster(id, cur, i, szs);
        ExtendedMore(old(chains), chains0, chains, id, i, old(fat), fat0, fat, cur);
        SameFilesTrans(old(disk), old(chains), disk0, chains0, disk, chains, szs);
        i := i + 1;
      }
      HopFacts(fat, chains, owner, id, i);
      CursorMoved(inodes, chains, owner, szs, id, k);
      inodes := inodes[id := inodes[id].(logi := k, clus := cur)];
    }

    /** allocBuffer: the buffer of the cluster, in use or not, or else the one in no use that
        was used longest ago, taken over for it. false stands for its panic, which comes
        exactly when the cluster is in no buffer and every buffer is in use. */
    method AllocBuffer(cluster: nat, now: nat) returns (ok: bool, b: nat)
      requires CacheOk(bufs) && cluster >= 2
      modifies this`bufs
      ensures ok <==> exists i :: 0 <= i < BUFFER_NUM && (old(bufs)[i].blockno == cluster || old(bufs)[i].refcnt == 0)
      ensures !ok ==> bufs == old(bufs)
      ensures ok ==> b < BUFFER_NUM && CacheOk(bufs) && Taken(old(bufs), bufs, b, cluster, now)
    {
      var earliest, i := -1, 0;
      while i < BUFFER_NUM
        invariant 0 <= i <= BUFFER_NUM && -1 <= earliest < i && bufs == old(bufs)
        invariant forall j :: 0 <= j < i ==> bufs[j].blockno != cluster
        invariant earliest >= 0 ==> bufs[earliest].refcnt == 0
        invariant forall j :: 0 <= j < i && bufs[j].refcnt == 0 ==> earliest >= 0 && bufs[earliest].tick <= bufs[j].tick
      {
        if bufs[i].refcnt == 0 && (earliest == -1 || bufs[i].tick < bufs[earliest].tick) {
          earliest := i;
        }
        if bufs[i].blockno == cluster {
          bufs := bufs[i := bufs[i].(refcnt := bufs[i].refcnt + 1, tick := now)];
          return true, i;
        }
        i := i + 1;
      }
      if earliest == -1 { return false, 0; }
      b := earliest;
      bufs := bufs[b := bufs[b].(valid := false, refcnt := 1, blockno := cluster, tick := now)];
      return true, b;
    }

    // read: a buffer with the data of the cluster, from the cache or from disk.
    method ReadBuf(cluster: nat) returns (ok: bool, b: nat)
      requires CacheOk(bufs) && 2 <= cluster && cluster in disk && |disk[cluster]| == BSIZE
      modifies this`bufs
      ensures ok <==> exists i :: 0 <= i < BUFFER_NUM && (old(bufs)[i].blockno == cluster || old(bufs)[i].refcnt == 0)
      ensures !ok ==> bufs == old(bufs)
      ensures ok ==>
                && b < BUFFER_NUM && CacheOk(bufs) && bufs == old(bufs)[b := bufs[b]]
                && bufs[b].valid && bufs[b].blockno == cluster
                && bufs[b].refcnt == (if old(bufs)[b].blockno == cluster then old(bufs)[b].refcnt + 1 else 1)
                && bufs[b].data ==
                     if old(bufs)[b].valid && old(bufs)[b].blockno == cluster then old(bufs)[b].data else disk[cluster]
    {
      var now: nat := *;
      ok, b := AllocBuffer(cluster, now);
      if !ok { return; }
      if !bufs[b].valid {
        bufs := bufs[b := bufs[b].(data := disk[cluster])];
      }
      bufs := bufs[b := bufs[b].(valid := true)];
    }

    method FreeBuffer(b: nat)
      requires b < |bufs| && bufs[b].refcnt > 0
      modifies this`bufs
      ensures bufs == old(bufs)[b := old(bufs)[b].(refcnt := old(bufs)[b].refcnt - 1)]
    {
      bufs := bufs[b := bufs[b].(refcnt := bufs[b].refcnt - 1)];
    }

    // Reading the cluster at position k of a file through the cache, and letting it go again.
    method Fetch(id: nat, k: nat, cluster: nat, ghost szs: map<nat, nat>) returns (data: seq<Byte>)
      requires Core(szs) && id in inodes && k < |chains[id]| && cluster == chains[id][k]
      modifies this`bufs
      ensures Core(szs) && |data| == BSIZE
      ensures forall y :: 0 <= y < BSIZE && InFile(k, y, szs[id]) ==> data[y] == disk[cluster][y]
    {
      hide FatOk, InodesOk;
      InodeFacts(inodes, chains, owner, szs, id);
      HopFacts(fat, chains, owner, id, k);
      assert bufs[0].refcnt == 0;
      var _, b := ReadBuf(cluster);
      data := bufs[b].data;
      ReadAgrees(old(bufs), bufs, b, disk, owner, szs);
      ghost var held := bufs;
      FreeBuffer(b);
      Released(held, bufs, b, disk, owner, szs);
    }

    // Writing d into the cluster at position k of a file: read it, change the buffer, write it through.
    method Store(id: nat, k: nat, cluster: nat, mod: nat, d: seq<Byte>, ghost szs: map<nat, nat>)
      returns (ghost new_: seq<Byte>)
      requires Core(szs) && id in inodes && k < |chains[id]| && cluster == chains[id][k] && mod + |d| <= BSIZE
      requires k * BSIZE + mod <= szs[id]
      modifies this`bufs, this`disk
      ensures Core(szs[id := Grown(szs[id], k * BSIZE + mod, |d|)])
      ensures cluster in old(disk) && disk == old(disk)[cluster := new_]
      ensures ClusterWrite(old(disk)[cluster], new_, k, mod, d, szs[id])
    {
      hide FatOk, InodesOk, ClusterWrite;
      InodeFacts(inodes, chains, owner, szs, id);
      HopFacts(fat, chains, owner, id, k);
      assert bufs[0].refcnt == 0;
      var _, b := ReadBuf(cluster);
      ReadAgrees(old(bufs), bufs, b, disk, owner, szs);
      new_ := bufs[b].data[..mod] + d + bufs[b].data[mod + |d|..];
      StoreWrites(bufs[b], disk, owner, szs, id, k, mod, d);
      ghost var held := bufs;
      bufs := bufs[b := bufs[b].(data := bufs[b].data[..mod] + d + bufs[b].data[mod + |d|..])];
      disk := disk[bufs[b].blockno := bufs[b].data];
      StoreCoherent(held, bufs, b, old(disk), disk, owner, szs, id, Grown(szs[id], k * BSIZE + mod, |d|), k, mod, d);
      InodesSized(inodes, chains, owner, szs, id, k, mod, |d|);
      held := bufs;
      FreeBuffer(b);
      Released(held, bufs, b, disk, owner, szs[id := Grown(szs[id], k * BSIZE + mod, |d|)]);
    }

    // ReadInode returns exactly the part of the file that lies in [off, off + n).
    method ReadInode(id: nat, off: nat, n: nat) returns (out: seq<Byte>)
      requires Valid() && id in inodes
      modifies this`fat, this`disk, this`chains, this`owner, this`inodes, this`bufs
      ensures Valid() && fat == old(fat) && chains == old(chains) && SameButCursor(old(inodes), inodes, id)
      ensures SameFiles(old(disk), chains, disk, chains, sizes)
      ensures id in chains && out == Window(Content(disk, chains[id], old(inodes)[id].sz), off, n)
      ensures Clusters(fat, chains) == Clusters(old(fat), old(chains))
    {
      hide Coherent, CacheOk, FatOk, InodesOk, DiskOk, FreeSet, Content, SameFiles, Window, SizesMatch;
      SizeOf(id);
      InodeFacts(inodes, chains, owner, sizes, id);
      Reflexive(disk, chains, sizes);
      var sz := inodes[id].sz;
      EmptyWindow(Content(disk, chains[id], sz), off, n);
      if off > sz { return []; }
      var m := if off + n > sz then sz - off else n;
      out := [];
      while |out| < m
        invariant |out| <= m && Core(sizes) && SameButCursor(old(inodes), inodes, id)
        invariant fat == old(fat) && chains == old(chains) && id in chains && id in sizes && sizes[id] == sz
        invariant SameFiles(old(disk), chains, disk, chains, sizes)
        invariant out == Window(Content(disk, chains[id], sz), off, |out|)
        decreases m - |out|
      {
        ghost var disk0, inodes0 := disk, inodes;
        var chunk := ReadPart(id, off + |out|, m - |out|);
        SameFilesTrans(old(disk), chains, disk0, chains, disk, chains, sizes);
        CursorTwice(old(inodes), inodes0, inodes, id);
        OneFile(disk0, chains, disk, chains, sizes, id);
        WindowMore(Content(disk, chains[id], sz), off, |out|, |chunk|);
        out := out + chunk;
      }
      SizesKept(old(inodes), inodes, sizes, id);
      WholeWindow(Content(disk, chains[id], sz), off, n);
    }

    lemma SizeOf(id: nat)
      requires Valid() && id in inodes
      ensures id in sizes && inodes[id].sz == sizes[id]
    {
    }

    // One round of the loop of ReadInode: what is wanted, up to the end of the cluster.
    method ReadPart(id: nat, o: nat, want: nat) returns (chunk: seq<Byte>)
      requires Core(sizes) && id in inodes && id in sizes && want > 0 && o + want <= sizes[id]
      modifies this`fat, this`disk, this`chains, this`owner, this`inodes, this`bufs
      ensures Core(sizes) && SameButCursor(old(inodes), inodes, id)
      ensures fat == old(fat) && chains == old(chains) && id in chains
      ensures SameFiles(old(disk), chains, disk, chains, sizes)
      ensures 0 < |chunk| <= want && chunk == Content(disk, chains[id], sizes[id])[o..o + |chunk|]
    {
      hide Coherent, CacheOk, FatOk, InodesOk, DiskOk, FreeSet, Content, SameFiles, InFile;
      InodeFacts(inodes, chains, owner, sizes, id);
      InChain(o, sizes[id], |chains[id]|);
      var cluster := Bmap(id, o / BSIZE, sizes);
      NoGrowth(old(chains), chains, id, o / BSIZE, old(fat), fat);
      InodeFacts(inodes, chains, owner, sizes, id);
      var data := Fetch(id, o / BSIZE, cluster, sizes);
      var mod := o % BSIZE;
      var nread := if want < BSIZE - mod then want else BSIZE - mod;
      ReadChunk(disk, fat, chains, owner, id, sizes[id], o, nread, data);
      chunk := data[mod..mod + nread];
    }

    // One round of the loop of WriteInode: what is left to write, up to the end of the cluster.
    method WritePart(id: nat, o: nat, d: seq<Byte>, ghost szs: map<nat, nat>) returns (n: nat)
      requires Core(szs) && id in inodes && id in szs && d != [] && o <= szs[id] && Room(o + |d|, chains, id, fat)
      modifies this`fat, this`disk, this`chains, this`owner, this`inodes, this`bufs
      ensures 0 < n <= |d|
      ensures Core(szs[id := Grown(szs[id], o, n)]) && id in chains
      ensures Wrote(old(disk), old(chains), disk, chains, szs, id, o, d[..n])
      ensures Room(o + |d|, chains, id, fat)
      ensures Extended(old(chains), chains, id, LastCluster(o, n), old(fat), fat)
      ensures SameButCursor(old(inodes), inodes, id)
    {
      hide Coherent, CacheOk, FatOk, InodesOk, DiskOk, FreeSet, Content, InFile, SameFiles, ClusterWrite;
      InodeFacts(inodes, chains, owner, szs, id);
      RoomFor(o, |d|, chains, id, fat);
      var cluster := Bmap(id, o / BSIZE, szs);
      RoomKept(o + |d|, old(chains), chains, id, o / BSIZE, old(fat), fat);
      var mod := o % BSIZE;
      n := if |d| < BSIZE - mod then |d| else BSIZE - mod;
      SameCluster(o, n);
      SplitOffset(o, o / BSIZE, mod);
      InodeFacts(inodes, chains, owner, szs, id);
      ghost var disk0 := disk;
      ghost var new_;
      new_ := Store(id, o / BSIZE, cluster, mod, d[..n], szs);
      StoreContents(disk0, fat, chains, owner, szs, id, o, d[..n], new_);
      WroteAfterSame(old(disk), old(chains), disk0, chains, disk, chains, szs, id, o, d[..n]);
    }

    // UpdateInode: the directory entry of the file is rewritten on disk, behind the cache.
    method UpdateInode(id: nat, entry: seq<Byte>)
      requires Valid() && id in inodes && |entry| == ENTRY
      modifies this`disk
      ensures Valid() && SameFiles(old(disk), chains, disk, chains, sizes) && EntryIs(disk, inodes[id], entry)
      ensures disk.Keys == old(disk).Keys && forall c :: c in disk && c != inodes[id].dir ==> disk[c] == old(disk)[c]
      ensures var c, at := inodes[id].dir, inodes[id].dirOff;
              |disk[c]| == |old(disk)[c]| &&
                  forall x :: 0 <= x < |disk[c]| && !(at <= x < at + ENTRY) ==> disk[c][x] == old(disk)[c][x]
    {
      hide CacheOk, Content, Agrees, EntryIs;
      var c, at := inodes[id].dir, inodes[id].dirOff;
      EntryPut(disk, inodes[id], entry);
      var sector := disk[c][..at] + entry + disk[c][at + ENTRY..];
      DirectoryWrite(bufs, disk, fat, chains, owner, sizes, c, sector);
      disk := disk[c := sector];
    }

    /** WriteInode at an offset inside or at the end of the file replaces or appends exactly
        the given bytes and changes no other file, open or not. The chain grows only as far
        as the bytes reach, out of free clusters, and no cluster is lost. */
    method WriteInode(id: nat, off: nat, d: seq<Byte>, entry: seq<Byte>) returns (total: int)
      requires Valid() && id in inodes && |entry| == ENTRY
      requires off <= inodes[id].sz ==> off + |d| < 0x1_0000_0000 && Room(off + |d|, chains, id, fat)
      modifies this
      ensures Valid() && inodes.Keys == old(inodes.Keys)
      ensures chains.Keys == sizes.Keys == old(chains.Keys) == old(sizes.Keys)
      ensures off > old(inodes)[id].sz ==>
                && total == -1 && disk == old(disk) && inodes == old(inodes) && chains == old(chains)
                && fat == old(fat) && sizes == old(sizes)
      ensures off <= old(inodes)[id].sz ==>
                && total == |d| && id in chains && id in old(sizes)
                && sizes == old(sizes)[id := Grown(old(sizes)[id], off, |d|)]
                && inodes[id].sz == sizes[id] && EntryIs(disk, inodes[id], entry)
                && Content(disk, chains[id], sizes[id]) ==
                     Splice(Content(old(disk), old(chains)[id], old(sizes)[id]), off, d)
                && Extended(old(chains), chains, id, LastCluster(off, |d|), old(fat), fat)
      ensures off <= old(inodes)[id].sz && d != [] ==>
                |chains[id]| == if |old(chains)[id]| > LastCluster(off, |d|) then |old(chains)[id]|
                                else LastCluster(off, |d|) + 1
      ensures forall g :: g in inodes && g != id ==> inodes[g] == old(inodes)[g]
      ensures forall g :: g in chains && g != id ==>
                && chains[g] == old(chains)[g]
                && Content(disk, chains[g], sizes[g]) == Content(old(disk), chains[g], sizes[g])
      ensures Clusters(fat, chains) == Clusters(old(fat), old(chains))
    {
      hide Coherent, CacheOk, FatOk, InodesOk, DiskOk, FreeSet, Content, InFile, SameFiles, Wrote, SizesMatch,
          Clusters, Extended, LastCluster, Splice, SameButCursor, EntryIs;
      SizeOf(id);
      InodeFacts(inodes, chains, owner, sizes, id);
      var sz := inodes[id].sz;
      if off > sz { return -1; }
      ghost var szs := sizes[id := Grown(sz, off, |d|)];
      var o := WriteLoop(id, off, d);
      total := o - off;
      SizesUpdated(old(inodes), inodes, sizes, id, Grown(sz, off, |d|));
      InodesResized(inodes, chains, owner, szs, id, Grown(sz, off, |d|));
      if o > inodes[id].sz {
        inodes := inodes[id := inodes[id].(sz := o)];
      }
      assert inodes == inodes[id := inodes[id].(sz := Grown(sz, off, |d|))];
      sizes := szs;
      ghost var disk1 := disk;
      UpdateInode(id, entry);
      Finished(old(disk), old(chains), disk1, disk, chains, old(sizes), id, off, d);
      InodeKeys(inodes, chains, owner, sizes);
      WriteEnds(old(disk), old(chains), disk, chains, old(sizes), id, off, d, LastCluster(off, |d|), old(fat), fat);
      if d != [] { GrewExactly(old(chains), chains, id, off, |d|, sizes[id], old(fat), fat); }
    }

    method WriteLoop(id: nat, off: nat, d: seq<Byte>) returns (o: nat)
      requires Core(sizes) && id in inodes && id in sizes && off <= sizes[id] && Room(off + |d|, chains, id, fat)
      modifies this`fat, this`disk, this`chains, this`owner, this`inodes, this`bufs
      ensures o == off + |d| && SameButCursor(old(inodes), inodes, id)
      ensures Core(sizes[id := Grown(sizes[id], off, |d|)])
      ensures Wrote(old(disk), old(chains), disk, chains, sizes, id, off, d)
      ensures Extended(old(chains), chains, id, LastCluster(off, |d|), old(fat), fat)
    {
      hide Coherent, CacheOk, FatOk, InodesOk, DiskOk, FreeSet, Content, InFile, SameFiles, Wrote, Room, Extended;
      InodeFacts(inodes, chains, owner, sizes, id);
      NothingWritten(disk, chains, sizes, id, off);
      NotExtended(chains, id, LastCluster(off, 0), fat);
      assert sizes == sizes[id := Grown(sizes[id], off, 0)];
      var done := 0;
      o := off;
      while done < |d|
        invariant 0 <= done <= |d| && o == off + done
        invariant Core(sizes[id := Grown(sizes[id], off, done)])
        invariant SameButCursor(old(inodes), inodes, id)
        invariant Wrote(old(disk), old(chains), disk, chains, sizes, id, off, d[..done])
        invariant Extended(old(chains), chains, id, LastCluster(off, done), old(fat), fat)
        invariant Room(off + |d|, chains, id, fat)
      {
        ghost var disk0, chains0, inodes0, fat0 := disk, chains, inodes, fat;
        ghost var szs1 := sizes[id := Grown(sizes[id], off, done)];
        var n := WritePart(id, o, d[done..], szs1);
        WroteTwice(old(disk), old(chains), disk0, chains0, disk, chains, sizes, id, off, d[..done], d[done..][..n]);
        LastMore(off, done, n);
        ExtendedTwice(old(chains), chains0, chains, id, LastCluster(off, done), LastCluster(off, done + n), old(fat),
            fat0, fat);
        CursorTwice(old(inodes), inodes0, inodes, id);
        assert d[..done] + d[done..][..n] == d[..done + n];
        assert szs1[id := Grown(szs1[id], o, n)] == sizes[id := Grown(sizes[id], off, done + n)];
        done, o := done + n, o + n;
      }
      assert d[..done] == d;
    }

    // FreeClusterChain: every cluster of the chain, and no other, becomes free.
    method FreeClusterChain(start: nat, ghost ch: seq<nat>)
      requires ChainOk(fat, ch) && Distinct(ch) && ch[0] == start && |fat| <= EOC
      modifies this`fat
      ensures |fat| == |old(fat)|
      ensures forall c :: 0 <= c < |fat| ==> fat[c] == if c in ch then 0 else old(fat)[c]
    {
      var cluster := start;
      ghost var i := 0;
      assert Hop(fat, ch, 0);
      while cluster != EOC
        invariant 0 <= i <= |ch| && |fat| == |old(fat)|
        invariant cluster == if i < |ch| then ch[i] else EOC
        invariant i < |ch| ==> Hop(old(fat), ch, i)
        invariant forall c :: 0 <= c < |fat| ==> fat[c] == if c in ch[..i] then 0 else old(fat)[c]
        decreases |ch| - i
      {
        var next := GetEntry(fat, cluster);
        fat := fat[cluster := 0];
        cluster := next;
        assert ch[..i + 1] == ch[..i] + [ch[i]];
        i := i + 1;
        assert i < |ch| ==> Hop(old(fat), ch, i);
      }
      assert ch[..|ch|] == ch;
    }

    /** The end of Unlink: an open file is left alone; of a closed one the chain is freed,
        from the first cluster that its directory entry names. Buffers keep what they hold. */
    method RemoveFile(id: nat, start: nat) returns (ok: bool)
      requires Valid() && id in chains && |chains[id]| > 0 && (id !in inodes ==> start == chains[id][0])
      modifies this`fat, this`chains, this`owner, this`sizes
      ensures Valid() && (ok <==> id !in inodes) && Clusters(fat, chains) == Clusters(old(fat), old(chains))
      ensures !ok ==> fat == old(fat) && chains == old(chains) && sizes == old(sizes)
      ensures ok ==>
                && chains == old(chains) - {id} && sizes == old(sizes) - {id}
                && FreeSet(fat) == FreeSet(old(fat)) + ToSet(old(chains)[id])
                && |FreeSet(fat)| == |FreeSet(old(fat))| + |old(chains)[id]|
    {
      hide CacheOk, FreeSet, FatOk, Coherent, InodesOk, Without, Clusters;
      if id in inodes { return false; }
      FatSize(fat, chains, owner);
      ChainDistinct(fat, chains, owner, id);
      FreeClusterChain(start, chains[id]);
      RemovedFat(old(fat), fat, chains, owner, id);
      RemovedCache(bufs, disk, owner, sizes, id);
      InodesRemoved(inodes, chains, owner, sizes, id);
      assert inodes - {id} == inodes;
      owner := Without(owner, id);
      chains := chains - {id};
      sizes := sizes - {id};
      RemoveConserves(old(fat), fat, old(chains), id);
      return true;
    }

    // A new file: one zeroed cluster, the cursor on it, and no bytes.
    method CreateFile(id: nat, dir: nat, dirOff: nat) returns (start: nat)
      requires Valid() && id !in chains && FreeSet(fat) != {}
      requires dir in owner && owner[dir] == Directory && dirOff + ENTRY <= BSIZE
      modifies this
      ensures Valid() && inodes == old(inodes)[id := Inode(start, start, 0, 0, dir, dirOff)]
      ensures chains == old(chains)[id := [start]] && start in FreeSet(old(fat))
      ensures FreeSet(fat) == FreeSet(old(fat)) - {start}
      ensures sizes == old(sizes)[id := 0] && SameFiles(old(disk), old(chains), disk, chains, old(sizes))
      ensures Clusters(fat, chains) == Clusters(old(fat), old(chains))
    {
      hide CacheOk, Content, FreeSet, FatOk, Coherent, InodesOk, DiskOk, SameFiles, Clusters;
      ghost var szs := sizes;
      start := AllocCluster(szs);
      FreeFacts(old(fat), start);
      InodeKeys(inodes, chains, owner, szs);
      NewChain(fat, chains, owner, id, start);
      NewInode(inodes, chains, owner, szs, id, start, dir, dirOff);
      NewCache(bufs, disk, chains, owner, szs, id, start);
      SameFilesTrans(old(disk), chains, disk, chains, disk, chains[id := [start]], szs);
      inodes := inodes[id := Inode(start, start, 0, 0, dir, dirOff)];
      chains := chains[id := [start]];
      owner := owner[start := File(id, 0)];
      sizes := sizes[id := 0];
      CreateConserves(old(fat), fat, old(chains), id, start);
    }
  }
}
