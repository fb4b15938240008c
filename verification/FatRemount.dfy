/** What becomes of the file store of kernel/fs/FAT.c when a second mount sets its cursors back to 0: which cluster a
  * search then returns, when that cluster is in use, and a run of calls that gives two files one cluster. */
module FatRemount {
  import opened Words
  import opened FatLayout
  import opened FatSession

  // ---------------------------------------------------------------- the search, read off the link table

  /** The first link from `j` on in link sector `s` that is 0, or 128. */
  function FirstFree(link: seq<nat>, s: nat, j: nat): (r: nat)
    requires LINKS_PER_SECTOR * (s + 1) <= |link| && j <= LINKS_PER_SECTOR
    ensures j <= r <= LINKS_PER_SECTOR && (r < LINKS_PER_SECTOR ==> link[LINKS_PER_SECTOR * s + r] == 0)
    decreases LINKS_PER_SECTOR - j
  {
    if j == LINKS_PER_SECTOR || link[LINKS_PER_SECTOR * s + j] == 0 then j else FirstFree(link, s, j + 1)
  }

  /** The cursor moves on by as many links as the search inside its sector passes, from that sector's first link. */
  function NextCluster(link: seq<nat>, best: nat): nat
    requires LINKS_PER_SECTOR * (best / LINKS_PER_SECTOR + 1) <= |link|
  {
    best + FirstFree(link, best / LINKS_PER_SECTOR, 0)
  }

  lemma {:induction false} FirstFreeIs(d: seq<Byte>, links: nat, s: nat, j: nat)
    requires Sized(|d|, links) && s < links && j <= LINKS_PER_SECTOR
    ensures SECTOR_SIZE * (2 + s) <= |d|
    ensures FirstZero(Get(d, SECTOR_SIZE * (1 + s), SECTOR_SIZE), j) == FirstFree(VolumeOf(d, links).link, s, j)
    decreases LINKS_PER_SECTOR - j
  {
    hide Dword, Get, VolumeOf, Clusters;
    SectorLink(d, links, s, 0);
    if j < LINKS_PER_SECTOR {
      SectorLink(d, links, s, j);
      FirstFreeIs(d, links, s, j + 1);
    }
  }

  /** The search returns that cluster as soon as its first sector has a free link. */
  lemma SearchIs(d: seq<Byte>, links: nat, best: nat)
    requires Sized(|d|, links) && best / LINKS_PER_SECTOR < links
    requires FirstFree(VolumeOf(d, links).link, best / LINKS_PER_SECTOR, 0) < LINKS_PER_SECTOR
    ensures Search(d, best, links) == Cluster(NextCluster(VolumeOf(d, links).link, best))
  {
    hide Dword, Get, VolumeOf, Clusters, FirstZero, FirstFree;
    FirstFreeIs(d, links, best / LINKS_PER_SECTOR, 0);
  }

  // ---------------------------------------------------------------- any cursor

  lemma SectorHasFree(v: Volume, session: nat, files: Files, s: nat)
    requires Fs(v, session, files) && |files| < MAX_FILECOUNT && LINKS_PER_SECTOR * (s + 1) <= |v.link|
    ensures FirstFree(v.link, s, 0) < LINKS_PER_SECTOR
  {
    hide Fs, HasFree;
    FileCount(v, session, files);
    SomeLinkFree(v, session, files, s);
    var c :| LINKS_PER_SECTOR * s <= c < LINKS_PER_SECTOR * (s + 1) && v.link[c] == 0;
    FreeIsFound(v.link, s, 0, c - LINKS_PER_SECTOR * s);
  }

  lemma {:induction false} FreeIsFound(link: seq<nat>, s: nat, j: nat, k: nat)
    requires LINKS_PER_SECTOR * (s + 1) <= |link| && j <= k < LINKS_PER_SECTOR && link[LINKS_PER_SECTOR * s + k] == 0
    ensures FirstFree(link, s, j) <= k
    decreases k - j
  {
    if j < k {
      FreeIsFound(link, s, j + 1, k);
    }
  }

  /** createFile from any cursor inside the table, on a sound volume with room for a file: the cluster follows from the
    * table before the call, and the new file gets it to itself if and only if the link there is 0. Otherwise some file
    * already has it. */
  lemma CreateFromCursor(d: seq<Byte>, links: nat, session: nat, files: Files, best: nat, i: nat, name: seq<Byte>)
    requires Sized(|d|, links) && Fs(VolumeOf(d, links), session, files) && |files| < MAX_FILECOUNT
    requires best / LINKS_PER_SECTOR < links && NextCluster(VolumeOf(d, links).link, best) < Clusters(|d|, links)
    requires i < MAX_FILECOUNT && VolumeOf(d, links).dir[i].cluster == 0 && ValidName(name) && name !in files
    ensures var v := VolumeOf(d, links); var c := NextCluster(v.link, best);
            && Search(d, best, links) == Cluster(c) && 0 < c
            && (Apart(Created(v, i, c, name).dir) <==> v.link[c] == 0)
            && (v.link[c] != 0 ==> exists j :: 0 <= j < MAX_FILECOUNT && j != i && v.dir[j].cluster == c)
  {
    hide VolumeOf, Clusters, FirstFree, ValidName, Search;
    var v := VolumeOf(d, links);
    SectorHasFree(v, session, files, best / LINKS_PER_SECTOR);
    SearchIs(d, links, best);
    PastDirectory(v, session, files, best);
    SharesExactly(v, session, files, i, NextCluster(v.link, best), name);
  }

  lemma PastDirectory(v: Volume, session: nat, files: Files, best: nat)
    requires Fs(v, session, files) && LINKS_PER_SECTOR * (best / LINKS_PER_SECTOR + 1) <= |v.link|
    ensures NextCluster(v.link, best) > 0
  {
    hide EntryOk, Apart, Holds;
    assert v.link[0] != 0;
  }

  /** A file put at cluster `c` shares it exactly if link `c` is set. */
  lemma SharesExactly(v: Volume, session: nat, files: Files, i: nat, c: nat, name: seq<Byte>)
    requires Fs(v, session, files) && i < |v.dir| && v.dir[i].cluster == 0 && 0 < c < |v.blocks| && name !in files
    ensures Apart(Created(v, i, c, name).dir) <==> v.link[c] == 0
    ensures v.link[c] != 0 ==> exists j :: 0 <= j < |v.dir| && j != i && v.dir[j].cluster == c
  {
    hide ValidName;
    var dir' := Created(v, i, c, name).dir;
    if v.link[c] != 0 {
      var j :| 0 <= j < |v.dir| && v.dir[j].cluster == c;
      assert dir'[j].cluster == dir'[i].cluster == c && j != i;
    } else {
      assert !Used(v.dir, c);
      forall j | 0 <= j < |dir'| && j != i && dir'[j].cluster != 0 ensures dir'[j].cluster != c && dir'[j].name != name {
        assert IsFile(v.dir[j], v.dir[j].name) && Listed(v.dir, v.dir[j].name);
      }
    }
  }

  // ---------------------------------------------------------------- a run that shares a cluster

  /** A formatted volume with nothing on it. */
  lemma Unused(v: Volume)
    requires Fs(v, 0, map[])
    ensures |v.dir| == MAX_FILECOUNT && |v.blocks| <= |v.link|
    ensures forall i :: 0 <= i < |v.dir| ==> v.dir[i].cluster == 0
    ensures forall c :: 0 <= c < |v.link| ==> (v.link[c] == 0 <==> c != 0)
  {
    hide ValidName;
    forall i | 0 <= i < |v.dir| ensures v.dir[i].cluster == 0 {
      assert EntryOk(v, 0, v.dir[i]);
    }
  }

  /** The first free link of the first sector, when it is among the first three. */
  lemma FirstThree(link: seq<nat>)
    requires |link| >= LINKS_PER_SECTOR && link[0] != 0
    ensures link[1] == 0 ==> FirstFree(link, 0, 0) == 1
    ensures link[1] != 0 && link[2] == 0 ==> FirstFree(link, 0, 0) == 2
  {
    assert FirstFree(link, 0, 0) == FirstFree(link, 0, 1);
    assert FirstFree(link, 0, 1) == if link[1] == 0 then 1 else FirstFree(link, 0, 2);
    assert link[2] == 0 ==> FirstFree(link, 0, 2) == 2;
  }

  lemma FreeAt(dir: seq<Info>, t: nat)
    requires |dir| == MAX_FILECOUNT && t < MAX_FILECOUNT && dir[t].cluster == 0
    requires forall u :: 0 <= u < t ==> dir[u].cluster != 0
    ensures NextFree(dir, 0, t)
  {
    assert Slot(0, t) == t;
    forall u | 0 <= u < t ensures dir[Slot(0, u)].cluster != 0 {
    }
  }

  lemma SharesOnVolume(v0: Volume, n1: seq<Byte>, n2: seq<Byte>, n3: seq<Byte>, n4: seq<Byte>, f: Info)
    requires Fs(v0, 0, map[]) && |v0.blocks| > 4 && |v0.link| >= LINKS_PER_SECTOR && f.cluster == 0
    ensures var v1 := Created(v0, 0, 1, n1); var v2 := Created(v1, 1, 4, n2);
            var v3 := Deleted(v2, 0, f);
            var v4 := Created(v3, 0, 1, n3); var v5 := Created(v4, 2, 4, n4);
            && NextFree(v0.dir, 0, 0) && FirstFree(v0.link, 0, 0) == 1
            && NextFree(v1.dir, 0, 1) && FirstFree(v1.link, 0, 0) == 2
            && v2.dir[0] == Info(n1, 0, 1)
            && NextFree(v3.dir, 0, 0) && FirstFree(v3.link, 0, 0) == 1
            && NextFree(v4.dir, 0, 2) && FirstFree(v4.link, 0, 0) == 2
            && IsFile(v5.dir[1], n2) && IsFile(v5.dir[2], n4) && v5.dir[1].cluster == v5.dir[2].cluster == 4 && !Apart(v5.dir)
  {
    hide ValidName, Fs, NextFree, FirstFree;
    Unused(v0);
    var v1 := Created(v0, 0, 1, n1);
    var v2 := Created(v1, 1, 4, n2);
    var v3 := Deleted(v2, 0, f);
    var v4 := Created(v3, 0, 1, n3);
    FirstThree(v0.link);
    FirstThree(v1.link);
    FirstThree(v3.link);
    FirstThree(v4.link);
    FreeAt(v0.dir, 0);
    FreeAt(v1.dir, 1);
    FreeAt(v3.dir, 0);
    FreeAt(v4.dir, 2);
  }

  /** The volumes of the disks on the way. */
  lemma RunOnDisk(d0: seq<Byte>, links: nat, n1: seq<Byte>, n2: seq<Byte>, n3: seq<Byte>, n4: seq<Byte>) returns (f: Info)
    requires Sized(|d0|, links) && 4 < LINKS_PER_SECTOR * links && ValidName(n1) && ValidName(n2) && ValidName(n3) && ValidName(n4)
    ensures f.cluster == 0
    ensures |n1| < MAX_FILENAME && |n2| < MAX_FILENAME && |n3| < MAX_FILENAME && |n4| < MAX_FILENAME
    ensures var d1 := FileCreated(d0, links, 0, 1, n1); var d2 := FileCreated(d1, links, 1, 4, n2);
            var d3 := FileDeleted(d2, links, 0, 1);
            var d4 := FileCreated(d3, links, 0, 1, n3); var d5 := FileCreated(d4, links, 2, 4, n4);
            && VolumeOf(d1, links) == Created(VolumeOf(d0, links), 0, 1, n1)
            && VolumeOf(d2, links) == Created(VolumeOf(d1, links), 1, 4, n2)
            && VolumeOf(d3, links) == Deleted(VolumeOf(d2, links), 0, f)
            && VolumeOf(d4, links) == Created(VolumeOf(d3, links), 0, 1, n3)
            && VolumeOf(d5, links) == Created(VolumeOf(d4, links), 2, 4, n4)
  {
    hide ValidName, VolumeOf, FileCreated, FileDeleted, Clusters;
    CreatedOnDisk(d0, links, 0, 1, n1);
    var d1 := FileCreated(d0, links, 0, 1, n1);
    CreatedOnDisk(d1, links, 1, 4, n2);
    var d2 := FileCreated(d1, links, 1, 4, n2);
    f := DeletedOnDisk(d2, links, 0, 1);
    var d3 := FileDeleted(d2, links, 0, 1);
    CreatedOnDisk(d3, links, 0, 1, n3);
    CreatedOnDisk(FileCreated(d3, links, 0, 1, n3), links, 2, 4, n4);
  }

  /** On a disk just formatted: create two files, delete the first, mount again, create two more. Every directory entry
    * and every cluster is the one the searches of createFile return, from cursors that start at 0, stand at entry 0 and
    * cluster 2 after the first file, and start at 0 again after the mount; and the last file gets the cluster of the
    * second. No name is taken when it is created. */
  lemma RemountShares(d0: seq<Byte>, links: nat, n1: seq<Byte>, n2: seq<Byte>, n3: seq<Byte>, n4: seq<Byte>)
    requires Sized(|d0|, links) && Fs(VolumeOf(d0, links), 0, map[]) && Clusters(|d0|, links) > 4
    requires ValidName(n1) && ValidName(n2) && ValidName(n3) && ValidName(n4)
    requires n2 != n1 && n3 != n2 && n4 != n2 && n4 != n3
    ensures var d1 := FileCreated(d0, links, 0, 1, n1); var d2 := FileCreated(d1, links, 1, 4, n2);
            var d3 := FileDeleted(d2, links, 0, 1);
            var d4 := FileCreated(d3, links, 0, 1, n3); var d5 := FileCreated(d4, links, 2, 4, n4);
            && NextFree(VolumeOf(d0, links).dir, 0, 0) && Search(d0, 0, links) == Cluster(1)
            && NextFree(VolumeOf(d1, links).dir, 0, 1) && Search(d1, 2, links) == Cluster(4)
            && VolumeOf(d2, links).dir[0] == Info(n1, 0, 1)
            && NextFree(VolumeOf(d3, links).dir, 0, 0) && Search(d3, 0, links) == Cluster(1)
            && NextFree(VolumeOf(d4, links).dir, 0, 2) && Search(d4, 2, links) == Cluster(4)
            && var dir := VolumeOf(d5, links).dir;
            && IsFile(dir[1], n2) && IsFile(dir[2], n4) && dir[1].cluster == dir[2].cluster == 4 && !Apart(dir)
  {
    hide ValidName, Clusters, VolumeOf, Fs, Apart, NextFree, FirstFree, Search, FileCreated, FileDeleted, Created, Deleted;
    var f := RunOnDisk(d0, links, n1, n2, n3, n4);
    SharesOnVolume(VolumeOf(d0, links), n1, n2, n3, n4, f);
    var d1 := FileCreated(d0, links, 0, 1, n1);
    var d3 := FileDeleted(FileCreated(d1, links, 1, 4, n2), links, 0, 1);
    SearchIs(d0, links, 0);
    SearchIs(d1, links, 2);
    SearchIs(d3, links, 0);
    SearchIs(FileCreated(d3, links, 0, 1, n3), links, 2);
  }
}
