/** Object and part files with POSIX semantics: a path names an inode, a descriptor holds an inode,
    and unlinking a path leaves the inode's bytes to whoever still holds it. */
module Disk {
  import opened Basics

  /** tmp/<username>/<md5>_<base>.part */
  datatype PartName = PartName(username: string, md5: Md5, base: string)

  type Inode = nat

  /** `objects` stands for the paths objects/xx/<md5>; an inode is an index into `inodes`. */
  datatype Disk = Disk(objects: map<Md5, Inode>, parts: map<PartName, Inode>, inodes: seq<Bytes>)

  function Content(d: Disk, i: Inode): Bytes {
    if i < |d.inodes| then d.inodes[i] else []
  }

  function ObjectBytes(d: Disk, m: Md5): Bytes {
    if m in d.objects then Content(d, d.objects[m]) else []
  }

  function PartBytes(d: Disk, p: PartName): Bytes {
    if p in d.parts then Content(d, d.parts[p]) else []
  }

  // ---------------------------------------------------------------- system calls

  function SetContent(d: Disk, i: Inode, b: Bytes): Disk {
    if i < |d.inodes| then d.(inodes := d.inodes[i := b]) else d
  }

  /** open(O_RDWR | O_CREAT) of a part, cut to nothing when it is longer than the upload. */
  function OpenPart(d: Disk, part: PartName, size: nat): (r: Disk)
    ensures part in r.parts && |PartBytes(r, part)| <= size
  {
    if part !in d.parts then d.(parts := d.parts[part := |d.inodes|], inodes := d.inodes + [[]])
    else if |PartBytes(d, part)| <= size then d
    else SetContent(d, d.parts[part], [])
  }

  function Zeros(n: nat): (r: Bytes)
    ensures |r| == n
  {
    seq(n, _ => 0)
  }

  /** The bytes of a file after pwrite of `data` at `offset`; a gap before it reads as zeros. */
  function Overlay(b: Bytes, offset: nat, data: Bytes): (r: Bytes)
    ensures data != [] ==> |r| == Max(|b|, offset + |data|) && r[offset..offset + |data|] == data
  {
    if data == [] then b
    else if offset + |data| <= |b| then b[..offset] + data + b[offset + |data|..]
    else if offset <= |b| then b[..offset] + data
    else b + Zeros(offset - |b|) + data
  }

  function Write(d: Disk, i: Inode, offset: nat, data: Bytes): Disk {
    SetContent(d, i, Overlay(Content(d, i), offset, data))
  }

  function UnlinkPart(d: Disk, p: PartName): Disk {
    d.(parts := d.parts - {p})
  }

  /** `r` is `d` with some objects unlinked. */
  ghost predicate ObjectsUnlinked(d: Disk, r: Disk) {
    && r.parts == d.parts && r.inodes == d.inodes
    && forall m | m in r.objects :: m in d.objects && r.objects[m] == d.objects[m]
  }

  function UnlinkObjects(d: Disk, ms: set<Md5>): (r: Disk)
    ensures ObjectsUnlinked(d, r)
  {
    d.(objects := d.objects - ms)
  }

  /** The file side of publishObject: a file of the right size is kept; any other is opened with
      O_CREAT | O_TRUNC and takes the part's bytes. */
  function PublishFile(d: Disk, m: Md5, b: Bytes): (r: Disk)
    ensures r.parts == d.parts
  {
    if m !in d.objects then d.(objects := d.objects[m := |d.inodes|], inodes := d.inodes + [b])
    else if |ObjectBytes(d, m)| == |b| then d
    else SetContent(d, d.objects[m], b)
  }
}
