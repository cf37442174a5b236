/** The operations of TransferService as functions from state to state (src/transfer.cpp). */
module Transfer {
  import opened Basics
  import opened Disk
  import opened Store

  datatype Session = Session(userId: int, username: string, token: Token)

  type FileId = Bytes

  datatype Upload = Upload(
    fileId: FileId, path: string, part: PartName, md5: Md5, total: U64, received: U64,
    fd: Option<Inode>)

  datatype Download = Download(fileId: FileId, total: nat, fd: Option<Inode>)

  const NO_UPLOAD := Upload([], "", PartName("", "", ""), "", 0, 0, None)
  const NO_DOWNLOAD := Download([], 0, None)

  /** What lstat finds at a physical path. */
  datatype Node = Missing | Directory | OtherNode

  // ---------------------------------------------------------------- instant upload

  /** queryInstant: None when the content is not stored. */
  function QueryInstant(e: Env, s: Store, token: Token, m: Md5, size: U64): Result<Option<Challenge>> {
    if |m| != 32 then Err(BadRequest)
    else if m !in s.disk.objects || |ObjectBytes(s.disk, m)| != size then Ok(None)
    else Ok(Some(ChallengeFor(e, token, m, size)))
  }

  function IssueChallenge(s: Store, token: Token, m: Md5, c: Challenge): Store {
    s.(chals := s.chals[(token, m) := c])
  }

  function SpendChallenge(s: Store, token: Token, m: Md5): Store {
    s.(chals := s.chals - {(token, m)})
  }

  /** A claim to own a content: its md5 and size, and the digest of the challenged range. */
  datatype Claim = Claim(md5: Md5, size: U64, offset: U64, proof: Md5)

  /** The checks of instantUpload before the challenge is spent. */
  function ClaimRefusal(e: Env, s: Store, token: Token, claim: Claim): Option<ErrorCode> {
    if (token, claim.md5) !in s.chals then Some(BadRequest)
    else
      var c := s.chals[(token, claim.md5)];
      if claim.offset != c.offset then Some(Forbidden)
      else if claim.md5 !in s.disk.objects then Some(NotFound)
      else
        var b := ObjectBytes(s.disk, claim.md5);
        if |b| != claim.size then Some(Unprocessable)
        else if c.len > 0 && c.offset + c.len > |b| then Some(Internal)
        else if c.len > 0 && e.hash(b[c.offset..c.offset + c.len]) != claim.proof then Some(Forbidden)
        else None
  }

  /** The claim CloudClient::put makes for local bytes after a hit. */
  function HonestClaim(e: Env, m: Md5, local: Bytes, c: Challenge): Claim
    requires c.offset + c.len <= |local| < TWO_TO_THE_64
  {
    Claim(m, |local|, c.offset, if c.len == 0 then m else e.hash(local[c.offset..c.offset + c.len]))
  }

  /** Whoever holds the object's bytes passes the proof of possession, for every size and configured
      length: right after a hit nothing in the store refuses the claim. */
  lemma HonestClaimPasses(e: Env, s: Store, token: Token, m: Md5, local: Bytes)
    requires |local| < TWO_TO_THE_64 && |m| == 32
    requires m in s.disk.objects && ObjectBytes(s.disk, m) == local
    ensures var c := ChallengeFor(e, token, m, |local|);
            && QueryInstant(e, s, token, m, |local|) == Ok(Some(c))
            && c.offset + c.len <= |local|
            && ClaimRefusal(e, IssueChallenge(s, token, m, c), token, HonestClaim(e, m, local, c)).None?
  {
    ChallengeInRange(e, token, m, |local|);
  }

  /** An accepted instant upload spends its challenge: the same claim is refused from then on. */
  lemma ClaimSpent(e: Env, s: Store, token: Token, k: Key, claim: Claim, destExists: bool, overwrite: bool)
    requires ClaimRefusal(e, s, token, claim).None?
    ensures var t := InstantUpload(e, s, token, k, claim, destExists, overwrite).0;
            && (token, claim.md5) !in t.chals
            && (forall c | c != (token, claim.md5) :: c in t.chals <==> c in s.chals)
            && forall again: Claim | again.md5 == claim.md5 :: ClaimRefusal(e, t, token, again) == Some(BadRequest)
  {
  }

  /** instantUpload, with its refusal if there is one. */
  function InstantUpload(e: Env, s: Store, token: Token, k: Key, claim: Claim, destExists: bool, overwrite: bool)
    : (r: (Store, Option<ErrorCode>))
    ensures ObjectsUnlinked(s.disk, r.0.disk)
  {
    if ClaimRefusal(e, s, token, claim).Some? then (s, ClaimRefusal(e, s, token, claim))
    else
      var spent := SpendChallenge(s, token, claim.md5);
      if (IsFile(s, k) || destExists) && !overwrite then (spent, Some(Conflict))
      else (AddRef(Cleared(spent, k), k, claim.md5, claim.size), None)
  }

  /** A file already at the key is released before another content takes its place. */
  function Cleared(s: Store, k: Key): (t: Store)
    ensures ObjectsUnlinked(s.disk, t.disk)
  {
    if IsFile(s, k) then Release(s, k) else s
  }

  // ---------------------------------------------------------------- upload

  function BeginRefusal(e: Env, m: Md5, size: U64): Option<ErrorCode> {
    if size > e.config.maxUpload then Some(PayloadTooLarge)
    else if |m| != 32 then Some(BadRequest)
    else None
  }

  /** beginUpload once its checks have passed: the session that continues the part. */
  function BeginUpload(d: Disk, part: PartName, path: string, m: Md5, size: U64, fileId: FileId): (Disk, Upload) {
    var r := OpenPart(d, part, size);
    (r, Upload(fileId, path, part, m, size, |PartBytes(r, part)|, Some(r.parts[part])))
  }

  /** writeChunk; `offset + len` is the 64-bit sum, and pwrite takes `offset` as a signed number. */
  function WriteRefusal(up: Upload, offset: U64, data: Bytes): Option<ErrorCode> {
    if up.fd.None? then Some(BadRequest)
    else if (offset + |data|) % TWO_TO_THE_64 > up.total then Some(BadRequest)
    else if offset >= TWO_TO_THE_63 then Some(Internal)
    else None
  }

  function WriteChunk(d: Disk, up: Upload, offset: U64, data: Bytes): (Disk, Upload)
    requires WriteRefusal(up, offset, data).None?
  {
    var end: U64 := (offset + |data|) % TWO_TO_THE_64;
    (Write(d, up.fd.value, offset, data), up.(received := Max(up.received, end)))
  }

  /** The checks of finishUpload on the part file, before the index is touched. */
  function FinishRefusal(e: Env, d: Disk, up: Upload): Option<ErrorCode> {
    if up.fd.None? then Some(BadRequest)
    else if |PartBytes(d, up.part)| != up.total then Some(Unprocessable)
    else if up.part !in d.parts then Some(Internal)
    else if e.hash(PartBytes(d, up.part)) != up.md5 then Some(Unprocessable)
    else None
  }

  /** A part of the right size with the wrong digest is thrown away. */
  function AfterRefusedFinish(d: Disk, up: Upload): Disk {
    if up.fd.Some? && up.part in d.parts && |PartBytes(d, up.part)| == up.total then UnlinkPart(d, up.part)
    else d
  }

  /** finishUpload once its checks have passed: the part becomes the object of its md5 and the key's content. */
  function FinishUpload(s: Store, k: Key, up: Upload): Store {
    var published := Publish(Cleared(s, k), up.md5, PartBytes(s.disk, up.part));
    AddRef(published.(disk := UnlinkPart(published.disk, up.part)), k, up.md5, up.total)
  }

  // ---------------------------------------------------------------- download

  /** beginDownload */
  function BeginDownload(s: Store, k: Key, fileId: FileId): Result<Download> {
    var m := KeyMd5(s, k);
    if m == "" || m !in s.disk.objects then Err(NotFound)
    else Ok(Download(fileId, |ObjectBytes(s.disk, m)|, Some(s.disk.objects[m])))
  }

  /** readChunk: pread may return fewer bytes than asked for, but not zero while some are left. */
  function ReadChunk(d: Disk, dl: Download, offset: U64, want: U32, short: nat): Bytes
    requires dl.fd.Some?
  {
    var b := Content(d, dl.fd.value);
    if offset >= dl.total || offset >= |b| then []
    else
      var most := Min(Min(want, dl.total - offset), |b| - offset);
      b[offset..offset + (if 0 < short < most then short else most)]
  }

  // ---------------------------------------------------------------- names

  /** removeUserPath, after lstat of the physical path found `node`. */
  function RemovePath(s: Store, k: Key, node: Node): (t: Store)
    ensures ObjectsUnlinked(s.disk, t.disk)
  {
    if !IsFile(s, k) && node == Directory then Unindex(Sweep(s, Selected(s, k.user, k.path)), k)
    else Release(s, k)
  }

  /** renameUserPath, where renaming the physical path would give `moved`: an error or the new size. */
  function RenamePath(s: Store, from: Key, to: Key, moved: Result<nat>): (r: (Store, Option<ErrorCode>))
    ensures r.0.disk == s.disk
  {
    if IsFile(s, from) then (RenameFile(s, from, to, s.rows[from].md5, s.rows[from].size), None)
    else if moved.Err? then (s, Some(moved.code))
    else (RenameOther(s, from, to, moved.value), None)
  }
}
