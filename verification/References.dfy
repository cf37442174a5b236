/** Reference counting: what every operation on the index keeps, exactly when it keeps it, and what
    it does to the map from paths to contents that users see. */
module References {
  import opened Basics
  import opened Disk
  import opened Store

  // ---------------------------------------------------------------- invariants

  /** A key's row, shortcut, reference and object agree. */
  ghost predicate KeyOk(s: Store, k: Key) {
    var m := FileMd5(s, k);
    && PathMd5(s, k) == m
    && (m != "" ==>
          k in Refs(s, m) && m in s.disk.objects && s.rows[k].size == |ObjectBytes(s.disk, m)|)
  }

  /** An object exists exactly while it is referenced, and its recorded size is its length. */
  ghost predicate ObjectOk(s: Store, m: Md5) {
    && (m in s.disk.objects <==> Refs(s, m) != {})
    && (m in s.disk.objects <==> m in s.sizes)
    && (m in s.sizes ==> s.sizes[m] == |ObjectBytes(s.disk, m)|)
  }

  /** No file can become unreadable: every file row has its reference and its object. */
  ghost predicate Safe(s: Store) {
    && (forall k :: KeyOk(s, k))
    && (forall m | m != "" :: ObjectOk(s, m))
  }

  /** The reference set of `m` is exactly the set of file rows that carry it. */
  ghost predicate RefsExact(s: Store, m: Md5) {
    forall k :: k in Refs(s, m) <==> FileMd5(s, k) == m
  }

  /** One object per distinct content, collected exactly when its last reference goes. */
  ghost predicate Exact(s: Store) {
    Safe(s) && forall m | m != "" :: RefsExact(s, m)
  }

  lemma ExactIsSafe(s: Store)
    requires Exact(s)
    ensures Safe(s)
  {
  }

  /** What users see: the content of every file. */
  function Files(s: Store): map<Key, Bytes> {
    map k | k in s.rows && FileMd5(s, k) != "" && FileMd5(s, k) in s.disk.objects
      :: ObjectBytes(s.disk, FileMd5(s, k))
  }

  // ---------------------------------------------------------------- conservation

  /** The file rows that carry one of the contents `ms`. */
  function Carriers(s: Store, ms: seq<Md5>): set<Key> {
    set k | k in s.rows && FileMd5(s, k) in ms && FileMd5(s, k) != ""
  }

  function TotalRefs(s: Store, ms: seq<Md5>): nat {
    if ms == [] then 0 else TotalRefs(s, ms[..|ms| - 1]) + |Refs(s, ms[|ms| - 1])|
  }

  lemma {:induction false} TotalIsCarriers(s: Store, ms: seq<Md5>)
    requires Exact(s) && "" !in ms && forall i, j | 0 <= i < j < |ms| :: ms[i] != ms[j]
    ensures TotalRefs(s, ms) == |Carriers(s, ms)|
  {
    hide Safe;
    if ms == [] {
      assert Carriers(s, ms) == {};
    } else {
      var init, m := ms[..|ms| - 1], ms[|ms| - 1];
      assert ms == init + [m] && m in ms;
      assert "" !in init by { assert forall n | n in init :: n in ms; }
      TotalIsCarriers(s, init);
      CarriersOfOneMore(s, init, m);
    }
  }

  lemma CarriersOfOneMore(s: Store, ms: seq<Md5>, m: Md5)
    requires m != "" && m !in ms && RefsExact(s, m)
    ensures Carriers(s, ms + [m]) == Carriers(s, ms) + Refs(s, m)
    ensures |Carriers(s, ms + [m])| == |Carriers(s, ms)| + |Refs(s, m)|
  {
    forall k ensures k in Carriers(s, ms + [m]) <==> k in Carriers(s, ms) + Refs(s, m) {
      assert k in Refs(s, m) <==> FileMd5(s, k) == m;
    }
    assert Carriers(s, ms) !! Refs(s, m);
  }

  /** The reference sets of the stored objects add up to the number of files with content. */
  lemma ReferencesAddUp(s: Store, ms: seq<Md5>)
    requires Exact(s) && forall i, j | 0 <= i < j < |ms| :: ms[i] != ms[j]
    requires forall m :: m in ms <==> m != "" && m in s.disk.objects
    ensures TotalRefs(s, ms) == |Files(s)|
  {
    TotalIsCarriers(s, ms);
    forall k ensures k in Carriers(s, ms) <==> k in Files(s) {
      assert KeyOk(s, k);
    }
    assert Carriers(s, ms) == Files(s).Keys;
  }

  // ---------------------------------------------------------------- release

  lemma DropRefSafe(s: Store, m: Md5, k: Key)
    requires Safe(s) && m == FileMd5(s, k)
    ensures var t := DropRef(s, m, k);
            && (forall n | n != "" :: ObjectOk(t, n))
            && (forall l | l != k :: KeyOk(t, l))
            && (forall n | n != "" :: Refs(t, n) == if n == m then Refs(s, n) - {k} else Refs(s, n))
            && (forall l | l != k && FileMd5(s, l) != "" ::
                  ObjectBytes(t.disk, FileMd5(s, l)) == ObjectBytes(s.disk, FileMd5(s, l)))
  {
    var t := DropRef(s, m, k);
    forall n | n != ""
      ensures Refs(t, n) == if n == m then Refs(s, n) - {k} else Refs(s, n)
      ensures ObjectOk(t, n)
    {
      assert ObjectOk(s, n);
    }
    forall l | l != k ensures KeyOk(t, l) {
      assert KeyOk(s, l);
    }
    forall l | l != k && FileMd5(s, l) != ""
      ensures ObjectBytes(t.disk, FileMd5(s, l)) == ObjectBytes(s.disk, FileMd5(s, l))
    {
      assert KeyOk(s, l) && KeyOk(t, l);
    }
  }

  /** Removing a row that has no content left. */
  lemma UnindexSafe(s: Store, k: Key)
    requires forall l | l != k :: KeyOk(s, l)
    requires forall m | m != "" :: ObjectOk(s, m)
    ensures Safe(Unindex(s, k))
    ensures Files(Unindex(s, k)) == Files(s) - {k}
  {
    var t := Unindex(s, k);
    forall l ensures KeyOk(t, l) {
      if l != k {
        assert KeyOk(s, l);
      }
    }
    forall m | m != "" ensures ObjectOk(t, m) {
      assert ObjectOk(s, m);
    }
  }

  /** releaseContentRef forgets one key and nothing else. */
  lemma ReleaseSafe(s: Store, k: Key)
    requires Safe(s)
    ensures Safe(Release(s, k))
    ensures Files(Release(s, k)) == Files(s) - {k}
    ensures forall m | m != "" ::
              Refs(Release(s, k), m) == if m == FileMd5(s, k) then Refs(s, m) - {k} else Refs(s, m)
  {
    assert KeyOk(s, k);
    var m := FileMd5(s, k);
    assert KeyMd5(s, k) == m;
    DropRefSafe(s, m, k);
    var t := DropRef(s, m, k);
    hide DropRef, KeyOk, ObjectOk, Refs;
    UnindexSafe(t, k);
    SameElsewhere(s, t, k);
  }

  lemma SameElsewhere(s: Store, t: Store, k: Key)
    requires t.rows == s.rows && forall l | l != k :: KeyOk(s, l) && KeyOk(t, l)
    requires forall l | l != k && FileMd5(s, l) != "" ::
               ObjectBytes(t.disk, FileMd5(s, l)) == ObjectBytes(s.disk, FileMd5(s, l))
    ensures Files(t) - {k} == Files(s) - {k}
  {
    forall l | l != k
      ensures l in Files(t) <==> l in Files(s)
      ensures l in Files(t) ==> Files(t)[l] == Files(s)[l]
    {
      assert KeyOk(s, l) && KeyOk(t, l);
    }
  }

  lemma ReleaseExact(s: Store, k: Key)
    requires Exact(s)
    ensures Exact(Release(s, k))
  {
    ReleaseSafe(s, k);
    var t := Release(s, k);
    forall m | m != "" ensures RefsExact(t, m) {
      assert RefsExact(s, m);
    }
  }

  // ---------------------------------------------------------------- add

  /** The state between publishing an object and its first reference: only `m` may lack references. */
  ghost predicate SafeBut(s: Store, m: Md5) {
    && (forall k :: KeyOk(s, k))
    && (forall n | n != "" && n != m :: ObjectOk(s, n))
    && (m in s.disk.objects ==> m in s.sizes && s.sizes[m] == |ObjectBytes(s.disk, m)|)
  }

  /** addContentRef on a key without a file is right exactly when the object is there. */
  lemma AddRefSafe(s: Store, k: Key, m: Md5, size: nat)
    requires SafeBut(s, m) && m != "" && FileMd5(s, k) == ""
    requires m in s.disk.objects ==> size == |ObjectBytes(s.disk, m)|
    ensures Safe(AddRef(s, k, m, size)) <==> m in s.disk.objects
    ensures m in s.disk.objects ==> Files(AddRef(s, k, m, size)) == Files(s)[k := ObjectBytes(s.disk, m)]
  {
    var t := AddRef(s, k, m, size);
    assert FileMd5(t, k) == m && (KeyOk(t, k) <==> m in s.disk.objects);
    if m in s.disk.objects {
      forall l ensures KeyOk(t, l) {
        assert KeyOk(s, l);
      }
      forall n | n != "" ensures ObjectOk(t, n) {
        if n != m {
          assert ObjectOk(s, n) && Refs(t, n) == Refs(s, n);
        } else {
          assert k in Refs(t, n);
        }
      }
    }
  }

  lemma AddRefExact(s: Store, k: Key, m: Md5, size: nat)
    requires SafeBut(s, m) && m != "" && FileMd5(s, k) == "" && m in s.disk.objects
    requires size == |ObjectBytes(s.disk, m)|
    requires forall n | n != "" :: RefsExact(s, n)
    ensures Exact(AddRef(s, k, m, size))
  {
    AddRefSafe(s, k, m, size);
    var t := AddRef(s, k, m, size);
    forall n | n != "" ensures RefsExact(t, n) {
      assert RefsExact(s, n);
      forall l ensures l in Refs(t, n) <==> FileMd5(t, l) == n {
      }
    }
  }

  // ---------------------------------------------------------------- rename

  /** Renaming a file keeps every file readable exactly when it does not rename it to itself. */
  lemma RenameFileSafe(s: Store, from: Key, to: Key)
    requires Safe(s) && IsFile(s, from)
    ensures Safe(RenameFile(s, from, to, FileMd5(s, from), s.rows[from].size)) <==>
            from != to || FileMd5(s, from) == ""
  {
    var m := FileMd5(s, from);
    var t := RenameFile(s, from, to, m, s.rows[from].size);
    assert KeyOk(s, from);
    if from == to && m != "" {
      assert !KeyOk(t, to);
    } else {
      forall l ensures KeyOk(t, l) {
        assert KeyOk(s, l);
      }
      forall n | n != "" ensures ObjectOk(t, n) {
        assert ObjectOk(s, n);
        assert n == m ==> to in Refs(t, n);
      }
    }
  }

  /** It moves one key; a file row without content erases what it lands on. */
  lemma RenameFileMoves(s: Store, from: Key, to: Key)
    requires Safe(s) && IsFile(s, from) && (from != to || FileMd5(s, from) == "")
    ensures var m := FileMd5(s, from);
            Files(RenameFile(s, from, to, m, s.rows[from].size)) ==
            if m == "" then Files(s) - {to} else (Files(s) - {from})[to := ObjectBytes(s.disk, m)]
  {
    var m := FileMd5(s, from);
    var t := RenameFile(s, from, to, m, s.rows[from].size);
    assert m != "" ==> m in s.disk.objects by { assert KeyOk(s, from); }
    var want := if m == "" then Files(s) - {to} else (Files(s) - {from})[to := ObjectBytes(s.disk, m)];
    forall l
      ensures l in Files(t) <==> l in want
      ensures l in Files(t) ==> Files(t)[l] == want[l]
    {
      RenamedMd5(s, from, to, l);
      HasContent(s, l);
      HasContent(t, l);
      hide RenameFile, FileMd5;
    }
  }

  lemma RenamedMd5(s: Store, from: Key, to: Key, l: Key)
    requires IsFile(s, from) && (from != to || FileMd5(s, from) == "")
    ensures var t := RenameFile(s, from, to, FileMd5(s, from), s.rows[from].size);
            && t.disk == s.disk
            && FileMd5(t, l) == if l == to then FileMd5(s, from) else if l == from then "" else FileMd5(s, l)
  {
  }

  lemma HasContent(s: Store, l: Key)
    ensures l in Files(s) <==> FileMd5(s, l) != "" && FileMd5(s, l) in s.disk.objects
    ensures l in Files(s) ==> Files(s)[l] == ObjectBytes(s.disk, FileMd5(s, l))
  {
  }

  /** Its references stay exact exactly when it also lands on no other content. */
  lemma RenameFileExact(s: Store, from: Key, to: Key)
    requires Exact(s) && IsFile(s, from)
    ensures var m := FileMd5(s, from);
            Exact(RenameFile(s, from, to, m, s.rows[from].size)) <==>
            (from != to || m == "") && (FileMd5(s, to) == "" || FileMd5(s, to) == m)
  {
    var m, n := FileMd5(s, from), FileMd5(s, to);
    var t := RenameFile(s, from, to, m, s.rows[from].size);
    RenameFileSafe(s, from, to);
    if n != "" && n != m {
      assert RefsExact(s, n);
      assert to in Refs(t, n) && FileMd5(t, to) != n;
      assert !RefsExact(t, n);
    } else if from != to || m == "" {
      forall l: Md5 | l != "" ensures RefsExact(t, l) {
        assert RefsExact(s, l);
      }
    }
  }

  /** Moving anything without a file row keeps files exactly when it lands on no file content. */
  lemma RenameOtherOk(s: Store, from: Key, to: Key, size: nat)
    requires Safe(s) && !IsFile(s, from)
    ensures var t := RenameOther(s, from, to, size);
            && (Safe(t) <==> FileMd5(s, to) == "")
            && (Safe(t) ==> Files(t) == Files(s))
            && (Safe(t) && Exact(s) ==> Exact(t))
  {
    var t := RenameOther(s, from, to, size);
    assert KeyOk(s, from) && KeyOk(s, to);
    if FileMd5(s, to) != "" {
      assert from != to;
      assert !KeyOk(t, to);
    } else {
      SameIndex(s, t);
    }
  }

  /** mkdir keeps files exactly when its path holds no file content. */
  lemma IndexDirOk(s: Store, k: Key)
    requires Safe(s)
    ensures var t := IndexDir(s, k);
            && (Safe(t) <==> FileMd5(s, k) == "")
            && (Safe(t) ==> Files(t) == Files(s))
            && (Safe(t) && Exact(s) ==> Exact(t))
  {
    var t := IndexDir(s, k);
    assert KeyOk(s, k);
    if FileMd5(s, k) != "" {
      assert !KeyOk(t, k);
    } else {
      SameIndex(s, t);
    }
  }

  /** Rows without content may come and go. */
  lemma SameIndex(s: Store, t: Store)
    requires Safe(s)
    requires t.refs == s.refs && t.sizes == s.sizes
    requires t.disk.objects == s.disk.objects
    requires forall m | m in s.disk.objects :: ObjectBytes(t.disk, m) == ObjectBytes(s.disk, m)
    requires forall k :: FileMd5(t, k) == FileMd5(s, k) && PathMd5(t, k) == PathMd5(s, k)
    requires forall k | FileMd5(s, k) != "" :: k in t.rows && t.rows[k] == s.rows[k]
    ensures Safe(t) && Files(t) == Files(s) && (Exact(s) ==> Exact(t))
  {
    forall l ensures KeyOk(t, l) {
      assert KeyOk(s, l);
    }
    forall n | n != "" ensures ObjectOk(t, n) {
      assert ObjectOk(s, n);
    }
    if Exact(s) {
      forall n | n != "" ensures RefsExact(t, n) {
        assert RefsExact(s, n);
      }
    }
    forall k ensures k in Files(t) <==> k in Files(s) {
      assert KeyOk(s, k) && KeyOk(t, k);
    }
  }

  // ---------------------------------------------------------------- recursive removal

  /** Releasing a set of keys at once is safe, whatever the set. */
  lemma SweepSafe(s: Store, ks: set<Key>)
    requires Safe(s)
    ensures Safe(Sweep(s, ks))
    ensures Files(Sweep(s, ks)) == Files(s) - ks
  {
    var t := Sweep(s, ks);
    forall m | m != ""
      ensures Refs(t, m) == Refs(s, m) - Released(s, ks, m)
      ensures ObjectOk(t, m)
      ensures m in t.disk.objects ==> ObjectBytes(t.disk, m) == ObjectBytes(s.disk, m)
    {
      SweepRefs(s, ks, m);
    }
    hide Sweep, Released, ObjectOk, KeyOk;
    forall k ensures KeyOk(t, k) {
      SweptKey(s, ks, k);
    }
    SweptFiles(s, ks);
  }

  lemma SweptFiles(s: Store, ks: set<Key>)
    requires Safe(s)
    ensures Files(Sweep(s, ks)) == Files(s) - ks
  {
    hide Sweep, Released;
    var t := Sweep(s, ks);
    forall k
      ensures k in Files(t) <==> k in Files(s) - ks
      ensures k in Files(t) ==> Files(t)[k] == Files(s)[k]
    {
      SweptKey(s, ks, k);
      assert KeyOk(s, k) && KeyOk(t, k);
      if FileMd5(t, k) != "" {
        SweepRefs(s, ks, FileMd5(t, k));
      }
    }
  }

  lemma SweptKey(s: Store, ks: set<Key>, k: Key)
    requires Safe(s)
    ensures KeyOk(Sweep(s, ks), k) && FileMd5(Sweep(s, ks), k) == if k in ks then "" else FileMd5(s, k)
  {
    assert KeyOk(s, k);
    if k !in ks && FileMd5(s, k) != "" {
      SweepRefs(s, ks, FileMd5(s, k));
      assert k in Refs(s, FileMd5(s, k)) && k !in Released(s, ks, FileMd5(s, k));
      assert ObjectOk(Sweep(s, ks), FileMd5(s, k));
    }
  }

  lemma SweepRefs(s: Store, ks: set<Key>, m: Md5)
    requires Safe(s) && m != ""
    ensures var t := Sweep(s, ks);
            && Refs(t, m) == Refs(s, m) - Released(s, ks, m)
            && ObjectOk(t, m)
            && (m in t.disk.objects ==> ObjectBytes(t.disk, m) == ObjectBytes(s.disk, m))
  {
    assert ObjectOk(s, m);
    var ours := Released(s, ks, m);
    if m in Collected(s, ks) {
      assert Refs(s, m) <= ours;
    } else if Refs(s, m) != {} {
      var any :| any in Refs(s, m);
      assert any in ours ==> any in ks && KeyMd5(s, any) == m;
      assert !(Refs(s, m) <= ours);
      var k :| k in Refs(s, m) && k !in ours;
      assert k in Refs(Sweep(s, ks), m);
    }
  }

  lemma SweepExact(s: Store, ks: set<Key>)
    requires Exact(s)
    ensures Exact(Sweep(s, ks))
  {
    SweepSafe(s, ks);
    var t := Sweep(s, ks);
    forall m | m != "" ensures RefsExact(t, m) {
      assert RefsExact(s, m);
      SweepRefs(s, ks, m);
      forall k ensures k in Refs(t, m) <==> FileMd5(t, k) == m {
        assert KeyOk(s, k);
      }
    }
  }
}
