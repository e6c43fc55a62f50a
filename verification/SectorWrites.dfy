/** Writing a sector: temporary file, rename, index update and removal, cut off by a crash at any point. */
module SectorWrites {
  import opened Domain
  import opened FileNames
  import opened SectorStore

  /**
   * The directory before a write and after each of its file operations: the temporary file created with
   * arbitrary contents, written and synchronised, renamed, and the old file removed.
   */
  function Cuts(dir: Dir, idx: nat, e: Entry, junk: Data, oldTag: Tag): (cuts: seq<Dir>)
    ensures |cuts| == 5
  {
    var tmp, name := TmpName(idx, e.tag), FinalName(idx, e.tag);
    var renamed := (dir - {tmp})[name := e.val];
    [dir, dir[tmp := junk], dir[tmp := e.val], renamed,
     if oldTag == ZERO_TAG then renamed else renamed - {FinalName(idx, oldTag)}]
  }

  /** What the index and the directory together hold for a sector. */
  function Live(dir: Dir, index: map<nat, Tag>, idx: nat): Entry
    requires idx in index ==> FinalName(idx, index[idx]) in dir
  {
    if idx in index then Entry(index[idx], dir[FinalName(idx, index[idx])]) else ZERO_ENTRY
  }

  // ---------- Around a settled directory ----------

  lemma SettledHolds(dir: Dir, index: map<nat, Tag>, idx: nat, name: string)
    requires Settled(dir, index)
    ensures Holds(dir, idx, name) <==> idx in index && name == FinalName(idx, index[idx])
  {
    if idx in index {
      FinalNameRoundTrip(idx, index[idx]);
    }
  }

  lemma SettledShows(dir: Dir, index: map<nat, Tag>, idx: nat)
    requires Settled(dir, index)
    ensures Named(dir) && Shows(dir, idx, Live(dir, index, idx))
  {
    hide KindOf;
    hide FinalName;
    forall name ensures Holds(dir, idx, name) <==> idx in index && name == FinalName(idx, index[idx]) {
      SettledHolds(dir, index, idx, name);
    }
    if idx in index {
      var name := FinalName(idx, index[idx]);
      assert Newest(dir, idx, name);
    }
  }

  /** Files of kind `Other` do not count. */
  lemma SameHolds(dir: Dir, d: Dir, idx: nat, e: Entry)
    requires forall name :: KindOf(name).Final? ==> (name in d <==> name in dir)
    requires forall name :: KindOf(name).Final? && name in d ==> d[name] == dir[name]
    ensures Shows(d, idx, e) <==> Shows(dir, idx, e)
  {
    hide KindOf;
    assert forall name :: Holds(d, idx, name) <==> Holds(dir, idx, name);
    assert forall name :: Newest(d, idx, name) <==> Newest(dir, idx, name);
  }

  lemma TmpShows(dir: Dir, idx: nat, e: Entry, contents: Data, j: nat, f: Entry)
    ensures Shows(dir[TmpName(idx, e.tag) := contents], j, f) <==> Shows(dir, j, f)
  {
    hide KindOf;
    TmpNameIsOther(idx, e.tag);
    SameHolds(dir, dir[TmpName(idx, e.tag) := contents], j, f);
  }

  /** After the rename, or after the removal, the sector has the new file and at most one older one. */
  ghost predicate Superseded(d: Dir, idx: nat, e: Entry, oldTag: Tag) {
    && FinalName(idx, e.tag) in d && d[FinalName(idx, e.tag)] == e.val
    && forall name :: Holds(d, idx, name) ==> KindOf(name).tag == e.tag || KindOf(name).tag == oldTag
  }

  lemma SupersededShows(d: Dir, idx: nat, e: Entry, oldTag: Tag)
    requires InRange(idx, e.tag) && Superseded(d, idx, e, oldTag) && AtMost(oldTag, e.tag)
    ensures Shows(d, idx, e)
  {
    hide KindOf;
    FinalNameRoundTrip(idx, e.tag);
    assert Newest(d, idx, FinalName(idx, e.tag));
  }

  lemma RenamedSupersedes(dir: Dir, index: map<nat, Tag>, idx: nat, e: Entry, junk: Data, k: nat)
    requires Settled(dir, index) && InRange(idx, e.tag) && 3 <= k <= 4
    requires idx in index ==> index[idx] != e.tag
    ensures Superseded(Cuts(dir, idx, e, junk, OldTag(index, idx))[k], idx, e, OldTag(index, idx))
  {
    hide KindOf;
    hide FinalName;
    hide TmpName;
    FinalNameRoundTrip(idx, e.tag);
    TmpNameIsOther(idx, e.tag);
    if idx in index {
      FinalNameRoundTrip(idx, index[idx]);
    }
    var d := Cuts(dir, idx, e, junk, OldTag(index, idx))[k];
    forall name | Holds(d, idx, name) ensures KindOf(name).tag == e.tag || KindOf(name).tag == OldTag(index, idx) {
      assert name == FinalName(idx, e.tag) || name in dir;
    }
  }

  /**
   * A crash at any point of a write with a newer tag leaves the old sector before the rename and the new one
   * from the rename on.
   */
  lemma CutWriteShows(dir: Dir, index: map<nat, Tag>, idx: nat, e: Entry, junk: Data, k: nat)
    requires Settled(dir, index) && InRange(idx, e.tag) && k <= 4
    requires idx in index ==> Below(index[idx], e.tag)
    ensures Shows(Cuts(dir, idx, e, junk, OldTag(index, idx))[k], idx, if k < 3 then Live(dir, index, idx) else e)
  {
    hide KindOf;
    hide FinalName;
    SettledShows(dir, index, idx);
    if k == 1 {
      TmpShows(dir, idx, e, junk, idx, Live(dir, index, idx));
    } else if k == 2 {
      TmpShows(dir, idx, e, e.val, idx, Live(dir, index, idx));
    } else if k >= 3 {
      RenamedSupersedes(dir, index, idx, e, junk, k);
      SupersededShows(Cuts(dir, idx, e, junk, OldTag(index, idx))[k], idx, e, OldTag(index, idx));
    }
  }

  /** A write to one sector, cut off anywhere, leaves every other sector alone. */
  lemma CutWriteSparesOthers(dir: Dir, index: map<nat, Tag>, idx: nat, e: Entry, junk: Data, k: nat, j: nat)
    requires Settled(dir, index) && InRange(idx, e.tag) && k <= 4 && j != idx
    ensures Shows(Cuts(dir, idx, e, junk, OldTag(index, idx))[k], j, Live(dir, index, j))
  {
    hide KindOf;
    hide FinalName;
    hide TmpName;
    FinalNameRoundTrip(idx, e.tag);
    TmpNameIsOther(idx, e.tag);
    if idx in index {
      FinalNameRoundTrip(idx, index[idx]);
    }
    SettledShows(dir, index, j);
    var d := Cuts(dir, idx, e, junk, OldTag(index, idx))[k];
    forall name ensures Holds(d, j, name) <==> Holds(dir, j, name)
    {
    }
    assert forall name :: Newest(d, j, name) <==> Newest(dir, j, name);
    assert forall name :: Holds(d, j, name) ==> d[name] == dir[name];
  }

  /** A completed write with a newer tag leaves the directory and the index in agreement. */
  lemma WriteSettles(dir: Dir, index: map<nat, Tag>, idx: nat, e: Entry, junk: Data)
    requires Settled(dir, index) && InRange(idx, e.tag) && e.tag != ZERO_TAG
    requires idx in index ==> index[idx] != e.tag
    ensures Settled(Cuts(dir, idx, e, junk, OldTag(index, idx))[4], index[idx := e.tag])
  {
    hide KindOf;
    hide FinalName;
    hide TmpName;
    FinalNameRoundTrip(idx, e.tag);
    TmpNameIsOther(idx, e.tag);
    if idx in index {
      FinalNameRoundTrip(idx, index[idx]);
    }
    forall i | i in index ensures KindOf(FinalName(i, index[i])) == Final(i, index[i]) {
      FinalNameRoundTrip(i, index[i]);
    }
  }

  /**
   * The exact condition: the new sector is there from the rename on, whatever cuts the write off, if and only
   * if its tag is above the stored one.
   */
  lemma CutWriteIff(dir: Dir, index: map<nat, Tag>, idx: nat, e: Entry, junk: Data)
    requires Settled(dir, index) && InRange(idx, e.tag) && idx in index
    ensures (forall k :: 3 <= k <= 4 ==> Shows(Cuts(dir, idx, e, junk, index[idx])[k], idx, e)) <==> Below(index[idx], e.tag)
  {
    hide KindOf;
    hide FinalName;
    if Below(index[idx], e.tag) {
      forall k | 3 <= k <= 4 ensures Shows(Cuts(dir, idx, e, junk, index[idx])[k], idx, e) {
        CutWriteShows(dir, index, idx, e, junk, k);
      }
    } else if e.tag == index[idx] {
      SameTagLoses(dir, index, idx, e, junk);
    } else {
      OlderTagLoses(dir, index, idx, e, junk);
    }
  }

  /** Writing again under the stored tag removes the file that was just renamed. */
  lemma SameTagLoses(dir: Dir, index: map<nat, Tag>, idx: nat, e: Entry, junk: Data)
    requires Settled(dir, index) && idx in index && e.tag == index[idx]
    ensures forall name :: !Holds(Cuts(dir, idx, e, junk, index[idx])[4], idx, name)
    ensures !Shows(Cuts(dir, idx, e, junk, index[idx])[4], idx, e)
  {
    hide KindOf;
    hide FinalName;
    hide TmpName;
    var d := Cuts(dir, idx, e, junk, index[idx])[4];
    forall name ensures !Holds(d, idx, name) {
      SettledHolds(dir, index, idx, name);
    }
  }

  /** Under a smaller tag a crash before the removal brings the old sector back. */
  lemma OlderTagLoses(dir: Dir, index: map<nat, Tag>, idx: nat, e: Entry, junk: Data)
    requires Settled(dir, index) && InRange(idx, e.tag) && idx in index && Below(e.tag, index[idx])
    ensures !Shows(Cuts(dir, idx, e, junk, index[idx])[3], idx, e)
  {
    hide KindOf;
    hide FinalName;
    hide TmpName;
    var d, older := Cuts(dir, idx, e, junk, index[idx])[3], FinalName(idx, index[idx]);
    FinalNameRoundTrip(idx, index[idx]);
    TmpNameIsOther(idx, e.tag);
    assert Holds(d, idx, older);
  }

  // ---------- One file operation at a time ----------

  /** File operation `k` of a write, on a directory that other sectors may have changed in the meantime. */
  function Operation(k: nat, d: Dir, idx: nat, e: Entry, junk: Data, oldTag: Tag): Dir {
    var tmp, name := TmpName(idx, e.tag), FinalName(idx, e.tag);
    match k
    case 1 => d[tmp := junk]
    case 2 => d[tmp := e.val]
    case 3 => if tmp in d then (d - {tmp})[name := d[tmp]] else d
    case 4 => if oldTag == ZERO_TAG then d else d - {FinalName(idx, oldTag)}
    case _ => d
  }

  /** A write that nothing comes between performs these operations. */
  lemma CutsAreOperations(dir: Dir, idx: nat, e: Entry, junk: Data, oldTag: Tag, k: nat)
    requires 1 <= k <= 4
    ensures var cuts := Cuts(dir, idx, e, junk, oldTag); cuts[k] == Operation(k, cuts[k - 1], idx, e, junk, oldTag)
  {
    hide FinalName;
    hide TmpName;
    var tmp := TmpName(idx, e.tag);
    assert dir[tmp := junk][tmp := e.val] == dir[tmp := e.val];
    assert dir[tmp := e.val] - {tmp} == dir - {tmp};
  }

  /** The sector has the indexed file and no other; nothing is said about other sectors or temporaries. */
  ghost predicate SettledAt(dir: Dir, index: map<nat, Tag>, idx: nat) {
    && (idx in index ==> InRange(idx, index[idx]) && index[idx] != ZERO_TAG && FinalName(idx, index[idx]) in dir)
    && (forall name :: Holds(dir, idx, name) ==> idx in index && name == FinalName(idx, index[idx]))
  }

  lemma SettledEach(dir: Dir, index: map<nat, Tag>, idx: nat)
    requires Settled(dir, index)
    ensures SettledAt(dir, index, idx)
  {
    hide KindOf;
    hide FinalName;
  }

  lemma SettledAtShows(dir: Dir, index: map<nat, Tag>, idx: nat)
    requires SettledAt(dir, index, idx)
    ensures Shows(dir, idx, Live(dir, index, idx))
  {
    hide KindOf;
    hide FinalName;
    if idx in index {
      FinalNameRoundTrip(idx, index[idx]);
      assert Newest(dir, idx, FinalName(idx, index[idx]));
    }
  }

  /** A directory recovery accepts. */
  ghost predicate Sane(dir: Dir) {
    Named(dir) && NoZeroTag(dir)
  }

  lemma TmpOperation(k: nat, d: Dir, index: map<nat, Tag>, idx: nat, e: Entry, junk: Data)
    requires Sane(d) && SettledAt(d, index, idx) && 1 <= k <= 2
    ensures var d1 := Operation(k, d, idx, e, junk, OldTag(index, idx));
            && Sane(d1) && SettledAt(d1, index, idx) && Live(d1, index, idx) == Live(d, index, idx)
            && TmpName(idx, e.tag) in d1 && (k == 2 ==> d1[TmpName(idx, e.tag)] == e.val)
  {
    hide KindOf;
    hide FinalName;
    hide TmpName;
    TmpNameIsOther(idx, e.tag);
    if idx in index {
      FinalNameRoundTrip(idx, index[idx]);
    }
    var d1 := Operation(k, d, idx, e, junk, OldTag(index, idx));
    assert forall name :: Holds(d1, idx, name) ==> Holds(d, idx, name);
  }

  lemma RenameOperation(d: Dir, index: map<nat, Tag>, idx: nat, e: Entry, junk: Data)
    requires Sane(d) && SettledAt(d, index, idx) && InRange(idx, e.tag) && e.tag != ZERO_TAG
    requires TmpName(idx, e.tag) in d && d[TmpName(idx, e.tag)] == e.val
    ensures var d1 := Operation(3, d, idx, e, junk, OldTag(index, idx));
            Sane(d1) && Superseded(d1, idx, e, OldTag(index, idx))
  {
    hide FinalName;
    hide TmpName;
    hide KindOf;
    TmpNameIsOther(idx, e.tag);
    FinalNameRoundTrip(idx, e.tag);
    if idx in index {
      FinalNameRoundTrip(idx, index[idx]);
    }
    var d1 := Operation(3, d, idx, e, junk, OldTag(index, idx));
    assert forall name :: Holds(d1, idx, name) ==> Holds(d, idx, name) || name == FinalName(idx, e.tag);
  }

  lemma RemoveOperation(d: Dir, index: map<nat, Tag>, idx: nat, e: Entry, junk: Data)
    requires Sane(d) && Superseded(d, idx, e, OldTag(index, idx)) && InRange(idx, e.tag) && e.tag != ZERO_TAG
    requires e.tag != OldTag(index, idx)
    ensures var d1 := Operation(4, d, idx, e, junk, OldTag(index, idx)); var index1 := index[idx := e.tag];
            Sane(d1) && SettledAt(d1, index1, idx) && Live(d1, index1, idx) == e
  {
    hide FinalName;
    hide KindOf;
    FinalNameRoundTrip(idx, e.tag);
    var old1 := OldTag(index, idx);
    var d1 := Operation(4, d, idx, e, junk, old1);
    if FinalName(idx, e.tag) == FinalName(idx, old1) {
      FinalNamesDistinct(idx, e.tag, idx, old1);
    }
    forall name | Holds(d1, idx, name) ensures name == FinalName(idx, e.tag) {
      assert Holds(d, idx, name) && NameOk(name);
    }
  }

  // ---------- What other sectors do meanwhile ----------

  ghost predicate OfSector(name: string, idx: nat) {
    (KindOf(name).Final? && KindOf(name).idx == idx) || exists tag :: name == TmpName(idx, tag)
  }

  /** `d1` differs from `d` in files of other sectors only. */
  ghost predicate Spares(d: Dir, d1: Dir, idx: nat) {
    forall name :: OfSector(name, idx) ==> (name in d1 <==> name in d) && (name in d ==> d1[name] == d[name])
  }

  lemma TmpNamesDistinct(i: nat, t: Tag, j: nat, u: Tag)
    requires TmpName(i, t) == TmpName(j, u)
    ensures i == j && t == u
  {
    assert TmpName(i, t)[4..] == FinalName(i, t) && TmpName(j, u)[4..] == FinalName(j, u);
    FinalNamesDistinct(i, t, j, u);
  }

  /** Every file operation of a write to another sector spares this one. */
  lemma OperationSpares(k: nat, d: Dir, j: nat, e: Entry, junk: Data, oldTag: Tag, idx: nat)
    requires Sane(d) && j != idx && InRange(j, e.tag) && e.tag != ZERO_TAG && InRange(j, oldTag)
    ensures var d1 := Operation(k, d, j, e, junk, oldTag); Sane(d1) && Spares(d, d1, idx)
  {
    hide FinalName;
    hide TmpName;
    hide KindOf;
    TmpNameIsOther(j, e.tag);
    FinalNameRoundTrip(j, e.tag);
    FinalNameRoundTrip(j, oldTag);
    forall tag ensures TmpName(j, e.tag) != TmpName(idx, tag) && KindOf(TmpName(idx, tag)).Other? {
      TmpNameIsOther(idx, tag);
      if TmpName(j, e.tag) == TmpName(idx, tag) {
        TmpNamesDistinct(j, e.tag, idx, tag);
      }
    }
  }

  /** What is spared stays settled, superseded and in its temporary file. */
  lemma SparedStays(d: Dir, d1: Dir, index: map<nat, Tag>, index1: map<nat, Tag>, idx: nat, e: Entry)
    requires Spares(d, d1, idx) && InRange(idx, e.tag) && (idx in index <==> idx in index1)
    requires idx in index ==> index1[idx] == index[idx]
    ensures SettledAt(d, index, idx) ==> SettledAt(d1, index1, idx) && Live(d1, index1, idx) == Live(d, index, idx)
    ensures Superseded(d, idx, e, OldTag(index, idx)) ==> Superseded(d1, idx, e, OldTag(index1, idx))
    ensures var tmp := TmpName(idx, e.tag); (tmp in d1 <==> tmp in d) && (tmp in d ==> d1[tmp] == d[tmp])
  {
    hide FinalName;
    hide TmpName;
    hide KindOf;
    FinalNameRoundTrip(idx, e.tag);
    assert OfSector(TmpName(idx, e.tag), idx) && OfSector(FinalName(idx, e.tag), idx);
    if idx in index && InRange(idx, index[idx]) {
      FinalNameRoundTrip(idx, index[idx]);
      assert OfSector(FinalName(idx, index[idx]), idx);
    }
    forall name | Holds(d1, idx, name) ensures Holds(d, idx, name) {
      assert OfSector(name, idx);
    }
  }

  // ---------- The store object ----------

  class SectorsManager {
    var dir: Dir
    var index: map<nat, Tag>

    ghost predicate Valid()
      reads this
    {
      Settled(dir, index)
    }

    /** Start-up; where the source's recovery fails, nothing is promised. */
    constructor (found: Dir, listing: seq<string>)
      requires Lists(found, listing)
      ensures var v := Visits(found, listing, |listing|); v.Some? ==> v.value == (index, dir)
      ensures Named(found) ==> IndexOf(found, index) && Trimmed(found, dir)
      ensures Named(found) && NoZeroTag(found) ==> Valid()
    {
      var ok, recovered, disc, cuts := CrashRecovery(found, listing);
      dir, index := disc, recovered;
    }

    method ReadMetadata(idx: nat) returns (tag: Tag)
      requires Valid()
      ensures tag == Live(dir, index, idx).tag
    {
      if idx in index {
        tag := index[idx];
      } else {
        tag := ZERO_TAG;
      }
    }

    /** `None` stands for a file that could not be opened. */
    method ReadData(idx: nat) returns (data: Option<Data>)
      requires Valid()
      ensures data == Some(Live(dir, index, idx).val)
    {
      if idx in index {
        var name := FinalName(idx, index[idx]);
        data := if name in dir then Some(dir[name]) else None;
      } else {
        data := Some(ZeroSector());
      }
    }

    /**
     * The file operations of a write, one after the other; `cuts` is the directory between them. `ok` is
     * false when the old file is not there to be removed.
     */
    method Write(idx: nat, e: Entry, junk: Data) returns (ok: bool, cuts: seq<Dir>)
      requires InRange(idx, e.tag)
      modifies this
      ensures cuts == Cuts(old(dir), idx, e, junk, OldTag(old(index), idx))
      ensures dir == cuts[4] && index == old(index)[idx := e.tag]
      ensures old(Valid()) ==> ok
      ensures old(Valid()) && e.tag != ZERO_TAG && e.tag != OldTag(old(index), idx) ==>
                Valid() && Live(dir, index, idx) == e
    {
      hide KindOf;
      hide FinalName;
      hide TmpName;
      hide Settled;
      var tmp, name := TmpName(idx, e.tag), FinalName(idx, e.tag);
      ghost var before, known := dir, index;
      cuts := [dir];
      dir := dir[tmp := junk];
      cuts := cuts + [dir];
      dir := dir[tmp := e.val];
      assert dir == before[tmp := e.val];
      cuts := cuts + [dir];
      dir := (dir - {tmp})[name := e.val];
      assert dir == (before - {tmp})[name := e.val];
      cuts := cuts + [dir];
      var oldTag := if idx in index then index[idx] else ZERO_TAG;
      index := index[idx := e.tag];
      ok := true;
      if oldTag != ZERO_TAG {
        ok := FinalName(idx, oldTag) in dir;
        dir := dir - {FinalName(idx, oldTag)};
      }
      cuts := cuts + [dir];
      if Settled(before, known) {
        OldFileThere(before, known, idx, e);
        if e.tag != ZERO_TAG && e.tag != OldTag(known, idx) {
          WriteSettles(before, known, idx, e, junk);
          NewFileStays(before, known, idx, e, junk);
        }
      }
    }
  }

  lemma OldFileThere(dir: Dir, index: map<nat, Tag>, idx: nat, e: Entry)
    requires Settled(dir, index)
    ensures idx in index ==> FinalName(idx, index[idx]) in (dir - {TmpName(idx, e.tag)})[FinalName(idx, e.tag) := e.val]
  {
  }

  lemma NewFileStays(dir: Dir, index: map<nat, Tag>, idx: nat, e: Entry, junk: Data)
    requires Settled(dir, index) && InRange(idx, e.tag) && e.tag != OldTag(index, idx)
    ensures var d := Cuts(dir, idx, e, junk, OldTag(index, idx))[4];
            FinalName(idx, e.tag) in d && d[FinalName(idx, e.tag)] == e.val
  {
    hide KindOf;
    RenamedSupersedes(dir, index, idx, e, junk, 4);
  }
}
