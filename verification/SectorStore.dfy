/** The crash-safe store of sectors: a directory of files, an index in memory, and recovery of one from the other. */
module SectorStore {
  import opened Domain
  import opened FileNames

  type Dir = map<string, Data>

  /** The files of a directory that belongs to the store alone: sector files, and others such as temporaries. */
  ghost predicate Named(dir: Dir) {
    forall name :: name in dir ==> NameOk(name)
  }

  predicate NameOk(name: string) {
    var k := KindOf(name);
    k.Other? || (k.Final? && name == FinalName(k.idx, k.tag))
  }

  predicate Holds(dir: Dir, idx: nat, name: string) {
    name in dir && KindOf(name).Final? && KindOf(name).idx == idx
  }

  /** The file `name` is the newest version of its sector. */
  ghost predicate Newest(dir: Dir, idx: nat, name: string) {
    Holds(dir, idx, name) && forall other :: Holds(dir, idx, other) ==> AtMost(KindOf(other).tag, KindOf(name).tag)
  }

  /** What the directory says sector `idx` contains. */
  ghost predicate Shows(dir: Dir, idx: nat, e: Entry) {
    || (e == ZERO_ENTRY && forall name :: !Holds(dir, idx, name))
    || (exists name :: Newest(dir, idx, name) && KindOf(name).tag == e.tag && dir[name] == e.val)
  }

  lemma KindInRange(name: string)
    requires KindOf(name).Final?
    ensures InRange(KindOf(name).idx, KindOf(name).tag)
  {
  }

  /** Two well-named files of the same version are the same file. */
  lemma SameName(a: string, b: string)
    requires NameOk(a) && NameOk(b) && KindOf(a).Final? && KindOf(b) == KindOf(a)
    ensures a == b
  {
  }

  lemma ShowsUnique(dir: Dir, idx: nat, e: Entry, f: Entry)
    requires Named(dir) && Shows(dir, idx, e) && Shows(dir, idx, f)
    ensures e == f
  {
  }

  /** A sector with a file has a newest one. */
  lemma {:induction false} NewestExists(dir: Dir, idx: nat, some: string) returns (name: string)
    requires Holds(dir, idx, some)
    ensures Newest(dir, idx, name)
    decreases |dir|
  {
    var rest := dir - {some};
    assert rest.Keys == dir.Keys - {some};
    name := some;
    if other :| Holds(rest, idx, other) {
      var best := NewestExists(rest, idx, other);
      if Below(KindOf(some).tag, KindOf(best).tag) {
        name := best;
      }
      assert forall x :: Holds(dir, idx, x) ==> x == some || Holds(rest, idx, x);
    } else {
      assert forall x :: Holds(dir, idx, x) && x != some ==> Holds(rest, idx, x);
    }
  }

  // ---------- Removing what is out of date ----------

  /** `d` is `dir` with files removed, none of them the newest of its sector. */
  ghost predicate Trimmed(dir: Dir, d: Dir) {
    && (forall name :: name in d ==> name in dir && d[name] == dir[name])
    && (forall idx, name :: Newest(dir, idx, name) ==> name in d)
  }

  lemma TrimmedNewest(dir: Dir, d: Dir, idx: nat, name: string)
    requires Named(dir) && Trimmed(dir, d)
    ensures Newest(d, idx, name) <==> Newest(dir, idx, name)
  {
    assert forall x :: Holds(d, idx, x) ==> Holds(dir, idx, x);
    if Newest(dir, idx, name) {
      assert Holds(d, idx, name);
    } else if Newest(d, idx, name) {
      var best := NewestExists(dir, idx, name);
      assert Holds(d, idx, best);
      SameName(best, name);
      assert false;
    }
  }

  /** Removing out-of-date files changes no sector. */
  lemma TrimmedShows(dir: Dir, d: Dir, idx: nat, e: Entry)
    requires Named(dir) && Trimmed(dir, d)
    ensures Named(d) && (Shows(d, idx, e) <==> Shows(dir, idx, e))
  {
    forall name ensures Newest(d, idx, name) <==> Newest(dir, idx, name) {
      TrimmedNewest(dir, d, idx, name);
    }
    if some :| Holds(dir, idx, some) {
      var best := NewestExists(dir, idx, some);
      assert Holds(d, idx, best);
    }
    assert forall x :: Holds(d, idx, x) ==> Holds(dir, idx, x);
    if name :| Newest(d, idx, name) && KindOf(name).tag == e.tag && d[name] == e.val {
      assert Newest(dir, idx, name);
    }
    if name :| Newest(dir, idx, name) && KindOf(name).tag == e.tag && dir[name] == e.val {
      assert Newest(d, idx, name);
    }
  }

  lemma TrimmedTwice(a: Dir, b: Dir, c: Dir)
    requires Named(a) && Trimmed(a, b) && Trimmed(b, c)
    ensures Trimmed(a, c)
  {
    forall idx, name | Newest(a, idx, name) ensures name in c {
      TrimmedNewest(a, b, idx, name);
    }
  }

  // ---------- Recovery ----------

  /** The index lists exactly the sectors that have a file, each with its newest version. */
  ghost predicate IndexOf(dir: Dir, index: map<nat, Tag>) {
    && (forall idx :: idx in index ==> InRange(idx, index[idx]) && Newest(dir, idx, FinalName(idx, index[idx])))
    && (forall name :: name in dir && KindOf(name).Final? ==> KindOf(name).idx in index)
  }

  /** No file carries the tag that stands for an absent sector. */
  ghost predicate NoZeroTag(dir: Dir) {
    forall name :: name in dir && KindOf(name).Final? ==> KindOf(name).tag != ZERO_TAG
  }

  /** One file per sector, no temporaries, and an index in agreement. */
  ghost predicate Settled(dir: Dir, index: map<nat, Tag>) {
    && (forall idx :: idx in index ==>
          InRange(idx, index[idx]) && index[idx] != ZERO_TAG && FinalName(idx, index[idx]) in dir)
    && (forall name :: name in dir ==> KindOf(name).Final? && KindOf(name).idx in index &&
                                       KindOf(name).tag == index[KindOf(name).idx] &&
                                       name == FinalName(KindOf(name).idx, KindOf(name).tag))
  }

  /** The indexed version of a sector; an absent sector has the zero tag. */
  function OldTag(index: map<nat, Tag>, idx: nat): Tag {
    if idx in index then index[idx] else ZERO_TAG
  }

  /** After the files `seen` have been visited. */
  ghost predicate Recovering(dir: Dir, seen: set<string>, index: map<nat, Tag>, disc: Dir) {
    && (forall name :: name in disc ==> name in dir && disc[name] == dir[name])
    && (forall name :: name in dir && name !in seen ==> name in disc)
    && (forall idx :: idx in index ==> Indexed(disc, seen, index, idx))
    && (forall name :: name in seen && KindOf(name).Final? ==>
          KindOf(name).idx in index && AtMost(KindOf(name).tag, index[KindOf(name).idx]))
    && (forall name :: name in seen && name in disc ==> KindOf(name).Final? && Spared(index, KindOf(name)))
  }

  /** A visited file survives as the indexed version, or because its tag was taken for an absent sector. */
  predicate Spared(index: map<nat, Tag>, k: Kind)
    requires k.Final?
  {
    k.tag == ZERO_TAG || (k.idx in index && k.tag == index[k.idx])
  }

  ghost predicate Indexed(disc: Dir, seen: set<string>, index: map<nat, Tag>, idx: nat)
    requires idx in index
  {
    var name := FinalName(idx, index[idx]);
    InRange(idx, index[idx]) && name in seen && name in disc && KindOf(name) == Final(idx, index[idx])
  }

  lemma RecoveringTrims(dir: Dir, seen: set<string>, index: map<nat, Tag>, disc: Dir)
    requires Named(dir) && seen <= dir.Keys && Recovering(dir, seen, index, disc)
    ensures Trimmed(dir, disc)
  {
  }

  lemma RecoveringDone(dir: Dir, index: map<nat, Tag>, disc: Dir)
    requires Named(dir) && Recovering(dir, dir.Keys, index, disc)
    ensures IndexOf(dir, index) && (NoZeroTag(dir) ==> Settled(disc, index))
  {
    hide KindOf;
    hide FinalName;
    forall idx | idx in index ensures InRange(idx, index[idx]) && Newest(dir, idx, FinalName(idx, index[idx])) {
      assert Indexed(disc, dir.Keys, index, idx);
    }
  }

  lemma VisitOther(dir: Dir, seen: set<string>, index: map<nat, Tag>, disc: Dir, name: string)
    requires Recovering(dir, seen, index, disc) && name in dir && name !in seen && KindOf(name).Other?
    ensures Recovering(dir, seen + {name}, index, disc - {name})
  {
    hide KindOf;
    hide FinalName;
    forall idx | idx in index ensures Indexed(disc - {name}, seen + {name}, index, idx) {
      assert Indexed(disc, seen, index, idx);
    }
  }

  /** The first file of a sector, or one that replaces the tag of an absent sector. */
  lemma VisitFirst(dir: Dir, seen: set<string>, index: map<nat, Tag>, disc: Dir, name: string)
    requires Recovering(dir, seen, index, disc) && name in dir && name !in seen && KindOf(name).Final? && NameOk(name)
    requires KindOf(name).idx !in index || index[KindOf(name).idx] == ZERO_TAG
    ensures Recovering(dir, seen + {name}, index[KindOf(name).idx := KindOf(name).tag], disc)
  {
    hide KindOf;
    hide FinalName;
    KindInRange(name);
    var index1 := index[KindOf(name).idx := KindOf(name).tag];
    forall idx | idx in index1 ensures Indexed(disc, seen + {name}, index1, idx) {
      assert idx in index ==> Indexed(disc, seen, index, idx);
    }
    forall x | x in seen && x in disc ensures Spared(index1, KindOf(x)) {
      assert Spared(index, KindOf(x));
    }
  }

  /** A newer file: the indexed one is removed. */
  lemma VisitNewer(dir: Dir, seen: set<string>, index: map<nat, Tag>, disc: Dir, name: string)
    requires Named(dir) && seen <= dir.Keys
    requires Recovering(dir, seen, index, disc) && name in dir && name !in seen && KindOf(name).Final?
    requires KindOf(name).idx in index && Below(index[KindOf(name).idx], KindOf(name).tag)
    ensures var idx := KindOf(name).idx; var older := FinalName(idx, index[idx]);
            && older in disc && Trimmed(dir, disc - {older})
            && Recovering(dir, seen + {name}, index[idx := KindOf(name).tag], disc - {older})
  {
    hide KindOf;
    hide FinalName;
    var idx := KindOf(name).idx;
    var older := FinalName(idx, index[idx]);
    KindInRange(name);
    assert NameOk(name) && Indexed(disc, seen, index, idx);
    var index1, disc1 := index[idx := KindOf(name).tag], disc - {older};
    forall i | i in index1 ensures Indexed(disc1, seen + {name}, index1, i) {
      assert i in index && Indexed(disc, seen, index, i);
    }
    forall x | x in seen && x in disc1 ensures Spared(index1, KindOf(x)) {
      assert Spared(index, KindOf(x));
      assert KindOf(x) == KindOf(older) ==> x == older;
    }
    assert Recovering(dir, seen + {name}, index1, disc1);
    RecoveringTrims(dir, seen + {name}, index1, disc1);
  }

  /** A file that is not newer is removed. */
  lemma VisitOlder(dir: Dir, seen: set<string>, index: map<nat, Tag>, disc: Dir, name: string)
    requires Recovering(dir, seen, index, disc) && name in dir && name !in seen && KindOf(name).Final?
    requires KindOf(name).idx in index && !Below(index[KindOf(name).idx], KindOf(name).tag)
    ensures Recovering(dir, seen + {name}, index, disc - {name})
  {
    hide KindOf;
    hide FinalName;
    forall idx | idx in index ensures Indexed(disc - {name}, seen + {name}, index, idx) {
      assert Indexed(disc, seen, index, idx);
    }
  }

  // ---------- When one file per sector is left ----------

  predicate SameSector(a: string, b: string) {
    KindOf(a).Final? && KindOf(b).Final? && KindOf(a).idx == KindOf(b).idx
  }

  /** No file of its sector is listed before it. */
  predicate Leads(listing: seq<string>, i: nat)
    requires i < |listing|
  {
    forall j :: 0 <= j < i ==> !SameSector(listing[j], listing[i])
  }

  predicate ZeroFile(name: string) {
    KindOf(name).Final? && KindOf(name).tag == ZERO_TAG
  }

  /** A sector is listed first with the tag of an absent sector, and again later. */
  ghost predicate ZeroMasked(listing: seq<string>) {
    exists i, j :: 0 <= i < j < |listing| && ZeroFile(listing[i]) && Leads(listing, i) && SameSector(listing[i], listing[j])
  }

  ghost predicate OnePerSector(disc: Dir) {
    forall a, b :: a in disc && b in disc && SameSector(a, b) ==> a == b
  }

  /** Of the first `n` names, a file with the tag of an absent sector stays exactly if it leads its sector. */
  ghost predicate ZerosKept(listing: seq<string>, n: nat, disc: Dir)
    requires n <= |listing|
  {
    forall i :: 0 <= i < n && ZeroFile(listing[i]) ==> (listing[i] in disc <==> Leads(listing, i))
  }

  /** Visiting `listing[n]` leads its sector exactly when the index does not know the sector. */
  lemma LeadsUnknown(dir: Dir, listing: seq<string>, n: nat, seen: set<string>, index: map<nat, Tag>, disc: Dir)
    requires n < |listing| && seen == set j | 0 <= j < n :: listing[j]
    requires Recovering(dir, seen, index, disc) && KindOf(listing[n]).Final?
    ensures Leads(listing, n) <==> KindOf(listing[n]).idx !in index
  {
    hide KindOf;
    hide FinalName;
    var idx := KindOf(listing[n]).idx;
    if idx in index {
      assert Indexed(disc, seen, index, idx);
      var j :| 0 <= j < n && listing[j] == FinalName(idx, index[idx]);
      assert SameSector(listing[j], listing[n]);
    } else {
      forall j | 0 <= j < n ensures !SameSector(listing[j], listing[n]) {
        assert listing[j] in seen;
      }
    }
  }

  /** One visit keeps `ZerosKept`, given what it removes. */
  lemma ZerosStep(dir: Dir, listing: seq<string>, n: nat, seen: set<string>, index: map<nat, Tag>, disc: Dir, disc1: Dir)
    requires Named(dir) && n < |listing| && listing[n] in dir && listing[n] !in seen
    requires seen == (set j | 0 <= j < n :: listing[j]) && Recovering(dir, seen, index, disc)
    requires forall i, j :: 0 <= i < j < |listing| ==> listing[i] != listing[j]
    requires ZerosKept(listing, n, disc)
    requires forall x :: x in disc && x !in disc1 ==> x == listing[n] || !ZeroFile(x)
    requires forall x :: x in disc1 ==> x in disc
    requires ZeroFile(listing[n]) ==> (listing[n] in disc1 <==> OldTag(index, KindOf(listing[n]).idx) == ZERO_TAG)
    ensures ZerosKept(listing, n + 1, disc1)
  {
    hide KindOf;
    hide FinalName;
    if ZeroFile(listing[n]) {
      LeadsUnknown(dir, listing, n, seen, index, disc);
      var idx := KindOf(listing[n]).idx;
      assert NameOk(listing[n]);
      if idx in index {
        assert Indexed(disc, seen, index, idx);
      }
    }
  }

  lemma OneFileIff(dir: Dir, listing: seq<string>, index: map<nat, Tag>, disc: Dir)
    requires Named(dir) && (forall name :: name in dir <==> name in listing)
    requires Recovering(dir, dir.Keys, index, disc) && ZerosKept(listing, |listing|, disc)
    ensures OnePerSector(disc) <==> !ZeroMasked(listing)
  {
    hide KindOf;
    hide FinalName;
    if i, j :| 0 <= i < j < |listing| && ZeroFile(listing[i]) && Leads(listing, i) && SameSector(listing[i], listing[j]) {
      TwoFiles(dir, listing, index, disc, i, j);
    }
    if a, b :| a in disc && b in disc && SameSector(a, b) && a != b {
      assert Spared(index, KindOf(a)) && Spared(index, KindOf(b)) && NameOk(a) && NameOk(b);
      if ZeroFile(a) {
        Masked(listing, disc, a, b);
      } else {
        Masked(listing, disc, b, a);
      }
    }
  }

  lemma TwoFiles(dir: Dir, listing: seq<string>, index: map<nat, Tag>, disc: Dir, i: nat, j: nat)
    requires Named(dir) && (forall name :: name in dir <==> name in listing)
    requires Recovering(dir, dir.Keys, index, disc) && ZerosKept(listing, |listing|, disc)
    requires i < j < |listing| && ZeroFile(listing[i]) && Leads(listing, i) && SameSector(listing[i], listing[j])
    requires listing[i] != listing[j]
    ensures !OnePerSector(disc)
  {
    hide KindOf;
    hide FinalName;
    var idx := KindOf(listing[i]).idx;
    assert NameOk(listing[i]) && NameOk(listing[j]);
    assert Indexed(disc, dir.Keys, index, idx);
    assert SameSector(listing[i], FinalName(idx, index[idx]));
  }

  lemma Masked(listing: seq<string>, disc: Dir, z: string, other: string)
    requires z in listing && other in listing && z != other && z in disc
    requires ZeroFile(z) && SameSector(z, other) && ZerosKept(listing, |listing|, disc)
    ensures ZeroMasked(listing)
  {
  }

  // ---------- The loop ----------

  /** One visit: the index and the directory after it, or nothing when it fails. */
  function Visit(index: map<nat, Tag>, disc: Dir, name: string): Option<(map<nat, Tag>, Dir)> {
    match KindOf(name)
    case Other => if name in disc then Some((index, disc - {name})) else None
    case Broken => None
    case Final(idx, tag) =>
      var older := OldTag(index, idx);
      if older == ZERO_TAG then Some((index[idx := tag], disc))
      else if Below(older, tag) then
        if FinalName(idx, older) in disc then Some((index[idx := tag], disc - {FinalName(idx, older)})) else None
      else if name in disc then Some((index, disc - {name})) else None
  }

  /** The first `n` visits, one after the other; nothing once one has failed. */
  function Visits(dir: Dir, listing: seq<string>, n: nat): Option<(map<nat, Tag>, Dir)>
    requires n <= |listing|
  {
    if n == 0 then Some((map[], dir))
    else
      match Visits(dir, listing, n - 1)
      case None => None
      case Some(v) => Visit(v.0, v.1, listing[n - 1])
  }

  lemma {:induction false} StuckForGood(dir: Dir, listing: seq<string>, n: nat, m: nat)
    requires n <= m <= |listing| && Visits(dir, listing, n).None?
    ensures Visits(dir, listing, m).None?
  {
    if n < m {
      StuckForGood(dir, listing, n, m - 1);
    }
  }

  ghost function Seen(listing: seq<string>, n: nat): set<string>
    requires n <= |listing|
  {
    set j | 0 <= j < n :: listing[j]
  }

  ghost predicate Visited(dir: Dir, listing: seq<string>, n: nat, index: map<nat, Tag>, disc: Dir) {
    n <= |listing| && Recovering(dir, Seen(listing, n), index, disc) && ZerosKept(listing, n, disc)
  }

  ghost predicate Lists(dir: Dir, listing: seq<string>) {
    && (forall name :: name in dir <==> name in listing)
    && (forall i, j :: 0 <= i < j < |listing| ==> listing[i] != listing[j])
  }

  lemma SeenStep(dir: Dir, listing: seq<string>, n: nat)
    requires Lists(dir, listing) && n < |listing|
    ensures listing[n] in dir && listing[n] !in Seen(listing, n) && Seen(listing, n) <= dir.Keys
    ensures Seen(listing, n + 1) == Seen(listing, n) + {listing[n]}
  {
  }

  /** What a visit does to the files and the index. */
  lemma VisitRecovers(dir: Dir, seen: set<string>, index: map<nat, Tag>, disc: Dir, name: string)
    requires Named(dir) && seen <= dir.Keys && Recovering(dir, seen, index, disc) && name in dir && name !in seen
    ensures var v := Visit(index, disc, name); v.Some? && Recovering(dir, seen + {name}, v.value.0, v.value.1)
  {
    assert name in disc && NameOk(name);
    hide KindOf;
    hide FinalName;
    hide Recovering;
    if KindOf(name).Other? {
      VisitOther(dir, seen, index, disc, name);
    } else if OldTag(index, KindOf(name).idx) == ZERO_TAG {
      VisitFirst(dir, seen, index, disc, name);
    } else if Below(index[KindOf(name).idx], KindOf(name).tag) {
      VisitNewer(dir, seen, index, disc, name);
    } else {
      VisitOlder(dir, seen, index, disc, name);
    }
  }

  /** A visit removes no file with the tag of an absent sector but the one it visits. */
  lemma VisitSpares(dir: Dir, seen: set<string>, index: map<nat, Tag>, disc: Dir, name: string, x: string)
    requires Recovering(dir, seen, index, disc) && Visit(index, disc, name).Some?
    requires x in disc && x !in Visit(index, disc, name).value.1 && x != name
    ensures !ZeroFile(x)
  {
  }

  lemma VisitKeeps(dir: Dir, listing: seq<string>, n: nat, index: map<nat, Tag>, disc: Dir)
    requires Named(dir) && Lists(dir, listing) && n < |listing| && Visited(dir, listing, n, index, disc)
    ensures var v := Visit(index, disc, listing[n]);
            v.Some? && Visited(dir, listing, n + 1, v.value.0, v.value.1) && Trimmed(dir, v.value.1)
  {
    var seen, name := Seen(listing, n), listing[n];
    SeenStep(dir, listing, n);
    assert name in disc;
    hide KindOf;
    hide FinalName;
    hide Recovering;
    VisitRecovers(dir, seen, index, disc, name);
    var v := Visit(index, disc, name).value;
    RecoveringTrims(dir, seen + {name}, v.0, v.1);
    forall x | x in disc && x !in v.1 && x != name ensures !ZeroFile(x) {
      VisitSpares(dir, seen, index, disc, name, x);
    }
    ZerosStep(dir, listing, n, seen, index, disc, v.1);
  }

  lemma AllVisited(dir: Dir, listing: seq<string>, index: map<nat, Tag>, disc: Dir)
    requires Named(dir) && Lists(dir, listing) && Visited(dir, listing, |listing|, index, disc)
    ensures IndexOf(dir, index) && (NoZeroTag(dir) ==> Settled(disc, index))
    ensures (forall name :: name in disc ==> KindOf(name).Final?) && (OnePerSector(disc) <==> !ZeroMasked(listing))
  {
    hide KindOf;
    hide FinalName;
    assert Seen(listing, |listing|) == dir.Keys;
    RecoveringDone(dir, index, disc);
    OneFileIff(dir, listing, index, disc);
  }

  /**
   * Recovery visits the files in the order of `listing`. `cuts` collects the directory after every file
   * operation: a crash during recovery leaves one of them. A name that does not parse, or a file that is
   * not there to be removed, ends it (`!ok`). No temporary is left, and one file per sector exactly if the
   * listing does not start a sector with the tag that stands for an absent one and list it again.
   */
  method CrashRecovery(dir: Dir, listing: seq<string>)
    returns (ok: bool, index: map<nat, Tag>, disc: Dir, ghost cuts: set<Dir>)
    requires Lists(dir, listing)
    ensures Visits(dir, listing, |listing|) == if ok then Some((index, disc)) else None
    ensures Named(dir) ==> ok && IndexOf(dir, index)
    ensures Named(dir) ==> disc in cuts && forall d :: d in cuts ==> Trimmed(dir, d)
    ensures Named(dir) && NoZeroTag(dir) ==> Settled(disc, index)
    ensures Named(dir) ==>
              (forall name :: name in disc ==> KindOf(name).Final?) && (OnePerSector(disc) <==> !ZeroMasked(listing))
    ensures ok ==> forall name :: name in dir ==> !KindOf(name).Broken?
  {
    hide KindOf;
    hide FinalName;
    ok, index, disc := true, map[], dir;
    cuts := {dir};
    for i := 0 to |listing|
      invariant ok && Visits(dir, listing, i) == Some((index, disc))
      invariant Named(dir) ==> Visited(dir, listing, i, index, disc)
      invariant Named(dir) ==> disc in cuts && forall d :: d in cuts ==> Trimmed(dir, d)
      invariant forall j :: 0 <= j < i ==> !KindOf(listing[j]).Broken?
    {
      hide Visited;
      hide Trimmed;
      var name := listing[i];
      ghost var after := Visit(index, disc, name);
      assert Visits(dir, listing, i + 1) == after;
      if after.None? {
        StuckForGood(dir, listing, i + 1, |listing|);
      }
      if Named(dir) {
        VisitKeeps(dir, listing, i, index, disc);
      }
      var k := KindOf(name);
      if k.Other? {
        if name !in disc {
          ok := false;
          return;
        }
        disc := disc - {name};
      } else if k.Broken? {
        ok := false;
        return;
      } else {
        var older := if k.idx in index then index[k.idx] else ZERO_TAG;
        if older == ZERO_TAG {
          index := index[k.idx := k.tag];
        } else if Below(older, k.tag) {
          if FinalName(k.idx, older) !in disc {
            ok := false;
            return;
          }
          disc := disc - {FinalName(k.idx, older)};
          index := index[k.idx := k.tag];
        } else {
          if name !in disc {
            ok := false;
            return;
          }
          disc := disc - {name};
        }
      }
      assert after == Some((index, disc));
      cuts := cuts + {disc};
    }
    if Named(dir) {
      AllVisited(dir, listing, index, disc);
    }
  }

  lemma IndexAgrees(dir: Dir, a: map<nat, Tag>, b: map<nat, Tag>, idx: nat)
    requires IndexOf(dir, a) && IndexOf(dir, b) && idx in a
    ensures idx in b && a[idx] == b[idx]
  {
    hide FinalName;
    assert Holds(dir, idx, FinalName(idx, a[idx]));
    FinalNameRoundTrip(idx, a[idx]);
    FinalNameRoundTrip(idx, b[idx]);
  }

  /** What recovery finds does not depend on the order in which the files are listed. */
  lemma IndexUnique(dir: Dir, a: map<nat, Tag>, b: map<nat, Tag>)
    requires IndexOf(dir, a) && IndexOf(dir, b)
    ensures a == b
  {
    forall idx | idx in a ensures idx in b && a[idx] == b[idx] {
      IndexAgrees(dir, a, b, idx);
    }
    forall idx | idx in b ensures idx in a {
      IndexAgrees(dir, b, a, idx);
    }
  }

  /** Directories left by recoveries that crashed, each starting from the one before. */
  ghost predicate Restarts(chain: seq<Dir>) {
    chain != [] && Named(chain[0]) && forall i :: 0 <= i < |chain| - 1 ==> Trimmed(chain[i], chain[i + 1])
  }

  lemma {:induction false} RestartsTrim(chain: seq<Dir>)
    requires Restarts(chain)
    ensures Trimmed(chain[0], chain[|chain| - 1]) && Named(chain[|chain| - 1])
  {
    var last := |chain| - 1;
    if last > 0 {
      assert Restarts(chain[..last]);
      RestartsTrim(chain[..last]);
      TrimmedTwice(chain[0], chain[last - 1], chain[last]);
    }
  }

  /** After any number of crashes during recovery the result is that of an uninterrupted one. */
  lemma RecoveryRestartable(chain: seq<Dir>, a: map<nat, Tag>, b: map<nat, Tag>, idx: nat, e: Entry)
    requires Restarts(chain) && IndexOf(chain[0], a) && IndexOf(chain[|chain| - 1], b)
    ensures a == b && (Shows(chain[|chain| - 1], idx, e) <==> Shows(chain[0], idx, e))
  {
    hide KindOf;
    hide FinalName;
    var dir, d := chain[0], chain[|chain| - 1];
    RestartsTrim(chain);
    TrimmedShows(dir, d, idx, e);
    forall i | i in b ensures Newest(dir, i, FinalName(i, b[i])) {
      TrimmedNewest(dir, d, i, FinalName(i, b[i]));
    }
    forall name | name in dir && KindOf(name).Final? ensures KindOf(name).idx in b {
      var best := NewestExists(dir, KindOf(name).idx, name);
      assert best in d;
    }
    assert IndexOf(dir, b);
    IndexUnique(dir, a, b);
  }
}
