/** Local file history: before a save the version on disk is kept, one per burst of editing, the oldest dropped. */
module History {
  import opened Wrappers

  const MIN_GAP_MS: nat := 60000
  const MAX_ENTRIES: nat := 100

  /** The snapshots of one file, by their time in milliseconds */
  type Folder = map<nat, string>

  // ----- the reference: every version ever kept, oldest first

  datatype Version = Version(at: nat, text: string)

  /** A save with no version to read keeps nothing */
  datatype Save = Save(now: nat, current: Option<string>)

  predicate Keeps(kept: seq<Version>, s: Save) {
    s.current.Some? &&
    (kept == [] ||
     (var last := kept[|kept| - 1]; Since(s.now, last.at) >= MIN_GAP_MS && last.text != s.current.value))
  }

  function AfterSave(kept: seq<Version>, s: Save): seq<Version> {
    if Keeps(kept, s) then kept + [Version(s.now, s.current.value)] else kept
  }

  function Kept(kept: seq<Version>, saves: seq<Save>): seq<Version>
    decreases |saves|
  {
    if saves == [] then kept
    else Kept(AfterSave(kept, saves[0]), saves[1..])
  }

  function Recent(kept: seq<Version>): seq<Version> {
    if |kept| > MAX_ENTRIES then kept[|kept| - MAX_ENTRIES..] else kept
  }

  function FolderOf(kept: seq<Version>): Folder {
    if kept == [] then map[] else FolderOf(kept[..|kept| - 1])[kept[|kept| - 1].at := kept[|kept| - 1].text]
  }

  /** The times of versions, newest first */
  function Times(kept: seq<Version>): (r: seq<nat>)
    ensures |r| == |kept| && forall i: nat :: i < |kept| ==> r[i] == kept[|kept| - 1 - i].at
  {
    if kept == [] then [] else [kept[|kept| - 1].at] + Times(kept[..|kept| - 1])
  }

  // ----- what the reference keeps

  predicate Spaced(kept: seq<Version>) {
    forall i: nat, j: nat :: i < j < |kept| ==> kept[i].at + MIN_GAP_MS <= kept[j].at
  }

  predicate Changing(kept: seq<Version>) {
    forall i: nat, j: nat :: j == i + 1 && j < |kept| ==> kept[i].text != kept[j].text
  }

  lemma KeepSpaced(kept: seq<Version>, s: Save)
    requires Spaced(kept) && Changing(kept) && Keeps(kept, s)
    ensures Spaced(kept + [Version(s.now, s.current.value)]) && Changing(kept + [Version(s.now, s.current.value)])
  {
    var more := kept + [Version(s.now, s.current.value)];
    forall i: nat, j: nat | i < j < |more| ensures more[i].at + MIN_GAP_MS <= more[j].at {
      if j == |kept| && i < |kept| - 1 { assert kept[i].at + MIN_GAP_MS <= kept[|kept| - 1].at; }
    }
  }

  lemma {:induction false} KeptIsSpaced(kept: seq<Version>, saves: seq<Save>)
    requires Spaced(kept) && Changing(kept)
    ensures Spaced(Kept(kept, saves)) && Changing(Kept(kept, saves)) && kept <= Kept(kept, saves)
    decreases |saves|
  {
    if saves != [] {
      var s := saves[0];
      if Keeps(kept, s) {
        KeepSpaced(kept, s);
        KeptIsSpaced(kept + [Version(s.now, s.current.value)], saves[1..]);
      } else {
        KeptIsSpaced(kept, saves[1..]);
      }
    }
  }

  lemma {:induction false} FolderKeys(kept: seq<Version>)
    ensures forall t :: t in FolderOf(kept) <==> t in Times(kept)
  {
    if kept != [] { FolderKeys(kept[..|kept| - 1]); }
  }

  lemma {:induction false} FolderSize(kept: seq<Version>)
    requires Spaced(kept)
    ensures |FolderOf(kept)| == |kept|
  {
    if kept != [] {
      var front := kept[..|kept| - 1];
      FolderSize(front);
      FolderKeys(front);
      assert kept[|kept| - 1].at !in FolderOf(front);
    }
  }

  lemma {:induction false} FolderAt(kept: seq<Version>, i: nat)
    requires Spaced(kept) && i < |kept|
    ensures kept[i].at in FolderOf(kept) && FolderOf(kept)[kept[i].at] == kept[i].text
  {
    var n := |kept| - 1;
    if i < n { FolderAt(kept[..n], i); }
  }

  lemma TimeIndex(kept: seq<Version>, t: nat) returns (i: nat)
    requires t in FolderOf(kept)
    ensures i < |kept| && kept[i].at == t
  {
    FolderKeys(kept);
    var k: nat :| k < |kept| && Times(kept)[k] == t;
    i := |kept| - 1 - k;
  }

  lemma {:induction false} OneMore(r: seq<Version>, v: Version)
    ensures FolderOf(r + [v]) == FolderOf(r)[v.at := v.text]
  {
    assert (r + [v])[..|r|] == r;
  }

  lemma DropsApart(folder: Folder, v: Version, at: nat)
    requires v.at != at
    ensures (folder - {at})[v.at := v.text] == folder[v.at := v.text] - {at}
  {}

  lemma {:induction false} DropStep(oldest: Version, front: seq<Version>, v: Version)
    requires FolderOf(front) == FolderOf([oldest] + front) - {oldest.at} && v.at > oldest.at
    ensures FolderOf(front + [v]) == FolderOf([oldest] + (front + [v])) - {oldest.at}
  {
    OneMore(front, v);
    OneMore([oldest] + front, v);
    DropsApart(FolderOf([oldest] + front), v, oldest.at);
    assert [oldest] + (front + [v]) == [oldest] + front + [v];
  }

  /** Without its oldest version the folder has lost that one */
  lemma {:induction false} DropOldest(oldest: Version, rest: seq<Version>)
    requires forall i :: 0 <= i < |rest| ==> rest[i].at > oldest.at
    ensures FolderOf(rest) == FolderOf([oldest] + rest) - {oldest.at}
    decreases |rest|
  {
    if rest == [] {
      OneMore([], oldest);
      assert [] + [oldest] == [oldest] + [] && FolderOf([]) == map[];
    } else {
      var front, v := rest[..|rest| - 1], rest[|rest| - 1];
      DropOldest(oldest, front);
      assert rest == front + [v];
      DropStep(oldest, front, v);
    }
  }

  lemma {:induction false} DropOldestOf(kept: seq<Version>)
    requires kept != [] && Spaced(kept)
    ensures FolderOf(kept[1..]) == FolderOf(kept) - {kept[0].at}
  {
    DropOldest(kept[0], kept[1..]);
    assert kept == [kept[0]] + kept[1..];
  }

  // ----- the program

  /** The ids, newest first */
  predicate NewestFirst(ids: seq<nat>) { forall i: nat, j: nat :: i < j < |ids| ==> ids[i] > ids[j] }

  ghost predicate ListsKeys(ids: seq<nat>, folder: Folder) { NewestFirst(ids) && forall t :: t in ids <==> t in folder }

  function Newest(keys: set<nat>): (t: nat)
    requires keys != {}
    ensures t in keys && forall k :: k in keys ==> k <= t
  {
    MaxExists(keys);
    var t :| t in keys && forall k :: k in keys ==> k <= t;
    t
  }

  lemma {:induction false} Largest(keys: set<nat>) returns (t: nat)
    requires keys != {}
    ensures t in keys && forall k :: k in keys ==> k <= t
    decreases |keys|
  {
    var x :| x in keys;
    var less := keys - {x};
    t := x;
    if less != {} {
      var m := Largest(less);
      if x < m { t := m; }
    }
    forall k | k in keys ensures k <= t { assert k == x || k in less; }
  }

  lemma MaxExists(keys: set<nat>)
    requires keys != {}
    ensures exists t :: t in keys && forall k :: k in keys ==> k <= t
  {
    var t := Largest(keys);
    assert t in keys;
  }

  method SnapshotIds(folder: Folder) returns (ids: seq<nat>)
    ensures ListsKeys(ids, folder)
  {
    ids := [];
    var left := folder.Keys;
    while left != {}
      invariant NewestFirst(ids) && left <= folder.Keys
      invariant forall t :: t in folder <==> t in ids || t in left
      invariant forall i, k :: 0 <= i < |ids| && k in left ==> ids[i] > k
      decreases |left|
    {
      var t := Newest(left);
      ids, left := ids + [t], left - {t};
    }
  }

  lemma {:induction false} SortedOnce(a: seq<nat>, b: seq<nat>)
    requires NewestFirst(a) && NewestFirst(b) && forall t :: t in a <==> t in b
    ensures a == b
    decreases |a|
  {
    if a != [] { assert a[0] in b; }
    if b != [] { assert b[0] in a; }
    if a != [] {
      assert a[0] == b[0];
      forall t ensures t in a[1..] <==> t in b[1..] {
        assert t in a <==> t == a[0] || t in a[1..];
        assert t in b <==> t == b[0] || t in b[1..];
      }
      SortedOnce(a[1..], b[1..]);
      assert a == [a[0]] + a[1..] && b == [b[0]] + b[1..];
    }
  }

  lemma RecentIsSpaced(kept: seq<Version>)
    requires Spaced(kept)
    ensures Spaced(Recent(kept)) && |Recent(kept)| == if |kept| < MAX_ENTRIES then |kept| else MAX_ENTRIES
    ensures kept != [] ==> Recent(kept) != [] && Recent(kept)[|Recent(kept)| - 1] == kept[|kept| - 1]
  {}

  lemma {:induction false} IdsAre(ids: seq<nat>, r: seq<Version>)
    requires Spaced(r) && ListsKeys(ids, FolderOf(r))
    ensures ids == Times(r)
  {
    FolderKeys(r);
    SortedOnce(ids, Times(r));
  }

  lemma RecentGrows(kept: seq<Version>, v: Version)
    ensures Recent(kept + [v]) == if |kept| >= MAX_ENTRIES then (Recent(kept) + [v])[1..] else Recent(kept) + [v]
  {}

  /** The snapshots that are deleted */
  function Stale(ids: seq<nat>): seq<nat> { if |ids| < MAX_ENTRIES then [] else ids[MAX_ENTRIES - 1..] }

  function Set(ids: seq<nat>): set<nat> { set t | t in ids }

  /** With a hundred versions the oldest is the stale one */
  lemma {:induction false} StaleIs(ids: seq<nat>, r: seq<Version>)
    requires |r| == MAX_ENTRIES && ids == Times(r)
    ensures Set(Stale(ids)) == {r[0].at}
  {
    assert Stale(ids) == [r[0].at];
  }

  lemma SetMore(ids: seq<nat>, i: nat)
    requires i < |ids|
    ensures Set(ids[..i + 1]) == Set(ids[..i]) + {ids[i]}
  {
    assert ids[..i + 1] == ids[..i] + [ids[i]];
  }

  lemma {:induction false} KeptAppend(kept: seq<Version>, saves: seq<Save>, s: Save)
    ensures Kept(kept, saves + [s]) == Kept(Kept(kept, saves), [s])
    decreases |saves|
  {
    if saves == [] {
      assert [] + [s] == [s];
    } else {
      assert (saves + [s])[1..] == saves[1..] + [s];
      KeptAppend(AfterSave(kept, saves[0]), saves[1..], s);
    }
  }

  // ----- one save, told by the folder before and after it

  /** The folder holds the newest of what was ever kept */
  ghost predicate HoldsNewest(folder: Folder, ever: Folder) {
    && (forall t :: t in folder ==> t in ever && folder[t] == ever[t])
    && (forall t, u :: t in ever && t !in folder && u in folder ==> t < u)
    && (|folder| < MAX_ENTRIES ==> folder == ever)
  }

  ghost predicate IsNewest(folder: Folder, t: nat) { t in folder && forall u :: u in folder ==> u <= t }

  /** A version is due: there is one to read, and the newest one kept is a minute old or more and another one */
  ghost predicate Due(folder: Folder, now: nat, current: Option<string>) {
    current.Some? &&
    forall t: nat :: IsNewest(folder, t) ==> now >= t + 60000 && folder[t] != current.value
  }

  /** The folder after a save: with the version that was due, less the oldest one past a hundred, or as it was */
  ghost predicate Saved(before: Folder, now: nat, current: Option<string>, after: Folder) {
    if Due(before, now, current)
    then now in after && after[now] == current.value && HoldsNewest(after, before[now := current.value])
         && |after| == if |before| < 100 then |before| + 1 else 100
    else after == before
  }

  /** The newest version is the one kept last */
  lemma {:induction false} NewestIs(r: seq<Version>, folder: Folder)
    requires Spaced(r) && r != [] && folder == FolderOf(r)
    ensures IsNewest(folder, r[|r| - 1].at) && folder[r[|r| - 1].at] == r[|r| - 1].text
  {
    FolderAt(r, |r| - 1);
    forall u | u in folder ensures u <= r[|r| - 1].at { var i := TimeIndex(r, u); }
  }

  lemma DueAt(folder: Folder, t: nat, now: nat, current: Option<string>)
    requires IsNewest(folder, t)
    ensures Due(folder, now, current) <==> current.Some? && now >= t + 60000 && folder[t] != current.value
  {
    forall u: nat | IsNewest(folder, u) ensures u == t {}
  }

  lemma DueIsKeeps(kept: seq<Version>, s: Save)
    requires Spaced(kept)
    ensures Due(FolderOf(Recent(kept)), s.now, s.current) <==> Keeps(kept, s)
  {
    var r := Recent(kept);
    RecentIsSpaced(kept);
    if kept != [] {
      NewestIs(r, FolderOf(r));
      DueAt(FolderOf(r), r[|r| - 1].at, s.now, s.current);
    }
  }

  lemma {:induction false} OldestGone(r: seq<Version>, v: Version, after: Folder)
    requires Spaced(r + [v]) && |r| == MAX_ENTRIES && after == FolderOf(r + [v]) - {r[0].at}
    ensures v.at in after && after[v.at] == v.text && HoldsNewest(after, FolderOf(r + [v])) && |after| == MAX_ENTRIES
  {
    var all := r + [v];
    FolderAt(all, |r|);
    FolderAt(all, 0);
    FolderSize(all);
    forall u | u in after ensures r[0].at < u { var i := TimeIndex(all, u); }
    assert after.Keys == FolderOf(all).Keys - {r[0].at} && |after.Keys| == |after|;
  }

  lemma SpacedIsOlder(kept: seq<Version>, s: Save)
    requires Spaced(kept) && Changing(kept) && Keeps(kept, s)
    ensures Spaced(Recent(kept) + [Version(s.now, s.current.value)])
  {
    KeepSpaced(kept, s);
    SpacedEnds(kept, Version(s.now, s.current.value));
  }

  /** What the reference makes of a save is that */
  lemma SaveIs(kept: seq<Version>, s: Save)
    requires Spaced(kept) && Changing(kept)
    ensures Saved(FolderOf(Recent(kept)), s.now, s.current, FolderOf(Recent(AfterSave(kept, s))))
  {
    var r := Recent(kept);
    DueIsKeeps(kept, s);
    if Keeps(kept, s) {
      var v := Version(s.now, s.current.value);
      SpacedIsOlder(kept, s);
      RecentIsSpaced(kept);
      RecentGrows(kept, v);
      OneMore(r, v);
      FolderSize(r);
      if |kept| >= MAX_ENTRIES {
        DropOldestOf(r + [v]);
        OldestGone(r, v, FolderOf((r + [v])[1..]));
      } else {
        FolderSize(r + [v]);
      }
    }
  }

  class FileHistory {
    var folder: Folder
    /** Every save so far */
    ghost var saves: seq<Save>

    ghost predicate Valid()
      reads this
    {
      folder == FolderOf(Recent(Kept([], saves)))
    }

    constructor ()
      ensures Valid() && saves == []
    {
      folder, saves := map[], [];
    }

    /** Deletes every snapshot but the newest ones */
    method Prune(ids: seq<nat>, ghost whole: Folder)
      requires folder == whole
      modifies this`folder
      ensures folder == whole - Set(Stale(ids))
    {
      var stale := Stale(ids);
      for i := 0 to |stale|
        invariant folder == whole - Set(stale[..i])
      {
        SetMore(stale, i);
        folder := folder - {stale[i]};
      }
      assert stale[..|stale|] == stale;
    }

    /** Called before a save at `now` overwrites `current` */
    method SnapshotBeforeSave(now: nat, current: Option<string>)
      requires Valid()
      modifies this
      ensures Valid() && saves == old(saves) + [Save(now, current)]
      ensures Saved(old(folder), now, current, folder)
    {
      SavesAre(saves, Save(now, current));
      Keep(now, current);
    }

    method Keep(now: nat, current: Option<string>)
      requires Valid()
      modifies this
      ensures Valid() && saves == old(saves) + [Save(now, current)]
    {
      ghost var save, kept := Save(now, current), Kept([], saves);
      NextKept(saves, save);
      saves := saves + [save];
      if current.None? { return; }
      var ids := SnapshotIds(folder);
      LatestIs(ids, kept);
      if ids != [] {
        var latest := ids[0];
        if Since(now, latest) < MIN_GAP_MS || folder[latest] == current.value { return; }
      }
      folder := folder[now := current.value];
      Prune(ids, folder);
      KeptFolder(kept, save, ids);
    }
  }

  /** What a save makes of everything kept before it */
  lemma {:induction false} NextKept(saves: seq<Save>, s: Save)
    ensures var kept := Kept([], saves);
      && Spaced(kept) && Changing(kept)
      && Kept([], saves + [s]) == AfterSave(kept, s)
  {
    KeptIsSpaced([], saves);
    KeptAppend([], saves, s);
    OneSave(Kept([], saves), s);
  }

  lemma {:induction false} SavesAre(saves: seq<Save>, s: Save)
    ensures Saved(FolderOf(Recent(Kept([], saves))), s.now, s.current, FolderOf(Recent(Kept([], saves + [s]))))
  {
    NextKept(saves, s);
    SaveIs(Kept([], saves), s);
  }

  /** The first id in the folder is that of the version kept last */
  lemma LatestIs(ids: seq<nat>, kept: seq<Version>)
    requires Spaced(kept) && ListsKeys(ids, FolderOf(Recent(kept)))
    ensures ids == Times(Recent(kept)) && (ids == [] <==> kept == [])
    ensures kept != [] ==>
      var last := kept[|kept| - 1];
      ids[0] == last.at && last.at in FolderOf(Recent(kept)) && FolderOf(Recent(kept))[last.at] == last.text
  {
    var r := Recent(kept);
    RecentIsSpaced(kept);
    IdsAre(ids, r);
    if kept != [] { FolderAt(r, |r| - 1); }
  }

  lemma {:induction false} OneSave(kept: seq<Version>, s: Save)
    ensures Kept(kept, [s]) == AfterSave(kept, s)
  {
    var saves := [s];
    assert saves[1..] == [];
  }

  lemma SpacedEnds(kept: seq<Version>, v: Version)
    requires Spaced(kept + [v])
    ensures Spaced(Recent(kept) + [v])
  {
    var r := Recent(kept);
    assert r + [v] == (kept + [v])[|kept| - |r|..];
    SpacedSuffix(kept + [v], |kept| - |r|);
  }

  lemma SpacedSuffix(kept: seq<Version>, n: nat)
    requires Spaced(kept) && n <= |kept|
    ensures Spaced(kept[n..])
  {}

  /** Writing the new version and deleting the stale ones leaves the newest hundred */
  lemma KeptFolder(kept: seq<Version>, s: Save, ids: seq<nat>)
    requires Spaced(kept) && Changing(kept) && Keeps(kept, s) && ids == Times(Recent(kept))
    ensures FolderOf(Recent(kept))[s.now := s.current.value] - Set(Stale(ids))
            == FolderOf(Recent(kept + [Version(s.now, s.current.value)]))
  {
    var v, r := Version(s.now, s.current.value), Recent(kept);
    KeepSpaced(kept, s);
    RecentIsSpaced(kept);
    RecentGrows(kept, v);
    OneMore(r, v);
    SpacedEnds(kept, v);
    if |kept| >= MAX_ENTRIES {
      StaleIs(ids, r);
      DropOldestOf(r + [v]);
    }
  }

  // ----- any run of saves

  /** Neighbours in a folder are a minute apart or more, and differ */
  ghost predicate WellKept(folder: Folder) {
    forall t, u :: t in folder && u in folder && t < u ==>
      t + MIN_GAP_MS <= u && ((forall w :: t < w < u ==> w !in folder) ==> folder[t] != folder[u])
  }

  lemma {:induction false} PairWellKept(kept: seq<Version>, t: nat, u: nat)
    requires Spaced(kept) && Changing(kept) && t in FolderOf(kept) && u in FolderOf(kept) && t < u
    ensures t + MIN_GAP_MS <= u
    ensures (forall w :: t < w < u ==> w !in FolderOf(kept)) ==> FolderOf(kept)[t] != FolderOf(kept)[u]
  {
    var i := TimeIndex(kept, t);
    var j := TimeIndex(kept, u);
    FolderAt(kept, i);
    FolderAt(kept, j);
    if j > i + 1 { FolderAt(kept, i + 1); }
  }

  lemma {:induction false} FolderWellKept(kept: seq<Version>)
    requires Spaced(kept) && Changing(kept)
    ensures WellKept(FolderOf(kept))
  {
    var folder := FolderOf(kept);
    forall t, u | t in folder && u in folder && t < u
      ensures t + MIN_GAP_MS <= u && ((forall w :: t < w < u ==> w !in folder) ==> folder[t] != folder[u])
    {
      PairWellKept(kept, t, u);
    }
  }

  lemma RecentAt(kept: seq<Version>, i: nat)
    requires i < |Recent(kept)|
    ensures Recent(kept)[i] == kept[|kept| - |Recent(kept)| + i]
  {}

  lemma {:induction false} StillKept(kept: seq<Version>, t: nat)
    requires Spaced(kept) && t in FolderOf(Recent(kept))
    ensures t in FolderOf(kept) && FolderOf(Recent(kept))[t] == FolderOf(kept)[t]
  {
    var i := TimeIndex(Recent(kept), t);
    RecentIsSpaced(kept);
    RecentAt(kept, i);
    FolderAt(Recent(kept), i);
    FolderAt(kept, |kept| - |Recent(kept)| + i);
  }

  lemma {:induction false} DroppedIsOlder(kept: seq<Version>, t: nat, u: nat)
    requires Spaced(kept) && t in FolderOf(kept) && t !in FolderOf(Recent(kept)) && u in FolderOf(Recent(kept))
    ensures t < u && |kept| > MAX_ENTRIES
  {
    var r := Recent(kept);
    var i := TimeIndex(kept, t);
    var j := TimeIndex(r, u);
    RecentIsSpaced(kept);
    RecentAt(kept, j);
    var from := |kept| - |r|;
    if i >= from {
      RecentAt(kept, i - from);
      FolderAt(r, i - from);
    }
  }

  lemma {:induction false} RecentHoldsNewest(kept: seq<Version>)
    requires Spaced(kept)
    ensures HoldsNewest(FolderOf(Recent(kept)), FolderOf(kept)) && |FolderOf(Recent(kept))| <= MAX_ENTRIES
  {
    var folder, ever := FolderOf(Recent(kept)), FolderOf(kept);
    RecentIsSpaced(kept);
    FolderSize(Recent(kept));
    forall t | t in folder ensures t in ever && folder[t] == ever[t] { StillKept(kept, t); }
    forall t, u | t in ever && t !in folder && u in folder ensures t < u { DroppedIsOlder(kept, t, u); }
  }

  lemma RecentChanges(kept: seq<Version>)
    requires Changing(kept)
    ensures Changing(Recent(kept))
  {
    forall i: nat | i < |Recent(kept)| ensures Recent(kept)[i] == kept[|kept| - |Recent(kept)| + i] {
      RecentAt(kept, i);
    }
  }

  /** From an empty folder, after any saves at any times: at most a hundred versions, neighbours well apart and
      different, and what was dropped is older than all that is left, of which there are then a hundred */
  lemma {:induction false} AnySaves(saves: seq<Save>)
    ensures var kept := Kept([], saves); var folder := FolderOf(Recent(kept));
      |folder| <= MAX_ENTRIES && WellKept(folder) && HoldsNewest(folder, FolderOf(kept))
  {
    var kept := Kept([], saves);
    KeptIsSpaced([], saves);
    RecentHoldsNewest(kept);
    RecentIsSpaced(kept);
    RecentChanges(kept);
    FolderWellKept(Recent(kept));
  }
}
