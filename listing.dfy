/**
 * The selection rule of FakeBackupFileSystem.list. The Java condition
 *   (after(start) && before(till)) || equals(start) && <scope matches>
 * groups as `A || (B && C)`, because && binds tighter than ||: the scope
 * test guards only the entries stamped exactly `start`. `Selected` keeps
 * that grouping; `ScopedSelected` is the reading that applies the scope to
 * every entry, kept here only to compare against.
 */
module Listing {
  import opened Wrappers
  import opened BackupPaths
  import opened Sequences

  /** The store's current scope fields; None stands for a field still null. */
  datatype Scope = Scope(baseDir: Option<string>, region: Option<string>, clusterName: Option<string>)

  /** The scope before any call of `list` has set it. */
  const Unset := Scope(None, None, None)

  /** `path.baseDir.equals(baseDir) && path.clusterName.equals(clusterName) && path.region.equals(region)`: false against null. */
  predicate InScope(sc: Scope, p: BackupPath) {
    sc.baseDir == Some(p.baseDir) && sc.clusterName == Some(p.clusterName) && sc.region == Some(p.region)
  }

  /** The listing predicate as written. */
  predicate Selected(start: int, till: int, sc: Scope, p: BackupPath) {
    (start < p.time && p.time < till) || (p.time == start && InScope(sc, p))
  }

  function SelectedBy(start: int, till: int, sc: Scope): BackupPath -> bool {
    p => Selected(start, till, sc, p)
  }

  /** What `list` returns for the list `fl` under scope `sc`. */
  function Filter(fl: seq<BackupPath>, start: int, till: int, sc: Scope): seq<BackupPath> {
    KeepIf(fl, SelectedBy(start, till, sc))
  }

  /**
   * The listing holds exactly the entries of `fl` that satisfy the rule as
   * written, each as often as it occurs in `fl`, and in the order of `fl`.
   */
  lemma FilterExact(fl: seq<BackupPath>, start: int, till: int, sc: Scope)
    ensures IsSubsequence(Filter(fl, start, till, sc), fl)
    ensures forall p :: multiset(Filter(fl, start, till, sc))[p] ==
                          if Selected(start, till, sc, p) then multiset(fl)[p] else 0
  {
    KeepIfIsSubsequence(fl, SelectedBy(start, till, sc));
    forall p ensures multiset(Filter(fl, start, till, sc))[p] ==
                       if Selected(start, till, sc, p) then multiset(fl)[p] else 0 {
      KeepIfCount(fl, SelectedBy(start, till, sc), p);
    }
  }

  lemma FilterMember(fl: seq<BackupPath>, start: int, till: int, sc: Scope, p: BackupPath)
    ensures p in Filter(fl, start, till, sc) <==> p in fl && Selected(start, till, sc, p)
  {
    KeepIfMember(fl, SelectedBy(start, till, sc), p);
  }

  /** Building the listing entry by entry, as the loop in `list` does. */
  lemma FilterSnoc(fl: seq<BackupPath>, p: BackupPath, start: int, till: int, sc: Scope)
    ensures Filter([], start, till, sc) == []
    ensures Filter(fl + [p], start, till, sc) ==
            Filter(fl, start, till, sc) + (if Selected(start, till, sc, p) then [p] else [])
  {
    KeepIfSnoc(fl, p, SelectedBy(start, till, sc));
  }

  /** An entry strictly inside the window is listed whatever its baseDir, region and clusterName. */
  lemma InsideWindowListedWhateverScope(fl: seq<BackupPath>, start: int, till: int, sc: Scope, p: BackupPath)
    requires p in fl && start < p.time < till
    ensures p in Filter(fl, start, till, sc)
  {
    FilterMember(fl, start, till, sc, p);
  }

  /** An entry stamped exactly `start` is listed if and only if all three scope fields match it. */
  lemma AtStartListedIffInScope(fl: seq<BackupPath>, start: int, till: int, sc: Scope, p: BackupPath)
    requires p in fl && p.time == start
    ensures p in Filter(fl, start, till, sc) <==> InScope(sc, p)
  {
    FilterMember(fl, start, till, sc, p);
  }

  /** An entry before `start`, or at or after `till` other than at `start`, is never listed. */
  lemma OutsideWindowNeverListed(fl: seq<BackupPath>, start: int, till: int, sc: Scope, p: BackupPath)
    requires p.time < start || (till <= p.time && p.time != start)
    ensures p !in Filter(fl, start, till, sc)
  {
    FilterMember(fl, start, till, sc, p);
  }

  /** While the scope is unset, only entries strictly inside the window are listed. */
  lemma UnsetScopeListsInsideOnly(fl: seq<BackupPath>, start: int, till: int)
    ensures forall p :: p in Filter(fl, start, till, Unset) ==> start < p.time < till
  {
    forall p | p in Filter(fl, start, till, Unset) ensures start < p.time < till {
      FilterMember(fl, start, till, Unset, p);
    }
  }

  /** The reading that applies the scope to every entry, over the window [start, till). */
  predicate ScopedSelected(start: int, till: int, sc: Scope, p: BackupPath) {
    start <= p.time < till && InScope(sc, p)
  }

  /**
   * The rule as written admits exactly what the scoped reading admits, plus
   * out-of-scope entries strictly inside the window, plus in-scope entries
   * at `start` when the window is empty.
   */
  lemma SelectedVersusScoped(start: int, till: int, sc: Scope, p: BackupPath)
    ensures Selected(start, till, sc, p) <==>
              ScopedSelected(start, till, sc, p)
              || (start < p.time < till && !InScope(sc, p))
              || (p.time == start && till <= start && InScope(sc, p))
  {
  }

  /** The listing as written contains the scoped listing, in the same order. */
  lemma FilterContainsScoped(fl: seq<BackupPath>, start: int, till: int, sc: Scope)
    ensures IsSubsequence(KeepIf(fl, p => ScopedSelected(start, till, sc, p)), Filter(fl, start, till, sc))
  {
    KeepIfWeaker(fl, p => ScopedSelected(start, till, sc, p), SelectedBy(start, till, sc));
  }

  /**
   * Three entries at times 1 < 2 < 3, the middle one of another cluster:
   * listing scope b/r/c over (1, 3) returns the first two, the foreign
   * middle entry included, and not the entry at `till`.
   */
  lemma PrecedenceExample()
    ensures var scope := Scope(Some("b"), Some("r"), Some("c"));
            var e1 := BackupPath("b", "r", "c", 1, SNAP, "b/r/c/1");
            var e2 := BackupPath("b", "r", "c2", 2, SNAP, "b/r/c2/2");
            var e3 := BackupPath("b", "r", "c", 3, SNAP, "b/r/c/3");
            Filter([e1, e2, e3], 1, 3, scope) == [e1, e2]
  {
    var scope := Scope(Some("b"), Some("r"), Some("c"));
    var e1 := BackupPath("b", "r", "c", 1, SNAP, "b/r/c/1");
    var e2 := BackupPath("b", "r", "c2", 2, SNAP, "b/r/c2/2");
    var e3 := BackupPath("b", "r", "c", 3, SNAP, "b/r/c/3");
    FilterSnoc([e1, e2], e3, 1, 3, scope);
    FilterSnoc([e1], e2, 1, 3, scope);
    FilterSnoc([], e1, 1, 3, scope);
    assert [e1, e2] + [e3] == [e1, e2, e3];
    assert [e1] + [e2] == [e1, e2];
    assert [] + [e1] == [e1];
  }
}
