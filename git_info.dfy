/**
 * The git information the segments read: the head, the counters of the
 * working tree, the upstream distance, the remotes and the user name. The
 * repository queries themselves are not modelled; what they return (the
 * status flags of each entry, the head reference) is taken as input.
 */
module GitInfo {
  import opened Wrappers

  datatype Head = Branch(name: string) | Tag(name: string) | Commit(name: string)

  /** The nine counters of the working tree, each a number of status entries. */
  datatype WorkingTreeStatus = WorkingTreeStatus(
    unstagedNew: nat,
    unstagedDeleted: nat,
    unstagedChanged: nat,
    unstagedRenamed: nat,
    stagedNew: nat,
    stagedDeleted: nat,
    stagedChanged: nat,
    stagedRenamed: nat,
    conflicted: nat)
  {
    predicate HasNew() { unstagedNew > 0 || stagedNew > 0 }

    predicate HasDeleted() { unstagedDeleted > 0 || stagedDeleted > 0 }

    predicate HasModified() { unstagedChanged > 0 || stagedChanged > 0 }

    predicate HasRenamed() { unstagedRenamed > 0 || stagedRenamed > 0 }

    predicate HasConflict() { conflicted > 0 }

    predicate HasUnstagedChanges() {
      unstagedNew > 0 || unstagedDeleted > 0 || unstagedChanged > 0 || unstagedRenamed > 0
    }

    predicate HasStagedChanges() {
      stagedNew > 0 || stagedDeleted > 0 || stagedChanged > 0 || stagedRenamed > 0
    }
  }

  datatype UpstreamStatus = UpstreamStatus(ahead: nat, behind: nat)

  datatype GitInfo = GitInfo(
    workdir: Option<string>,
    head: Head,
    workingTree: WorkingTreeStatus,
    upstream: Option<UpstreamStatus>,
    remotes: seq<string>,
    user: Option<string>)

  // ---------------------------------------------------------------------------
  // Counting the status entries
  // ---------------------------------------------------------------------------

  /** The status flags of one entry that the counters look at. */
  datatype StatusFlag =
    | WtNew | WtDeleted | WtModified | WtTypechange | WtRenamed
    | IndexNew | IndexDeleted | IndexModified | IndexTypechange | IndexRenamed
    | Conflicted | Ignored


  /** The number of entries that carry at least one of `flags`. */
  function CountWith(entries: seq<set<StatusFlag>>, flags: set<StatusFlag>): (n: nat)
    ensures n <= |entries|
  {
    if entries == [] then 0
    else CountWith(entries[..|entries| - 1], flags) + (if entries[|entries| - 1] * flags != {} then 1 else 0)
  }

  /** Some entry carries one of `flags`. */
  predicate AnyWith(entries: seq<set<StatusFlag>>, flags: set<StatusFlag>) {
    exists i :: 0 <= i < |entries| && entries[i] * flags != {}
  }

  /** A counter is positive exactly when some entry carries one of its flags. */
  lemma {:induction false} CountWithPositive(entries: seq<set<StatusFlag>>, flags: set<StatusFlag>)
    ensures CountWith(entries, flags) > 0 <==> AnyWith(entries, flags)
  {
    if entries != [] {
      var init := entries[..|entries| - 1];
      CountWithPositive(init, flags);
      if AnyWith(init, flags) {
        var i :| 0 <= i < |init| && init[i] * flags != {};
        assert entries[i] == init[i];
      }
      if AnyWith(entries, flags) && entries[|entries| - 1] * flags == {} {
        var i :| 0 <= i < |entries| && entries[i] * flags != {};
        assert init[i] == entries[i];
      }
    }
  }

  /** The counters of a list of entries: each entry adds at most one to each counter. */
  function Tally(entries: seq<set<StatusFlag>>): WorkingTreeStatus {
    WorkingTreeStatus(
      CountWith(entries, {WtNew}),
      CountWith(entries, {WtDeleted}),
      CountWith(entries, {WtModified, WtTypechange}),
      CountWith(entries, {WtRenamed}),
      CountWith(entries, {IndexNew}),
      CountWith(entries, {IndexDeleted}),
      CountWith(entries, {IndexModified, IndexTypechange}),
      CountWith(entries, {IndexRenamed}),
      CountWith(entries, {Conflicted}))
  }

  const NoChanges: WorkingTreeStatus := WorkingTreeStatus(0, 0, 0, 0, 0, 0, 0, 0, 0)

  /** The counters `working_tree_status` returns: all zero when the status query fails. */
  function WorkingTreeOf(statuses: Option<seq<set<StatusFlag>>>): WorkingTreeStatus {
    match statuses
    case None => NoChanges
    case Some(entries) => Tally(entries)
  }

  /** One more entry adds one to each counter whose flags it carries. */
  function Count(status: WorkingTreeStatus, s: set<StatusFlag>): WorkingTreeStatus {
    WorkingTreeStatus(
      status.unstagedNew + (if WtNew in s then 1 else 0),
      status.unstagedDeleted + (if WtDeleted in s then 1 else 0),
      status.unstagedChanged + (if WtModified in s || WtTypechange in s then 1 else 0),
      status.unstagedRenamed + (if WtRenamed in s then 1 else 0),
      status.stagedNew + (if IndexNew in s then 1 else 0),
      status.stagedDeleted + (if IndexDeleted in s then 1 else 0),
      status.stagedChanged + (if IndexModified in s || IndexTypechange in s then 1 else 0),
      status.stagedRenamed + (if IndexRenamed in s then 1 else 0),
      status.conflicted + (if Conflicted in s then 1 else 0))
  }

  lemma Hits(s: set<StatusFlag>, f: StatusFlag)
    ensures (s * {f} != {}) == (f in s)
  {
    if f in s {
      assert f in s * {f};
    } else {
      assert s * {f} == {};
    }
  }

  lemma HitsEither(s: set<StatusFlag>, f: StatusFlag, g: StatusFlag)
    ensures (s * {f, g} != {}) == (f in s || g in s)
  {
    if f in s {
      assert f in s * {f, g};
    } else if g in s {
      assert g in s * {f, g};
    } else {
      assert s * {f, g} == {};
    }
  }

  lemma TallyAppend(entries: seq<set<StatusFlag>>, s: set<StatusFlag>)
    ensures Tally(entries + [s]) == Count(Tally(entries), s)
  {
    var es := entries + [s];
    assert es[..|es| - 1] == entries && es[|es| - 1] == s;
    Hits(s, WtNew); Hits(s, WtDeleted); HitsEither(s, WtModified, WtTypechange); Hits(s, WtRenamed);
    Hits(s, IndexNew); Hits(s, IndexDeleted); HitsEither(s, IndexModified, IndexTypechange); Hits(s, IndexRenamed);
    Hits(s, Conflicted);
  }

  /** The nine increments for one status entry. */
  method CountEntry(status: WorkingTreeStatus, s: set<StatusFlag>) returns (r: WorkingTreeStatus)
    ensures r == Count(status, s)
  {
    var unstagedNew, unstagedDeleted, unstagedChanged, unstagedRenamed :=
      status.unstagedNew, status.unstagedDeleted, status.unstagedChanged, status.unstagedRenamed;
    var stagedNew, stagedDeleted, stagedChanged, stagedRenamed :=
      status.stagedNew, status.stagedDeleted, status.stagedChanged, status.stagedRenamed;
    var conflicted := status.conflicted;
    if WtNew in s {
      unstagedNew := unstagedNew + 1;
    }
    if WtDeleted in s {
      unstagedDeleted := unstagedDeleted + 1;
    }
    if WtModified in s || WtTypechange in s {
      unstagedChanged := unstagedChanged + 1;
    }
    if WtRenamed in s {
      unstagedRenamed := unstagedRenamed + 1;
    }
    if IndexNew in s {
      stagedNew := stagedNew + 1;
    }
    if IndexDeleted in s {
      stagedDeleted := stagedDeleted + 1;
    }
    if IndexModified in s || IndexTypechange in s {
      stagedChanged := stagedChanged + 1;
    }
    if IndexRenamed in s {
      stagedRenamed := stagedRenamed + 1;
    }
    if Conflicted in s {
      conflicted := conflicted + 1;
    }
    r := WorkingTreeStatus(unstagedNew, unstagedDeleted, unstagedChanged, unstagedRenamed,
                           stagedNew, stagedDeleted, stagedChanged, stagedRenamed, conflicted);
  }

  /**
   * `working_tree_status`: starts every counter at zero and, when the status
   * query succeeds, adds each entry's flags to them one entry at a time.
   */
  method WorkingTreeStatusOf(statuses: Option<seq<set<StatusFlag>>>) returns (status: WorkingTreeStatus)
    ensures status == WorkingTreeOf(statuses)
  {
    status := NoChanges;
    if statuses.Some? {
      var entries := statuses.value;
      for i := 0 to |entries|
        invariant status == Tally(entries[..i])
      {
        TallyAppend(entries[..i], entries[i]);
        assert entries[..i + 1] == entries[..i] + [entries[i]];
        status := CountEntry(status, entries[i]);
      }
      assert entries[..|entries|] == entries;
    }
  }

  /** No counter exceeds the number of entries. */
  lemma TallyBounded(entries: seq<set<StatusFlag>>)
    ensures var t := Tally(entries);
      && t.unstagedNew <= |entries| && t.unstagedDeleted <= |entries|
      && t.unstagedChanged <= |entries| && t.unstagedRenamed <= |entries|
      && t.stagedNew <= |entries| && t.stagedDeleted <= |entries|
      && t.stagedChanged <= |entries| && t.stagedRenamed <= |entries|
      && t.conflicted <= |entries|
  {
  }

  /** A failed status query reports nothing: every counter and every predicate is off. */
  lemma FailedQueryReportsNothing()
    ensures WorkingTreeOf(None) == NoChanges
    ensures !NoChanges.HasNew() && !NoChanges.HasDeleted() && !NoChanges.HasModified()
    ensures !NoChanges.HasRenamed() && !NoChanges.HasConflict()
    ensures !NoChanges.HasUnstagedChanges() && !NoChanges.HasStagedChanges()
  {
  }

  lemma AnyWithUnion(entries: seq<set<StatusFlag>>, a: set<StatusFlag>, b: set<StatusFlag>)
    ensures AnyWith(entries, a + b) <==> AnyWith(entries, a) || AnyWith(entries, b)
  {
    if AnyWith(entries, a + b) {
      var i :| 0 <= i < |entries| && entries[i] * (a + b) != {};
      var f :| f in entries[i] * (a + b);
      assert f in entries[i] * a || f in entries[i] * b;
    }
    if AnyWith(entries, a) {
      var i :| 0 <= i < |entries| && entries[i] * a != {};
      var f :| f in entries[i] * a;
      assert f in entries[i] * (a + b);
    }
    if AnyWith(entries, b) {
      var i :| 0 <= i < |entries| && entries[i] * b != {};
      var f :| f in entries[i] * b;
      assert f in entries[i] * (a + b);
    }
  }

  /**
   * What the predicates say about the entries they were counted from: a
   * kind of change is reported exactly when some entry carries it, in the
   * work tree or in the index.
   */
  lemma TallyKinds(entries: seq<set<StatusFlag>>)
    ensures Tally(entries).HasNew() <==> AnyWith(entries, {WtNew, IndexNew})
    ensures Tally(entries).HasDeleted() <==> AnyWith(entries, {WtDeleted, IndexDeleted})
    ensures Tally(entries).HasModified() <==> AnyWith(entries, {WtModified, WtTypechange, IndexModified, IndexTypechange})
    ensures Tally(entries).HasRenamed() <==> AnyWith(entries, {WtRenamed, IndexRenamed})
    ensures Tally(entries).HasConflict() <==> AnyWith(entries, {Conflicted})
  {
    CountWithPositive(entries, {WtNew});
    CountWithPositive(entries, {WtDeleted});
    CountWithPositive(entries, {WtModified, WtTypechange});
    CountWithPositive(entries, {WtRenamed});
    CountWithPositive(entries, {IndexNew});
    CountWithPositive(entries, {IndexDeleted});
    CountWithPositive(entries, {IndexModified, IndexTypechange});
    CountWithPositive(entries, {IndexRenamed});
    CountWithPositive(entries, {Conflicted});
    AnyWithUnion(entries, {WtNew}, {IndexNew});
    assert {WtNew} + {IndexNew} == {WtNew, IndexNew};
    AnyWithUnion(entries, {WtDeleted}, {IndexDeleted});
    assert {WtDeleted} + {IndexDeleted} == {WtDeleted, IndexDeleted};
    AnyWithUnion(entries, {WtModified, WtTypechange}, {IndexModified, IndexTypechange});
    assert {WtModified, WtTypechange} + {IndexModified, IndexTypechange} == {WtModified, WtTypechange, IndexModified, IndexTypechange};
    AnyWithUnion(entries, {WtRenamed}, {IndexRenamed});
    assert {WtRenamed} + {IndexRenamed} == {WtRenamed, IndexRenamed};
  }

  /** Unstaged changes look only at the work-tree flags, staged changes only at the index flags. */
  lemma TallyStages(entries: seq<set<StatusFlag>>)
    ensures Tally(entries).HasUnstagedChanges() <==> AnyWith(entries, {WtNew, WtDeleted, WtModified, WtTypechange, WtRenamed})
    ensures Tally(entries).HasStagedChanges() <==> AnyWith(entries, {IndexNew, IndexDeleted, IndexModified, IndexTypechange, IndexRenamed})
  {
    CountWithPositive(entries, {WtNew});
    CountWithPositive(entries, {WtDeleted});
    CountWithPositive(entries, {WtModified, WtTypechange});
    CountWithPositive(entries, {WtRenamed});
    CountWithPositive(entries, {IndexNew});
    CountWithPositive(entries, {IndexDeleted});
    CountWithPositive(entries, {IndexModified, IndexTypechange});
    CountWithPositive(entries, {IndexRenamed});
    AnyWithUnion(entries, {WtNew}, {WtDeleted});
    AnyWithUnion(entries, {WtNew} + {WtDeleted}, {WtModified, WtTypechange});
    AnyWithUnion(entries, {WtNew} + {WtDeleted} + {WtModified, WtTypechange}, {WtRenamed});
    assert {WtNew} + {WtDeleted} + {WtModified, WtTypechange} + {WtRenamed} == {WtNew, WtDeleted, WtModified, WtTypechange, WtRenamed};
    AnyWithUnion(entries, {IndexNew}, {IndexDeleted});
    AnyWithUnion(entries, {IndexNew} + {IndexDeleted}, {IndexModified, IndexTypechange});
    AnyWithUnion(entries, {IndexNew} + {IndexDeleted} + {IndexModified, IndexTypechange}, {IndexRenamed});
    assert {IndexNew} + {IndexDeleted} + {IndexModified, IndexTypechange} + {IndexRenamed}
        == {IndexNew, IndexDeleted, IndexModified, IndexTypechange, IndexRenamed};
  }

  // ---------------------------------------------------------------------------
  // The head
  // ---------------------------------------------------------------------------

  /**
   * The head reference as the repository reports it: whether it is a branch,
   * its short name, the commit it points at, and the name of the tag object
   * at that commit when there is one (`Some(None)` for a tag without a name).
   */
  datatype HeadRef = HeadRef(isBranch: bool, shorthand: Option<string>, target: Option<string>, tag: Option<Option<string>>)

  /**
   * `head_status`: without a head reference (an unborn branch), the branch
   * `init.defaultBranch` names or `master`; a branch by its short name or
   * `?`; a reference without a target as commit `?`; a tagged commit by its
   * tag name or `?`; any other commit by its id.
   */
  function HeadStatus(headRef: Option<HeadRef>, defaultBranch: Option<string>): (h: Head)
    ensures h.Branch? <==> headRef.None? || headRef.value.isBranch
    ensures h.Tag? <==> headRef.Some? && !headRef.value.isBranch && headRef.value.target.Some? && headRef.value.tag.Some?
    ensures headRef.None? ==> h.name == defaultBranch.GetOr("master")
    ensures headRef.Some? && headRef.value.isBranch ==> h.name == headRef.value.shorthand.GetOr("?")
    ensures h.Commit? ==> h.name == (if headRef.value.target.Some? then headRef.value.target.value else "?")
    ensures h.Tag? ==> h.name == headRef.value.tag.value.GetOr("?")
  {
    match headRef
    case None => Branch(defaultBranch.GetOr("master"))
    case Some(r) =>
      if r.isBranch then Branch(r.shorthand.GetOr("?"))
      else match r.target
        case None => Commit("?")
        case Some(oid) =>
          match r.tag
          case Some(name) => Tag(name.GetOr("?"))
          case None => Commit(oid)
  }
}
