/** Snapshots of the files a goal changes, and putting them back
    (src/seed_society/workspace_tools.py), with a crash or an operating-system
    error possible inside every file write. */
module Workspace {
  import opened Domain

  type Content = string

  /** SHA-256 of a file's bytes, taken as injective, or the mark of a missing file. */
  datatype Identity = Missing | Digest(content: Content)

  function IdentityOf(file: Option<Content>): Identity {
    match file
    case None => Missing
    case Some(content) => Digest(content)
  }

  /** An identity tells files apart, and a missing one from every file. */
  lemma IdentitiesDiffer(a: Option<Content>, b: Option<Content>)
    ensures IdentityOf(a) == IdentityOf(b) <==> a == b
  {
  }

  function FileAt(files: map<Id, Content>, p: Id): Option<Content> {
    if p in files then Some(files[p]) else None
  }

  /** Writing a file, or removing it. */
  function Put(files: map<Id, Content>, p: Id, file: Option<Content>): (r: map<Id, Content>)
    ensures forall q :: FileAt(r, q) == if q == p then file else FileAt(files, q)
  {
    match file
    case None => files - {p}
    case Some(content) => files[p := content]
  }

  lemma SameFiles(a: map<Id, Content>, b: map<Id, Content>)
    requires forall p :: FileAt(a, p) == FileAt(b, p)
    ensures a == b
  {
    forall p ensures p in a <==> p in b {
      assert FileAt(a, p) == FileAt(b, p);
    }
    forall p | p in a ensures a[p] == b[p] {
      assert FileAt(a, p) == FileAt(b, p);
    }
  }

  /** The row of `workspace_snapshots` for one path of the goal. */
  datatype Snapshot = Snapshot(
    original: Option<Content>,
    originalId: Identity,
    previous: Identity,
    latest: Identity,
    restored: bool)
  {
    function Advance(id: Identity, restored: bool): Snapshot {
      this.(previous := latest, latest := id, restored := restored)
    }

    predicate SameOriginal(other: Snapshot) {
      original == other.original && originalId == other.originalId
    }

    /** The identities under which restore will touch the file. */
    predicate Recognises(file: Option<Content>) {
      IdentityOf(file) == latest || IdentityOf(file) == previous
    }
  }

  function CreateSnapshot(original: Option<Content>, latest: Identity): Snapshot {
    Snapshot(original, IdentityOf(original), IdentityOf(original), latest, false)
  }

  datatype WriteResult = Written | Rejected | WriteFailed | WriteCrashed

  datatype Fault = Done | Failed | Crashed

  datatype RestoreResult = Restored | Refused | Interrupted(at: Id)

  // ---------------------------------------------------------------- what the goal knows of the tree

  /** The row of `p` agrees with the files and with the tree the goal started from. */
  ghost predicate Tracked(initial: map<Id, Content>, files: map<Id, Content>, s: Snapshot, p: Id) {
    && s.original == FileAt(initial, p) && s.originalId == IdentityOf(s.original)
    && if s.restored then FileAt(files, p) == s.original else s.Recognises(FileAt(files, p))
  }

  ghost predicate Intact(initial: map<Id, Content>, files: map<Id, Content>, snapshots: map<Id, Snapshot>) {
    && (forall p :: p !in snapshots ==> FileAt(files, p) == FileAt(initial, p))
    && forall p :: p in snapshots ==> Tracked(initial, files, snapshots[p], p)
  }

  /** The test restore makes before it touches anything. */
  predicate AllRecognised(files: map<Id, Content>, snapshots: map<Id, Snapshot>) {
    forall p :: p in snapshots && !snapshots[p].restored ==> snapshots[p].Recognises(FileAt(files, p))
  }

  predicate Outstanding(snapshots: map<Id, Snapshot>, p: Id) {
    p in snapshots && !snapshots[p].restored
  }

  /** A change of one path, accounted for in its row. */
  lemma OnePathChanges(initial: map<Id, Content>, files: map<Id, Content>, snapshots: map<Id, Snapshot>,
                       p: Id, file: Option<Content>, row: Snapshot, files': map<Id, Content>)
    requires Intact(initial, files, snapshots) && (files' == files || files' == Put(files, p, file))
    requires Tracked(initial, files', row, p)
    ensures Intact(initial, files', snapshots[p := row])
  {
    forall q | q in snapshots && q != p ensures Tracked(initial, files', snapshots[q], q) {
      assert Tracked(initial, files, snapshots[q], q) && FileAt(files', q) == FileAt(files, q);
    }
  }

  lemma IntactIsRecognised(initial: map<Id, Content>, files: map<Id, Content>, snapshots: map<Id, Snapshot>)
    requires Intact(initial, files, snapshots)
    ensures AllRecognised(files, snapshots)
  {
    forall p | p in snapshots && !snapshots[p].restored ensures snapshots[p].Recognises(FileAt(files, p)) {
      assert Tracked(initial, files, snapshots[p], p);
    }
  }

  /** `p` was put back and marked. */
  ghost predicate PutBack(before: map<Id, Snapshot>, files: map<Id, Content>, snapshots: map<Id, Snapshot>, p: Id)
    requires p in before
  {
    && FileAt(files, p) == before[p].original
    && p in snapshots
    && snapshots[p] == before[p].(previous := before[p].latest, latest := before[p].originalId, restored := true)
  }

  ghost predicate Untouched(files: map<Id, Content>, snapshots: map<Id, Snapshot>,
                            files': map<Id, Content>, snapshots': map<Id, Snapshot>, p: Id) {
    && FileAt(files', p) == FileAt(files, p)
    && (p in snapshots' <==> p in snapshots) && (p in snapshots ==> snapshots'[p] == snapshots[p])
  }

  /** How far a restore got: outstanding paths below `bound` are put back, and
      every other path is as it was. */
  ghost predicate RestoredBelow(files: map<Id, Content>, snapshots: map<Id, Snapshot>,
                                files': map<Id, Content>, snapshots': map<Id, Snapshot>, todo: set<Id>) {
    forall p: Id ::
      if Outstanding(snapshots, p) && p !in todo then PutBack(snapshots, files', snapshots', p)
      else Untouched(files, snapshots, files', snapshots', p)
  }

  /** A restore that stopped at `at`: the paths before it are put back, its file
      may be, its row is not. */
  ghost predicate StoppedAt(files: map<Id, Content>, snapshots: map<Id, Snapshot>,
                            files': map<Id, Content>, snapshots': map<Id, Snapshot>, at: Id) {
    && Outstanding(snapshots, at) && at in snapshots' && snapshots'[at] == snapshots[at]
    && (FileAt(files', at) == FileAt(files, at) || FileAt(files', at) == snapshots[at].original)
    && forall p: Id :: p != at ==>
      if Outstanding(snapshots, p) && p < at then PutBack(snapshots, files', snapshots', p)
      else Untouched(files, snapshots, files', snapshots', p)
  }

  lemma StopsAtLeast(files: map<Id, Content>, snapshots: map<Id, Snapshot>, now: map<Id, Content>,
                     rows: map<Id, Snapshot>, todo: set<Id>, at: Id, torn: map<Id, Content>)
    requires RestoredBelow(files, snapshots, now, rows, todo)
    requires at in todo && Outstanding(snapshots, at) && forall q :: q in todo ==> at <= q
    requires forall q: Id :: Outstanding(snapshots, q) && q !in todo ==> q < at
    requires torn == now || torn == Put(now, at, snapshots[at].original)
    ensures StoppedAt(files, snapshots, torn, rows, at)
  {
    assert Untouched(files, snapshots, now, rows, at);
    forall p: Id | p != at
      ensures if Outstanding(snapshots, p) && p < at then PutBack(snapshots, torn, rows, p)
              else Untouched(files, snapshots, torn, rows, p)
    {
      assert FileAt(torn, p) == FileAt(now, p);
      assert if Outstanding(snapshots, p) && p !in todo then PutBack(snapshots, now, rows, p)
             else Untouched(files, snapshots, now, rows, p);
    }
  }

  lemma PutsBackLeast(files: map<Id, Content>, snapshots: map<Id, Snapshot>, now: map<Id, Content>,
                      rows: map<Id, Snapshot>, todo: set<Id>, p: Id)
    requires RestoredBelow(files, snapshots, now, rows, todo) && p in todo && Outstanding(snapshots, p)
    ensures p in rows && rows[p] == snapshots[p]
    ensures RestoredBelow(files, snapshots, Put(now, p, rows[p].original),
                          rows[p := rows[p].Advance(rows[p].originalId, true)], todo - {p})
  {
    assert Untouched(files, snapshots, now, rows, p);
    forall q: Id
      ensures if Outstanding(snapshots, q) && q !in todo - {p}
              then PutBack(snapshots, Put(now, p, rows[p].original),
                rows[p := rows[p].Advance(rows[p].originalId, true)], q)
              else Untouched(files, snapshots, Put(now, p, rows[p].original),
                             rows[p := rows[p].Advance(rows[p].originalId, true)], q)
    {
      assert if Outstanding(snapshots, q) && q !in todo then PutBack(snapshots, now, rows, q)
             else Untouched(files, snapshots, now, rows, q);
    }
  }

  class GoalWorkspace {
    const protectedPaths: set<Id>
    var files: map<Id, Content>
    var snapshots: map<Id, Snapshot>
    ghost const initial: map<Id, Content>

    ghost predicate Valid()
      reads this
    {
      Intact(initial, files, snapshots)
    }

    constructor (files: map<Id, Content>, protectedPaths: set<Id>)
      ensures Valid() && initial == files == this.files && snapshots == map[]
    {
      this.files, this.protectedPaths, snapshots, initial := files, protectedPaths, map[], files;
    }

    /** `save_workspace_snapshot`: the recovery point of a path never changes. */
    method SaveSnapshot(p: Id, s: Snapshot) returns (ok: bool)
      modifies this`snapshots
      ensures ok <==> p !in old(snapshots) || old(snapshots)[p].SameOriginal(s)
      ensures snapshots == if ok then old(snapshots)[p := s] else old(snapshots)
      ensures forall q :: q in old(snapshots) ==> q in snapshots && snapshots[q].SameOriginal(old(snapshots)[q])
    {
      ok := p !in snapshots || snapshots[p].SameOriginal(s);
      if ok {
        snapshots := snapshots[p := s];
      }
    }

    /** `_atomic_write` and `unlink`: an error or a crash may come before or after
        the replacement, never in the middle of it. */
    method Replace(p: Id, file: Option<Content>) returns (fault: Fault)
      modifies this`files
      ensures files == old(files) || files == Put(old(files), p, file)
      ensures fault.Done? ==> files == Put(old(files), p, file)
    {
      fault := *;
      var replaced: bool := *;
      if fault.Done? || replaced {
        files := Put(files, p, file);
      }
    }

    predicate Refuses(p: Id, expected: Identity)
      reads this
    {
      var current := IdentityOf(FileAt(files, p));
      || p in protectedPaths || current != expected
      || (p in snapshots && (snapshots[p].restored || snapshots[p].latest != current))
    }

    /** `WorkspaceWriteFileTool.invoke_with_context`. */
    method Write(p: Id, content: Content, expected: Identity) returns (r: WriteResult)
      requires Valid()
      modifies this
      ensures Valid()
      ensures
        r.Rejected? <==>
          || p in protectedPaths || IdentityOf(FileAt(old(files), p)) != expected
          || (p in old(snapshots) &&
              (old(snapshots)[p].restored || old(snapshots)[p].latest != IdentityOf(FileAt(old(files), p))))
      ensures r.Rejected? ==> files == old(files) && snapshots == old(snapshots)
      ensures r.Written? ==> files == Put(old(files), p, Some(content))
      ensures !r.Rejected? ==> files == old(files) || files == Put(old(files), p, Some(content))
      ensures !r.Rejected? ==>
        p in snapshots && snapshots.Keys == old(snapshots).Keys + {p} && !snapshots[p].restored
        && snapshots[p].original == FileAt(initial, p)
        && {snapshots[p].previous, snapshots[p].latest} == {expected, Digest(content)}
      ensures r.Written? ==> snapshots[p].latest == Digest(content)
      ensures forall q :: q != p ==> Untouched(old(files), old(snapshots), files, snapshots, q)
    {
      if Refuses(p, expected) {
        return WriteResult.Rejected;
      }
      var next: Snapshot;
      if p !in snapshots {
        next := CreateSnapshot(FileAt(files, p), Digest(content));
      } else {
        assert Tracked(initial, files, snapshots[p], p);
        next := snapshots[p].Advance(Digest(content), false);
      }
      var saved := SaveSnapshot(p, next);
      assert saved;
      ghost var tree, rows := files, old(snapshots);
      var fault := Replace(p, Some(content));
      if fault.Failed? {
        saved := SaveSnapshot(p, next.Advance(expected, false));
        assert saved;
        r := WriteFailed;
      } else {
        r := if fault.Crashed? then WriteCrashed else Written;
      }
      assert snapshots == rows[p := snapshots[p]];
      OnePathChanges(initial, tree, rows, p, Some(content), snapshots[p], files);
    }

    /** `WorkspaceRestoreChangesTool.invoke_with_context`, on any files and rows:
        it refuses exactly when some outstanding path is not recognised, and then
        touches nothing; otherwise it puts paths back in order. */
    method Restore() returns (r: RestoreResult)
      modifies this
      ensures
        r.Refused? <==>
          exists p :: p in old(snapshots) && !old(snapshots)[p].restored
            && IdentityOf(FileAt(old(files), p)) != old(snapshots)[p].latest
            && IdentityOf(FileAt(old(files), p)) != old(snapshots)[p].previous
      ensures r.Refused? <==> !AllRecognised(old(files), old(snapshots))
      ensures r.Refused? ==> files == old(files) && snapshots == old(snapshots)
      ensures r.Restored? ==> RestoredBelow(old(files), old(snapshots), files, snapshots, {})
      ensures r.Interrupted? ==> StoppedAt(old(files), old(snapshots), files, snapshots, r.at)
    {
      if !AllRecognised(files, snapshots) {
        return Refused;
      }
      var todo := set p | p in snapshots && !snapshots[p].restored;
      while todo != {}
        invariant forall p :: p in todo ==> Outstanding(old(snapshots), p)
        invariant forall p, q :: p in todo && Outstanding(old(snapshots), q) && q !in todo ==> q < p
        invariant RestoredBelow(old(files), old(snapshots), files, snapshots, todo)
        decreases |todo|
      {
        var p := Least(todo);
        PutsBackLeast(old(files), old(snapshots), files, snapshots, todo, p);
        ghost var now := files;
        var fault := Replace(p, snapshots[p].original);
        if !fault.Done? {
          StopsAtLeast(old(files), old(snapshots), now, snapshots, todo, p, files);
          return Interrupted(p);
        }
        var saved := SaveSnapshot(p, snapshots[p].Advance(snapshots[p].originalId, true));
        assert saved;
        todo := todo - {p};
      }
      r := Restored;
    }
  }

  method Least(todo: set<Id>) returns (p: Id)
    requires todo != {}
    ensures p in todo && forall q :: q in todo ==> p <= q
  {
    p :| p in todo;
    var rest := todo - {p};
    while rest != {}
      invariant rest <= todo && p in todo
      invariant forall q :: q in todo && q !in rest ==> p <= q
      decreases |rest|
    {
      var q :| q in rest;
      if q < p {
        p := q;
      }
      rest := rest - {q};
    }
  }

  // ---------------------------------------------------------------- a completed restore is exact

  /** The whole tree is again the one the goal started from. */
  lemma CompletedRestoreIsExact(initial: map<Id, Content>, files: map<Id, Content>, snapshots: map<Id, Snapshot>,
                                files': map<Id, Content>, snapshots': map<Id, Snapshot>)
    requires Intact(initial, files, snapshots)
    requires RestoredBelow(files, snapshots, files', snapshots', {})
    ensures files' == initial && Intact(initial, files', snapshots')
  {
    forall p ensures FileAt(files', p) == FileAt(initial, p) && (p in snapshots' <==> p in snapshots)
                     && (p in snapshots' ==> Tracked(initial, files', snapshots'[p], p))
    {
      if p in snapshots {
        assert Tracked(initial, files, snapshots[p], p);
      }
      assert if Outstanding(snapshots, p) then PutBack(snapshots, files', snapshots', p)
             else Untouched(files, snapshots, files', snapshots', p);
    }
    SameFiles(files', initial);
  }

  // ---------------------------------------------------------------- a crash inside restore

  /** Exactly when the next restore is accepted after such a crash: the file was
      not replaced yet, or its original is still one of the two identities the row
      remembers. The goal then still owns an intact workspace. */
  lemma ResumableExactly(initial: map<Id, Content>, files: map<Id, Content>, snapshots: map<Id, Snapshot>,
                         files': map<Id, Content>, snapshots': map<Id, Snapshot>, at: Id)
    requires Intact(initial, files, snapshots) && StoppedAt(files, snapshots, files', snapshots', at)
    ensures
      AllRecognised(files', snapshots') <==>
        || FileAt(files', at) == FileAt(files, at)
        || snapshots[at].originalId in {snapshots[at].latest, snapshots[at].previous}
    ensures AllRecognised(files', snapshots') ==> Intact(initial, files', snapshots')
  {
    assert Tracked(initial, files, snapshots[at], at);
    forall p: Id | p != at
      ensures p !in snapshots' ==> FileAt(files', p) == FileAt(initial, p)
      ensures p in snapshots' ==> Tracked(initial, files', snapshots'[p], p)
    {
      if p in snapshots {
        assert Tracked(initial, files, snapshots[p], p);
      }
      assert if Outstanding(snapshots, p) && p < at then PutBack(snapshots, files', snapshots', p)
             else Untouched(files, snapshots, files', snapshots', p);
    }
    if snapshots[at].Recognises(FileAt(files', at)) {
      assert Tracked(initial, files', snapshots'[at], at);
      forall p | p in snapshots' && !snapshots'[p].restored ensures snapshots'[p].Recognises(FileAt(files', p)) {
        assert Tracked(initial, files', snapshots'[p], p);
      }
    }
  }

  /** The failing family is inhabited: a file created and written twice, removed by
      a restore that crashed before it saved the row. */
  lemma TwoWritesThenCrash(p: Id) returns (files': map<Id, Content>, snapshots': map<Id, Snapshot>)
    ensures
      var row := CreateSnapshot(None, Digest("a")).Advance(Digest("b"), false);
      && Intact(map[], map[p := "b"], map[p := row])
      && StoppedAt(map[p := "b"], map[p := row], files', snapshots', p)
      && !AllRecognised(files', snapshots')
  {
    var row := CreateSnapshot(None, Digest("a")).Advance(Digest("b"), false);
    var files: map<Id, Content> := map[p := "b"];
    files', snapshots' := map[], map[p := row];
    assert !row.Recognises(FileAt(files', p));
    assert Tracked(map[], files, row, p);
    assert "a" != "b" && FileAt(files', p) == None;
  }

  // ---------------------------------------------------------------- a goal's whole session

  /** Any number of writes, each of which may be refused, fail or crash: a restore
      afterwards is never refused, and if it runs to its end the tree is back. */
  method WriteThenRestore(w: GoalWorkspace, writes: nat) returns (r: RestoreResult)
    requires w.Valid()
    modifies w
    ensures !r.Refused?
    ensures r.Restored? ==> w.Valid() && w.files == w.initial
  {
    for i := 0 to writes
      invariant w.Valid()
    {
      var p: Id, content: Content, expected: Identity := *, *, *;
      var _ := w.Write(p, content, expected);
    }
    IntactIsRecognised(w.initial, w.files, w.snapshots);
    ghost var files, snapshots := w.files, w.snapshots;
    r := w.Restore();
    if r.Restored? {
      CompletedRestoreIsExact(w.initial, files, snapshots, w.files, w.snapshots);
    }
  }
}
