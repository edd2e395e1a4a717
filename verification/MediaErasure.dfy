/**
 Removing the media of one tenant: single files by a path that never leaves the
 tenant's own subtree, the catalogue rows, then the whole subtree.
 */
module MediaErasure {
  import opened FileTree
  import opened Keyset
  import opened Prelude

  /** A path component: `Unsafe` is any that is empty, "." or "..", or holds a
      backslash or a NUL. The name of a tenant's subtree is its owner id. */
  datatype Name = Plain(name: nat) | Unsafe

  type Path = seq<Name>

  datatype FileRow = FileRow(path: Option<Path>, thumb: Option<Path>)

  datatype Outcome = Removed | Absent | Refused

  const BATCH_SIZE: nat := 200

  predicate IsSafe(rel: Path) {
    rel != [] && forall i :: 0 <= i < |rel| ==> rel[i].Plain?
  }

  predicate InSubtree(owner: nat, rel: Path) {
    IsSafe(rel) && |rel| >= 2 && rel[0] == Plain(owner)
  }

  function Names(rel: Path): (names: seq<nat>)
    requires IsSafe(rel)
    ensures |names| == |rel|
    ensures forall i :: 0 <= i < |rel| ==> names[i] == rel[i].name
  {
    seq(|rel|, i requires 0 <= i < |rel| => rel[i].name)
  }

  // ---------------------------------------------------------------------
  // One entry less
  // ---------------------------------------------------------------------

  function WithoutChild(es: Entries, name: nat): Entries {
    if es.Nil? then Nil else if es.name == name then es.rest else Cons(es.name, es.node, WithoutChild(es.rest, name))
  }

  function WithChild(es: Entries, name: nat, n: Node): Entries {
    if es.Nil? then Nil
    else if es.name == name then Cons(name, n, es.rest)
    else Cons(es.name, es.node, WithChild(es.rest, name, n))
  }

  lemma {:induction false} ChildAfter(es: Entries, name: nat, n: Node, other: nat)
    requires AllWellFormed(es)
    ensures Child(WithoutChild(es, name), other) == if other == name then None else Child(es, other)
    ensures Child(WithChild(es, name, n), other) ==
      if other == name && Child(es, name).Some? then Some(n) else Child(es, other)
  {
    if es.Cons? {
      ChildAfter(es.rest, name, n, other);
    }
  }

  lemma {:induction false} StillWellFormed(es: Entries, name: nat, n: Node)
    requires AllWellFormed(es) && WellFormed(n)
    ensures AllWellFormed(WithoutChild(es, name)) && AllWellFormed(WithChild(es, name, n))
  {
    if es.Cons? {
      StillWellFormed(es.rest, name, n);
      ChildAfter(es.rest, name, n, es.name);
    }
  }

  /** The tree without the node at a path. */
  function Unlinked(n: Node, path: seq<nat>): Node
    requires path != []
    decreases |path|
  {
    if !n.Dir? then n
    else if |path| == 1 then Dir(WithoutChild(n.entries, path[0]))
    else match Child(n.entries, path[0])
      case None => n
      case Some(child) => Dir(WithChild(n.entries, path[0], Unlinked(child, path[1..])))
  }

  /** Nothing is left at the path or below it, nothing else moves, and the
      directories above stay directories. */
  lemma {:induction false} UnlinkedAt(n: Node, path: seq<nat>, q: seq<nat>)
    requires WellFormed(n) && n.Dir? && path != []
    ensures WellFormed(Unlinked(n, path)) && Unlinked(n, path).Dir?
    ensures path <= q ==> At(Unlinked(n, path), q).None?
    ensures !(path <= q) && !(q < path) ==> At(Unlinked(n, path), q) == At(n, q)
    ensures q < path ==> (At(Unlinked(n, path), q).Some? <==> At(n, q).Some?)
    ensures q < path && At(n, q).Some? ==> At(Unlinked(n, path), q).value.Dir? == At(n, q).value.Dir?
    ensures q < path && At(n, q).Some? && !At(n, q).value.Dir? ==> At(Unlinked(n, path), q) == At(n, q)
    decreases |path|
  {
    var name := path[0];
    var child := Child(n.entries, name);
    StillWellFormed(n.entries, name, File);
    if q != [] {
      ChildAfter(n.entries, name, File, q[0]);
    }
    if |path| > 1 && child.Some? {
      ChildIsWellFormed(n.entries, name);
      var below := Unlinked(child.value, path[1..]);
      if child.value.Dir? {
        UnlinkedAt(child.value, path[1..], if q == [] then [] else q[1..]);
      }
      StillWellFormed(n.entries, name, below);
      if q != [] {
        ChildAfter(n.entries, name, below, q[0]);
        if q[0] == name {
          PrefixTail(path, q);
          PrefixTail(q, path);
          if !child.value.Dir? {
            assert path <= q ==> |q[1..]| > 0;
          }
        }
      }
    }
  }

  lemma PrefixTail(a: seq<nat>, b: seq<nat>)
    requires a != [] && b != [] && a[0] == b[0]
    ensures a <= b <==> a[1..] <= b[1..]
  {
    if a[1..] <= b[1..] {
      assert a == [a[0]] + a[1..] && b == [b[0]] + b[1..];
    }
  }

  // ---------------------------------------------------------------------
  // What a removal answers
  // ---------------------------------------------------------------------

  predicate Exists(root: Node, path: seq<nat>, k: nat)
    requires k <= |path|
  {
    At(root, path[..k]).Some?
  }

  /** Every component but the last is a directory, opened in turn. */
  predicate Reaches(root: Node, path: seq<nat>, k: nat)
    requires k <= |path|
  {
    At(root, path[..k]).Some? && At(root, path[..k]).value.Dir?
  }

  function Verdict(root: Node, owner: nat, rel: Path): Outcome {
    if !InSubtree(owner, rel) then Refused
    else
      var path := Names(rel);
      if At(root, path) == Some(File) then Removed
      else if exists k :: 0 <= k < |path| && Reaches(root, path, k) && !Exists(root, path, k + 1) then Absent
      else Refused
  }

  lemma {:induction false} AtStep(n: Node, path: seq<nat>, k: nat)
    requires k < |path|
    ensures At(n, path[..k + 1]) ==
      match At(n, path[..k])
      case None => None
      case Some(m) => if m.Dir? then Child(m.entries, path[k]) else None
    decreases k
  {
    if k == 0 {
      assert path[..1][1..] == [];
    } else if n.Dir? && Child(n.entries, path[0]).Some? {
      AtStep(Child(n.entries, path[0]).value, path[1..], k - 1);
      assert path[..k][1..] == path[1..][..k - 1];
      assert path[..k + 1][1..] == path[1..][..k];
    }
  }

  lemma {:induction false} NothingBelowAnObstacle(n: Node, path: seq<nat>, k: nat, j: nat)
    requires k < j <= |path| && !Reaches(n, path, k)
    ensures At(n, path[..j]).None?
    decreases j
  {
    AtStep(n, path, j - 1);
    if k < j - 1 {
      NothingBelowAnObstacle(n, path, k, j - 1);
    }
  }

  /** Every regular file below the tenant's directory can be removed by its path:
      what is refused is another tenant's, or irregular. */
  lemma FilesOfTheTenantAreRemovable(root: Node, owner: nat, names: seq<nat>)
    requires |names| >= 2 && names[0] == owner && At(root, names) == Some(File)
    ensures Verdict(root, owner, seq(|names|, i requires 0 <= i < |names| => Plain(names[i]))) == Removed
  {
    var rel := seq(|names|, i requires 0 <= i < |names| => Plain(names[i]));
    assert Names(rel) == names;
  }

  /** No path of another tenant is affected. */
  ghost predicate OthersKept(before: Node, after: Node, owner: nat) {
    forall q :: q != [] && q[0] != owner ==> At(after, q) == At(before, q)
  }

  /** Only regular files went, and only under the tenant's directory: every refusal
      that could be met was there before, and every irregular entry still is. */
  ghost predicate Thinned(before: Node, after: Node, owner: nat) {
    && (forall q :: HasIrregular(after, q) <==> HasIrregular(before, q))
    && (forall rel :: !Verdict(before, owner, rel).Refused? ==> !Verdict(after, owner, rel).Refused?)
    && (forall q :: IsDirAt(before, q) ==> IsDirAt(after, q))
    && NothingAppears(before, after)
    && (TenantIsDir(after, owner) <==> TenantIsDir(before, owner))
    && (At(after, [owner]).Some? <==> At(before, [owner]).Some?)
  }

  ghost predicate HasIrregular(n: Node, q: seq<nat>) {
    At(n, q).Some? && Irregular(At(n, q).value)
  }

  ghost predicate NothingAppears(before: Node, after: Node) {
    forall q :: At(after, q).Some? ==> At(before, q).Some?
  }

  /** Nothing is left where the row said its file and its thumbnail were. */
  ghost predicate FilesGone(root: Node, owner: nat, r: FileRow) {
    && (r.path.Some? ==> InSubtree(owner, r.path.value) && At(root, Names(r.path.value)).None?)
    && (r.thumb.Some? ==> InSubtree(owner, r.thumb.value) && At(root, Names(r.thumb.value)).None?)
  }

  lemma GoneAfterRemoval(root: Node, owner: nat, rel: Path)
    requires root.Dir? && WellFormed(root) && !Verdict(root, owner, rel).Refused?
    ensures InSubtree(owner, rel)
    ensures var after := if Verdict(root, owner, rel).Removed? then Unlinked(root, Names(rel)) else root;
      At(after, Names(rel)).None?
  {
    var path := Names(rel);
    if Verdict(root, owner, rel).Removed? {
      UnlinkedAt(root, path, path);
    } else {
      var k :| 0 <= k < |path| && Reaches(root, path, k) && !Exists(root, path, k + 1);
      Missing(root, path, k);
    }
  }

  predicate IsDirAt(n: Node, q: seq<nat>) {
    At(n, q).Some? && At(n, q).value.Dir?
  }

  ghost predicate IsObstacle(root: Node, path: seq<nat>, k: nat)
    requires k <= |path|
  {
    HasIrregular(root, path[..k])
  }

  /** What the erasure must never pass over: a path that leaves the tenant's own
      subtree, a symlink or special file on the way, a directory for a file. */
  ghost predicate Forbidden(root: Node, owner: nat, rel: Path) {
    || !InSubtree(owner, rel)
    || (exists k: nat :: k <= |rel| && IsObstacle(root, Names(rel), k))
    || IsDirAt(root, Names(rel))
  }

  lemma ForbiddenIsRefused(root: Node, owner: nat, rel: Path)
    requires Forbidden(root, owner, rel)
    ensures Verdict(root, owner, rel) == Refused
  {
    if InSubtree(owner, rel) {
      var path := Names(rel);
      assert path[..|path|] == path;
      if k: nat :| k <= |path| && IsObstacle(root, path, k) {
        ObstacleIsRefused(root, path, k);
      } else {
        forall k | 0 < k <= |path| ensures Exists(root, path, k) {
          ExistsAbove(root, path, k);
        }
      }
    }
  }

  lemma {:induction false} ExistsAbove(n: Node, path: seq<nat>, k: nat)
    requires k <= |path| && At(n, path).Some?
    ensures Exists(n, path, k)
  {
    assert path[..|path|] == path;
    if k < |path| && !Exists(n, path, k) {
      NothingBelowAnObstacle(n, path, k, |path|);
    }
  }

  lemma ObstacleIsRefused(root: Node, path: seq<nat>, k: nat)
    requires k <= |path| && HasIrregular(root, path[..k])
    ensures At(root, path) != Some(File)
    ensures !exists j :: 0 <= j < |path| && Reaches(root, path, j) && !Exists(root, path, j + 1)
  {
    assert path[..|path|] == path;
    if k < |path| {
      NothingBelowAnObstacle(root, path, k, |path|);
    }
    forall j | 0 <= j < |path| && Reaches(root, path, j) ensures Exists(root, path, j + 1) {
      if j >= k {
        if j > k {
          NothingBelowAnObstacle(root, path, k, j);
        }
        assert false;
      } else {
        ExistsAbove(root, path[..k], j + 1);
        assert path[..k][..j + 1] == path[..j + 1];
      }
    }
  }

  ghost predicate RowForbidden(root: Node, owner: nat, r: FileRow) {
    || (r.path.Some? && Forbidden(root, owner, r.path.value))
    || (r.thumb.Some? && Forbidden(root, owner, r.thumb.value))
  }

  lemma StillForbidden(before: Node, after: Node, owner: nat, rel: Path)
    requires Thinned(before, after, owner) && Forbidden(before, owner, rel)
    ensures Forbidden(after, owner, rel)
  {
    if InSubtree(owner, rel) && !IsDirAt(before, Names(rel)) {
      var k: nat :| k <= |rel| && IsObstacle(before, Names(rel), k);
      assert IsObstacle(after, Names(rel), k);
    }
  }

  predicate TenantIsDir(root: Node, owner: nat) {
    At(root, [owner]).Some? && At(root, [owner]).value.Dir?
  }

  /** Nothing the erasure would have to refuse: no subtree at all, or a genuine
      directory with nothing irregular at any depth. */
  ghost predicate TenantIsClean(root: Node, owner: nat) {
    At(root, [owner]).Some? ==> TenantIsDir(root, owner) && !HoldsIrregular(At(root, [owner]).value)
  }

  predicate RowRefused(root: Node, owner: nat, r: FileRow) {
    || (r.path.Some? && Verdict(root, owner, r.path.value).Refused?)
    || (r.thumb.Some? && Verdict(root, owner, r.thumb.value).Refused?)
  }

  class Storage {
    var root: Node
    var rows: map<nat, FileRow>

    ghost predicate Valid()
      reads this
    {
      root.Dir? && WellFormed(root) && 0 !in rows
    }

    constructor (root: Node, rows: map<nat, FileRow>)
      requires root.Dir? && WellFormed(root) && 0 !in rows
      ensures Valid() && this.root == root && this.rows == rows
    {
      this.root := root;
      this.rows := rows;
    }

    /** Unlinks one file. Every component is opened relative to its parent and a
        symlink or anything else in the way is refused. */
    method RemoveRel(owner: nat, rel: Path) returns (outcome: Outcome)
      requires Valid()
      modifies this`root
      ensures Valid() && outcome == Verdict(old(root), owner, rel)
      ensures root == if outcome.Removed? then Unlinked(old(root), Names(rel)) else old(root)
    {
      if !InSubtree(owner, rel) {
        return Refused;
      }
      var path := Names(rel);
      ghost var start := root;
      var dir, k := root, 0;
      while k < |path| - 1
        invariant root == start && 0 <= k < |path| && Reaches(root, path, k) && At(root, path[..k]) == Some(dir)
        invariant forall j :: 0 <= j <= k ==> Exists(root, path, j)
      {
        AtStep(root, path, k);
        match Child(dir.entries, path[k]) {
          case None =>
            Missing(root, path, k);
            return Absent;
          case Some(child) =>
            if !child.Dir? {
              Obstructed(root, path, k + 1);
              return Refused;
            }
            dir := child;
        }
        k := k + 1;
      }
      AtStep(root, path, k);
      assert path[..k + 1] == path;
      match Child(dir.entries, path[k]) {
        case None =>
          Missing(root, path, k);
          return Absent;
        case Some(entry) =>
          if !entry.File? {
            Obstructed(root, path, k + 1);
            return Refused;
          }
          UnlinkedAt(root, path, []);
          root := Unlinked(root, path);
          return Removed;
      }
    }

    /** The file of a row, then its thumbnail; a refusal stops there. */
    method RemoveFiles(owner: nat, r: FileRow) returns (ok: bool)
      requires Valid()
      modifies this`root
      ensures Valid() && OthersKept(old(root), root, owner) && Thinned(old(root), root, owner)
      ensures !RowRefused(old(root), owner, r) ==> ok
      ensures RowForbidden(old(root), owner, r) ==> !ok
      ensures ok ==> FilesGone(root, owner, r)
    {
      ok := true;
      ghost var before := root;
      if r.path.Some? {
        if Forbidden(root, owner, r.path.value) {
          ForbiddenIsRefused(root, owner, r.path.value);
        }
        RemovalIsContained(root, owner, r.path.value);
        var outcome := RemoveRel(owner, r.path.value);
        if outcome.Refused? {
          return false;
        }
        GoneAfterRemoval(before, owner, r.path.value);
      }
      ghost var between := root;
      if r.thumb.Some? {
        if Forbidden(before, owner, r.thumb.value) {
          StillForbidden(before, root, owner, r.thumb.value);
          ForbiddenIsRefused(root, owner, r.thumb.value);
        }
        RemovalIsContained(root, owner, r.thumb.value);
        var outcome := RemoveRel(owner, r.thumb.value);
        ok := !outcome.Refused?;
        if ok {
          GoneAfterRemoval(between, owner, r.thumb.value);
        }
      }
      ThinnedTwice(before, between, root, owner);
    }

    /** What is left under the tenant's own directory, and the directory. */
    method EraseTenantTree(owner: nat) returns (deleted: nat, ok: bool)
      requires Valid()
      modifies this`root
      ensures Valid() && OthersKept(old(root), root, owner)
      ensures ok ==> At(root, [owner]).None?
      ensures ok <==> TenantIsClean(old(root), owner)
      ensures TreeErased(old(root), root, owner)
    {
      TenantNode(root, owner);
      match Child(root.entries, owner) {
        case None => return 0, true;
        case Some(tenant) =>
          ChildIsWellFormed(root.entries, owner);
          LeavesIffHoldsIrregular(tenant);
          if !tenant.Dir? {
            return 0, false;
          }
          var left, refusals;
          left, deleted, refusals := EraseTree(tenant.entries);
          ResidueIsWellFormed(tenant.entries);
          ChildReplaced(root, owner, Dir(left));
          TreeIsErased(root, owner);
          if refusals == 0 {
            root := Dir(WithoutChild(root.entries, owner));
          } else {
            root := Dir(WithChild(root.entries, owner, Dir(left)));
          }
          return deleted, refusals == 0;
      }
    }

    /** The files the rows name, page by page; the first refusal stops it. */
    method EraseListed(owner: nat) returns (ok: bool)
      requires Valid()
      modifies this`root
      ensures Valid() && OthersKept(old(root), root, owner) && Thinned(old(root), root, owner)
      ensures ok ==> forall id :: id in rows ==> !RowForbidden(old(root), owner, rows[id])
      ensures ok ==> forall id :: id in rows ==> FilesGone(root, owner, rows[id])
      ensures (forall id :: id in rows ==> !RowRefused(old(root), owner, rows[id])) ==> ok
    {
      ghost var start, all := root, rows;
      var cursor, more := 0, true;
      while more
        invariant Valid() && rows == all && OthersKept(start, root, owner) && Thinned(start, root, owner)
        invariant forall id :: id in all && (!more || id <= cursor) ==>
          !RowForbidden(start, owner, all[id]) && FilesGone(root, owner, all[id])
        decreases |Later(rows.Keys, cursor)|, more
      {
        var batch := ListPage(rows, AnyRow, cursor, BATCH_SIZE);
        var j := 0;
        while j < |batch|
          invariant j <= |batch| && Valid() && rows == all
          invariant OthersKept(start, root, owner) && Thinned(start, root, owner)
          invariant forall id :: id in all && id <= cursor ==>
            !RowForbidden(start, owner, all[id]) && FilesGone(root, owner, all[id])
          invariant forall i :: 0 <= i < j ==>
            !RowForbidden(start, owner, all[batch[i]]) && FilesGone(root, owner, all[batch[i]])
        {
          ghost var before := root;
          assert batch[j] in batch;
          RowStillForbidden(start, root, owner, rows[batch[j]]);
          var done := RemoveFiles(owner, rows[batch[j]]);
          ThinnedTwice(start, before, root, owner);
          if !done {
            return false;
          }
          forall r | FilesGone(before, owner, r) ensures FilesGone(root, owner, r) {
            StillGone(before, root, owner, r);
          }
          j := j + 1;
        }
        assert forall id :: id in batch ==> !RowForbidden(start, owner, all[id]) && FilesGone(root, owner, all[id]);
        if batch != [] {
          assert batch[|batch| - 1] in batch;
          CursorAdvances(rows.Keys, cursor, batch[|batch| - 1]);
          cursor := batch[|batch| - 1];
        }
        if |batch| < BATCH_SIZE {
          more := false;
        }
      }
      return true;
    }

    /** The rows of the tenant, batch by batch. */
    method DeleteRows()
      requires Valid()
      modifies this`rows
      ensures Valid() && rows == map[]
    {
      var more := true;
      while more
        invariant Valid() && (more || rows == map[])
        decreases |rows|, more
      {
        var page := ListPage(rows, AnyRow, 0, BATCH_SIZE);
        if page == [] {
          more := false;
          assert rows == map[];
        } else {
          BatchShrinks(rows, page);
          rows := rows - Ids(page);
        }
      }
    }

    /** Files from the rows that name them, then the rows, then the subtree. An
        error leaves the rest for the next attempt. */
    method EraseTenant(owner: nat) returns (ok: bool)
      requires Valid()
      modifies this
      ensures Valid() && OthersKept(old(root), root, owner)
      ensures ok ==> rows == map[] && At(root, [owner]).None?
      ensures !ok ==> rows == old(rows) || rows == map[]
      ensures rows == map[] ==> forall id :: id in old(rows) ==> FilesGone(root, owner, old(rows)[id])
      ensures ok ==> TenantIsClean(old(root), owner)
      ensures ok ==> forall id :: id in old(rows) ==> !RowForbidden(old(root), owner, old(rows)[id])
      ensures TenantIsClean(old(root), owner)
        && (forall id :: id in old(rows) ==> !RowRefused(old(root), owner, old(rows)[id]))
        ==> ok
    {
      ghost var start := root;
      ok := EraseListed(owner);
      if !ok {
        return;
      }
      DeleteRows();
      ghost var between := root;
      var deleted;
      CleanIsKept(start, root, owner);
      deleted, ok := EraseTenantTree(owner);
      forall r | FilesGone(between, owner, r) ensures FilesGone(root, owner, r) {
        StillGone(between, root, owner, r);
      }
    }
  }

  lemma StillGone(before: Node, after: Node, owner: nat, r: FileRow)
    requires NothingAppears(before, after) && FilesGone(before, owner, r)
    ensures FilesGone(after, owner, r)
  {
  }

  lemma RowStillForbidden(before: Node, after: Node, owner: nat, r: FileRow)
    requires Thinned(before, after, owner)
    ensures RowForbidden(before, owner, r) ==> RowForbidden(after, owner, r)
  {
    if r.path.Some? && Forbidden(before, owner, r.path.value) {
      StillForbidden(before, after, owner, r.path.value);
    }
    if r.thumb.Some? && Forbidden(before, owner, r.thumb.value) {
      StillForbidden(before, after, owner, r.thumb.value);
    }
  }

  predicate AnyRow(r: FileRow) {
    true
  }

  lemma Missing(root: Node, path: seq<nat>, k: nat)
    requires k < |path| && Reaches(root, path, k) && !Exists(root, path, k + 1)
    ensures At(root, path).None?
  {
    if k + 1 < |path| {
      NothingBelowAnObstacle(root, path, k + 1, |path|);
    }
    assert path[..|path|] == path;
  }

  /** Something that is neither missing nor what was hoped for is in the way. */
  lemma Obstructed(root: Node, path: seq<nat>, k: nat)
    requires 0 < k <= |path| && forall j :: 0 <= j <= k ==> Exists(root, path, j)
    requires if k == |path| then At(root, path) != Some(File) else !Reaches(root, path, k)
    ensures At(root, path) != Some(File)
    ensures !exists j :: 0 <= j < |path| && Reaches(root, path, j) && !Exists(root, path, j + 1)
  {
    assert path[..|path|] == path;
    if k < |path| {
      NothingBelowAnObstacle(root, path, k, |path|);
    }
    forall j | k < j < |path| ensures !Reaches(root, path, j) {
      NothingBelowAnObstacle(root, path, k, j);
    }
  }

  lemma ThinnedTwice(a: Node, b: Node, c: Node, owner: nat)
    requires OthersKept(a, b, owner) && Thinned(a, b, owner) && OthersKept(b, c, owner) && Thinned(b, c, owner)
    ensures OthersKept(a, c, owner) && Thinned(a, c, owner)
  {
    forall q ensures HasIrregular(c, q) <==> HasIrregular(a, q) {
      assert HasIrregular(b, q) <==> HasIrregular(a, q);
    }
    forall q | q != [] && q[0] != owner ensures At(c, q) == At(a, q) {
      assert At(b, q) == At(a, q);
    }
    forall q | IsDirAt(a, q) ensures IsDirAt(c, q) {
      assert IsDirAt(b, q);
    }
    forall q | At(c, q).Some? ensures At(a, q).Some? {
      assert At(b, q).Some?;
    }
  }

  /** Below a genuine tenant directory only what is irregular, and the directories
      that hold it, is left; without one nothing changes. */
  ghost predicate TreeErased(before: Node, after: Node, owner: nat) {
    && NothingAppears(before, after)
    && (!TenantIsDir(before, owner) ==> after == before)
    && (TenantIsDir(before, owner) ==>
      forall path :: path != [] ==>
        (At(after, [owner] + path).Some? <==>
          At(before, [owner] + path).Some? && HoldsIrregular(At(before, [owner] + path).value)))
  }

  lemma TreeIsErased(root: Node, owner: nat)
    requires root.Dir? && WellFormed(root) && TenantIsDir(root, owner)
    ensures var left := ResidueOf(At(root, [owner]).value.entries);
      TreeErased(root, Dir(if left.Nil? then WithoutChild(root.entries, owner)
                           else WithChild(root.entries, owner, Dir(left))), owner)
  {
    TenantNode(root, owner);
    ChildIsWellFormed(root.entries, owner);
    var tenant := Child(root.entries, owner).value;
    var left := ResidueOf(tenant.entries);
    var after := Dir(if left.Nil? then WithoutChild(root.entries, owner)
                     else WithChild(root.entries, owner, Dir(left)));
    ResidueIsWellFormed(tenant.entries);
    ChildReplaced(root, owner, Dir(left));
    StillWellFormed(root.entries, owner, Dir(left));
    ChildAfter(root.entries, owner, Dir(left), owner);
    forall path | path != []
      ensures At(after, [owner] + path).Some? <==>
        At(root, [owner] + path).Some? && HoldsIrregular(At(root, [owner] + path).value)
    {
      HoldsBelow(root, owner, path);
      ExactlyTheIrregularSurvives(tenant.entries, path);
      if !left.Nil? {
        HoldsBelow(after, owner, path);
      } else {
        assert ([owner] + path)[0] == owner;
      }
    }
    forall q | At(after, q).Some? ensures At(root, q).Some? {
      if q != [] && q[0] == owner {
        if |q| > 1 {
          assert q == [owner] + q[1..];
        } else {
          assert q == [owner];
        }
      } else if q != [] {
        assert At(after, q) == At(root, q);
      }
    }
  }

  /** Every removal stays inside the subtree of its tenant: the path starts with
      the owner id, all directories on the way are genuine, what goes is one
      regular file, and every other path is as it was. */
  lemma RemovalIsContained(root: Node, owner: nat, rel: Path)
    requires root.Dir? && WellFormed(root)
    ensures var after := if Verdict(root, owner, rel).Removed? then Unlinked(root, Names(rel)) else root;
      OthersKept(root, after, owner) && Thinned(root, after, owner)
    ensures Verdict(root, owner, rel).Removed? ==>
      && Names(rel)[0] == owner && At(root, Names(rel)) == Some(File)
      && (forall k :: 0 <= k < |rel| ==> Reaches(root, Names(rel), k))
      && (forall q :: !(q < Names(rel)) && q != Names(rel) ==> At(Unlinked(root, Names(rel)), q) == At(root, q))
  {
    if Verdict(root, owner, rel).Removed? {
      var path := Names(rel);
      var after := Unlinked(root, path);
      forall k | 0 <= k < |rel| ensures Reaches(root, path, k) {
        assert path[..|path|] == path;
        if !Reaches(root, path, k) {
          NothingBelowAnObstacle(root, path, k, |path|);
        }
      }
      forall q | !(q < path) && q != path ensures At(after, q) == At(root, q) {
        UnlinkedAt(root, path, q);
        if path <= q {
          BelowAFile(root, path, q);
        }
      }
      forall q | q != [] && q[0] != owner ensures At(after, q) == At(root, q) {
        UnlinkedAt(root, path, q);
      }
      forall q ensures HasIrregular(after, q) <==> HasIrregular(root, q) {
        UnlinkedAt(root, path, q);
        if path <= q {
          BelowAFile(root, path, q);
        } else if q < path {
          assert Reaches(root, path, |q|) && path[..|q|] == q;
        }
      }
      forall q | At(after, q).Some? ensures At(root, q).Some? {
        UnlinkedAt(root, path, q);
      }
      forall q | IsDirAt(root, q) ensures IsDirAt(after, q) {
        UnlinkedAt(root, path, q);
        if path <= q {
          BelowAFile(root, path, q);
        }
      }
      assert [owner] < path;
      UnlinkedAt(root, path, [owner]);
      forall other | !Verdict(root, owner, other).Refused? ensures !Verdict(after, owner, other).Refused? {
        RemovalRefusesNoMore(root, owner, path, other);
      }
    }
  }

  lemma {:induction false} BelowAFile(n: Node, path: seq<nat>, q: seq<nat>)
    requires At(n, path) == Some(File) && path <= q
    ensures At(n, q) == if q == path then Some(File) else None
    decreases |path|
  {
    if path != [] {
      PrefixTail(path, q);
      BelowAFile(Child(n.entries, path[0]).value, path[1..], q[1..]);
      assert q == [q[0]] + q[1..] && path == [path[0]] + path[1..];
    }
  }

  lemma RemovalRefusesNoMore(root: Node, owner: nat, path: seq<nat>, other: Path)
    requires root.Dir? && WellFormed(root) && path != [] && At(root, path) == Some(File)
    requires !Verdict(root, owner, other).Refused?
    ensures !Verdict(Unlinked(root, path), owner, other).Refused?
  {
    var after, names := Unlinked(root, path), Names(other);
    if At(root, names) == Some(File) {
      UnlinkedAt(root, path, names);
      if names == path {
        var k := |names| - 1;
        ParentIsDir(root, names);
        UnlinkedAt(root, path, names[..k]);
        assert names[..k + 1] == names;
        assert Reaches(after, names, k) && !Exists(after, names, k + 1);
      } else if path <= names {
        BelowAFile(root, path, names);
      } else if names < path {
        BelowAFile(root, names, path);
      }
    } else {
      var k :| 0 <= k < |names| && Reaches(root, names, k) && !Exists(root, names, k + 1);
      UnlinkedAt(root, path, names[..k]);
      UnlinkedAt(root, path, names[..k + 1]);
      if path <= names[..k] {
        BelowAFile(root, path, names[..k]);
      }
      assert Reaches(after, names, k) && !Exists(after, names, k + 1);
      assert At(after, names) != Some(File) by { Missing(after, names, k); }
    }
  }

  lemma ParentIsDir(root: Node, path: seq<nat>)
    requires path != [] && At(root, path).Some?
    ensures Reaches(root, path, |path| - 1)
  {
    assert path[..|path|] == path;
    AtStep(root, path, |path| - 1);
  }

  lemma ChildReplaced(root: Node, owner: nat, left: Node)
    requires root.Dir? && WellFormed(root) && WellFormed(left)
    ensures var gone := Dir(WithoutChild(root.entries, owner));
      WellFormed(gone) && OthersKept(root, gone, owner) && At(gone, [owner]).None?
    ensures var kept := Dir(WithChild(root.entries, owner, left));
      WellFormed(kept) && OthersKept(root, kept, owner)
  {
    StillWellFormed(root.entries, owner, left);
    ChildAfter(root.entries, owner, left, owner);
    forall q: seq<nat> | q != [] && q[0] != owner
      ensures At(Dir(WithoutChild(root.entries, owner)), q) == At(root, q)
      ensures At(Dir(WithChild(root.entries, owner, left)), q) == At(root, q)
    {
      ChildAfter(root.entries, owner, left, q[0]);
    }
  }

  function Later(ids: set<nat>, cursor: nat): set<nat> {
    set id | id in ids && cursor < id
  }

  lemma CursorAdvances(ids: set<nat>, cursor: nat, next: nat)
    requires next in ids && cursor < next
    ensures |Later(ids, next)| < |Later(ids, cursor)|
  {
    var a, b := Later(ids, next), Later(ids, cursor);
    assert next in b && next !in a;
    SubsetSize(a, b - {next});
  }

  lemma BatchShrinks(rows: map<nat, FileRow>, page: seq<nat>)
    requires page != [] && forall id :: id in page ==> id in rows
    ensures |rows - Ids(page)| < |rows|
  {
    var left := rows - Ids(page);
    assert page[0] in page;
    assert left.Keys <= rows.Keys - {page[0]};
    SubsetSize(left.Keys, rows.Keys - {page[0]});
    assert |left| == |left.Keys| && |rows| == |rows.Keys|;
  }

  lemma CleanIsKept(before: Node, after: Node, owner: nat)
    requires before.Dir? && after.Dir? && Thinned(before, after, owner)
    ensures TenantIsClean(after, owner) <==> TenantIsClean(before, owner)
  {
    if TenantIsDir(before, owner) {
      IrregularBelow(before, owner);
      IrregularBelow(after, owner);
      if HoldsIrregular(At(before, [owner]).value) {
        var path :| HasIrregular(before, [owner] + path);
        assert HasIrregular(after, [owner] + path);
      }
      if HoldsIrregular(At(after, [owner]).value) {
        var path :| HasIrregular(after, [owner] + path);
        assert HasIrregular(before, [owner] + path);
      }
    }
  }

  lemma TenantNode(root: Node, owner: nat)
    requires root.Dir?
    ensures At(root, [owner]) == Child(root.entries, owner)
  {
    assert [owner][1..] == [];
  }

  lemma IrregularBelow(root: Node, owner: nat)
    requires root.Dir? && TenantIsDir(root, owner)
    ensures HoldsIrregular(At(root, [owner]).value) <==> exists path :: HasIrregular(root, [owner] + path)
  {
    TenantNode(root, owner);
    var tenant := At(root, [owner]).value;
    forall path ensures At(root, [owner] + path) == At(tenant, path) {
      HoldsBelow(root, owner, path);
    }
    if HoldsIrregular(tenant) {
      var path :| At(tenant, path).Some? && Irregular(At(tenant, path).value);
      assert HasIrregular(root, [owner] + path);
    }
    if path :| HasIrregular(root, [owner] + path) {
      assert At(tenant, path).Some?;
    }
  }
}
