/**
 The storage tree of the media root, and the two ways the purge removes from it:
 one file by its path, or everything below a directory. A directory never holds
 two entries of one name; a symlink is an entry of its own, never its target.
 */
module FileTree {
  import opened Prelude

  datatype Node = File | Symlink | Special | Dir(entries: Entries)

  datatype Entries = Nil | Cons(name: nat, node: Node, rest: Entries)

  predicate WellFormed(n: Node) {
    n.Dir? ==> AllWellFormed(n.entries)
  }

  predicate AllWellFormed(es: Entries) {
    es.Cons? ==> Child(es.rest, es.name).None? && WellFormed(es.node) && AllWellFormed(es.rest)
  }

  predicate Irregular(n: Node) {
    n.Symlink? || n.Special?
  }

  // ---------------------------------------------------------------------
  // Lookup
  // ---------------------------------------------------------------------

  function Child(es: Entries, name: nat): Option<Node> {
    if es.Nil? then None else if es.name == name then Some(es.node) else Child(es.rest, name)
  }

  /** The node at a path, descending directories only. */
  function At(n: Node, path: seq<nat>): Option<Node>
    decreases |path|
  {
    if path == [] then Some(n)
    else if !n.Dir? then None
    else match Child(n.entries, path[0])
      case None => None
      case Some(child) => At(child, path[1..])
  }

  lemma {:induction false} ChildIsWellFormed(es: Entries, name: nat)
    requires AllWellFormed(es) && Child(es, name).Some?
    ensures WellFormed(Child(es, name).value)
  {
    if es.name != name {
      ChildIsWellFormed(es.rest, name);
    }
  }

  // ---------------------------------------------------------------------
  // Erasing a tree
  // ---------------------------------------------------------------------

  /** What is left of a node: None when it is gone. */
  function Residue(n: Node): Option<Node> {
    match n
    case File => None
    case Dir(es) => if ResidueOf(es).Nil? then None else Some(Dir(ResidueOf(es)))
    case _ => Some(n)
  }

  function ResidueOf(es: Entries): Entries {
    if es.Nil? then Nil
    else match Residue(es.node)
      case None => ResidueOf(es.rest)
      case Some(left) => Cons(es.name, left, ResidueOf(es.rest))
  }

  function FilesBelow(n: Node): nat {
    match n
    case File => 1
    case Dir(es) => FilesIn(es)
    case _ => 0
  }

  function FilesIn(es: Entries): nat {
    if es.Nil? then 0 else FilesBelow(es.node) + FilesIn(es.rest)
  }

  function Append(es: Entries, more: Entries): Entries {
    if es.Nil? then more else Cons(es.name, es.node, Append(es.rest, more))
  }

  lemma {:induction false} AppendOne(es: Entries, name: nat, n: Node, more: Entries)
    ensures Append(Append(es, Cons(name, n, Nil)), more) == Append(es, Cons(name, n, more))
  {
    if es.Cons? {
      AppendOne(es.rest, name, n, more);
    }
  }

  lemma {:induction false} AppendNil(es: Entries)
    ensures Append(es, Nil) == es
  {
    if es.Cons? {
      AppendNil(es.rest);
    }
  }

  /** Unlinks the regular files, descends the directories and removes them once
      empty, refuses the rest. */
  method EraseTree(es: Entries) returns (left: Entries, deleted: nat, refusals: nat)
    ensures left == ResidueOf(es) && deleted == FilesIn(es)
    ensures refusals == 0 <==> left.Nil?
    decreases es
  {
    left, deleted, refusals := Nil, 0, 0;
    var todo := es;
    while todo.Cons?
      invariant todo == es || todo < es
      invariant Append(left, ResidueOf(todo)) == ResidueOf(es) && deleted + FilesIn(todo) == FilesIn(es)
      invariant refusals == 0 <==> left.Nil?
      decreases todo
    {
      ghost var before, after := left, ResidueOf(todo.rest);
      match todo.node {
        case Dir(children) =>
          var below, count, refused := EraseTree(children);
          deleted, refusals := deleted + count, refusals + refused;
          if below.Cons? {
            AppendOne(left, todo.name, Dir(below), after);
            left := Append(left, Cons(todo.name, Dir(below), Nil));
          }
        case File => deleted := deleted + 1;
        case _ =>
          AppendOne(left, todo.name, todo.node, after);
          left, refusals := Append(left, Cons(todo.name, todo.node, Nil)), refusals + 1;
      }
      todo := todo.rest;
    }
    AppendNil(left);
  }

  /** Something irregular at or below the node. */
  ghost predicate HoldsIrregular(n: Node) {
    exists path :: At(n, path).Some? && Irregular(At(n, path).value)
  }

  /** Looking a name up after the erasure. */
  lemma {:induction false} ResidueChild(es: Entries, name: nat)
    requires AllWellFormed(es)
    ensures Child(ResidueOf(es), name) == match Child(es, name) case None => None case Some(n) => Residue(n)
  {
    if es.Cons? {
      ResidueChild(es.rest, name);
    }
  }

  lemma {:induction false} ResidueIsWellFormed(es: Entries)
    requires AllWellFormed(es)
    ensures AllWellFormed(ResidueOf(es))
  {
    if es.Cons? {
      ResidueIsWellFormed(es.rest);
      ResidueChild(es.rest, es.name);
      if es.node.Dir? {
        ResidueIsWellFormed(es.node.entries);
      }
    }
  }

  lemma {:induction false} SomeChildLeft(es: Entries) returns (name: nat)
    requires AllWellFormed(es)
    ensures ResidueOf(es).Cons? <==> Child(es, name).Some? && Residue(Child(es, name).value).Some?
  {
    name := 0;
    if es.Cons? {
      if Residue(es.node).Some? {
        name := es.name;
      } else {
        name := SomeChildLeft(es.rest);
        if name == es.name {
          ResidueChild(es.rest, name);
        }
      }
    }
  }

  lemma HoldsBelow(n: Node, name: nat, path: seq<nat>)
    requires n.Dir? && Child(n.entries, name).Some?
    ensures At(n, [name] + path) == At(Child(n.entries, name).value, path)
  {
    assert ([name] + path)[1..] == path;
  }

  /** A node leaves something exactly if something irregular is at or below it. */
  lemma {:induction false} LeavesIffHoldsIrregular(n: Node)
    requires WellFormed(n)
    ensures Residue(n).Some? <==> HoldsIrregular(n)
  {
    if n.Dir? {
      DirLeavesSomething(n);
      DirLeavesNothing(n);
    } else {
      assert At(n, []) == Some(n);
    }
  }

  lemma {:induction false} DirLeavesSomething(n: Node)
    requires WellFormed(n) && n.Dir?
    ensures Residue(n).Some? ==> HoldsIrregular(n)
    decreases n, 0
  {
    if Residue(n).Some? {
      var name := SomeChildLeft(n.entries);
      var child := Child(n.entries, name).value;
      ChildIsWellFormed(n.entries, name);
      ChildIsSmaller(n.entries, name);
      if child.Dir? {
        DirLeavesSomething(child);
      } else {
        assert At(child, []) == Some(child);
      }
      var path :| At(child, path).Some? && Irregular(At(child, path).value);
      HoldsBelow(n, name, path);
    }
  }

  lemma {:induction false} ChildIsSmaller(es: Entries, name: nat)
    requires Child(es, name).Some?
    ensures Child(es, name).value < es
  {
    if es.name != name {
      ChildIsSmaller(es.rest, name);
    }
  }

  lemma {:induction false} PathLeavesSomething(n: Node, path: seq<nat>)
    requires WellFormed(n) && At(n, path).Some? && Irregular(At(n, path).value)
    ensures Residue(n).Some?
    decreases |path|
  {
    if path != [] {
      ChildIsWellFormed(n.entries, path[0]);
      PathLeavesSomething(Child(n.entries, path[0]).value, path[1..]);
      ResidueChild(n.entries, path[0]);
    }
  }

  lemma DirLeavesNothing(n: Node)
    requires WellFormed(n) && n.Dir?
    ensures HoldsIrregular(n) ==> Residue(n).Some?
  {
    if HoldsIrregular(n) {
      var path :| At(n, path).Some? && Irregular(At(n, path).value);
      PathLeavesSomething(n, path);
    }
  }

  /** What an erasure leaves at every path: a node that held something irregular,
      reduced to that; nothing where there was nothing of the kind. */
  lemma {:induction false} ResidueAt(n: Node, path: seq<nat>)
    requires WellFormed(n)
    ensures var left := match Residue(n) case None => None case Some(r) => At(r, path);
      match At(n, path)
      case None => left.None?
      case Some(m) => WellFormed(m) && left == Residue(m)
    decreases |path|
  {
    if path != [] && n.Dir? {
      ResidueChild(n.entries, path[0]);
      if Child(n.entries, path[0]).Some? {
        ChildIsWellFormed(n.entries, path[0]);
        ResidueAt(Child(n.entries, path[0]).value, path[1..]);
      }
    }
  }

  /** After the erasure of a directory, at every path below it: an entry is still
      there exactly if it is irregular or a directory holding something irregular;
      a symlink or a special file is untouched, and nothing new appears. */
  lemma ExactlyTheIrregularSurvives(es: Entries, path: seq<nat>)
    requires AllWellFormed(es) && path != []
    ensures var before, left := At(Dir(es), path), At(Dir(ResidueOf(es)), path);
      && (left.Some? <==> before.Some? && HoldsIrregular(before.value))
      && (before.Some? && Irregular(before.value) ==> left == before)
  {
    ResidueAt(Dir(es), path);
    var before := At(Dir(es), path);
    if before.Some? {
      LeavesIffHoldsIrregular(before.value);
    }
  }

  // ---------------------------------------------------------------------
  // The count
  // ---------------------------------------------------------------------

  lemma {:induction false} PrefixedSize(name: nat, paths: set<seq<nat>>)
    ensures |set q | q in paths :: [name] + q| == |paths|
  {
    var prefixed := set q | q in paths :: [name] + q;
    if paths == {} {
      assert prefixed == {};
    } else {
      var q :| q in paths;
      PrefixedSize(name, paths - {q});
      var rest := set p | p in paths - {q} :: [name] + p;
      forall p | p in paths && p != q ensures [name] + p != [name] + q {
        assert ([name] + p)[1..] == p && ([name] + q)[1..] == q;
      }
      assert prefixed == rest + {[name] + q};
    }
  }

  /** The files counted by an erasure are the paths with a regular file, each once. */
  lemma {:induction false} FilesAreCounted(n: Node) returns (paths: set<seq<nat>>)
    requires WellFormed(n)
    ensures forall p :: p in paths <==> At(n, p) == Some(File)
    ensures |paths| == FilesBelow(n)
    decreases n, 0
  {
    match n
    case File =>
      paths := {[]};
    case Dir(es) =>
      paths := FilesInAreCounted(es);
    case _ =>
      paths := {};
  }

  lemma {:induction false} FilesInAreCounted(es: Entries) returns (paths: set<seq<nat>>)
    requires AllWellFormed(es)
    ensures forall p :: p in paths <==> At(Dir(es), p) == Some(File)
    ensures |paths| == FilesIn(es)
    decreases es, 1
  {
    if es.Nil? {
      paths := {};
    } else {
      var below := FilesAreCounted(es.node);
      var others := FilesInAreCounted(es.rest);
      var here := set q | q in below :: [es.name] + q;
      PrefixedSize(es.name, below);
      forall p ensures p in here <==> p != [] && p[0] == es.name && p[1..] in below {
        if p != [] && p[0] == es.name {
          assert p == [es.name] + p[1..];
        }
        if p in here {
          var q :| q in below && p == [es.name] + q;
          assert p[1..] == q;
        }
      }
      forall p | p in others ensures p != [] && p[0] != es.name {
        assert At(Dir(es.rest), p) == Some(File);
      }
      paths := here + others;
      assert here !! others;
      forall p ensures p in paths <==> At(Dir(es), p) == Some(File) {
        if p != [] && p[0] != es.name {
          assert At(Dir(es), p) == At(Dir(es.rest), p);
        }
      }
    }
  }
}
