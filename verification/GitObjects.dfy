/** GitHub's immutable objects and its two kinds of ref update, as the service uses them.
    A commit is identified by its content, so equal values stand for equal SHAs. */
module GitObjects {
  import opened Paths

  /** Relative path -> content. */
  type FileMap = map<string, string>

  /** Full path -> blob content. */
  type Tree = map<string, string>

  /** The service only ever creates commits with no parent or with one. */
  datatype Commit =
    | Root(tree: Tree, message: string, date: int)
    | Child(parent: Commit, tree: Tree, message: string, date: int)

  type Refs = map<string, Commit>

  // ----- Trees -----

  /** The files a call adds are named by clean relative paths. */
  predicate CanonicalFiles(files: FileMap) {
    forall rel | rel in files :: Canonical(rel)
  }

  /** Create-tree with a base tree: later entries replace earlier ones at the same path. */
  function CreateTree(base: Tree, entries: seq<(string, string)>): Tree
    decreases |entries|
  {
    if entries == [] then base
    else CreateTree(base[entries[0].0 := entries[0].1], entries[1..])
  }

  /** base with every file of files stored below dir, and nothing removed. */
  function Overlay(base: Tree, dir: string, files: FileMap): Tree {
    map p | p in base.Keys + (set rel | rel in files :: dir + "/" + rel)
      :: if Under(dir, p) && p[|dir| + 1..] in files then files[p[|dir| + 1..]] else base[p]
  }

  /** The relative names of the files stored below dir. */
  function Names(tree: Tree, dir: string): (names: set<string>)
    ensures forall rel :: rel in names <==> dir + "/" + rel in tree
  {
    assert forall rel :: (dir + "/" + rel)[|dir| + 1..] == rel;
    assert forall p | Under(dir, p) :: p == dir + "/" + p[|dir| + 1..];
    set p | p in tree && Under(dir, p) :: p[|dir| + 1..]
  }

  /** The files stored below dir, keyed by their path relative to it. */
  function ReadTree(tree: Tree, dir: string): FileMap {
    map rel | rel in Names(tree, dir) :: tree[dir + "/" + rel]
  }

  lemma OverlayAt(base: Tree, dir: string, files: FileMap, rel: string)
    ensures dir + "/" + rel in Overlay(base, dir, files) <==> rel in files || dir + "/" + rel in base
    ensures rel in files ==> Overlay(base, dir, files)[dir + "/" + rel] == files[rel]
    ensures rel !in files && dir + "/" + rel in base ==> Overlay(base, dir, files)[dir + "/" + rel] == base[dir + "/" + rel]
  {
    var p := dir + "/" + rel;
    assert p[|dir| + 1..] == rel;
    forall other | other in files && dir + "/" + other == p ensures other == rel {
      assert (dir + "/" + other)[|dir| + 1..] == other;
    }
  }

  /** Nothing outside the directory changes. */
  lemma OverlayOutside(base: Tree, dir: string, files: FileMap, p: string)
    requires !Under(dir, p)
    ensures p in Overlay(base, dir, files) <==> p in base
    ensures p in base ==> Overlay(base, dir, files)[p] == base[p]
  {
  }

  /** Reading back what was stored gives the stored files on top of what was there. */
  lemma ReadOverlay(base: Tree, dir: string, files: FileMap)
    ensures ReadTree(Overlay(base, dir, files), dir) == ReadTree(base, dir) + files
  {
    var after := Overlay(base, dir, files);
    forall rel
      ensures rel in ReadTree(after, dir) <==> rel in ReadTree(base, dir) + files
      ensures rel in ReadTree(after, dir) ==> ReadTree(after, dir)[rel] == (ReadTree(base, dir) + files)[rel]
    {
      OverlayAt(base, dir, files, rel);
    }
    assert ReadTree(after, dir).Keys == (ReadTree(base, dir) + files).Keys;
  }

  /** A commit never deletes, so the stored version reads back as exactly the uploaded files
      just when the directory held no file that the upload lacks. */
  lemma RoundTripIff(base: Tree, dir: string, files: FileMap)
    ensures ReadTree(Overlay(base, dir, files), dir) == files <==> ReadTree(base, dir).Keys <= files.Keys
  {
    ReadOverlay(base, dir, files);
    assert (ReadTree(base, dir) + files).Keys == ReadTree(base, dir).Keys + files.Keys;
    if ReadTree(base, dir).Keys <= files.Keys {
      assert ReadTree(base, dir) + files == files;
    }
  }

  /** Another directory that is not nested with this one reads the same before and after. */
  lemma ReadElsewhere(base: Tree, dir: string, files: FileMap, other: string)
    requires forall p :: !(Under(dir, p) && Under(other, p))
    ensures ReadTree(Overlay(base, dir, files), other) == ReadTree(base, other)
  {
    var after := Overlay(base, dir, files);
    forall rel
      ensures rel in ReadTree(after, other) <==> rel in ReadTree(base, other)
      ensures rel in ReadTree(after, other) ==> ReadTree(after, other)[rel] == ReadTree(base, other)[rel]
    {
      assert Under(other, other + "/" + rel);
      OverlayOutside(base, dir, files, other + "/" + rel);
    }
    assert ReadTree(after, other).Keys == ReadTree(base, other).Keys;
  }

  /** Storing the same files again changes nothing: the tree-unchanged exit. */
  lemma OverlayIdempotent(base: Tree, dir: string, files: FileMap)
    ensures Overlay(Overlay(base, dir, files), dir, files) == Overlay(base, dir, files)
  {
    var once := Overlay(base, dir, files);
    assert Overlay(once, dir, files).Keys == once.Keys;
  }

  /** All of files can be read below dir. */
  ghost predicate Holds(tree: Tree, dir: string, files: FileMap) {
    forall rel | rel in files :: dir + "/" + rel in tree && tree[dir + "/" + rel] == files[rel]
  }

  lemma OverlayHolds(base: Tree, dir: string, files: FileMap)
    ensures Holds(Overlay(base, dir, files), dir, files)
  {
    forall rel | rel in files
      ensures dir + "/" + rel in Overlay(base, dir, files) && Overlay(base, dir, files)[dir + "/" + rel] == files[rel]
    {
      OverlayAt(base, dir, files, rel);
    }
  }

  /** Holding the files already is the same as having nothing to store. */
  lemma HoldsIffUnchanged(tree: Tree, dir: string, files: FileMap)
    ensures Holds(tree, dir, files) <==> Overlay(tree, dir, files) == tree
  {
    OverlayHolds(tree, dir, files);
    if Holds(tree, dir, files) {
      forall p | p in Overlay(tree, dir, files) ensures p in tree && Overlay(tree, dir, files)[p] == tree[p] {
        if Under(dir, p) {
          assert p == dir + "/" + p[|dir| + 1..];
          OverlayAt(tree, dir, files, p[|dir| + 1..]);
        } else {
          OverlayOutside(tree, dir, files, p);
        }
      }
      assert Overlay(tree, dir, files).Keys == tree.Keys;
    }
  }

  // ----- History and ref updates -----

  /** a is b or one of its ancestors. */
  predicate Ancestor(a: Commit, b: Commit) {
    a == b || (b.Child? && Ancestor(a, b.parent))
  }

  function Depth(c: Commit): nat {
    if c.Root? then 0 else 1 + Depth(c.parent)
  }

  lemma {:induction false} AncestorDepth(a: Commit, b: Commit)
    requires Ancestor(a, b)
    ensures Depth(a) <= Depth(b)
    ensures Depth(a) == Depth(b) ==> a == b
    decreases b
  {
    if a != b {
      AncestorDepth(a, b.parent);
    }
  }

  lemma {:induction false} AncestorTransitive(a: Commit, b: Commit, c: Commit)
    requires Ancestor(a, b) && Ancestor(b, c)
    ensures Ancestor(a, c)
    decreases c
  {
    if b != c {
      AncestorTransitive(a, b, c.parent);
    }
  }

  /** Update-ref without force accepts only a fast-forward: the present tip is an ancestor of the new one. */
  predicate FastForwards(refs: Refs, name: string, commit: Commit) {
    name in refs && Ancestor(refs[name], commit)
  }

  function UpdateRef(refs: Refs, name: string, commit: Commit): Refs {
    if FastForwards(refs, name, commit) then refs[name := commit] else refs
  }

  /** Create-ref refuses a name already taken. */
  function CreateRef(refs: Refs, name: string, commit: Commit): Refs {
    if name in refs then refs else refs[name := commit]
  }

  /** On a branch that never moved backwards since the parent was read, the fast-forward rule
      is a compare-and-set on that parent. The one other way in is that somebody else already
      stored the very same commit. */
  lemma FastForwardIsCompareAndSet(refs: Refs, name: string, parent: Commit, commit: Commit)
    requires name in refs && Ancestor(parent, refs[name])
    requires commit.Child? && commit.parent == parent
    ensures FastForwards(refs, name, commit) <==> refs[name] == parent || refs[name] == commit
  {
    var tip := refs[name];
    if Ancestor(tip, commit) && tip != commit {
      AncestorDepth(tip, parent);
      AncestorDepth(parent, tip);
    }
  }
}
