/** The owner-scoped folder forest: parent chains, the subtree below a folder,
    and the one-level listing the dashboard shows. Folders are stored as a map
    from id to record, as the Folder collection holds them. */
module Hierarchy {
  import opened Records

  /** The number of stored folders met by walking parent links from `id` (a
      missing id ends the walk, as `findById` returning null does), or None when
      the walk comes back to a folder in `seen`, i.e. runs into a cycle. */
  function ChainLength(folders: map<Id, Folder>, id: Id, seen: set<Id>): Option<nat>
    decreases folders.Keys - seen
  {
    if id !in folders then Some(0)
    else if id in seen then None
    else match folders[id].parentFolderId
      case None => Some(1)
      case Some(p) =>
        match ChainLength(folders, p, seen + {id})
        case None => None
        case Some(n) => Some(n + 1)
  }

  /** Every parent chain ends: no folder is its own ancestor. */
  predicate Acyclic(folders: map<Id, Folder>) {
    forall id :: id in folders ==> ChainLength(folders, id, {}).Some?
  }

  /** How many stored folders the parent chain from `id` holds (0 for an id that
      is not stored). */
  function Depth(folders: map<Id, Folder>, id: Id): nat {
    match ChainLength(folders, id, {})
    case Some(n) => n
    case None => 0
  }

  /** The length of a chain does not depend on which already-visited folders the
      walk is told to watch for, once it is known to end. */
  lemma {:induction false} ChainSeenShrink(folders: map<Id, Folder>, id: Id, seen: set<Id>, fewer: set<Id>)
    requires fewer <= seen
    requires ChainLength(folders, id, seen).Some?
    ensures ChainLength(folders, id, fewer) == ChainLength(folders, id, seen)
    decreases folders.Keys - seen
  {
    if id in folders && folders[id].parentFolderId.Some? {
      ChainSeenShrink(folders, folders[id].parentFolderId.value, seen + {id}, fewer + {id});
    }
  }

  /** A chain that ends visits each stored folder at most once. */
  lemma {:induction false} ChainBound(folders: map<Id, Folder>, id: Id, seen: set<Id>)
    requires ChainLength(folders, id, seen).Some?
    ensures ChainLength(folders, id, seen).value <= |folders.Keys - seen|
    decreases folders.Keys - seen
  {
    if id in folders {
      assert id in folders.Keys - seen;
      if folders[id].parentFolderId.Some? {
        ChainBound(folders, folders[id].parentFolderId.value, seen + {id});
        assert folders.Keys - (seen + {id}) == (folders.Keys - seen) - {id};
      }
    }
  }

  /** A stored folder is one level deeper than its parent, and no deeper than
      the number of stored folders. */
  lemma DepthOfChild(folders: map<Id, Folder>, c: Id)
    requires Acyclic(folders)
    requires c in folders && folders[c].parentFolderId.Some?
    ensures Depth(folders, c) == Depth(folders, folders[c].parentFolderId.value) + 1
    ensures Depth(folders, c) <= |folders.Keys|
  {
    var p := folders[c].parentFolderId.value;
    assert ChainLength(folders, c, {}).Some?;
    assert {} + {c} == {c};
    assert ChainLength(folders, p, {c}).Some?;
    ChainSeenShrink(folders, p, {c}, {});
    ChainBound(folders, c, {});
  }

  /** A stored folder's chain holds at least the folder itself. */
  lemma DepthOfStored(folders: map<Id, Folder>, x: Id)
    requires Acyclic(folders) && x in folders
    ensures 1 <= Depth(folders, x) <= |folders.Keys|
  {
    ChainBound(folders, x, {});
  }

  /** `x` lies in the subtree `getAllSubfolderIds(root, owner)` enumerates: it is
      `root` itself, or a folder of `owner` whose parent lies in that subtree.
      Read upwards, this is the child edge `Folder.find({parentFolderId, telegramId})`
      follows downwards. */
  ghost predicate InSubtree(folders: map<Id, Folder>, owner: int, root: Id, x: Id)
    requires Acyclic(folders)
    decreases Depth(folders, x)
  {
    if x == root then true
    else if x in folders && folders[x].telegramId == owner && folders[x].parentFolderId.Some? then
      DepthOfChild(folders, x);
      InSubtree(folders, owner, root, folders[x].parentFolderId.value)
    else false
  }

  /** Everything in the subtree of `root` lies at least as deep as `root`. */
  lemma {:induction false} SubtreeDepth(folders: map<Id, Folder>, owner: int, root: Id, x: Id)
    requires Acyclic(folders) && InSubtree(folders, owner, root, x)
    ensures Depth(folders, x) >= Depth(folders, root)
    ensures x != root ==> x in folders && Depth(folders, x) > Depth(folders, root)
    decreases Depth(folders, x)
  {
    if x != root {
      var p := folders[x].parentFolderId.value;
      DepthOfChild(folders, x);
      SubtreeDepth(folders, owner, root, p);
    }
  }

  /** The child of `root` through which `x` is reached. */
  ghost function TopChild(folders: map<Id, Folder>, owner: int, root: Id, x: Id): Id
    requires Acyclic(folders) && InSubtree(folders, owner, root, x) && x != root
    decreases Depth(folders, x)
  {
    var p := folders[x].parentFolderId.value;
    if p == root then x
    else
      DepthOfChild(folders, x);
      TopChild(folders, owner, root, p)
  }

  /** `c` is one of the children `Folder.find({parentFolderId: root, telegramId: owner})` returns. */
  predicate IsChild(folders: map<Id, Folder>, owner: int, root: Id, c: Id) {
    c in folders && folders[c].telegramId == owner && folders[c].parentFolderId == Some(root)
  }

  /** What lies below `root` other than `root` lies below exactly one child of
      `root`: its top child. */
  lemma {:induction false} TopChildFacts(folders: map<Id, Folder>, owner: int, root: Id, x: Id)
    requires Acyclic(folders) && InSubtree(folders, owner, root, x) && x != root
    ensures IsChild(folders, owner, root, TopChild(folders, owner, root, x))
    ensures InSubtree(folders, owner, TopChild(folders, owner, root, x), x)
    decreases Depth(folders, x)
  {
    var p := folders[x].parentFolderId.value;
    if p != root {
      DepthOfChild(folders, x);
      TopChildFacts(folders, owner, root, p);
    }
  }

  /** Conversely, the subtree of a child `c` of `root` lies below `root`, never
      reaches back to `root`, and has `c` as its top child. */
  lemma {:induction false} SubtreeOfChild(folders: map<Id, Folder>, owner: int, root: Id, c: Id, x: Id)
    requires Acyclic(folders) && IsChild(folders, owner, root, c)
    requires InSubtree(folders, owner, c, x)
    ensures InSubtree(folders, owner, root, x) && x != root
    ensures TopChild(folders, owner, root, x) == c
    decreases Depth(folders, x)
  {
    DepthOfChild(folders, c);
    SubtreeDepth(folders, owner, c, x);
    if x != c {
      var p := folders[x].parentFolderId.value;
      DepthOfChild(folders, x);
      SubtreeOfChild(folders, owner, root, c, p);
    }
  }

  /** The folders below `root` (with `root` itself when it is stored). */
  ghost function SubtreeFolders(folders: map<Id, Folder>, owner: int, root: Id): set<Id>
    requires Acyclic(folders)
  {
    set x | x in folders && InSubtree(folders, owner, root, x)
  }

  /** The files of `owner` held directly in a folder below `root` (or in `root`). */
  ghost function SubtreeFiles(folders: map<Id, Folder>, files: map<Id, FileRecord>, owner: int, root: Id): set<Id>
    requires Acyclic(folders)
  {
    set f | f in files && files[f].telegramId == owner && files[f].folderId.Some?
                       && InSubtree(folders, owner, root, files[f].folderId.value)
  }

  /** The dashboard's folder query `Folder.find({telegramId, parentFolderId})`. */
  function ChildFolders(folders: map<Id, Folder>, owner: int, parent: Option<Id>): set<Id> {
    set c | c in folders && folders[c].telegramId == owner && folders[c].parentFolderId == parent
  }

  /** The dashboard's file query: `{telegramId, folderId}` and, when the `type`
      query parameter is non-empty, `fileType` equal to it. */
  function FilesIn(files: map<Id, FileRecord>, owner: int, folder: Option<Id>, fileType: Option<string>): set<Id> {
    set f | f in files && files[f].telegramId == owner && files[f].folderId == folder
                       && (Truthy(fileType) ==> files[f].fileType == fileType.value)
  }

  /** What the dashboard lists inside a folder `p` of the subtree of `root` lies
      one level below `p` and inside that subtree: it is exactly what a hard delete
      of `root` takes away with it. */
  lemma ListingInsideSubtree(folders: map<Id, Folder>, files: map<Id, FileRecord>, owner: int,
                             root: Id, p: Id, fileType: Option<string>)
    requires Acyclic(folders) && InSubtree(folders, owner, root, p)
    ensures forall c :: c in ChildFolders(folders, owner, Some(p)) ==>
      c in SubtreeFolders(folders, owner, root) && Depth(folders, c) == Depth(folders, p) + 1
    ensures FilesIn(files, owner, Some(p), fileType) <= SubtreeFiles(folders, files, owner, root)
  {
    forall c | c in ChildFolders(folders, owner, Some(p))
      ensures c in SubtreeFolders(folders, owner, root) && Depth(folders, c) == Depth(folders, p) + 1
    {
      DepthOfChild(folders, c);
      assert InSubtree(folders, owner, root, c);
    }
  }

  /** `path` is what `buildBreadcrumb` yields for the folder `last`: stored
      folders, each the parent of the next, ending at `last` and starting at a
      folder whose parent is null or not found. */
  predicate IsBreadcrumb(folders: map<Id, Folder>, path: seq<Id>, last: Id) {
    && |path| > 0
    && path[|path| - 1] == last
    && (forall i :: 0 <= i < |path| ==> path[i] in folders)
    && (forall i :: 0 < i < |path| ==> folders[path[i]].parentFolderId == Some(path[i - 1]))
    && (folders[path[0]].parentFolderId.None? || folders[path[0]].parentFolderId.value !in folders)
  }

  /** A folder has one breadcrumb: its whole parent chain, as long as its depth. */
  lemma {:induction false} BreadcrumbUnique(folders: map<Id, Folder>, path: seq<Id>, other: seq<Id>, last: Id)
    requires Acyclic(folders)
    requires IsBreadcrumb(folders, path, last) && IsBreadcrumb(folders, other, last)
    ensures path == other
    ensures |path| == Depth(folders, last)
    decreases |path|
  {
    var parent := folders[last].parentFolderId;
    if parent.Some? {
      DepthOfChild(folders, last);
    } else {
      assert ChainLength(folders, last, {}) == Some(1);
    }
    assert |path| > 1 ==> parent == Some(path[|path| - 2]) && path[|path| - 2] in folders;
    assert |other| > 1 ==> parent == Some(other[|other| - 2]) && other[|other| - 2] in folders;
    if |path| > 1 && |other| > 1 {
      var p := parent.value;
      assert path[|path| - 2] == p && other[|other| - 2] == p;
      BreadcrumbUnique(folders, path[..|path| - 1], other[..|other| - 1], p);
      assert path == path[..|path| - 1] + [last];
      assert other == other[..|other| - 1] + [last];
    }
  }

  /** Walking a chain in a sub-map of the folders ends whenever it ends in the
      full map. */
  lemma {:induction false} ChainOfSubmap(folders: map<Id, Folder>, smaller: map<Id, Folder>, id: Id, seen: set<Id>)
    requires forall x :: x in smaller ==> x in folders && smaller[x] == folders[x]
    requires ChainLength(folders, id, seen).Some?
    ensures ChainLength(smaller, id, seen).Some?
    decreases folders.Keys - seen
  {
    if id in smaller && smaller[id].parentFolderId.Some? {
      ChainOfSubmap(folders, smaller, smaller[id].parentFolderId.value, seen + {id});
    }
  }

  /** Deleting folders cannot create a cycle. */
  lemma AcyclicAfterRemoval(folders: map<Id, Folder>, removed: set<Id>)
    requires Acyclic(folders)
    ensures Acyclic(folders - removed)
  {
    forall id | id in folders - removed
      ensures ChainLength(folders - removed, id, {}).Some?
    {
      ChainOfSubmap(folders, folders - removed, id, {});
    }
  }
}
