/** The database as the web routes of app.js see it, and the routes that read
    and change the folder/file hierarchy. Each handler is one sequential
    transaction over the store; a `find`, `updateMany` or `deleteMany` is one
    operation on a map. The Telegram `deleteMessage` call is an oracle: `refused`
    holds the files whose Telegram message cannot be deleted. */
module Storage {
  import opened Records
  import opened Hierarchy

  /** What a route answers. */
  datatype Reply =
    | Redirect(location: string)
    | Status(code: nat)   // an error status with an empty or one-line body
    | Success             // `res.json({ success: true })`
    | DeleteRefused       // 200 with "Unable to delete file. Telegram may restrict older messages."

  /** What the dashboard renders, or where it sends the user instead. */
  datatype Page =
    | PageRedirect(location: string)
    | Listing(folders: set<Id>, files: set<Id>, currentFolder: Option<Id>, breadcrumb: seq<Id>)

  /** The unique index on `username`. */
  predicate UniqueUsernames(users: seq<User>) {
    forall i, j :: 0 <= i < j < |users| ==> users[i].username != users[j].username
  }

  class Store {
    var folders: map<Id, Folder>
    var files: map<Id, FileRecord>
    /** Users in the collection's natural order, the order `findOne` scans. */
    var users: seq<User>

    ghost predicate Valid()
      reads this
    {
      Acyclic(folders) && UniqueUsernames(users)
    }

    constructor ()
      ensures Valid()
      ensures folders == map[] && files == map[] && users == []
    {
      folders, files, users := map[], map[], [];
    }

    /** `getAllSubfolderIds(root, owner)`: `root` first, then, child by child,
        each child's own enumeration. Every id appears once, and the ids are
        exactly the subtree of `root`: `root` itself, whoever owns it, and the
        folders of `owner` reached from it by child edges. */
    method SubfolderIds(root: Id, owner: int) returns (ids: seq<Id>)
      requires Valid()
      ensures |ids| > 0 && ids[0] == root
      ensures Distinct(ids)
      ensures forall x :: x in ids <==> InSubtree(folders, owner, root, x)
      ensures forall i :: 0 < i < |ids| ==> ids[i] in folders && folders[ids[i]].telegramId == owner
      decreases |folders.Keys| - Depth(folders, root)
    {
      ids := [root];
      var children := set c | c in folders && IsChild(folders, owner, root, c);
      var pending := children;
      ghost var done: set<Id> := {};
      while pending != {}
        invariant pending <= children && done == children - pending
        invariant |ids| > 0 && ids[0] == root && Distinct(ids)
        invariant forall x :: x in ids <==>
          x == root || (InSubtree(folders, owner, root, x) && x != root && TopChild(folders, owner, root, x) in done)
        decreases pending
      {
        var child :| child in pending;
        DepthOfChild(folders, child);
        var childIds := SubfolderIds(child, owner);
        forall x | x in childIds
          ensures InSubtree(folders, owner, root, x) && x != root && TopChild(folders, owner, root, x) == child
        {
          SubtreeOfChild(folders, owner, root, child, x);
        }
        forall x | InSubtree(folders, owner, root, x) && x != root && TopChild(folders, owner, root, x) == child
          ensures x in childIds
        {
          TopChildFacts(folders, owner, root, x);
        }
        DistinctConcat(ids, childIds);
        ids := ids + childIds;
        pending := pending - {child};
        done := done + {child};
      }
      forall x | InSubtree(folders, owner, root, x) && x != root
        ensures TopChild(folders, owner, root, x) in done
      {
        TopChildFacts(folders, owner, root, x);
      }
      forall i | 0 < i < |ids|
        ensures ids[i] in folders && folders[ids[i]].telegramId == owner
      {
        assert ids[i] != ids[0] && ids[i] in ids;
        assert InSubtree(folders, owner, root, ids[i]);
      }
    }

    /** `buildBreadcrumb(folder)`: walk parent links with `findById` (no owner
        filter), putting each folder in front, until the parent is null or not
        found. */
    method BuildBreadcrumb(start: Id) returns (path: seq<Id>)
      requires Valid() && start in folders
      ensures IsBreadcrumb(folders, path, start)
    {
      path := [];
      var folder: Option<Id> := Some(start);
      while folder.Some?
        invariant folder.Some? ==> folder.value in folders
        invariant path == [] ==> folder == Some(start)
        invariant path != [] ==> path[|path| - 1] == start
        invariant forall i :: 0 <= i < |path| ==> path[i] in folders
        invariant forall i :: 0 < i < |path| ==> folders[path[i]].parentFolderId == Some(path[i - 1])
        invariant path != [] && folder.Some? ==> folders[path[0]].parentFolderId == folder
        invariant path != [] && folder.None? ==>
          folders[path[0]].parentFolderId.None? || folders[path[0]].parentFolderId.value !in folders
        decreases if folder.Some? then Depth(folders, folder.value) else 0
      {
        var id := folder.value;
        DepthOfStored(folders, id);
        path := [id] + path;
        var parent := folders[id].parentFolderId;
        if parent.Some? {
          DepthOfChild(folders, id);
        }
        folder := if parent.Some? && parent.value in folders then parent else None;
      }
    }

    /** `GET /dashboard/:folderId?`: the caller's folders and files directly in
        the requested folder (the root when absent), optionally of one file type,
        with the breadcrumb of that folder when it is the caller's. */
    method Dashboard(user: User, folderId: Option<Id>, fileType: Option<string>) returns (page: Page)
      requires Valid()
      ensures !user.telegramVerified ==> page == PageRedirect("/")
      ensures user.telegramVerified && !Linked(user.telegramId) ==> page == PageRedirect("/profile")
      ensures user.telegramVerified && Linked(user.telegramId) ==>
        var t := user.telegramId.value;
        && page.Listing?
        && page.folders == ChildFolders(folders, t, folderId)
        && page.files == FilesIn(files, t, folderId, fileType)
        && page.currentFolder ==
             (if folderId.Some? && folderId.value in folders && folders[folderId.value].telegramId == t
              then folderId else None)
        && (page.currentFolder.None? ==> page.breadcrumb == [])
        && (page.currentFolder.Some? ==> IsBreadcrumb(folders, page.breadcrumb, folderId.value))
    {
      if !user.telegramVerified {
        return PageRedirect("/");
      }
      if !Linked(user.telegramId) {
        return PageRedirect("/profile");
      }
      var t := user.telegramId.value;
      var current :=
        if folderId.Some? && folderId.value in folders && folders[folderId.value].telegramId == t
        then folderId else None;
      var breadcrumb := [];
      if current.Some? {
        breadcrumb := BuildBreadcrumb(current.value);
      }
      page := Listing(ChildFolders(folders, t, folderId), FilesIn(files, t, folderId, fileType), current, breadcrumb);
    }

    /** `POST /file/:id/move`: the caller's own file moves to `target` (null when
        the body names none); the target folder is neither looked up nor checked
        for ownership. */
    method MoveFile(caller: Option<int>, id: Id, target: Option<Id>) returns (reply: Reply)
      requires Valid()
      modifies this`files
      ensures Valid()
      ensures !Linked(caller) ==> reply == Status(401) && files == old(files)
      ensures Linked(caller) && id !in old(files) ==> reply == Status(404) && files == old(files)
      ensures Linked(caller) && id in old(files) && old(files)[id].telegramId != caller.value ==>
        reply == Status(403) && files == old(files)
      ensures Linked(caller) && id in old(files) && old(files)[id].telegramId == caller.value ==>
        reply == Success && files == old(files)[id := old(files)[id].(folderId := target)]
    {
      if !Linked(caller) {
        return Status(401);
      }
      if id !in files {
        return Status(404);
      }
      if files[id].telegramId != caller.value {
        return Status(403);
      }
      files := files[id := files[id].(folderId := target)];
      reply := Success;
    }

    /** `POST /files/bulk-move`: one `updateMany` over the listed ids that belong
        to `Number(req.user.telegramId)`; no linked-account check, and success
        whatever matched. */
    method BulkMove(caller: Option<int>, ids: set<Id>, target: Option<Id>) returns (reply: Reply)
      requires Valid()
      modifies this`files
      ensures Valid()
      ensures reply == Success
      ensures files.Keys == old(files).Keys
      ensures forall f :: f in files ==>
        files[f] == if f in ids && old(files)[f].telegramId == AsNumber(caller)
                    then old(files)[f].(folderId := target) else old(files)[f]
    {
      var t := AsNumber(caller);
      files := map f | f in files :: if f in ids && files[f].telegramId == t then files[f].(folderId := target) else files[f];
      reply := Success;
    }

    /** `POST /file/:id/delete`: the caller's own file loses its record only once
        its Telegram message is gone; a refused remote delete keeps the record. */
    method DeleteFile(caller: Option<int>, id: Id, refused: set<Id>) returns (reply: Reply)
      requires Valid()
      modifies this`files
      ensures Valid()
      ensures !Linked(caller) ==> reply == Redirect("/") && files == old(files)
      ensures Linked(caller) && id !in old(files) ==> reply == Status(404) && files == old(files)
      ensures Linked(caller) && id in old(files) && old(files)[id].telegramId != caller.value ==>
        reply == Status(403) && files == old(files)
      ensures Linked(caller) && id in old(files) && old(files)[id].telegramId == caller.value ==>
        if id in refused then reply == DeleteRefused && files == old(files)
        else reply == Redirect("/dashboard") && files == old(files) - {id}
    {
      if !Linked(caller) {
        return Redirect("/");
      }
      if id !in files {
        return Status(404);
      }
      if files[id].telegramId != caller.value {
        return Status(403);
      }
      if id in refused {
        return DeleteRefused;
      }
      files := files - {id};
      reply := Redirect("/dashboard");
    }

    /** `POST /files/bulk-delete`: each listed file of `Number(req.user.telegramId)`
        is deleted remotely and then its record removed; a file whose remote
        delete fails is skipped, and the answer is success regardless. */
    method BulkDelete(caller: Option<int>, ids: set<Id>, refused: set<Id>) returns (reply: Reply)
      requires Valid()
      modifies this`files
      ensures Valid()
      ensures reply == Success
      ensures files == old(files) - (set f | f in old(files) && f in ids && old(files)[f].telegramId == AsNumber(caller) && f !in refused)
    {
      var t := AsNumber(caller);
      var found := set f | f in files && f in ids && files[f].telegramId == t;
      var pending := found;
      while pending != {}
        invariant pending <= found
        invariant files == old(files) - ((found - pending) - refused)
        decreases pending
      {
        var f :| f in pending;
        if f !in refused {
          files := files - {f};
        }
        pending := pending - {f};
      }
      reply := Success;
    }

    /** `POST /folder/:id/delete-hard`: for the caller's own folder, every file
        of the caller in its subtree and every folder of the subtree are removed.
        Remote deletes are tried first, and a refusal is only logged:
        `stillOnTelegram` is the set of removed files whose messages stay. */
    method DeleteFolderHard(caller: Option<int>, id: Id, refused: set<Id>) returns (reply: Reply, stillOnTelegram: set<Id>)
      requires Valid()
      modifies this`folders, this`files
      ensures Valid()
      ensures !Linked(caller) ==>
        reply == Redirect("/") && stillOnTelegram == {} && folders == old(folders) && files == old(files)
      ensures Linked(caller) && (id !in old(folders) || old(folders)[id].telegramId != caller.value) ==>
        reply == Status(403) && stillOnTelegram == {} && folders == old(folders) && files == old(files)
      ensures Linked(caller) && id in old(folders) && old(folders)[id].telegramId == caller.value ==>
        && reply == Redirect("/dashboard")
        && folders == old(folders) - SubtreeFolders(old(folders), caller.value, id)
        && files == old(files) - SubtreeFiles(old(folders), old(files), caller.value, id)
        && stillOnTelegram == SubtreeFiles(old(folders), old(files), caller.value, id) * refused
      ensures reply == Redirect("/dashboard") ==>
        && (forall x :: x in folders && folders[x].telegramId == caller.value && folders[x].parentFolderId.Some? ==>
              folders[x].parentFolderId.value !in SubtreeFolders(old(folders), caller.value, id))
        && (forall f :: f in files && files[f].telegramId == caller.value && files[f].folderId.Some? ==>
              files[f].folderId.value !in SubtreeFolders(old(folders), caller.value, id))
    {
      if !Linked(caller) {
        return Redirect("/"), {};
      }
      var t := caller.value;
      if id !in folders || folders[id].telegramId != t {
        return Status(403), {};
      }
      var folderIds := SubfolderIds(id, t);
      var inTree := set x | x in folderIds;
      var doomed := set f | f in files && files[f].telegramId == t && files[f].folderId.Some?
                                      && files[f].folderId.value in inTree;
      stillOnTelegram := {};
      var pending := doomed;
      while pending != {}
        invariant pending <= doomed
        invariant stillOnTelegram == (doomed - pending) * refused
        decreases pending
      {
        var f :| f in pending;
        if f in refused {
          stillOnTelegram := stillOnTelegram + {f};
        }
        pending := pending - {f};
      }
      ghost var subtree := SubtreeFolders(folders, t, id);
      var removed := set x | x in inTree && x in folders && folders[x].telegramId == t;
      assert removed == subtree;
      assert doomed == SubtreeFiles(folders, files, t, id);
      AcyclicAfterRemoval(folders, removed);
      files := files - doomed;
      folders := folders - removed;
      reply := Redirect("/dashboard");
    }
  }
}
