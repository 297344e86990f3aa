/**
  The snapshot resolver of `merge.c`. A backup is a tree of snapshot
  directories; each directory holds a manifest (`.cebeq`) whose `files` map
  records, per file name, a modification time (or -1 for a deletion), whose
  `dirs` map lists the subdirectories, and whose `parent` names the same
  directory in the previous snapshot. Merging copies, for every name, the
  newest surviving version into a destination tree.

  The file system is abstract: the source tree is a sequence of directory
  levels found by path, the destination a set of directories and a map from
  each copied file to the source file it was copied from.
*/
module Merge {
  import opened CsonValue

  /** `INFO_FILE`: the manifest's own name, never copied. */
  const InfoFile: string := ".cebeq"

  /* ---------- The source tree ---------- */

  /** What `flib_get_entry` reports: a regular file, a directory or anything else. */
  datatype EntryKind = File | Directory | Other

  datatype Entry = Entry(name: string, kind: EntryKind)

  /**
    One directory of the backup: its path, its listing in `readdir` order
    (without `.` and `..`), and its manifest as `cson_read` returns it
    (None when it is missing or does not parse).
  */
  datatype Level = Level(path: string, entries: seq<Entry>, info: Option<Value>)

  /** `cwk_path_join` of a directory and a name. */
  function Join(dir: string, name: string): string
  {
    dir + "/" + name
  }

  /** `p` is `root` itself or lies below it. */
  predicate Under(p: string, root: string)
  {
    p == root || root + "/" <= p
  }

  /** `opendir`: the first level with that path, if any. */
  function Find(fs: seq<Level>, path: string): (r: Option<nat>)
    ensures r.Some? ==> r.value < |fs| && fs[r.value].path == path
    ensures r.None? ==> forall i :: 0 <= i < |fs| ==> fs[i].path != path
  {
    FindFrom(fs, path, 0)
  }

  function FindFrom(fs: seq<Level>, path: string, from: nat): (r: Option<nat>)
    ensures r.Some? ==> from <= r.value < |fs| && fs[r.value].path == path
    ensures r.None? ==> forall i :: from <= i < |fs| ==> fs[i].path != path
    decreases |fs| - from
  {
    if from >= |fs| then None
    else if fs[from].path == path then Some(from)
    else FindFrom(fs, path, from + 1)
  }

  /**
    `cson_get_cstring(info, key("parent"))`: the text of the string the path
    lookup reaches, NULL when it fails or reaches anything else.
  */
  function ParentOf(info: Value): (r: Option<string>)
    ensures r.Some? <==> Walk(info, [Key("parent")]).Found? && Walk(info, [Key("parent")]).value.Str?
    ensures r.Some? ==> r.value == CString(Walk(info, [Key("parent")]).value.s)
  {
    var p := Lookup(info, "parent");
    if p.Some? && p.value.Str? then Some(CString(p.value.s)) else None
  }

  /** The level at `path` comes after level `i`, or does not exist. */
  predicate After(fs: seq<Level>, path: string, i: nat)
  {
    Find(fs, path).None? || Find(fs, path).value > i
  }

  /** The level at `path` comes before level `i`, or does not exist. */
  predicate Before(fs: seq<Level>, path: string, i: nat)
  {
    Find(fs, path).None? || Find(fs, path).value < i
  }

  /**
    Subdirectories come after their directory and parents before their
    snapshot: the tree and the parent chains are finite, so every walk ends.
  */
  predicate Ordered(fs: seq<Level>)
  {
    forall i :: 0 <= i < |fs| ==> LevelOrdered(fs, i)
  }

  predicate LevelOrdered(fs: seq<Level>, i: nat)
    requires i < |fs|
  {
    && (forall e :: e in fs[i].entries && e.kind == Directory ==> After(fs, Join(fs[i].path, e.name), i))
    && (fs[i].info.Some? && ParentOf(fs[i].info.value).Some? ==> Before(fs, ParentOf(fs[i].info.value).value, i))
  }

  /** Directory entries name no path separator and no two entries of a level share a name. */
  predicate WellNamed(fs: seq<Level>)
  {
    forall i :: 0 <= i < |fs| ==> NamesDistinct(fs[i].entries)
  }

  predicate NamesDistinct(es: seq<Entry>)
  {
    && (forall k :: 0 <= k < |es| ==> '/' !in es[k].name)
    && (forall k, l :: 0 <= k < l < |es| ==> es[k].name != es[l].name)
  }

  /* ---------- The destination tree ---------- */

  /** The destination: its directories, and each copied file with its source. */
  datatype Tree = Tree(dirs: set<string>, files: map<string, string>)

  /** `flib_create_dir`: `mkdir` fails when something already exists there. */
  function CreateDir(t: Tree, p: string): (r: (bool, Tree))
    ensures r.0 <==> p !in t.dirs && p !in t.files
    ensures r.1.files == t.files
    ensures r.1.dirs == if r.0 then t.dirs + {p} else t.dirs
  {
    if p in t.dirs || p in t.files then (false, t) else (true, t.(dirs := t.dirs + {p}))
  }

  /** `copy_file`: the file at `to` is now a copy of `from`. */
  function CopyFile(t: Tree, from: string, to: string): (r: Tree)
    ensures r.dirs == t.dirs && to in r.files && r.files[to] == from
    ensures forall p :: p != to ==> (p in r.files <==> p in t.files)
    ensures forall p :: p != to && p in t.files ==> r.files[p] == t.files[p]
  {
    t.(files := t.files[to := from])
  }

  /** `flib_delete_dir`: `p` and everything below it are gone. */
  function DeleteDir(t: Tree, p: string): (r: Tree)
    ensures forall d :: d in r.dirs <==> d in t.dirs && !Under(d, p)
    ensures forall f :: f in r.files <==> f in t.files && !Under(f, p)
    ensures forall f :: f in r.files ==> r.files[f] == t.files[f]
  {
    Tree(set d | d in t.dirs && !Under(d, p), map f | f in t.files && !Under(f, p) :: t.files[f])
  }

  /* ---------- The walk along the parent chain (`merge_rec`) ---------- */

  /** Where a loop over a directory stands: still going, the unresolved map, the destination. */
  datatype Scan = Scan(ok: bool, files: Value, tree: Tree)

  /** What a merge call returns, with the destination it leaves behind. */
  datatype Status = Status(code: int, tree: Tree)

  /**
    One pass of the loop of `merge_rec` at an ancestor `src`: a present file
    still unresolved is copied if its time is positive and is resolved either
    way; a present directory only has to be listed.
  */
  function AncestorStep(src: string, dest: string, files: Value, dirs: Value, t: Tree, e: Entry): Scan
  {
    match e.kind
    case File =>
      if e.name == InfoFile || Lookup(files, e.name).None? then Scan(true, files, t)
      else
        var t' := if IntOf(Lookup(files, e.name)) > 0 then CopyFile(t, Join(src, e.name), Join(dest, e.name)) else t;
        Scan(true, RemoveKey(files, e.name).0, t')
    case Directory =>
      Scan(Lookup(dirs, e.name).Some?, files, t)
    case Other =>
      Scan(true, files, t)
  }

  /** The loop of `merge_rec` over entries `k ..`; it stops at the first failing pass. */
  function AncestorScan(src: string, es: seq<Entry>, k: nat, dest: string, files: Value, dirs: Value, t: Tree): Scan
    decreases |es| - k
  {
    if k >= |es| then Scan(true, files, t)
    else
      var s := AncestorStep(src, dest, files, dirs, t, es[k]);
      if !s.ok then s else AncestorScan(src, es, k + 1, dest, s.files, dirs, s.tree)
  }

  /** A decreasing measure for the parent chain. */
  function ChainRank(fs: seq<Level>, src: string): nat
  {
    if Find(fs, src).Some? then Find(fs, src).value + 1 else 0
  }

  /**
    `merge_rec`: resolve the names of `files` against the snapshot at `src`
    and then its parents. NULL `files` or `dirs` are taken from the level's
    own manifest. At the end of the chain, any name left over is an error.
  */
  function Rec(fs: seq<Level>, src: string, dest: string, files: Option<Value>, dirs: Option<Value>, t: Tree): Status
    requires Ordered(fs)
    decreases ChainRank(fs, src)
  {
    match Find(fs, src)
    case None => Status(1, t)
    case Some(i) =>
      if dest !in t.dirs || fs[i].info.None? then Status(1, t)
      else
        var info := fs[i].info.value;
        var fs' := if files.Some? then files else Lookup(info, "files");
        var ds' := if dirs.Some? then dirs else Lookup(info, "dirs");
        if fs'.None? || ds'.None? then Status(1, t)
        else
          var s := AncestorScan(src, fs[i].entries, 0, dest, fs'.value, ds'.value, t);
          if !s.ok then Status(1, s.tree)
          else
            match ParentOf(info)
            case None => Status(if Len(s.files) > 0 then 1 else 0, s.tree)
            case Some(p) =>
              assert LevelOrdered(fs, i);
              Rec(fs, p, dest, Some(s.files), Some(ds'.value), s.tree)
  }

  /* ---------- One snapshot directory (`merge_root`) ---------- */

  function RootRank(fs: seq<Level>, src: string): nat
  {
    if Find(fs, src).Some? then |fs| - Find(fs, src).value else 0
  }

  /**
    `merge_root`: copy every listed file of the snapshot directory at `src`,
    merge each listed subdirectory into a destination directory of its own,
    then walk the parent chain for the names still unresolved. The walk's
    result and a subdirectory's failure do not change the result.
  */
  function Root(fs: seq<Level>, src: string, dest: string, t: Tree): Status
    requires Ordered(fs)
    decreases RootRank(fs, src), 1, 0
  {
    match Find(fs, src)
    case None => Status(1, t)
    case Some(i) =>
      if dest !in t.dirs || fs[i].info.None? then Status(1, t)
      else
        var info := fs[i].info.value;
        var files := Lookup(info, "files");
        var dirs := Lookup(info, "dirs");
        if files.None? || dirs.None? then Status(1, t)
        else
          var s := RootScan(fs, i, 0, dest, files.value, dirs.value, t);
          if !s.ok then Status(1, s.tree)
          else if ParentOf(info).None? then Status(0, s.tree)
          else Status(0, Rec(fs, ParentOf(info).value, dest, Some(s.files), dirs, s.tree).tree)
  }

  /** The loop of `merge_root` over entries `k ..` of level `i`. */
  function RootScan(fs: seq<Level>, i: nat, k: nat, dest: string, files: Value, dirs: Value, t: Tree): Scan
    requires Ordered(fs) && i < |fs|
    decreases |fs| - i, 0, |fs[i].entries| - k
  {
    var es := fs[i].entries;
    if k >= |es| then Scan(true, files, t)
    else
      var e, src := es[k], fs[i].path;
      var to := Join(dest, e.name);
      match e.kind
      case File =>
        if e.name == InfoFile then RootScan(fs, i, k + 1, dest, files, dirs, t)
        else if Lookup(files, e.name).None? then Scan(false, files, t)
        else RootScan(fs, i, k + 1, dest, RemoveKey(files, e.name).0, dirs, CopyFile(t, Join(src, e.name), to))
      case Directory =>
        if Lookup(dirs, e.name).None? then Scan(false, files, t)
        else if to !in t.dirs && !CreateDir(t, to).0 then RootScan(fs, i, k + 1, dest, files, dirs, t)
        else
          var t1 := if to in t.dirs then t else CreateDir(t, to).1;
          assert e in es && LevelOrdered(fs, i);
          RootScan(fs, i, k + 1, dest, files, dirs, Root(fs, Join(src, e.name), to, t1).tree)
      case Other => RootScan(fs, i, k + 1, dest, files, dirs, t)
  }

  /* ---------- The whole backup (`merge`) ---------- */

  /**
    `merge`: every directory of the backup at `src` is a snapshot root; each
    gets a fresh destination directory, which is deleted again, ending the
    merge, when its root fails.
  */
  function MergeAll(fs: seq<Level>, src: string, dest: string, t: Tree): Status
    requires Ordered(fs)
  {
    match Find(fs, src)
    case None => Status(1, t)
    case Some(i) =>
      if dest !in t.dirs then Status(1, t)
      else MergeScan(fs, fs[i].path, fs[i].entries, 0, dest, t)
  }

  /** The loop of `merge` over entries `k ..`. */
  function MergeScan(fs: seq<Level>, src: string, es: seq<Entry>, k: nat, dest: string, t: Tree): Status
    requires Ordered(fs)
    decreases |es| - k
  {
    if k >= |es| then Status(0, t)
    else if es[k].kind != Directory then MergeScan(fs, src, es, k + 1, dest, t)
    else
      var to := Join(dest, es[k].name);
      var made := CreateDir(t, to);
      if !made.0 then Status(1, t)
      else
        var r := Root(fs, Join(src, es[k].name), to, made.1);
        if r.code == 1 then Status(1, DeleteDir(r.tree, to))
        else MergeScan(fs, src, es, k + 1, dest, r.tree)
  }

  /* ---------- The resolver on a live destination ---------- */

  /** The destination directory tree, changed in place by the merge. */
  class DestTree {
    var dirs: set<string>
    var files: map<string, string>

    function State(): Tree
      reads this
    {
      Tree(dirs, files)
    }

    /** An empty destination directory at `root`. */
    constructor (root: string)
      ensures State() == Tree({root}, map[])
    {
      dirs := {root};
      files := map[];
    }

    /** `flib_isdir`. */
    method IsDir(p: string) returns (b: bool)
      ensures b <==> p in State().dirs
    {
      b := p in dirs;
    }

    /** `flib_create_dir`. */
    method CreateDirectory(p: string) returns (ok: bool)
      modifies this
      ensures (ok, State()) == CreateDir(old(State()), p)
    {
      ok := p !in dirs && p !in files;
      if ok {
        dirs := dirs + {p};
      }
    }

    /** `copy_file`; its result is ignored by every caller. */
    method Copy(from: string, to: string)
      modifies this
      ensures State() == CopyFile(old(State()), from, to)
    {
      files := files[to := from];
    }

    /** `flib_delete_dir`. */
    method DeleteDirectory(p: string)
      modifies this
      ensures State() == DeleteDir(old(State()), p)
    {
      dirs := set d | d in dirs && !Under(d, p);
      files := map f | f in files && !Under(f, p) :: files[f];
    }
  }

  /** `merge_rec`: the loop over one ancestor's listing, then the next ancestor. */
  method MergeRec(fs: seq<Level>, src: string, dest: string, files: Option<Value>, dirs: Option<Value>, tree: DestTree)
    returns (result: int)
    requires Ordered(fs)
    modifies tree
    ensures Status(result, tree.State()) == Rec(fs, src, dest, files, dirs, old(tree.State()))
    decreases ChainRank(fs, src)
  {
    var found := Find(fs, src);
    if found.None? {
      return 1;
    }
    var destIsDir := tree.IsDir(dest);
    if !destIsDir {
      return 1;
    }
    var level := fs[found.value];
    if level.info.None? {
      return 1;
    }
    var info := level.info.value;
    var unresolved := if files.Some? then files else Lookup(info, "files");
    if unresolved.None? {
      return 1;
    }
    var listed := if dirs.Some? then dirs else Lookup(info, "dirs");
    if listed.None? {
      return 1;
    }
    var parent := ParentOf(info);
    var left := unresolved.value;
    var es := level.entries;
    var k := 0;
    while k < |es|
      invariant 0 <= k <= |es|
      invariant AncestorScan(src, es, k, dest, left, listed.value, tree.State())
             == AncestorScan(src, es, 0, dest, unresolved.value, listed.value, old(tree.State()))
    {
      var e := es[k];
      if e.kind == File && e.name != InfoFile {
        var item := Lookup(left, e.name);
        if item.Some? {
          var modTime := IntOf(item);
          if modTime > 0 {
            tree.Copy(Join(src, e.name), Join(dest, e.name));
          }
          left := RemoveKey(left, e.name).0;
        }
      } else if e.kind == Directory {
        if Lookup(listed.value, e.name).None? {
          return 1;
        }
      }
      k := k + 1;
    }
    if parent.None? {
      var missing := false;
      var n := 0;
      while n < Len(left)
        invariant 0 <= n <= Len(left)
        invariant missing <==> n > 0
      {
        missing := true;
        n := n + 1;
      }
      result := if missing then 1 else 0;
    } else {
      assert LevelOrdered(fs, found.value);
      result := MergeRec(fs, parent.value, dest, Some(left), listed, tree);
    }
  }

  /** `merge_root`: one snapshot directory, its subdirectories, then the chain walk. */
  method MergeRoot(fs: seq<Level>, src: string, dest: string, tree: DestTree) returns (result: int)
    requires Ordered(fs)
    modifies tree
    ensures Status(result, tree.State()) == Root(fs, src, dest, old(tree.State()))
    decreases RootRank(fs, src), 1, 0
  {
    var found := Find(fs, src);
    if found.None? {
      return 1;
    }
    var destIsDir := tree.IsDir(dest);
    if !destIsDir {
      return 1;
    }
    var i := found.value;
    if fs[i].info.None? {
      return 1;
    }
    var info := fs[i].info.value;
    var files := Lookup(info, "files");
    if files.None? {
      return 1;
    }
    var dirs := Lookup(info, "dirs");
    if dirs.None? {
      return 1;
    }
    var parent := ParentOf(info);
    var left := files.value;
    var es := fs[i].entries;
    var k := 0;
    while k < |es|
      invariant 0 <= k <= |es|
      invariant RootScan(fs, i, k, dest, left, dirs.value, tree.State())
             == RootScan(fs, i, 0, dest, files.value, dirs.value, old(tree.State()))
    {
      var e := es[k];
      var to := Join(dest, e.name);
      match e.kind {
        case File =>
          if e.name != InfoFile {
            if Lookup(left, e.name).None? {
              return 1;
            }
            tree.Copy(Join(src, e.name), to);
            left := RemoveKey(left, e.name).0;
          }
        case Directory =>
          if Lookup(dirs.value, e.name).None? {
            return 1;
          }
          var present := tree.IsDir(to);
          var usable := present;
          if !present {
            usable := tree.CreateDirectory(to);
          }
          if usable {
            assert e in es && LevelOrdered(fs, i);
            var sub := MergeRoot(fs, Join(src, e.name), to, tree);
          }
        case Other =>
      }
      k := k + 1;
    }
    if parent.Some? {
      var walked := MergeRec(fs, parent.value, dest, Some(left), dirs, tree);
    }
    result := 0;
  }

  /** `merge`: every snapshot root of the backup at `src`, each into a new directory. */
  method MergeBackup(fs: seq<Level>, src: string, dest: string, tree: DestTree) returns (result: int)
    requires Ordered(fs)
    modifies tree
    ensures Status(result, tree.State()) == MergeAll(fs, src, dest, old(tree.State()))
  {
    var found := Find(fs, src);
    if found.None? {
      return 1;
    }
    var destIsDir := tree.IsDir(dest);
    if !destIsDir {
      return 1;
    }
    var path, es := fs[found.value].path, fs[found.value].entries;
    var k := 0;
    while k < |es|
      invariant 0 <= k <= |es|
      invariant MergeScan(fs, path, es, k, dest, tree.State()) == MergeScan(fs, path, es, 0, dest, old(tree.State()))
    {
      if es[k].kind == Directory {
        var to := Join(dest, es[k].name);
        var made := tree.CreateDirectory(to);
        if !made {
          return 1;
        }
        var merged := MergeRoot(fs, Join(path, es[k].name), to, tree);
        if merged == 1 {
          tree.DeleteDirectory(to);
          return 1;
        }
      }
      k := k + 1;
    }
    result := 0;
  }
}

module MergeProofs {
  import opened CsonValue
  import opened Merge

  /** What the destination holds at `p`: the source it was copied from, if any. */
  function At(t: Tree, p: string): Option<string>
  {
    if p in t.files then Some(t.files[p]) else None
  }

  /** Different names join to different paths. */
  lemma JoinInjective(d: string, a: string, b: string)
    requires Join(d, a) == Join(d, b)
    ensures a == b
  {
    assert a == Join(d, a)[|d| + 1..];
    assert b == Join(d, b)[|d| + 1..];
  }

  /** `cson_map_remove` on the unresolved map keeps it valid and resolves exactly `n`. */
  lemma RemoveKeySpec(files: Value, n: string)
    requires files.Obj? && ValidMap(files.m)
    ensures RemoveKey(files, n).0.Obj? && ValidMap(RemoveKey(files, n).0.m)
    ensures Lookup(RemoveKey(files, n).0, n).None?
    ensures forall k :: k != n ==> Lookup(RemoveKey(files, n).0, k) == Lookup(files, k)
  {
    RemoveSpec(files.m, n);
  }

  /**
    One pass at an ancestor: a present, unresolved file is resolved, and
    copied exactly when its recorded time is positive; nothing else changes,
    and the pass fails only on an unlisted directory.
  */
  lemma AncestorStepSpec(src: string, dest: string, files: Value, dirs: Value, t: Tree, e: Entry)
    requires files.Obj? && ValidMap(files.m)
    ensures var r := AncestorStep(src, dest, files, dirs, t, e);
      var resolves := e.kind == File && e.name != InfoFile && Lookup(files, e.name).Some?;
      && r.files.Obj? && ValidMap(r.files.m)
      && (r.ok <==> e.kind != Directory || Lookup(dirs, e.name).Some?)
      && (resolves ==> Lookup(r.files, e.name).None?)
      && (forall n :: n != e.name || !resolves ==> Lookup(r.files, n) == Lookup(files, n))
      && r.tree == if resolves && IntOf(Lookup(files, e.name)) > 0
                   then CopyFile(t, Join(src, e.name), Join(dest, e.name)) else t
  {
    if e.kind == File && e.name != InfoFile && Lookup(files, e.name).Some? {
      RemoveKeySpec(files, e.name);
    }
  }

  /**
    The loop at an ancestor, seen from one name: if the name is unresolved
    and present from entry `k` on, it is resolved there, copied from this
    level exactly when its time is positive; otherwise neither the name nor
    its destination changes.
  */
  lemma {:induction false} AncestorScanResolves(src: string, es: seq<Entry>, k: nat, dest: string,
                                                  files: Value, dirs: Value, t: Tree, name: string)
    requires files.Obj? && ValidMap(files.m) && name != InfoFile
    ensures var s := AncestorScan(src, es, k, dest, files, dirs, t);
      var to := Join(dest, name);
      var x := IntOf(Lookup(files, name));
      && s.files.Obj? && ValidMap(s.files.m)
      && (Lookup(files, name).None? || k >= |es| || Entry(name, File) !in es[k..] ==>
            Lookup(s.files, name) == Lookup(files, name) && At(s.tree, to) == At(t, to))
      && (Lookup(files, name).Some? && k < |es| && Entry(name, File) in es[k..] ==>
            && (At(s.tree, to) == At(t, to) || (x > 0 && At(s.tree, to) == Some(Join(src, name))))
            && (s.ok ==> Lookup(s.files, name).None? &&
                         At(s.tree, to) == if x > 0 then Some(Join(src, name)) else At(t, to)))
    decreases |es| - k
  {
    if k < |es| {
      var e := es[k];
      var step := AncestorStep(src, dest, files, dirs, t, e);
      AncestorStepSpec(src, dest, files, dirs, t, e);
      AncestorScanResolves(src, es, k + 1, dest, step.files, dirs, step.tree, name);
      if e.kind == File && e.name != InfoFile && Lookup(files, e.name).Some? && e.name != name {
        if Join(dest, e.name) == Join(dest, name) {
          JoinInjective(dest, e.name, name);
        }
      }
      if Entry(name, File) in es[k..] && e != Entry(name, File) {
        assert es[k..] == [e] + es[k + 1..];
      }
      if Entry(name, File) !in es[k..] && k + 1 < |es| {
        assert es[k + 1..] == es[k..][1..];
      }
    }
  }

  /**
    The first level of the parent chain from `src` where `name` is present
    as a file: where the newest surviving version lies.
  */
  ghost function Holder(fs: seq<Level>, src: string, name: string): Option<string>
    requires Ordered(fs)
    decreases ChainRank(fs, src)
  {
    match Find(fs, src)
    case None => None
    case Some(i) =>
      if Entry(name, File) in fs[i].entries then Some(src)
      else if fs[i].info.None? || ParentOf(fs[i].info.value).None? then None
      else
        assert LevelOrdered(fs, i);
        Holder(fs, ParentOf(fs[i].info.value).value, name)
  }

  /**
    The newest surviving version wins: walking the chain from `src`, an
    unresolved name is copied, if at all, from the first level where it is
    present, and only when its recorded time is positive. When the walk ends
    with 0, that level exists and the copy has been made exactly then; a
    tombstone (a time of 0 or less) leaves the destination as it was.
  */
  lemma {:induction false} RecResolves(fs: seq<Level>, src: string, dest: string,
                                        files: Value, dirs: Value, t: Tree, name: string)
    requires Ordered(fs) && files.Obj? && ValidMap(files.m) && name != InfoFile
    requires Lookup(files, name).Some?
    ensures var r := Rec(fs, src, dest, Some(files), Some(dirs), t);
      var to := Join(dest, name);
      var x := IntOf(Lookup(files, name));
      var h := Holder(fs, src, name);
      && (At(r.tree, to) == At(t, to) || (x > 0 && h.Some? && At(r.tree, to) == Some(Join(h.value, name))))
      && (r.code == 0 ==> h.Some? && At(r.tree, to) == if x > 0 then Some(Join(h.value, name)) else At(t, to))
    decreases ChainRank(fs, src)
  {
    match Find(fs, src)
    case None =>
    case Some(i) =>
      if dest in t.dirs && fs[i].info.Some? {
        var info := fs[i].info.value;
        var s := AncestorScan(src, fs[i].entries, 0, dest, files, dirs, t);
        AncestorScanResolves(src, fs[i].entries, 0, dest, files, dirs, t, name);
        assert fs[i].entries[0..] == fs[i].entries;
        if s.ok {
          if Entry(name, File) in fs[i].entries {
            if ParentOf(info).Some? {
              assert LevelOrdered(fs, i);
              RecUntouched(fs, ParentOf(info).value, dest, s.files, dirs, s.tree, name);
            }
          } else {
            match ParentOf(info)
            case None =>
              KeysSpec(s.files.m);
              assert name in Keys(s.files.m);
            case Some(p) =>
              assert LevelOrdered(fs, i);
              RecResolves(fs, p, dest, s.files, dirs, s.tree, name);
          }
        }
      }
  }

  /** A name already resolved is never copied again further down the chain. */
  lemma {:induction false} RecUntouched(fs: seq<Level>, src: string, dest: string,
                                         files: Value, dirs: Value, t: Tree, name: string)
    requires Ordered(fs) && files.Obj? && ValidMap(files.m) && name != InfoFile
    requires Lookup(files, name).None?
    ensures At(Rec(fs, src, dest, Some(files), Some(dirs), t).tree, Join(dest, name)) == At(t, Join(dest, name))
    decreases ChainRank(fs, src)
  {
    match Find(fs, src)
    case None =>
    case Some(i) =>
      if dest in t.dirs && fs[i].info.Some? {
        var info := fs[i].info.value;
        var s := AncestorScan(src, fs[i].entries, 0, dest, files, dirs, t);
        AncestorScanResolves(src, fs[i].entries, 0, dest, files, dirs, t, name);
        if s.ok && ParentOf(info).Some? {
          assert LevelOrdered(fs, i);
          RecUntouched(fs, ParentOf(info).value, dest, s.files, dirs, s.tree, name);
        }
      }
  }

  /**
    A deletion is final: a name recorded with a time of 0 or less (the
    tombstone -1) is never copied by the chain walk, whichever older
    snapshot still holds a version of it.
  */
  lemma TombstoneWins(fs: seq<Level>, src: string, dest: string,
                      files: Value, dirs: Value, t: Tree, name: string)
    requires Ordered(fs) && files.Obj? && ValidMap(files.m) && name != InfoFile
    requires Lookup(files, name).Some? && IntOf(Lookup(files, name)) <= 0
    ensures At(Rec(fs, src, dest, Some(files), Some(dirs), t).tree, Join(dest, name)) == At(t, Join(dest, name))
  {
    RecResolves(fs, src, dest, files, dirs, t, name);
  }

  /* ---------- Everything stays inside the destination ---------- */

  /** `t2` differs from `t1` only at or below `root`. */
  ghost predicate Framed(t1: Tree, t2: Tree, root: string)
  {
    && (forall d :: !Under(d, root) ==> (d in t2.dirs <==> d in t1.dirs))
    && (forall f :: !Under(f, root) ==> (f in t2.files <==> f in t1.files))
    && (forall f :: f in t1.files && !Under(f, root) ==> t2.files[f] == t1.files[f])
  }

  /** `t2` differs from `t1` only at or below `root`, and has every directory `t1` has. */
  ghost predicate Confined(t1: Tree, t2: Tree, root: string)
  {
    t1.dirs <= t2.dirs && Framed(t1, t2, root)
  }

  lemma UnderTrans(p: string, q: string, r: string)
    requires Under(p, q) && Under(q, r)
    ensures Under(p, r)
  {
    if p != q && q != r {
      assert (r + "/") == q[..|r| + 1] && q == p[..|q|];
      assert p[..|r| + 1] == q[..|r| + 1];
    }
  }

  /** A name without a separator is not below a different sibling. */
  lemma NotUnderSibling(dest: string, a: string, b: string)
    requires '/' !in a && a != b
    ensures !Under(Join(dest, a), Join(dest, b))
  {
    if Join(dest, a) == Join(dest, b) {
      JoinInjective(dest, a, b);
    } else if Join(dest, b) + "/" <= Join(dest, a) {
      SlashAfterPrefix(dest, a, b);
    }
  }

  /** A path below `dest/b` continues, after `b`, with a separator. */
  lemma SlashAfterPrefix(dest: string, a: string, b: string)
    requires Join(dest, b) + "/" <= Join(dest, a)
    ensures |b| < |a| && a[|b|] == '/' && '/' in a
  {
    var n := |dest| + 1 + |b|;
    assert Join(dest, a)[n] == (Join(dest, b) + "/")[n];
    assert a[|b|] == Join(dest, a)[n];
  }

  lemma ConfinedTrans(t1: Tree, t2: Tree, t3: Tree, root: string)
    requires Confined(t1, t2, root) && Confined(t2, t3, root)
    ensures Confined(t1, t3, root)
  {
  }

  lemma ConfinedWiden(t1: Tree, t2: Tree, inner: string, root: string)
    requires Confined(t1, t2, inner) && Under(inner, root)
    ensures Confined(t1, t2, root)
  {
    forall p | !Under(p, root)
      ensures !Under(p, inner)
    {
      if Under(p, inner) {
        UnderTrans(p, inner, root);
      }
    }
  }

  /** The walk at one ancestor only copies into `dest`. */
  lemma {:induction false} AncestorScanConfined(src: string, es: seq<Entry>, k: nat, dest: string,
                                                  files: Value, dirs: Value, t: Tree)
    ensures var s := AncestorScan(src, es, k, dest, files, dirs, t);
      s.tree.dirs == t.dirs && Confined(t, s.tree, dest)
    decreases |es| - k
  {
    if k < |es| {
      var step := AncestorStep(src, dest, files, dirs, t, es[k]);
      AncestorScanConfined(src, es, k + 1, dest, step.files, dirs, step.tree);
    }
  }

  /** The chain walk only copies into `dest` and creates no directory. */
  lemma {:induction false} RecConfined(fs: seq<Level>, src: string, dest: string,
                                        files: Option<Value>, dirs: Option<Value>, t: Tree)
    requires Ordered(fs)
    ensures var r := Rec(fs, src, dest, files, dirs, t);
      r.tree.dirs == t.dirs && Confined(t, r.tree, dest)
    decreases ChainRank(fs, src)
  {
    match Find(fs, src)
    case None =>
    case Some(i) =>
      if dest in t.dirs && fs[i].info.Some? {
        var info := fs[i].info.value;
        var fs' := if files.Some? then files else Lookup(info, "files");
        var ds' := if dirs.Some? then dirs else Lookup(info, "dirs");
        if fs'.Some? && ds'.Some? {
          var s := AncestorScan(src, fs[i].entries, 0, dest, fs'.value, ds'.value, t);
          AncestorScanConfined(src, fs[i].entries, 0, dest, fs'.value, ds'.value, t);
          if s.ok && ParentOf(info).Some? {
            assert LevelOrdered(fs, i);
            RecConfined(fs, ParentOf(info).value, dest, Some(s.files), ds', s.tree);
            ConfinedTrans(t, s.tree, Rec(fs, ParentOf(info).value, dest, Some(s.files), ds', s.tree).tree, dest);
          }
        }
      }
  }

  /**
    A snapshot directory is merged entirely inside its destination, and no
    directory is removed.
  */
  lemma {:induction false} RootConfined(fs: seq<Level>, src: string, dest: string, t: Tree)
    requires Ordered(fs)
    ensures Confined(t, Root(fs, src, dest, t).tree, dest)
    decreases RootRank(fs, src), 1, 0
  {
    match Find(fs, src)
    case None =>
    case Some(i) =>
      if dest in t.dirs && fs[i].info.Some? {
        var info := fs[i].info.value;
        var files := Lookup(info, "files");
        var dirs := Lookup(info, "dirs");
        if files.Some? && dirs.Some? {
          var s := RootScan(fs, i, 0, dest, files.value, dirs.value, t);
          RootScanConfined(fs, i, 0, dest, files.value, dirs.value, t);
          if s.ok && ParentOf(info).Some? {
            RecConfined(fs, ParentOf(info).value, dest, Some(s.files), dirs, s.tree);
            ConfinedTrans(t, s.tree, Rec(fs, ParentOf(info).value, dest, Some(s.files), dirs, s.tree).tree, dest);
          }
        }
      }
  }

  lemma {:induction false} RootScanConfined(fs: seq<Level>, i: nat, k: nat, dest: string,
                                              files: Value, dirs: Value, t: Tree)
    requires Ordered(fs) && i < |fs|
    ensures Confined(t, RootScan(fs, i, k, dest, files, dirs, t).tree, dest)
    decreases |fs| - i, 0, |fs[i].entries| - k, 2
  {
    var es := fs[i].entries;
    if k < |es| {
      match es[k].kind
      case File =>
        FileConfined(fs, i, k, dest, files, dirs, t);
      case Directory =>
        DirConfined(fs, i, k, dest, files, dirs, t);
      case Other =>
        RootScanConfined(fs, i, k + 1, dest, files, dirs, t);
    }
  }

  /** A file entry of the walk is copied inside `dest`, or skipped. */
  lemma {:induction false} FileConfined(fs: seq<Level>, i: nat, k: nat, dest: string,
                                          files: Value, dirs: Value, t: Tree)
    requires Ordered(fs) && i < |fs| && k < |fs[i].entries| && fs[i].entries[k].kind == File
    ensures Confined(t, RootScan(fs, i, k, dest, files, dirs, t).tree, dest)
    decreases |fs| - i, 0, |fs[i].entries| - k, 1
  {
    var e, src := fs[i].entries[k], fs[i].path;
    if e.name == InfoFile {
      RootScanConfined(fs, i, k + 1, dest, files, dirs, t);
    } else if Lookup(files, e.name).Some? {
      var t1 := CopyFile(t, Join(src, e.name), Join(dest, e.name));
      RootScanConfined(fs, i, k + 1, dest, RemoveKey(files, e.name).0, dirs, t1);
      ConfinedTrans(t, t1, RootScan(fs, i, k + 1, dest, RemoveKey(files, e.name).0, dirs, t1).tree, dest);
    }
  }

  /** A directory entry of the walk is merged inside `dest`, or skipped. */
  lemma {:induction false} DirConfined(fs: seq<Level>, i: nat, k: nat, dest: string,
                                         files: Value, dirs: Value, t: Tree)
    requires Ordered(fs) && i < |fs| && k < |fs[i].entries| && fs[i].entries[k].kind == Directory
    ensures Confined(t, RootScan(fs, i, k, dest, files, dirs, t).tree, dest)
    decreases |fs| - i, 0, |fs[i].entries| - k, 1
  {
    var e := fs[i].entries[k];
    var to := Join(dest, e.name);
    if Lookup(dirs, e.name).Some? {
      if to !in t.dirs && !CreateDir(t, to).0 {
        RootScanConfined(fs, i, k + 1, dest, files, dirs, t);
      } else {
        SubdirConfined(fs, i, k, dest, files, dirs, t);
      }
    }
  }

  /** A listed directory that exists or was just created: its snapshot is merged inside it. */
  lemma {:induction false} SubdirConfined(fs: seq<Level>, i: nat, k: nat, dest: string,
                                            files: Value, dirs: Value, t: Tree)
    requires Ordered(fs) && i < |fs| && k < |fs[i].entries|
    requires fs[i].entries[k].kind == Directory && Lookup(dirs, fs[i].entries[k].name).Some?
    requires var to := Join(dest, fs[i].entries[k].name); to in t.dirs || CreateDir(t, to).0
    ensures Confined(t, RootScan(fs, i, k, dest, files, dirs, t).tree, dest)
    decreases |fs| - i, 0, |fs[i].entries| - k, 0
  {
    var es := fs[i].entries;
    var e, src := es[k], fs[i].path;
    var to := Join(dest, e.name);
    var t1 := if to in t.dirs then t else CreateDir(t, to).1;
    assert e in es && LevelOrdered(fs, i);
    var t2 := Root(fs, Join(src, e.name), to, t1).tree;
    RootConfined(fs, Join(src, e.name), to, t1);
    ConfinedWiden(t1, t2, to, dest);
    ConfinedTrans(t, t1, t2, dest);
    RootScanConfined(fs, i, k + 1, dest, files, dirs, t2);
    ConfinedTrans(t, t2, RootScan(fs, i, k + 1, dest, files, dirs, t2).tree, dest);
  }

  /* ---------- What a snapshot directory leaves in its destination ---------- */

  /**
    The manifest's `files` entry, when it is a map, is a well-formed one, as
    every map the parser builds is.
  */
  predicate FilesValid(info: Value)
  {
    var f := Lookup(info, "files");
    f.Some? && f.value.Obj? ==> ValidMap(f.value.m)
  }

  /** Merging a subdirectory `d` of the listing leaves `dest/name` alone for any other name. */
  lemma SubdirKeeps(fs: seq<Level>, i: nat, k: nat, dest: string, t: Tree, name: string)
    requires Ordered(fs) && WellNamed(fs) && i < |fs| && k < |fs[i].entries|
    requires fs[i].entries[k].kind == Directory && fs[i].entries[k].name != name && '/' !in name
    ensures var e := fs[i].entries[k];
      var to := Join(dest, e.name);
      var t1 := if to in t.dirs then t else CreateDir(t, to).1;
      At(Root(fs, Join(fs[i].path, e.name), to, t1).tree, Join(dest, name)) == At(t, Join(dest, name))
  {
    var e := fs[i].entries[k];
    var to := Join(dest, e.name);
    var t1 := if to in t.dirs then t else CreateDir(t, to).1;
    NotUnderSibling(dest, name, e.name);
    RootConfined(fs, Join(fs[i].path, e.name), to, t1);
  }

  /**
    The loop of `merge_root` from entry `k` on, when no remaining entry
    carries `name`: `dest/name` and the name's place in the map stay as they are.
  */
  lemma {:induction false} RootScanKeeps(fs: seq<Level>, i: nat, k: nat, dest: string,
                                           files: Value, dirs: Value, t: Tree, name: string)
    requires Ordered(fs) && WellNamed(fs) && i < |fs| && '/' !in name
    requires files.Obj? && ValidMap(files.m)
    requires forall l :: k <= l < |fs[i].entries| ==> fs[i].entries[l].name != name
    ensures var s := RootScan(fs, i, k, dest, files, dirs, t);
      && s.files.Obj? && ValidMap(s.files.m)
      && At(s.tree, Join(dest, name)) == At(t, Join(dest, name))
      && Lookup(s.files, name) == Lookup(files, name)
    decreases |fs[i].entries| - k
  {
    var es := fs[i].entries;
    if k < |es| {
      var e, src := es[k], fs[i].path;
      var to := Join(dest, e.name);
      if to == Join(dest, name) {
        JoinInjective(dest, e.name, name);
      }
      match e.kind
      case File =>
        if e.name == InfoFile {
          RootScanKeeps(fs, i, k + 1, dest, files, dirs, t, name);
        } else if Lookup(files, e.name).Some? {
          RemoveKeySpec(files, e.name);
          RootScanKeeps(fs, i, k + 1, dest, RemoveKey(files, e.name).0, dirs, CopyFile(t, Join(src, e.name), to), name);
        }
      case Directory =>
        if Lookup(dirs, e.name).Some? {
          if to !in t.dirs && !CreateDir(t, to).0 {
            RootScanKeeps(fs, i, k + 1, dest, files, dirs, t, name);
          } else {
            var t1 := if to in t.dirs then t else CreateDir(t, to).1;
            assert e in es && LevelOrdered(fs, i);
            SubdirKeeps(fs, i, k, dest, t, name);
            RootScanKeeps(fs, i, k + 1, dest, files, dirs, Root(fs, Join(src, e.name), to, t1).tree, name);
          }
        }
      case Other =>
        RootScanKeeps(fs, i, k + 1, dest, files, dirs, t, name);
    }
  }

  /**
    The loop of `merge_root` from entry `k` on, when entry `l` is the file
    `name`: if the loop gets through, `dest/name` is the snapshot's copy and
    the name is resolved.
  */
  lemma {:induction false} RootScanCopies(fs: seq<Level>, i: nat, k: nat, dest: string,
                                            files: Value, dirs: Value, t: Tree, name: string, l: nat)
    requires Ordered(fs) && WellNamed(fs) && i < |fs| && name != InfoFile && '/' !in name
    requires files.Obj? && ValidMap(files.m)
    requires k <= l < |fs[i].entries| && fs[i].entries[l] == Entry(name, File)
    ensures var s := RootScan(fs, i, k, dest, files, dirs, t);
      && s.files.Obj? && ValidMap(s.files.m)
      && (s.ok ==> At(s.tree, Join(dest, name)) == Some(Join(fs[i].path, name)) && Lookup(s.files, name).None?)
    decreases |fs[i].entries| - k
  {
    var es := fs[i].entries;
    var e, src := es[k], fs[i].path;
    var to := Join(dest, e.name);
    assert NamesDistinct(es);
    if k == l {
      if Lookup(files, name).Some? {
        RemoveKeySpec(files, name);
        RootScanKeeps(fs, i, k + 1, dest, RemoveKey(files, name).0, dirs, CopyFile(t, Join(src, name), to), name);
      }
    } else {
      if to == Join(dest, name) {
        JoinInjective(dest, e.name, name);
      }
      match e.kind
      case File =>
        if e.name == InfoFile {
          RootScanCopies(fs, i, k + 1, dest, files, dirs, t, name, l);
        } else if Lookup(files, e.name).Some? {
          RemoveKeySpec(files, e.name);
          RootScanCopies(fs, i, k + 1, dest, RemoveKey(files, e.name).0, dirs, CopyFile(t, Join(src, e.name), to), name, l);
        }
      case Directory =>
        if Lookup(dirs, e.name).Some? {
          if to !in t.dirs && !CreateDir(t, to).0 {
            RootScanCopies(fs, i, k + 1, dest, files, dirs, t, name, l);
          } else {
            var t1 := if to in t.dirs then t else CreateDir(t, to).1;
            assert e in es && LevelOrdered(fs, i);
            RootScanCopies(fs, i, k + 1, dest, files, dirs, Root(fs, Join(src, e.name), to, t1).tree, name, l);
          }
        }
      case Other =>
        RootScanCopies(fs, i, k + 1, dest, files, dirs, t, name, l);
    }
  }

  /**
    A snapshot directory merged with result 0 holds, for every file present
    in it, the snapshot's own version: the chain walk never replaces it.
  */
  lemma RootCopiesPresent(fs: seq<Level>, src: string, dest: string, t: Tree, name: string)
    requires Ordered(fs) && WellNamed(fs) && name != InfoFile
    requires Find(fs, src).Some? && Entry(name, File) in fs[Find(fs, src).value].entries
    requires fs[Find(fs, src).value].info.Some? ==> FilesValid(fs[Find(fs, src).value].info.value)
    ensures Root(fs, src, dest, t).code == 0 ==> At(Root(fs, src, dest, t).tree, Join(dest, name)) == Some(Join(src, name))
  {
    var i := Find(fs, src).value;
    if dest in t.dirs && fs[i].info.Some? {
      var info := fs[i].info.value;
      var files := Lookup(info, "files");
      var dirs := Lookup(info, "dirs");
      if files.Some? && dirs.Some? && !files.value.Obj? {
        var l :| 0 <= l < |fs[i].entries| && fs[i].entries[l] == Entry(name, File);
        assert !EntryListed(fs[i].entries[l], files.value, dirs.value);
        RootScanOk(fs, i, 0, dest, files.value, dirs.value, t);
      } else if files.Some? && dirs.Some? {
        var s := RootScan(fs, i, 0, dest, files.value, dirs.value, t);
        var l :| 0 <= l < |fs[i].entries| && fs[i].entries[l] == Entry(name, File);
        assert NamesDistinct(fs[i].entries) && '/' !in fs[i].entries[l].name;
        RootScanCopies(fs, i, 0, dest, files.value, dirs.value, t, name, l);
        if s.ok && ParentOf(info).Some? {
          RecUntouched(fs, ParentOf(info).value, dest, s.files, dirs.value, s.tree, name);
        }
      }
    }
  }

  /* ---------- The result of a snapshot directory ---------- */

  /** Entry `e` is registered in the manifest: a file in `files` (the manifest itself aside), a directory in `dirs`. */
  predicate EntryListed(e: Entry, files: Value, dirs: Value)
  {
    && (e.kind == File && e.name != InfoFile ==> Lookup(files, e.name).Some?)
    && (e.kind == Directory ==> Lookup(dirs, e.name).Some?)
  }

  /** Every entry from `k` on is registered. */
  predicate ListedFrom(es: seq<Entry>, k: nat, files: Value, dirs: Value)
  {
    forall l :: k <= l < |es| ==> EntryListed(es[l], files, dirs)
  }

  /** Resolving a name no remaining entry carries leaves the registration of those entries as it was. */
  lemma ListedAfterRemove(es: seq<Entry>, k: nat, files: Value, dirs: Value, n: string)
    requires files.Obj? && ValidMap(files.m)
    requires forall l :: k <= l < |es| ==> es[l].name != n
    ensures ListedFrom(es, k, RemoveKey(files, n).0, dirs) <==> ListedFrom(es, k, files, dirs)
  {
    RemoveKeySpec(files, n);
  }

  /** Registration from `k` on is registration of entry `k` and of the rest. */
  lemma ListedStep(es: seq<Entry>, k: nat, files: Value, dirs: Value)
    requires k < |es|
    ensures ListedFrom(es, k, files, dirs) <==> EntryListed(es[k], files, dirs) && ListedFrom(es, k + 1, files, dirs)
  {
  }

  /**
    The loop of `merge_root` from entry `k` on gets through exactly when
    every remaining entry is registered; what the subdirectory merges do,
    and whether a subdirectory could be created, does not matter.
  */
  lemma {:induction false} RootScanOk(fs: seq<Level>, i: nat, k: nat, dest: string,
                                        files: Value, dirs: Value, t: Tree)
    requires Ordered(fs) && WellNamed(fs) && i < |fs|
    requires files.Obj? ==> ValidMap(files.m)
    ensures RootScan(fs, i, k, dest, files, dirs, t).ok <==> ListedFrom(fs[i].entries, k, files, dirs)
    decreases |fs[i].entries| - k, 1
  {
    var es := fs[i].entries;
    if k < |es| {
      ListedStep(es, k, files, dirs);
      match es[k].kind
      case File =>
        FileOk(fs, i, k, dest, files, dirs, t);
      case Directory =>
        DirOk(fs, i, k, dest, files, dirs, t);
      case Other =>
        RootScanOk(fs, i, k + 1, dest, files, dirs, t);
    }
  }

  /** At a file entry, the loop goes on exactly when the file is registered, and then resolves it. */
  lemma {:induction false} FileOk(fs: seq<Level>, i: nat, k: nat, dest: string,
                                    files: Value, dirs: Value, t: Tree)
    requires Ordered(fs) && WellNamed(fs) && i < |fs| && k < |fs[i].entries| && fs[i].entries[k].kind == File
    requires files.Obj? ==> ValidMap(files.m)
    ensures RootScan(fs, i, k, dest, files, dirs, t).ok <==>
      EntryListed(fs[i].entries[k], files, dirs) && ListedFrom(fs[i].entries, k + 1, files, dirs)
    decreases |fs[i].entries| - k, 0
  {
    var es := fs[i].entries;
    var e, src := es[k], fs[i].path;
    if e.name == InfoFile {
      RootScanOk(fs, i, k + 1, dest, files, dirs, t);
    } else if Lookup(files, e.name).Some? {
      assert NamesDistinct(es);
      var files' := RemoveKey(files, e.name).0;
      RemoveKeySpec(files, e.name);
      ListedAfterRemove(es, k + 1, files, dirs, e.name);
      RootScanOk(fs, i, k + 1, dest, files', dirs, CopyFile(t, Join(src, e.name), Join(dest, e.name)));
    }
  }

  /** At a directory entry, the loop goes on exactly when the directory is registered. */
  lemma {:induction false} DirOk(fs: seq<Level>, i: nat, k: nat, dest: string,
                                   files: Value, dirs: Value, t: Tree)
    requires Ordered(fs) && WellNamed(fs) && i < |fs| && k < |fs[i].entries| && fs[i].entries[k].kind == Directory
    requires files.Obj? ==> ValidMap(files.m)
    ensures RootScan(fs, i, k, dest, files, dirs, t).ok <==>
      EntryListed(fs[i].entries[k], files, dirs) && ListedFrom(fs[i].entries, k + 1, files, dirs)
    decreases |fs[i].entries| - k, 0
  {
    var es := fs[i].entries;
    var e, src := es[k], fs[i].path;
    var to := Join(dest, e.name);
    if Lookup(dirs, e.name).Some? {
      if to !in t.dirs && !CreateDir(t, to).0 {
        RootScanOk(fs, i, k + 1, dest, files, dirs, t);
      } else {
        var t1 := if to in t.dirs then t else CreateDir(t, to).1;
        assert e in es && LevelOrdered(fs, i);
        RootScanOk(fs, i, k + 1, dest, files, dirs, Root(fs, Join(src, e.name), to, t1).tree);
      }
    }
  }

  /**
    The result of `merge_root`: 0 exactly when the snapshot directory and
    the destination exist, the manifest reads and has `files` and `dirs`,
    and every entry of the directory is registered in them; 1 otherwise.
    Neither a failed subdirectory merge nor the chain walk changes it.
  */
  lemma RootCode(fs: seq<Level>, src: string, dest: string, t: Tree)
    requires Ordered(fs) && WellNamed(fs)
    requires Find(fs, src).Some? && fs[Find(fs, src).value].info.Some? ==> FilesValid(fs[Find(fs, src).value].info.value)
    ensures var r := Root(fs, src, dest, t);
      && (r.code == 0 || r.code == 1)
      && (r.code == 0 <==>
            && Find(fs, src).Some? && dest in t.dirs
            && var lv := fs[Find(fs, src).value];
               && lv.info.Some?
               && Lookup(lv.info.value, "files").Some? && Lookup(lv.info.value, "dirs").Some?
               && ListedFrom(lv.entries, 0, Lookup(lv.info.value, "files").value, Lookup(lv.info.value, "dirs").value))
  {
    if Find(fs, src).Some? {
      var i := Find(fs, src).value;
      if dest in t.dirs && fs[i].info.Some? {
        var info := fs[i].info.value;
        var files := Lookup(info, "files");
        var dirs := Lookup(info, "dirs");
        if files.Some? && dirs.Some? {
          RootScanOk(fs, i, 0, dest, files.value, dirs.value, t);
        }
      }
    }
  }

  /* ---------- The whole backup ---------- */

  /**
    `merge` changes nothing outside `dest`; when it returns 0 the backup
    exists and every snapshot root has its own destination directory.
  */
  lemma MergeAllSpec(fs: seq<Level>, src: string, dest: string, t: Tree)
    requires Ordered(fs)
    ensures var r := MergeAll(fs, src, dest, t);
      && Framed(t, r.tree, dest)
      && (r.code == 0 ==>
            && Find(fs, src).Some? && dest in t.dirs && t.dirs <= r.tree.dirs
            && forall e :: e in fs[Find(fs, src).value].entries && e.kind == Directory ==> Join(dest, e.name) in r.tree.dirs)
  {
    if Find(fs, src).Some? && dest in t.dirs {
      var i := Find(fs, src).value;
      MergeScanSpec(fs, fs[i].path, fs[i].entries, 0, dest, t);
    }
  }

  lemma {:induction false} MergeScanSpec(fs: seq<Level>, src: string, es: seq<Entry>, k: nat, dest: string, t: Tree)
    requires Ordered(fs)
    ensures var r := MergeScan(fs, src, es, k, dest, t);
      && Framed(t, r.tree, dest)
      && (r.code == 0 ==>
            && t.dirs <= r.tree.dirs
            && forall l :: k <= l < |es| && es[l].kind == Directory ==> Join(dest, es[l].name) in r.tree.dirs)
    decreases |es| - k
  {
    if k < |es| {
      if es[k].kind != Directory {
        MergeScanSpec(fs, src, es, k + 1, dest, t);
      } else {
        var to := Join(dest, es[k].name);
        var made := CreateDir(t, to);
        if made.0 {
          var r := Root(fs, Join(src, es[k].name), to, made.1);
          RootConfined(fs, Join(src, es[k].name), to, made.1);
          ConfinedWiden(made.1, r.tree, to, dest);
          if r.code == 1 {
            forall p | !Under(p, dest)
              ensures !Under(p, to)
            {
              if Under(p, to) {
                UnderTrans(p, to, dest);
              }
            }
          } else {
            MergeScanSpec(fs, src, es, k + 1, dest, r.tree);
          }
        }
      }
    }
  }

  /**
    A snapshot root that fails ends the merge with 1, and the destination
    directory made for it is deleted with everything below it.
  */
  lemma FailedRootRemoved(fs: seq<Level>, src: string, es: seq<Entry>, k: nat, dest: string, t: Tree)
    requires Ordered(fs) && k < |es| && es[k].kind == Directory
    requires CreateDir(t, Join(dest, es[k].name)).0
    requires Root(fs, Join(src, es[k].name), Join(dest, es[k].name), CreateDir(t, Join(dest, es[k].name)).1).code == 1
    ensures var r := MergeScan(fs, src, es, k, dest, t);
      r.code == 1 && forall p :: Under(p, Join(dest, es[k].name)) ==> p !in r.tree.dirs && p !in r.tree.files
  {
  }
}
