/** The signed profile-skill file inventory (adapters/hermes-agent/entrypoint.py): a strictly
    increasing list of known names of the expected length covers every expected file. */
module ProfileInventory {
  import opened Ordering

  /** An inventory entry of the manifest; `shape` is false for a value that is not an object with
      exactly the keys mode, path and sha256, or whose path is not a string. */
  datatype Item = Item(shape: bool, path: string, mode: string, digest: string)

  /** What is expected of a file, and what the tree holds for it. */
  datatype File = File(mode: string, digest: string)

  predicate Checked(files: map<string, File>, item: Item) {
    && item.shape && item.path in files
    && item.mode == files[item.path].mode && item.digest == files[item.path].digest
  }

  /** The manifest describes every expected file, once each and in order, and nothing else. */
  ghost predicate Complete(files: map<string, File>, items: seq<Item>) {
    && (forall i :: 0 <= i < |items| ==> Checked(files, items[i]))
    && (forall i, j :: 0 <= i < j < |items| ==> Less(items[i].path, items[j].path))
    && (forall name :: name in files ==> exists i :: 0 <= i < |items| && items[i].path == name)
  }

  function Paths(items: seq<Item>): seq<string> {
    seq(|items|, i requires 0 <= i < |items| => items[i].path)
  }

  /** As many strictly ascending known names as there are files are all of them. */
  lemma AscendingNamesCover(files: map<string, File>, items: seq<Item>)
    requires forall i :: 0 <= i < |items| ==> items[i].path in files
    requires forall i, j :: 0 <= i < j < |items| ==> Less(items[i].path, items[j].path)
    ensures |items| <= |files|
    ensures |items| == |files| <==> forall name :: name in files ==> exists i :: 0 <= i < |items| && items[i].path == name
  {
    var paths := Paths(items);
    forall i, j | 0 <= i < j < |paths| ensures paths[i] != paths[j] {
      LessTrichotomy(items[i].path, items[j].path);
    }
    DistinctCount(paths);
    var names := Elements(paths);
    assert names <= files.Keys;
    SubsetCount(names, files.Keys);
    if names == files.Keys {
      forall name | name in files ensures exists i :: 0 <= i < |items| && items[i].path == name {
        assert name in paths;
        var i :| 0 <= i < |paths| && paths[i] == name;
        assert items[i].path == name;
      }
    }
    if forall name :: name in files ==> exists i :: 0 <= i < |items| && items[i].path == name {
      forall name | name in files ensures name in names {
        var i :| 0 <= i < |items| && items[i].path == name;
        assert paths[i] == name;
      }
    }
  }

  /** The inventory check.  It looks only at order, known names and the count, and accepts exactly
      the complete inventories of files that have a name. */
  method CheckInventory(files: map<string, File>, items: seq<Item>) returns (ok: bool)
    ensures ok <==> Complete(files, items) && "" !in files
  {
    if |items| != |files| {
      IncompleteCount(files, items);
      return false;
    }
    var prior := "";
    for n := 0 to |items|
      invariant forall i :: 0 <= i < n ==> Checked(files, items[i])
      invariant forall i, j :: 0 <= i < j < n ==> Less(items[i].path, items[j].path)
      invariant forall i :: 0 <= i < n ==> items[i].path != ""
      invariant prior == if n == 0 then "" else items[n - 1].path
    {
      var item := items[n];
      if !item.shape {
        return false;
      }
      LessTrichotomy(prior, item.path);
      if AtMost(item.path, prior) || item.path !in files {
        return false;
      }
      if item.mode != files[item.path].mode || item.digest != files[item.path].digest {
        return false;
      }
      forall i | 0 <= i < n ensures Less(items[i].path, item.path) {
        if i < n - 1 {
          LessTrichotomy(items[i].path, prior);
          LessTransitive(items[i].path, prior, item.path);
        }
      }
      prior := item.path;
    }
    AscendingNamesCover(files, items);
    ok := true;
  }

  lemma IncompleteCount(files: map<string, File>, items: seq<Item>)
    ensures Complete(files, items) ==> |items| == |files|
  {
    if Complete(files, items) {
      AscendingNamesCover(files, items);
    }
  }
}
