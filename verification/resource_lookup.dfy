/** The resource compiler's name tables: sorted by full path, searched by base name. */
module ResourceLookup {
  import opened Outcomes
  import opened StringOrder

  /** `Path.build_filename` for a directory path and a name in it. */
  function BuildFilename(dir: string, name: string): string {
    dir + "/" + name
  }

  /** `Path.get_basename` for a path that does not end in a slash. */
  function Basename(path: string): string
    decreases |path|
  {
    if path == "" || path[|path| - 1] == '/' then "" else Basename(path[..|path| - 1]) + [path[|path| - 1]]
  }

  predicate IsFileName(name: string) {
    name != "" && '/' !in name
  }

  lemma {:induction false} BasenameOfBuilt(dir: string, name: string)
    requires '/' !in name
    ensures Basename(BuildFilename(dir, name)) == name
    decreases |name|
  {
    var path := BuildFilename(dir, name);
    if name != "" {
      var most := name[..|name| - 1];
      assert forall c <- most :: c in name;
      assert path[|path| - 1] == name[|name| - 1] && name[|name| - 1] in name;
      assert path[..|path| - 1] == BuildFilename(dir, most);
      BasenameOfBuilt(dir, most);
    }
  }

  /** A common prefix does not matter to strcmp. */
  lemma {:induction false} BeforePrefix(prefix: string, a: string, b: string)
    ensures Before(prefix + a, prefix + b) <==> Before(a, b)
  {
    if prefix == "" {
      assert prefix + a == a && prefix + b == b;
    } else {
      assert (prefix + a)[1..] == prefix[1..] + a && (prefix + b)[1..] == prefix[1..] + b;
      BeforePrefix(prefix[1..], a, b);
    }
  }

  ghost predicate Sorted(names: seq<string>) {
    forall i, j :: 0 <= i < j < |names| ==> !Before(names[j], names[i])
  }

  function Basenames(paths: seq<string>): (names: seq<string>)
    ensures |names| == |paths| && forall i :: 0 <= i < |paths| ==> names[i] == Basename(paths[i])
  {
    seq(|paths|, i requires 0 <= i < |paths| => Basename(paths[i]))
  }

  /** `files` is what `files.sort ()` makes of the paths collected from one directory. */
  ghost predicate SortedCategory(files: seq<string>, dir: string, found: seq<string>) {
    && (forall i :: 0 <= i < |found| ==> IsFileName(found[i]))
    && multiset(files) == multiset(seq(|found|, i requires 0 <= i < |found| => BuildFilename(dir, found[i])))
    && Sorted(files)
  }

  lemma FromDirectory(files: seq<string>, dir: string, found: seq<string>, i: nat) returns (k: nat)
    requires SortedCategory(files, dir, found) && i < |files|
    ensures k < |found| && files[i] == BuildFilename(dir, found[k]) && Basename(files[i]) == found[k]
  {
    var paths := seq(|found|, i requires 0 <= i < |found| => BuildFilename(dir, found[i]));
    assert files[i] in multiset(paths);
    k :| 0 <= k < |paths| && paths[k] == files[i];
    BasenameOfBuilt(dir, found[k]);
  }

  /** Sorting full paths that share a directory sorts the table by base name. */
  lemma TableIsSorted(files: seq<string>, dir: string, found: seq<string>)
    requires SortedCategory(files, dir, found)
    ensures Sorted(Basenames(files))
  {
    var names := Basenames(files);
    forall i, j | 0 <= i < j < |names| ensures !Before(names[j], names[i]) {
      var k := FromDirectory(files, dir, found, i);
      var l := FromDirectory(files, dir, found, j);
      BeforePrefix(dir + "/", found[l], found[k]);
      assert !Before(files[j], files[i]);
    }
  }

  /** The table has an entry of a name iff the category has a file of that name. */
  lemma TableIsComplete(files: seq<string>, dir: string, found: seq<string>, name: string)
    requires SortedCategory(files, dir, found)
    ensures name in Basenames(files) <==> name in found
  {
    var names := Basenames(files);
    if name in names {
      var i :| 0 <= i < |names| && names[i] == name;
      var k := FromDirectory(files, dir, found, i);
      assert found[k] == name;
    }
    if name in found {
      var k :| 0 <= k < |found| && found[k] == name;
      var paths := seq(|found|, i requires 0 <= i < |found| => BuildFilename(dir, found[i]));
      assert paths[k] in multiset(paths) && paths[k] in multiset(files);
      var i :| 0 <= i < |files| && files[i] == paths[k];
      BasenameOfBuilt(dir, name);
      assert names[i] == name;
    }
  }

  /** `bsearch` with the generated comparison function. */
  method BinarySearch(names: seq<string>, name: string) returns (index: Option<nat>)
    requires Sorted(names)
    ensures index.Some? <==> name in names
    ensures index.Some? ==> index.value < |names| && names[index.value] == name
  {
    var l, u := 0, |names|;
    while l < u
      invariant 0 <= l <= u <= |names|
      invariant forall i :: 0 <= i < l ==> Before(names[i], name)
      invariant forall i :: u <= i < |names| ==> Before(name, names[i])
    {
      var idx := (l + u) / 2;
      BeforeTotal(name, names[idx]);
      if Before(name, names[idx]) {
        forall i | idx < i < |names| ensures Before(name, names[i]) {
          NotAfter(names[idx], names[i]);
          if names[idx] != names[i] { BeforeTransitive(name, names[idx], names[i]); }
        }
        u := idx;
      } else if Before(names[idx], name) {
        forall i | 0 <= i < idx ensures Before(names[i], name) {
          NotAfter(names[i], names[idx]);
          if names[i] != names[idx] { BeforeTransitive(names[i], names[idx], name); }
        }
        l := idx + 1;
      } else {
        return Some(idx);
      }
    }
    forall i | 0 <= i < |names| ensures names[i] != name {
      BeforeTotal(names[i], name);
    }
    return None;
  }

  lemma NotAfter(a: string, b: string)
    requires !Before(b, a)
    ensures a == b || Before(a, b)
  {
    BeforeTotal(a, b);
  }

  /** The generated `find_*_by_name`: it finds an entry, and then one of that name, iff the category's directory
      has contributed a file of that name. */
  method FindByName(files: seq<string>, ghost dir: string, ghost found: seq<string>, name: string)
    returns (index: Option<nat>)
    requires SortedCategory(files, dir, found)
    ensures index.Some? <==> name in found
    ensures index.Some? ==> index.value < |files| && Basename(files[index.value]) == name
  {
    TableIsSorted(files, dir, found);
    TableIsComplete(files, dir, found, name);
    index := BinarySearch(Basenames(files), name);
  }
}
