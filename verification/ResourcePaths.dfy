/** Canonical resources as paths: `Path::starts_with` of the Rust standard library on Unix, which
    `authorize` uses to match a folder grant (src-tauri/src/approval_scopes.rs, lines 261-267). */
module ResourcePaths {
  import opened Basics

  /** The text split at every '/', as a list with one more element than there are separators. */
  function SplitPath(s: string): (r: seq<string>)
    ensures r != []
  {
    if s == "" then [""]
    else
      var rest := SplitPath(s[1..]);
      if s[0] == '/' then [""] + rest else [[s[0]] + rest[0]] + rest[1..]
  }

  function Plain(parts: seq<string>): seq<string> {
    if parts == [] then []
    else if parts[0] == "" || parts[0] == "." then Plain(parts[1..])
    else [parts[0]] + Plain(parts[1..])
  }

  /** `Path::components`: repeated separators and inner "." vanish. */
  function Components(path: string): seq<string> {
    var parts := SplitPath(path);
    if path != "" && path[0] == '/' then ["/"] + Plain(parts)
    else if parts[0] == "." then ["."] + Plain(parts)
    else Plain(parts)
  }

  /** `Path::starts_with`: whole components, not characters. */
  predicate PathStartsWith(path: string, prefix: string) { Components(prefix) <= Components(path) }

  // ---------------------------------------------------------------------------------------
  // Splitting undoes joining
  // ---------------------------------------------------------------------------------------

  predicate NoSlash(s: string) { forall i :: 0 <= i < |s| ==> s[i] != '/' }

  function Slashed(parts: seq<string>): string
    requires parts != []
  {
    if |parts| == 1 then parts[0] else parts[0] + "/" + Slashed(parts[1..])
  }

  lemma {:induction false} SplitHead(part: string, rest: string)
    requires NoSlash(part)
    ensures SplitPath(part + "/" + rest) == [part] + SplitPath(rest)
    ensures SplitPath(part) == [part]
  {
    if part == "" {
      assert (part + "/" + rest)[1..] == rest;
    } else {
      SplitHead(part[1..], rest);
      assert (part + "/" + rest)[1..] == part[1..] + "/" + rest;
      assert [part[0]] + part[1..] == part;
    }
  }

  /** Round trip: splitting names joined by '/' gives the names back. */
  lemma {:induction false} SplitOfSlashed(parts: seq<string>)
    requires parts != [] && forall k :: 0 <= k < |parts| ==> NoSlash(parts[k])
    ensures SplitPath(Slashed(parts)) == parts
  {
    if |parts| == 1 {
      SplitHead(parts[0], "");
    } else {
      SplitOfSlashed(parts[1..]);
      SplitHead(parts[0], Slashed(parts[1..]));
      assert [parts[0]] + parts[1..] == parts;
    }
  }

  /** Empty parts and dots are dropped wherever they stand, and names are not. */
  lemma {:induction false} PlainAcross(a: seq<string>, b: seq<string>)
    ensures Plain(a + b) == Plain(a) + Plain(b)
    ensures Plain([""]) == [] && Plain(["."]) == []
  {
    if a == [] {
      assert a + b == b;
      assert [""][1..] == [] && ["."][1..] == [];
    } else {
      PlainAcross(a[1..], b);
      assert (a + b)[1..] == a[1..] + b;
    }
  }

  predicate IsName(s: string) { s != "" && s != "." && NoSlash(s) }

  predicate Names(names: seq<string>) { forall k :: 0 <= k < |names| ==> IsName(names[k]) }

  lemma {:induction false} NamesArePlain(names: seq<string>)
    requires Names(names)
    ensures Plain(names) == names
  {
    if names != [] {
      NamesArePlain(names[1..]);
      assert [names[0]] + names[1..] == names;
    }
  }

  // ---------------------------------------------------------------------------------------
  // Absolute paths
  // ---------------------------------------------------------------------------------------

  /** The canonical absolute path with these names; the root has none. */
  function Absolute(names: seq<string>): string { if names == [] then "/" else "/" + Slashed(names) }

  /** The components of an absolute path are the root and its names, however often a '/' is repeated and
      wherever a "." stands between them. */
  lemma {:induction false} AbsoluteComponents(parts: seq<string>)
    requires parts != [] && forall k :: 0 <= k < |parts| ==> NoSlash(parts[k])
    ensures Components("/" + Slashed(parts)) == ["/"] + Plain(parts)
  {
    hide SplitPath, Plain, Slashed;
    SplitHead("", Slashed(parts));
    SplitOfSlashed(parts);
    assert "" + "/" + Slashed(parts) == "/" + Slashed(parts);
    PlainAcross([""], parts);
    assert [] + Plain(parts) == Plain(parts);
  }

  /** Those of any other path are its names, and a "." in front is kept. */
  lemma {:induction false} RelativeComponents(parts: seq<string>)
    requires parts != [] && parts[0] != "" && forall k :: 0 <= k < |parts| ==> NoSlash(parts[k])
    ensures Components(Slashed(parts)) == (if parts[0] == "." then ["."] else []) + Plain(parts)
  {
    hide SplitPath, Plain;
    SplitOfSlashed(parts);
    assert Slashed(parts)[0] == parts[0][0];
  }

  lemma {:induction false} ComponentsAre(names: seq<string>)
    requires Names(names)
    ensures Components(Absolute(names)) == ["/"] + names
  {
    NamesArePlain(names);
    if names == [] {
      SplitHead("", "");
      assert "" + "/" + "" == "/";
      assert SplitPath("/") == ["", ""];
      PlainAcross([""], [""]);
      assert [""] + [""] == ["", ""];
    } else {
      AbsoluteComponents(names);
    }
  }

  /** Exactly the folder itself and what lies below it starts with a folder. */
  lemma CoversIff(folder: seq<string>, path: seq<string>)
    requires Names(folder) && Names(path)
    ensures PathStartsWith(Absolute(path), Absolute(folder)) <==> folder <= path
  {
    hide Components;
    ComponentsAre(folder);
    ComponentsAre(path);
    PrefixUnderRoot(folder, path);
  }

  lemma PrefixUnderRoot(a: seq<string>, b: seq<string>)
    ensures ["/"] + a <= ["/"] + b <==> a <= b
  {
    var c, d := ["/"] + a, ["/"] + b;
    assert |c| == |a| + 1 && |d| == |b| + 1;
    if |a| <= |b| {
      assert d[..|c|] == ["/"] + b[..|a|];
      assert c[1..] == a && d[..|c|][1..] == b[..|a|];
    }
  }

  /** A folder covers its entries, but not its own parent, and not a neighbour whose name merely begins
      with its own. */
  lemma FolderCovers(parent: seq<string>, name: string, entry: string, more: string)
    requires Names(parent) && IsName(name) && IsName(entry) && IsName(name + more) && more != ""
    ensures PathStartsWith(Absolute(parent + [name, entry]), Absolute(parent + [name]))
    ensures PathStartsWith(Absolute(parent + [name]), Absolute(parent + [name]))
    ensures !PathStartsWith(Absolute(parent), Absolute(parent + [name]))
    ensures !PathStartsWith(Absolute(parent + [name + more]), Absolute(parent + [name]))
  {
    hide PathStartsWith, IsName;
    var folder := parent + [name];
    CoversIff(folder, parent + [name, entry]);
    CoversIff(folder, folder);
    CoversIff(folder, parent);
    CoversIff(folder, parent + [name + more]);
    assert (parent + [name, entry])[..|folder|] == folder;
    assert folder[|parent|] == name && (parent + [name + more])[|parent|] == name + more && |name| != |name + more|;
  }
}
