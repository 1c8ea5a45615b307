/** Paths below a trusted root, and the tree of files there. Without symbolic links. */
module Storage {
  import opened Text

  /** An absolute path: its components from the file-system root down. */
  type Path = seq<string>

  function Split(s: string): (r: seq<string>)
    ensures r != []
    ensures forall i | 0 <= i < |r| :: '/' !in r[i]
  {
    if s == "" then [""]
    else
      var rest := Split(s[1..]);
      if s[0] == '/' then [""] + rest else [[s[0]] + rest[0]] + rest[1..]
  }

  /** A component that names an entry of the directory it is looked up in. */
  predicate Plain(name: string)
  {
    name != "" && name != "." && name != ".." && '/' !in name
  }

  function Walk(from: Path, parts: seq<string>): Path
    decreases |parts|
  {
    if parts == [] then from
    else
      var next :=
        if parts[0] == "" || parts[0] == "." then from
        else if parts[0] == ".." then (if from == [] then [] else from[..|from| - 1])
        else from + [parts[0]];
      Walk(next, parts[1..])
  }

  /** `base / part`, with an absolute part starting over from the top. */
  function Join(base: Path, part: string): Path
  {
    Walk(if part != "" && part[0] == '/' then [] else base, Split(part))
  }

  function JoinAll(base: Path, parts: seq<string>): Path
    decreases |parts|
  {
    if parts == [] then base else JoinAll(Join(base, parts[0]), parts[1..])
  }

  /** `safe_resolve`: the joined path if it lies at or below the root. */
  function SafeResolve(root: Path, parts: seq<string>): (r: Option<Path>)
    ensures r.Some? ==> root <= r.value
  {
    var candidate := JoinAll(root, parts);
    if root <= candidate then Some(candidate) else None
  }

  lemma {:induction false} SplitPlain(name: string)
    requires '/' !in name
    ensures Split(name) == [name]
  {
    if name != "" {
      SplitPlain(name[1..]);
      assert [name[0]] + name[1..] == name;
    }
  }

  lemma JoinPlain(base: Path, name: string)
    requires Plain(name)
    ensures Join(base, name) == base + [name]
  {
    SplitPlain(name);
    assert Walk(base, [name]) == Walk(base + [name], [name][1..]);
  }

  /** Every walk keeps paths made of plain components. */
  lemma {:induction false} WalkStaysPlain(from: Path, parts: seq<string>)
    requires forall i | 0 <= i < |from| :: Plain(from[i])
    requires forall i | 0 <= i < |parts| :: '/' !in parts[i]
    ensures forall i | 0 <= i < |Walk(from, parts)| :: Plain(Walk(from, parts)[i])
    decreases |parts|
  {
    if parts != [] {
      var next :=
        if parts[0] == "" || parts[0] == "." then from
        else if parts[0] == ".." then (if from == [] then [] else from[..|from| - 1])
        else from + [parts[0]];
      WalkStaysPlain(next, parts[1..]);
    }
  }

  /** What `safe_resolve` accepts is a chain of plain entries below the root: no `..` is left in it. */
  lemma {:induction false} JoinAllStaysPlain(base: Path, parts: seq<string>)
    requires forall i | 0 <= i < |base| :: Plain(base[i])
    ensures forall i | 0 <= i < |JoinAll(base, parts)| :: Plain(JoinAll(base, parts)[i])
    decreases |parts|
  {
    if parts != [] {
      WalkStaysPlain(if parts[0] != "" && parts[0][0] == '/' then [] else base, Split(parts[0]));
      JoinAllStaysPlain(Join(base, parts[0]), parts[1..]);
    }
  }

  /** Plain parts are always accepted, and name the entry one would expect. */
  lemma {:induction false} PlainPartsResolve(base: Path, parts: seq<string>)
    requires forall i | 0 <= i < |parts| :: Plain(parts[i])
    ensures JoinAll(base, parts) == base + parts
    decreases |parts|
  {
    if parts == [] {
      assert base + parts == base;
    } else {
      JoinPlain(base, parts[0]);
      PlainPartsResolve(base + [parts[0]], parts[1..]);
      assert base + parts == base + [parts[0]] + parts[1..];
    }
  }

  /** `..` takes back the entry before it. */
  lemma DotDotGoesBack(base: Path, name: string)
    requires Plain(name)
    ensures JoinAll(base, [name, ".."]) == base
  {
    JoinPlain(base, name);
    assert JoinAll(base, [name, ".."]) == JoinAll(base + [name], [name, ".."][1..]);
    assert [name, ".."][1..] == [".."];
    JoinDotDot(base + [name]);
    assert [".."][1..] == [];
  }

  lemma JoinDotDot(base: Path)
    ensures Join(base, "..") == if base == [] then [] else base[..|base| - 1]
  {
    SplitPlain("..");
    var up := if base == [] then [] else base[..|base| - 1];
    assert Walk(base, [".."]) == Walk(up, [".."][1..]);
  }

  /** So a part that goes up from the root is refused. */
  lemma DotDotRefused(root: Path, parts: seq<string>)
    requires root != [] && parts != [] && parts[0] == ".." && forall i | 0 < i < |parts| :: Plain(parts[i])
    ensures SafeResolve(root, parts).Some? <==> |parts| > 1 && parts[1] == root[|root| - 1]
  {
    JoinDotDot(root);
    var up := root[..|root| - 1];
    PlainPartsResolve(up, parts[1..]);
    if |parts| > 1 && parts[1] == root[|root| - 1] {
      assert root == up + [parts[1]];
      assert (up + parts[1..])[..|root|] == root;
    }
  }

  /** An absolute part starts over from the top: nothing of the root or of the parts before it is left. */
  lemma {:induction false} AbsolutePartStartsOver(base: Path, before: seq<string>, part: string, rest: seq<string>)
    requires part != "" && part[0] == '/'
    ensures JoinAll(base, before + [part] + rest) == JoinAll([], [part] + rest)
    decreases |before|
  {
    var parts := before + [part] + rest;
    if before == [] {
      assert parts == [part] + rest;
      assert Join(base, part) == Join([], part);
    } else {
      assert parts[1..] == before[1..] + [part] + rest;
      AbsolutePartStartsOver(Join(base, before[0]), before[1..], part, rest);
    }
  }

  /** An absolute path of plain entries is accepted exactly when it leads below the root. */
  lemma AbsolutePathAccepted(root: Path, entry: string)
    requires Plain(entry)
    ensures SafeResolve(root, ["/" + entry]).Some? <==> root <= [entry]
  {
    var part := "/" + entry;
    assert part[0] == '/' && part[1..] == entry;
    SplitPlain(entry);
    assert Split(part) == ["", entry];
    assert ["", entry][1..] == [entry];
    assert Walk([], ["", entry]) == Walk([], [entry]);
    assert Walk([], [entry]) == Walk([entry], [entry][1..]) == [entry];
    assert Join(root, part) == [entry];
    assert JoinAll(root, [part]) == JoinAll(Join(root, part), [part][1..]) == [entry];
  }

  // ------------------------------------------------------------------ file names

  function Named(parts: seq<string>): (r: seq<string>)
    ensures forall i | 0 <= i < |r| :: r[i] in parts && r[i] != "" && r[i] != "."
  {
    if parts == [] then []
    else (if parts[0] == "" || parts[0] == "." then [] else [parts[0]]) + Named(parts[1..])
  }

  /** `Path(s).name`: the last component. */
  function BaseName(s: string): (r: string)
    ensures '/' !in r && r != "."
  {
    var names := Named(Split(s));
    if names == [] then "" else names[|names| - 1]
  }

  lemma {:induction false} SplitAppends(dir: string, name: string)
    requires '/' !in name
    ensures Split(dir + "/" + name) == Split(dir) + [name]
  {
    var s := dir + "/" + name;
    if dir == "" {
      assert s[1..] == name;
      SplitPlain(name);
    } else {
      assert s[1..] == dir[1..] + "/" + name;
      SplitAppends(dir[1..], name);
    }
  }

  lemma {:induction false} NamedAppends(parts: seq<string>, name: string)
    ensures Named(parts + [name]) == Named(parts) + (if name == "" || name == "." then [] else [name])
  {
    if parts == [] {
      assert parts + [name] == [name];
      assert [name][1..] == [];
    } else {
      assert (parts + [name])[1..] == parts[1..] + [name];
      NamedAppends(parts[1..], name);
    }
  }

  /** The last component is kept, whatever stands before it; an empty one at the end does not count. */
  lemma BaseNameIsLast(dir: string, name: string)
    requires '/' !in name
    ensures BaseName(dir + "/" + name) == if name == "" || name == "." then BaseName(dir) else name
  {
    SplitAppends(dir, name);
    NamedAppends(Split(dir), name);
  }

  /** The name an upload is stored under; `substitute` replaces a name that cannot be used. */
  function SanitizeName(raw: string, substitute: string): (r: string)
    requires Plain(substitute)
    ensures Plain(r)
    ensures r == substitute || '\0' !in r
  {
    var name := BaseName(raw);
    if name == "" || name == "." || name == ".." || '\0' in name || '/' in name then substitute else name
  }

  /** A file name is kept as it is exactly when it is an ordinary one. */
  lemma OrdinaryNameKept(name: string, substitute: string)
    requires Plain(substitute) && name != substitute
    ensures SanitizeName(name, substitute) == name <==> Plain(name) && '\0' !in name
  {
    if Plain(name) {
      SplitPlain(name);
      assert Named([name]) == [name];
    }
  }

  /** Of a path only the last component is kept, and the substitute only stands in for one that cannot be used. */
  lemma PathNameKept(dir: string, name: string, substitute: string)
    requires Plain(substitute) && '/' !in name && name != "" && name != "." && name != substitute
    ensures SanitizeName(dir + "/" + name, substitute) == name <==> name != ".." && '\0' !in name
    ensures SanitizeName(dir + "/" + name, substitute) in {name, substitute}
  {
    BaseNameIsLast(dir, name);
  }

  // ------------------------------------------------------------------ the tree

  /**
    * How a write to a new file ends. It runs in a thread, so after a cancellation there may be
    * no file, a partial one, or a whole one.
    */
  datatype WriteEnd = Written | WriteRaises | WriteCancelled(left: Option<Bytes>)

  /** The tree after an atomic store: the new content, the old tree, or the old tree and a temporary file. */
  function FilesAfterStore(
    files: map<Path, Bytes>, target: Path, data: Bytes, tmp: Path, end: WriteEnd): map<Path, Bytes>
  {
    match end
    case Written => files[target := data]
    case WriteRaises => files
    case WriteCancelled(left) => if left.Some? then files[tmp := left.value] else files
  }

  class FileTree {
    var files: map<Path, Bytes>

    /** `tmp.write_bytes`, which may fail after writing some of it. */
    method Write(path: Path, data: Bytes, end: WriteEnd)
      requires path !in files
      modifies this
      ensures files == match end
                       case Written => old(files)[path := data]
                       case WriteRaises => old(files)[path := data[..|data| / 2]]
                       case WriteCancelled(left) => if left.Some? then old(files)[path := left.value] else old(files)
    {
      match end
      case Written => files := files[path := data];
      case WriteRaises => files := files[path := data[..|data| / 2]];
      case WriteCancelled(left) => if left.Some? { files := files[path := left.value]; }
    }

    /** `src.replace(dst)`: atomic. */
    method Replace(src: Path, dst: Path)
      requires src in files && src != dst
      modifies this
      ensures files == old(files)[dst := old(files)[src]] - {src}
    {
      files := files[dst := files[src]] - {src};
    }

    method Unlink(path: Path)
      modifies this
      ensures files == old(files) - {path}
    {
      files := files - {path};
    }

    /** Write under a temporary name, then rename. A failed write is cleaned up, a cancelled one is not. */
    method StoreAtomically(target: Path, data: Bytes, tmp: Path, end: WriteEnd)
      requires tmp !in files && tmp != target
      modifies this
      ensures files == FilesAfterStore(old(files), target, data, tmp, end)
      ensures end.Written? ==> files == old(files)[target := data]
      ensures end.WriteRaises? ==> files == old(files)
      ensures forall p | p != target && p != tmp :: p in files <==> p in old(files)
      ensures forall p | p != target && p != tmp && p in files :: files[p] == old(files)[p]
      ensures target in files && !end.Written? ==> target in old(files) && files[target] == old(files)[target]
    {
      Write(tmp, data, end);
      match end
      case Written => Replace(tmp, target);
      case WriteRaises => Unlink(tmp);
      case WriteCancelled(_) =>
    }
  }
}
