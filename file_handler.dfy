/**
 * Building the "context" text from files and directories: which names count as
 * text files, which directories are skipped, the recursive directory scan, the
 * tree rendering, and the assembly of file and directory context. The file
 * system is a `FileSystem` function from a path to the entry found there.
 */
module FileHandler {
  import opened Wrappers
  import opened Strings

  // ------------------------------------------------------------ names

  /** `TEXT_EXTENSIONS`, entry by entry in source order: its first run, then a second run
      that opens by repeating `.yml`, `.yaml`, `.toml`, `.ini`, `.cfg` and `.conf`. A
      repeated entry changes no answer of `Listed`. */
  const TextExtensions: seq<string> := FirstRun + SecondRun

  const FirstRun: seq<string> := [
    ".py", ".js", ".ts", ".jsx", ".tsx", ".html", ".css", ".scss", ".sass", ".json", ".xml",
    ".yaml", ".yml", ".toml", ".ini", ".cfg", ".conf", ".md", ".txt", ".rst", ".log", ".sql",
    ".sh", ".bash", ".zsh", ".fish", ".dockerfile", ".dockerignore", ".gitignore", ".env",
    ".env.example"
  ]

  const SecondRun: seq<string> := [
    ".yml", ".yaml", ".toml", ".ini", ".cfg", ".conf", ".properties", ".java",
    ".c", ".cpp", ".h", ".hpp", ".cs", ".php", ".rb", ".go", ".rs", ".swift", ".kt", ".scala",
    ".clj", ".hs", ".ml", ".fs", ".vue", ".svelte", ".astro", ".elm", ".cljs", ".ex", ".exs",
    ".lock", ".lockfile", ".package-lock.json", ".yarn.lock"
  ]

  /** Membership in a list of names, checked one entry at a time. */
  predicate Listed(name: string, list: seq<string>)
    decreases |list|
  {
    list != [] && (list[0] == name || Listed(name, list[1..]))
  }

  /** `Listed` is membership. */
  lemma {:induction false} ListedIsMembership(name: string, list: seq<string>)
    ensures Listed(name, list) <==> name in list
    decreases |list|
  {
    if list != [] {
      ListedIsMembership(name, list[1..]);
      assert list == [list[0]] + list[1..];
    }
  }

  predicate IsTextExtension(ext: string) {
    Listed(ext, TextExtensions)
  }

  /** `SKIP_DIRS`, compared literally: `*.egg-info` and the other glob-like entries only
      match a directory with exactly that name. */
  const SkipDirs: set<string> := {
    ".git", ".svn", ".hg", "__pycache__", "node_modules", ".venv", "venv", "env", ".env",
    ".pytest_cache", ".mypy_cache", ".coverage", "dist", "build", "target", ".idea", ".vscode",
    ".DS_Store", "Thumbs.db", "*.egg-info", "*.pyc", "*.pyo", "*.pyd"
  }

  predicate IsSkipDir(name: string) {
    name in SkipDirs
  }

  /** `Path.suffix` of a final path component: from its last dot, provided that dot is
      neither the first nor the last character. */
  function Suffix(name: string): (ext: string)
    ensures ext == "" || (ext[0] == '.' && '.' !in ext[1..] && EndsWith(name, ext))
  {
    var i := RFind(name, '.');
    if 0 < i < |name| - 1 then
      assert forall k :: 1 <= k < |name[i..]| ==> name[i..][k] == name[i + k];
      name[i..]
    else ""
  }

  /** A non-empty stem, a dot, and text with no dot: the suffix is that dot and text. */
  lemma SuffixOfStem(stem: string, e: string)
    requires |stem| > 0 && |e| > 0 && '.' !in e
    ensures Suffix(stem + "." + e) == "." + e
  {
    var name := stem + "." + e;
    assert name[|stem|] == '.';
    assert RFind(name, '.') == |stem| by {
      forall j | |stem| < j < |name| ensures name[j] != '.' {
        assert name[j] == e[j - |stem| - 1];
      }
    }
    assert name[|stem|..] == "." + e;
  }

  /** There is no suffix exactly when the name is empty, ends with a dot, or has no dot
      after its first character. */
  lemma SuffixEmptyIff(name: string)
    ensures Suffix(name) == "" <==>
      name == [] || name[|name| - 1] == '.' || forall k | 0 < k < |name| :: name[k] != '.'
  {
    var i := RFind(name, '.');
    if name != [] && name[|name| - 1] != '.' && exists k | 0 < k < |name| :: name[k] == '.' {
      var k :| 0 < k < |name| && name[k] == '.';
      assert k <= i;
      assert 0 < i < |name| - 1;
      assert name[i..][0] == '.';
    }
  }

  /** `is_text_file`: the lower-cased suffix is a text extension. */
  predicate IsTextFile(name: string) {
    IsTextExtension(Lower(Suffix(name)))
  }

  /** `should_skip_directory`. */
  predicate ShouldSkipDirectory(name: string) {
    IsSkipDir(name) || StartsWith(name, ".")
  }

  lemma SuffixLower(name: string)
    ensures Suffix(Lower(name)) == Lower(Suffix(name))
  {
    RFindLower(name, '.');
    var i := RFind(name, '.');
    if 0 < i < |name| - 1 {
      LowerSlice(name, i, |name|);
      assert name[i..] == name[i..|name|] && Lower(name)[i..] == Lower(name)[i..|name|];
    }
  }

  lemma LowerSuffixAgree(a: string, b: string)
    requires Lower(a) == Lower(b)
    ensures Lower(Suffix(a)) == Lower(Suffix(b))
  {
    SuffixLower(a);
    SuffixLower(b);
  }

  /** `is_text_file` ignores case. */
  lemma IsTextFileCaseInsensitive(a: string, b: string)
    requires Lower(a) == Lower(b)
    ensures IsTextFile(a) <==> IsTextFile(b)
  {
    LowerSuffixAgree(a, b);
  }

  /** A suffix holds a single dot, so the two-dot entries of `TEXT_EXTENSIONS` never match. */
  lemma TwoDotExtensionsNeverMatch(name: string)
    ensures Lower(Suffix(name)) != ".env.example"
    ensures Lower(Suffix(name)) != ".package-lock.json"
    ensures Lower(Suffix(name)) != ".yarn.lock"
  {
    var ext := Suffix(name);
    var l := Lower(ext);
    if ext != "" {
      forall k | 1 <= k < |l| ensures l[k] != '.' {
        LowerCharFixes(ext[k], '.');
        assert ext[k] == ext[1..][k - 1];
      }
      assert ".env.example"[4] == '.';
      assert ".package-lock.json"[13] == '.';
      assert ".yarn.lock"[5] == '.';
    }
  }

  lemma SuffixOfDotEnv()
    ensures Suffix(".env") == ""
  {
    assert ".env"[0] == '.' && forall k :: 1 <= k < 4 ==> ".env"[k] != '.';
    assert RFind(".env", '.') == 0;
  }

  lemma SuffixOfXEnv()
    ensures Suffix("x.env") == ".env"
  {
    var s := "x.env";
    assert s[1] == '.' && forall k :: 2 <= k < 5 ==> s[k] != '.';
    assert RFind(s, '.') == 1;
    assert s[1..] == ".env";
  }

  /** The empty suffix is not a text extension. */
  lemma EmptyIsNotTextExtension()
    ensures !IsTextExtension("")
  {
    ListedIsMembership("", TextExtensions);
    assert "" !in FirstRun;
    assert "" !in SecondRun;
  }

  /** `.env` has no suffix and is not a text file, while `x.env` is. */
  lemma DotEnvIsNotText()
    ensures !IsTextFile(".env")
    ensures IsTextFile("x.env")
  {
    SuffixOfDotEnv();
    SuffixOfXEnv();
    EmptyIsNotTextExtension();
    assert Lower("") == "" && Lower(".env") == ".env";
    ListedIsMembership(".env", TextExtensions);
    assert TextExtensions[29] == ".env";
  }

  /** Every dot-prefixed name is skipped; glob-like entries are compared literally. */
  lemma SkipDirectoryExamples(name: string)
    requires StartsWith(name, ".")
    ensures ShouldSkipDirectory(name)
    ensures ShouldSkipDirectory("*.egg-info") && !ShouldSkipDirectory("grok_cli.egg-info")
    ensures ShouldSkipDirectory("node_modules") && !ShouldSkipDirectory("src")
  {
    assert "grok_cli.egg-info"[..1][0] != '.';
    assert "src"[..1][0] != '.';
  }

  // ------------------------------------------------------------ the file system

  /** One directory entry. A file carries its size and, when it decodes as UTF-8 and may
      be read, its text; a directory its entries and whether it may be listed; anything
      else (a socket, a broken link) is `Other`. */
  datatype Node =
    | File(name: string, size: nat, text: Option<string>)
    | Dir(name: string, entries: seq<Node>, listable: bool)
    | Other(name: string)

  /** What exists at each path; `None` where nothing does. */
  type FileSystem = string -> Option<Node>

  /** `Path(p).name` for a path string in the normal form `str(Path(p))` produces. */
  function PathName(p: string): string {
    if p == "." then "" else p[RFind(p, '/') + 1..]
  }

  /** `str(Path(parent) / name)`. */
  function JoinPath(parent: string, name: string): string {
    if parent == "." then name
    else if |parent| > 0 && parent[|parent| - 1] == '/' then parent + name
    else parent + "/" + name
  }

  const MaxFileSize: nat := 1024 * 1024

  /** `read_file_contents` of an entry: only a file of at most 1 MiB whose text can be read. */
  function ReadNode(n: Option<Node>): (r: Option<string>)
    ensures r.Some? ==> n.Some? && n.value.File? && n.value.size <= MaxFileSize && n.value.text == r
  {
    match n
    case Some(File(_, size, text)) => if size > MaxFileSize then None else text
    case _ => None
  }

  function ReadFileContents(fs: FileSystem, path: string): Option<string> {
    ReadNode(fs(path))
  }

  // ------------------------------------------------------------ sorting

  /** Python's `<=` on strings: code point by code point, a prefix first. */
  predicate NameLe(a: string, b: string)
    decreases |a|
  {
    |a| == 0 || (|b| > 0 && (a[0] < b[0] || (a[0] == b[0] && NameLe(a[1..], b[1..]))))
  }

  lemma {:induction false} NameLeTotal(a: string, b: string)
    ensures NameLe(a, b) || NameLe(b, a)
    decreases |a|
  {
    if |a| > 0 && |b| > 0 && a[0] == b[0] {
      NameLeTotal(a[1..], b[1..]);
    }
  }

  predicate SortedByName(s: seq<Node>) {
    forall i :: 0 < i < |s| ==> NameLe(s[i - 1].name, s[i].name)
  }

  function InsertByName(x: Node, s: seq<Node>): (r: seq<Node>)
    requires SortedByName(s)
    ensures multiset(r) == multiset(s) + multiset{x}
    ensures SortedByName(r)
    ensures |r| > 0 && (r[0] == x || (|s| > 0 && r[0] == s[0]))
    decreases |s|
  {
    if |s| == 0 then [x]
    else if NameLe(x.name, s[0].name) then [x] + s
    else
      NameLeTotal(x.name, s[0].name);
      assert s == [s[0]] + s[1..];
      [s[0]] + InsertByName(x, s[1..])
  }

  /** `sorted(directory_path.iterdir())`: the entries ordered by name, a permutation of them. */
  function SortByName(s: seq<Node>): (r: seq<Node>)
    ensures multiset(r) == multiset(s)
    ensures SortedByName(r)
    decreases |s|
  {
    if |s| == 0 then []
    else
      assert s == [s[0]] + s[1..];
      InsertByName(s[0], SortByName(s[1..]))
  }

  // ------------------------------------------------------------ scanning

  /** The two name tests the scan applies. The walk is written over them, so what is proved
      about the walk does not depend on the contents of the tables; `Scan` fixes them to
      `is_text_file` and `should_skip_directory`. */
  datatype Filters = Filters(isTextFile: string -> bool, skipDirectory: string -> bool)

  const SourceFilters: Filters := Filters(IsTextFile, ShouldSkipDirectory)

  /** One entry of a scan's `files` list. */
  datatype FileInfo = FileInfo(name: string, path: string, size: nat, content: string)

  /** The dictionary `scan_directory` returns when it succeeds; its failure value `{}` is `None`. */
  datatype ScanResult = ScanResult(path: string, name: string, files: seq<FileInfo>,
                                   directories: seq<ScanResult>, contents: map<string, ScanResult>)

  /** The `files`, `directories` and `contents` collected from a prefix of the listing. */
  datatype Listing = Listing(files: seq<FileInfo>, directories: seq<ScanResult>, contents: map<string, ScanResult>)

  /** What `scan_directory(path, max_depth)` returns for the entry `node` found at `path`,
      whose name is `name`: nothing unless it is a directory that can be listed, otherwise
      what the loop collects from its entries in sorted order. */
  function ScanOf(filters: Filters, path: string, name: string, node: Node, maxDepth: int): (r: Option<ScanResult>)
    ensures r.Some? ==> r.value.path == path && r.value.name == name
    decreases node, 1
  {
    if !node.Dir? || !node.listable then None
    else
      SortedEntries(node);
      var l := ScanItems(filters, path, SortByName(node.entries), maxDepth, node);
      Some(ScanResult(path, name, l.files, l.directories, l.contents))
  }

  /** The loop of `scan_directory` over `items`, which are entries of `parent`. */
  function ScanItems(filters: Filters, path: string, items: seq<Node>, maxDepth: int, parent: Node): (l: Listing)
    requires parent.Dir? && forall x | x in items :: x in parent.entries
    decreases parent, 0, |items|
  {
    if |items| == 0 then Listing([], [], map[])
    else
      var init := items[..|items| - 1];
      assert forall x | x in init :: x in items;
      ScanEntry(filters, path, ScanItems(filters, path, init, maxDepth, parent), items[|items| - 1], maxDepth, parent)
  }

  /** One turn of that loop: a hidden name is skipped; a text file is listed when it can
      be read; a directory that is not skipped is scanned one level shallower while depth
      remains, and listed when that scan succeeds. */
  function ScanEntry(filters: Filters, path: string, acc: Listing, item: Node, maxDepth: int, parent: Node): (l: Listing)
    requires parent.Dir? && item in parent.entries
    decreases parent, 0, 0
  {
    if StartsWith(item.name, ".") then acc
    else if item.File? && filters.isTextFile(item.name) then
      match ReadNode(Some(item))
      case None => acc
      case Some(c) => acc.(files := acc.files + [FileInfo(item.name, JoinPath(path, item.name), item.size, c)])
    else if item.Dir? && !filters.skipDirectory(item.name) && maxDepth > 0 then
      match ScanOf(filters, JoinPath(path, item.name), item.name, item, maxDepth - 1)
      case None => acc
      case Some(sub) => acc.(directories := acc.directories + [sub], contents := acc.contents[item.name := sub])
    else acc
  }

  /** `scan_directory(directory_path, max_depth)`: `None` (the empty dict) when nothing is
      at the path, it is not a directory, or it cannot be listed. */
  function Scan(fs: FileSystem, path: string, maxDepth: int): Option<ScanResult> {
    match fs(path)
    case None => None
    case Some(node) => ScanOf(SourceFilters, path, PathName(path), node, maxDepth)
  }

  /** The scan, written as the source does it: a loop over the sorted listing filling
      the three collections, with a recursive call per subdirectory. */
  method ScanNode(filters: Filters, path: string, name: string, node: Node, maxDepth: int) returns (r: Option<ScanResult>)
    ensures r == ScanOf(filters, path, name, node, maxDepth)
    decreases node, 1
  {
    if !node.Dir? || !node.listable {
      return None;
    }
    var items := SortByName(node.entries);
    SortedEntries(node);
    var files: seq<FileInfo> := [];
    var directories: seq<ScanResult> := [];
    var contents: map<string, ScanResult> := map[];
    for i := 0 to |items|
      invariant Listing(files, directories, contents) == ScanItems(filters, path, items[..i], maxDepth, node)
    {
      assert items[..i + 1][..i] == items[..i] && items[..i + 1][i] == items[i];
      assert items[i] in node.entries;
      files, directories, contents := ScanItem(filters, path, files, directories, contents, items[i], maxDepth, node);
    }
    assert items[..|items|] == items;
    r := Some(ScanResult(path, name, files, directories, contents));
  }

  /** The body of the loop of `scan_directory` for one entry `item` of `parent`. */
  method ScanItem(filters: Filters, path: string, files: seq<FileInfo>, directories: seq<ScanResult>,
                  contents: map<string, ScanResult>, item: Node, maxDepth: int, ghost parent: Node)
    returns (files': seq<FileInfo>, directories': seq<ScanResult>, contents': map<string, ScanResult>)
    requires parent.Dir? && item in parent.entries
    ensures Listing(files', directories', contents')
         == ScanEntry(filters, path, Listing(files, directories, contents), item, maxDepth, parent)
    decreases parent, 0
  {
    files', directories', contents' := files, directories, contents;
    if StartsWith(item.name, ".") {
      return;
    }
    if item.File? && filters.isTextFile(item.name) {
      var content := ReadNode(Some(item));
      if content.Some? {
        files' := files + [FileInfo(item.name, JoinPath(path, item.name), item.size, content.value)];
      }
    } else if item.Dir? && !filters.skipDirectory(item.name) {
      if maxDepth > 0 {
        var sub := ScanNode(filters, JoinPath(path, item.name), item.name, item, maxDepth - 1);
        if sub.Some? {
          directories' := directories + [sub.value];
          contents' := contents[item.name := sub.value];
        }
      }
    }
  }

  method ScanDirectory(fs: FileSystem, path: string, maxDepth: int) returns (r: Option<ScanResult>)
    ensures r == Scan(fs, path, maxDepth)
  {
    var node := fs(path);
    if node.None? {
      return None;
    }
    r := ScanNode(SourceFilters, path, PathName(path), node.value, maxDepth);
  }

  /** No entry anywhere in a scan result has a dot-prefixed name. */
  predicate NoHidden(r: ScanResult)
    decreases r
  {
    && (forall i | 0 <= i < |r.files| :: !StartsWith(r.files[i].name, "."))
    && (forall i | 0 <= i < |r.directories| :: !StartsWith(r.directories[i].name, ".") && NoHidden(r.directories[i]))
  }

  /** Subdirectories nest at most `d` levels deep. */
  predicate NestingAtMost(r: ScanResult, d: int)
    decreases r
  {
    && (r.directories != [] ==> d > 0)
    && forall i | 0 <= i < |r.directories| :: NestingAtMost(r.directories[i], d - 1)
  }

  /** The entries of a directory, sorted, are entries of that directory. */
  lemma SortedEntries(node: Node)
    requires node.Dir?
    ensures forall x | x in SortByName(node.entries) :: x in node.entries
  {
    forall x | x in SortByName(node.entries) ensures x in node.entries {
      assert x in multiset(SortByName(node.entries));
    }
  }

  /** A file entry kept by the scan: not hidden, passing the text test, listed under its
      joined path with its size and the text read from it. */
  predicate KeptFile(filters: Filters, item: Node, f: FileInfo, path: string) {
    && item.File?
    && f.name == item.name
    && !StartsWith(f.name, ".")
    && filters.isTextFile(f.name)
    && f.path == JoinPath(path, f.name)
    && f.size == item.size
    && ReadNode(Some(item)) == Some(f.content)
  }

  /** `f` was listed for one of `items`. */
  predicate FileFrom(filters: Filters, f: FileInfo, items: seq<Node>, path: string) {
    exists item | item in items :: KeptFile(filters, item, f, path)
  }

  /** Each file was kept for one of `items`. */
  predicate FilesFrom(filters: Filters, files: seq<FileInfo>, items: seq<Node>, path: string) {
    forall i | 0 <= i < |files| :: FileFrom(filters, files[i], items, path)
  }

  /** Each subdirectory is neither hidden nor skipped, has nothing hidden inside and nests
      one level less deep; there are none unless depth remains. */
  predicate DirectoriesKept(filters: Filters, dirs: seq<ScanResult>, maxDepth: int) {
    forall i | 0 <= i < |dirs| ::
      && !StartsWith(dirs[i].name, ".")
      && !filters.skipDirectory(dirs[i].name)
      && NoHidden(dirs[i])
      && maxDepth > 0
      && NestingAtMost(dirs[i], maxDepth - 1)
  }

  /** `contents` maps exactly the subdirectory names, each to a subdirectory of that name. */
  predicate ContentsMatch(dirs: seq<ScanResult>, contents: map<string, ScanResult>) {
    && (forall k | k in contents :: contents[k] in dirs && contents[k].name == k)
    && (forall i | 0 <= i < |dirs| :: dirs[i].name in contents)
  }

  /** What a listing collected from `items` holds. */
  predicate ListingInvariant(filters: Filters, l: Listing, path: string, items: seq<Node>, maxDepth: int) {
    && FilesFrom(filters, l.files, items, path)
    && DirectoriesKept(filters, l.directories, maxDepth)
    && ContentsMatch(l.directories, l.contents)
  }

  lemma FileFromGrow(filters: Filters, f: FileInfo, items: seq<Node>, extra: Node, path: string)
    requires FileFrom(filters, f, items, path)
    ensures FileFrom(filters, f, items + [extra], path)
  {
    var w :| w in items && KeptFile(filters, w, f, path);
    assert w in items + [extra];
  }

  lemma FilesFromGrow(filters: Filters, files: seq<FileInfo>, items: seq<Node>, extra: Node, path: string)
    requires FilesFrom(filters, files, items, path)
    ensures FilesFrom(filters, files, items + [extra], path)
  {
    forall i | 0 <= i < |files| ensures FileFrom(filters, files[i], items + [extra], path) {
      FileFromGrow(filters, files[i], items, extra, path);
    }
  }

  lemma FilesFromAppend(filters: Filters, files: seq<FileInfo>, items: seq<Node>, item: Node, f: FileInfo, path: string)
    requires FilesFrom(filters, files, items, path) && KeptFile(filters, item, f, path)
    ensures FilesFrom(filters, files + [f], items + [item], path)
  {
    FilesFromGrow(filters, files, items, item, path);
    assert item in items + [item];
    assert FileFrom(filters, f, items + [item], path);
  }

  lemma DirectoriesKeptAppend(filters: Filters, dirs: seq<ScanResult>, sub: ScanResult, maxDepth: int)
    requires DirectoriesKept(filters, dirs, maxDepth)
    requires !StartsWith(sub.name, ".") && !filters.skipDirectory(sub.name) && maxDepth > 0
    requires NoHidden(sub) && NestingAtMost(sub, maxDepth - 1)
    ensures DirectoriesKept(filters, dirs + [sub], maxDepth)
  {
    assert forall i | 0 <= i < |dirs| :: (dirs + [sub])[i] == dirs[i];
  }

  lemma ContentsMatchAppend(dirs: seq<ScanResult>, contents: map<string, ScanResult>, sub: ScanResult)
    requires ContentsMatch(dirs, contents)
    ensures ContentsMatch(dirs + [sub], contents[sub.name := sub])
  {
    var dirs', contents' := dirs + [sub], contents[sub.name := sub];
    forall k | k in contents' ensures contents'[k] in dirs' && contents'[k].name == k {
      if k != sub.name {
        assert contents'[k] == contents[k];
      }
    }
    forall i | 0 <= i < |dirs'| ensures dirs'[i].name in contents' {
      if i < |dirs| {
        assert dirs'[i] == dirs[i];
      }
    }
  }

  /** A scan that succeeds reports nothing hidden, nests no deeper than `maxDepth`, and
      its listing keeps the invariant over the directory's entries. */
  lemma {:induction false} ScanShape(filters: Filters, path: string, name: string, node: Node, maxDepth: int)
    requires ScanOf(filters, path, name, node, maxDepth).Some?
    ensures var r := ScanOf(filters, path, name, node, maxDepth).value;
      && ListingInvariant(filters, Listing(r.files, r.directories, r.contents), path, SortByName(node.entries), maxDepth)
      && NoHidden(r)
      && NestingAtMost(r, maxDepth)
    decreases node, 1
  {
    SortedEntries(node);
    ScanItemsSound(filters, path, SortByName(node.entries), maxDepth, node);
    var r := ScanOf(filters, path, name, node, maxDepth).value;
    var l := ScanItems(filters, path, SortByName(node.entries), maxDepth, node);
    assert r.directories == l.directories;
    if r.directories != [] {
      assert !StartsWith(l.directories[0].name, ".") && maxDepth > 0;
    }
  }

  lemma {:induction false} ScanItemsSound(filters: Filters, path: string, items: seq<Node>, maxDepth: int, parent: Node)
    requires parent.Dir? && forall x | x in items :: x in parent.entries
    ensures ListingInvariant(filters, ScanItems(filters, path, items, maxDepth, parent), path, items, maxDepth)
    decreases parent, 0, |items| + 1
  {
    if |items| > 0 {
      var init := items[..|items| - 1];
      assert forall x | x in init :: x in items;
      ScanItemsSound(filters, path, init, maxDepth, parent);
      ScanEntrySound(filters, path, ScanItems(filters, path, init, maxDepth, parent), init, items[|items| - 1], maxDepth, parent);
      assert init + [items[|items| - 1]] == items;
    }
  }

  lemma {:induction false} ScanEntrySound(filters: Filters, path: string, acc: Listing, items: seq<Node>, item: Node,
                                          maxDepth: int, parent: Node)
    requires parent.Dir? && item in parent.entries
    requires ListingInvariant(filters, acc, path, items, maxDepth)
    ensures ListingInvariant(filters, ScanEntry(filters, path, acc, item, maxDepth, parent), path, items + [item], maxDepth)
    decreases parent, 0, 1
  {
    if StartsWith(item.name, ".") {
      ListingGrowsSkip(filters, acc, path, items, item, maxDepth);
    } else if item.File? && filters.isTextFile(item.name) {
      if ReadNode(Some(item)).Some? {
        ListingGrowsFile(filters, acc, path, items, item, maxDepth,
          FileInfo(item.name, JoinPath(path, item.name), item.size, ReadNode(Some(item)).value));
      } else {
        ListingGrowsSkip(filters, acc, path, items, item, maxDepth);
      }
    } else if item.Dir? && !filters.skipDirectory(item.name) && maxDepth > 0 {
      ScanDirEntrySound(filters, path, acc, items, item, maxDepth, parent);
    } else {
      ListingGrowsSkip(filters, acc, path, items, item, maxDepth);
    }
  }

  /** The turn of the loop for a directory that is neither hidden nor skipped, while depth remains. */
  lemma {:induction false} ScanDirEntrySound(filters: Filters, path: string, acc: Listing, items: seq<Node>, item: Node,
                                             maxDepth: int, parent: Node)
    requires parent.Dir? && item in parent.entries
    requires ListingInvariant(filters, acc, path, items, maxDepth)
    requires !StartsWith(item.name, ".") && item.Dir? && !filters.skipDirectory(item.name) && maxDepth > 0
    ensures ListingInvariant(filters, ScanEntry(filters, path, acc, item, maxDepth, parent), path, items + [item], maxDepth)
    decreases parent, 0, 0
  {
    var sub := ScanOf(filters, JoinPath(path, item.name), item.name, item, maxDepth - 1);
    if sub.Some? {
      ScanShape(filters, JoinPath(path, item.name), item.name, item, maxDepth - 1);
      ListingGrowsDir(filters, acc, path, items, item, maxDepth, sub.value);
    } else {
      ListingGrowsSkip(filters, acc, path, items, item, maxDepth);
    }
  }

  lemma {:induction false} ListingGrowsSkip(filters: Filters, acc: Listing, path: string, items: seq<Node>, item: Node, maxDepth: int)
    requires ListingInvariant(filters, acc, path, items, maxDepth)
    ensures ListingInvariant(filters, acc, path, items + [item], maxDepth)
  {
    FilesFromGrow(filters, acc.files, items, item, path);
  }

  lemma {:induction false} ListingGrowsFile(filters: Filters, acc: Listing, path: string, items: seq<Node>, item: Node, maxDepth: int,
                                            f: FileInfo)
    requires ListingInvariant(filters, acc, path, items, maxDepth)
    requires KeptFile(filters, item, f, path)
    ensures ListingInvariant(filters, acc.(files := acc.files + [f]), path, items + [item], maxDepth)
  {
    FilesFromAppend(filters, acc.files, items, item, f, path);
  }

  lemma {:induction false} ListingGrowsDir(filters: Filters, acc: Listing, path: string, items: seq<Node>, item: Node, maxDepth: int,
                                           sub: ScanResult)
    requires ListingInvariant(filters, acc, path, items, maxDepth)
    requires sub.name == item.name && !StartsWith(item.name, ".") && !filters.skipDirectory(item.name) && maxDepth > 0
    requires NoHidden(sub) && NestingAtMost(sub, maxDepth - 1)
    ensures ListingInvariant(filters, acc.(directories := acc.directories + [sub], contents := acc.contents[item.name := sub]),
                             path, items + [item], maxDepth)
  {
    FilesFromGrow(filters, acc.files, items, item, path);
    DirectoriesKeptAppend(filters, acc.directories, sub, maxDepth);
    ContentsMatchAppend(acc.directories, acc.contents, sub);
  }

  /** `scan_directory` reports nothing hidden at any level and nests at most `max_depth`
      levels (none at all for depth 0); each file it lists directly is a readable text
      file among the directory's own entries; each listed subdirectory is not skipped. */
  lemma ScanSound(fs: FileSystem, path: string, maxDepth: int)
    requires Scan(fs, path, maxDepth).Some?
    ensures var r := Scan(fs, path, maxDepth).value;
      && NoHidden(r)
      && NestingAtMost(r, maxDepth)
      && (maxDepth <= 0 ==> r.directories == [])
      && (forall i | 0 <= i < |r.directories| :: !ShouldSkipDirectory(r.directories[i].name))
      && forall i | 0 <= i < |r.files| :: FileFrom(SourceFilters, r.files[i], fs(path).value.entries, path)
  {
    var node := fs(path).value;
    var r := ScanOf(SourceFilters, path, PathName(path), node, maxDepth).value;
    ScanShape(SourceFilters, path, PathName(path), node, maxDepth);
    SortedEntries(node);
    if r.directories != [] {
      assert NestingAtMost(r.directories[0], maxDepth - 1);
    }
    forall i | 0 <= i < |r.files| ensures FileFrom(SourceFilters, r.files[i], node.entries, path) {
      assert FileFrom(SourceFilters, r.files[i], SortByName(node.entries), path);
      var w :| w in SortByName(node.entries) && KeptFile(SourceFilters, w, r.files[i], path);
    }
  }

  // ------------------------------------------------------------ the tree

  const DirectoryIcon: string := "📁 "
  const FileIcon: string := "📄 "

  function SizeNote(size: nat): string {
    if size > 1024 then " (" + NatToString(size) + " bytes)" else ""
  }

  function FileLine(f: FileInfo, indent: string): string {
    indent + "  " + FileIcon + f.name + SizeNote(f.size)
  }

  function Flatten(ss: seq<seq<string>>): seq<string>
    decreases |ss|
  {
    if |ss| == 0 then [] else Flatten(ss[..|ss| - 1]) + ss[|ss| - 1]
  }

  /** The lines of `format_directory_tree`, in pre-order: the directory line, one line per
      file, then each subdirectory's lines two spaces further in. */
  function TreeLines(r: ScanResult, indent: string): (lines: seq<string>)
    ensures |lines| >= 1 && lines[0] == indent + DirectoryIcon + r.name + "/"
    decreases r
  {
    [indent + DirectoryIcon + r.name + "/"] + FileLines(r, indent) + Flatten(SubtreeLines(r, indent))
  }

  function FileLines(r: ScanResult, indent: string): (lines: seq<string>)
    ensures |lines| == |r.files|
  {
    seq(|r.files|, i requires 0 <= i < |r.files| => FileLine(r.files[i], indent))
  }

  function SubtreeLines(r: ScanResult, indent: string): (ts: seq<seq<string>>)
    ensures |ts| == |r.directories|
    decreases r, 0
  {
    seq(|r.directories|, i requires 0 <= i < |r.directories| => TreeLines(r.directories[i], indent + "  "))
  }

  /** Number of entries a scan result lists, at every level. */
  function EntryCount(r: ScanResult): nat
    decreases r
  {
    |r.files| + SumCounts(r, |r.directories|)
  }

  function SumCounts(r: ScanResult, n: nat): nat
    requires n <= |r.directories|
    decreases r, n
  {
    if n == 0 then 0 else SumCounts(r, n - 1) + 1 + EntryCount(r.directories[n - 1])
  }

  /** Every line of the tree starts with the indent it was given, and there is exactly one
      line per directory and file listed. */
  lemma {:induction false} TreeLinesShape(r: ScanResult, indent: string)
    ensures forall k | 0 <= k < |TreeLines(r, indent)| :: StartsWith(TreeLines(r, indent)[k], indent)
    ensures |TreeLines(r, indent)| == 1 + EntryCount(r)
    decreases r, 1
  {
    var ts := SubtreeLines(r, indent);
    SubtreesShape(r, indent, |r.directories|);
    var lines := TreeLines(r, indent);
    var head := [indent + DirectoryIcon + r.name + "/"] + FileLines(r, indent);
    assert lines == head + Flatten(ts);
    assert ts[..|ts|] == ts;
    forall k | 0 <= k < |lines| ensures StartsWith(lines[k], indent) {
      if k < |head| {
        assert lines[k] == head[k];
      } else {
        assert lines[k] == Flatten(ts)[k - |head|];
        assert StartsWith(lines[k], indent + "  ");
        assert lines[k][..|indent|] == (indent + "  ")[..|indent|];
      }
    }
  }

  /** The subtrees of the first `n` subdirectories: one line per entry they list, each
      indented two spaces more than the parent. */
  lemma {:induction false} SubtreesShape(r: ScanResult, indent: string, n: nat)
    requires n <= |r.directories|
    ensures var f := Flatten(SubtreeLines(r, indent)[..n]);
      && |f| == SumCounts(r, n)
      && forall k | 0 <= k < |f| :: StartsWith(f[k], indent + "  ")
    decreases r, 0, n
  {
    var ts := SubtreeLines(r, indent);
    if n > 0 {
      SubtreesShape(r, indent, n - 1);
      var d := r.directories[n - 1];
      TreeLinesShape(d, indent + "  ");
      assert ts[..n][..n - 1] == ts[..n - 1];
      var f0 := Flatten(ts[..n - 1]);
      var t := ts[n - 1];
      assert Flatten(ts[..n]) == f0 + t;
      forall k | 0 <= k < |f0 + t| ensures StartsWith((f0 + t)[k], indent + "  ") {
        if k >= |f0| {
          assert (f0 + t)[k] == t[k - |f0|];
        }
      }
    }
  }

  /** Extending lines that join like `base` by the split of `Join(t)` joins like `base + t`. */
  lemma JoinStep(lines: seq<string>, base: seq<string>, t: seq<string>)
    requires |lines| >= 1 && |base| >= 1 && |t| >= 1
    requires Join("\n", lines) == Join("\n", base)
    ensures Join("\n", lines + Split(Join("\n", t), '\n')) == Join("\n", base + t)
  {
    var x := Join("\n", t);
    JoinConcat("\n", lines, Split(x, '\n'));
    JoinSplit(x, '\n');
    JoinConcat("\n", base, t);
  }

  lemma AppendSubtreeStep(acc: seq<string>, lines: seq<string>, ts: seq<seq<string>>, i: nat)
    requires i < |ts| && |acc| >= 1 && |lines| >= 1 && |ts[i]| >= 1
    requires Join("\n", acc) == Join("\n", lines + Flatten(ts[..i]))
    ensures Join("\n", acc + Split(Join("\n", ts[i]), '\n')) == Join("\n", lines + Flatten(ts[..i + 1]))
  {
    FlattenPrefix(lines, ts, i);
    JoinStep(acc, lines + Flatten(ts[..i]), ts[i]);
  }

  lemma FlattenPrefix(lines: seq<string>, ts: seq<seq<string>>, i: nat)
    requires i < |ts|
    ensures lines + Flatten(ts[..i + 1]) == (lines + Flatten(ts[..i])) + ts[i]
  {
    assert ts[..i + 1][..i] == ts[..i];
  }

  /** `format_directory_tree`: `""` for the empty dict, otherwise the lines of the tree
      joined by newlines. */
  method FormatDirectoryTree(data: Option<ScanResult>, indent: string) returns (s: string)
    ensures data.None? ==> s == ""
    ensures data.Some? ==> s == Join("\n", TreeLines(data.value, indent))
  {
    if data.None? {
      return "";
    }
    s := FormatTree(data.value, indent);
  }

  /** `format_directory_tree` of a non-empty dict: the directory line, the file lines,
      then each subtree rendered recursively and split back into lines. */
  method FormatTree(r: ScanResult, indent: string) returns (s: string)
    ensures s == Join("\n", TreeLines(r, indent))
    decreases r, 1
  {
    var lines := [indent + DirectoryIcon + r.name + "/"];
    for i := 0 to |r.files|
      invariant lines == [indent + DirectoryIcon + r.name + "/"] + FileLines(r, indent)[..i]
    {
      var sizeStr := if r.files[i].size > 1024 then " (" + NatToString(r.files[i].size) + " bytes)" else "";
      lines := lines + [indent + "  " + FileIcon + r.files[i].name + sizeStr];
      assert FileLines(r, indent)[..i + 1] == FileLines(r, indent)[..i] + [FileLine(r.files[i], indent)];
    }
    assert FileLines(r, indent)[..|r.files|] == FileLines(r, indent);
    lines := AppendSubtrees(r, indent, lines);
    s := Join("\n", lines);
  }

  /** The loop of `format_directory_tree` over the subdirectories. */
  method AppendSubtrees(r: ScanResult, indent: string, lines: seq<string>) returns (lines': seq<string>)
    requires lines == [indent + DirectoryIcon + r.name + "/"] + FileLines(r, indent)
    ensures Join("\n", lines') == Join("\n", TreeLines(r, indent))
    decreases r, 0
  {
    lines' := lines;
    ghost var ts := SubtreeLines(r, indent);
    assert lines + Flatten(ts[..0]) == lines;
    for i := 0 to |r.directories|
      invariant |lines'| >= 1
      invariant Join("\n", lines') == Join("\n", lines + Flatten(ts[..i]))
    {
      var sub := FormatTree(r.directories[i], indent + "  ");
      AppendSubtreeStep(lines', lines, ts, i);
      lines' := lines' + Split(sub, '\n');
    }
    assert ts[..|r.directories|] == ts;
  }

  // ------------------------------------------------------------ context text

  /** One part of the context: a header naming the file, its text, and a newline. */
  function FilePart(path: string, content: string): string {
    "# File: " + path + "\n" + content + "\n"
  }

  /** The part a path contributes to `get_file_context`: files whose read yields `None`
      or an empty string are left out. */
  function FilePartOf(fs: FileSystem, path: string): seq<string> {
    match ReadFileContents(fs, path)
    case Some(c) => if c != "" then [FilePart(path, c)] else []
    case None => []
  }

  function FileParts(fs: FileSystem, paths: seq<string>): seq<string>
    decreases |paths|
  {
    if |paths| == 0 then [] else FileParts(fs, paths[..|paths| - 1]) + FilePartOf(fs, paths[|paths| - 1])
  }

  /** The parts follow the input order: those of a concatenation are the concatenation. */
  lemma {:induction false} FilePartsConcat(fs: FileSystem, a: seq<string>, b: seq<string>)
    ensures FileParts(fs, a + b) == FileParts(fs, a) + FileParts(fs, b)
    decreases |b|
  {
    if |b| == 0 {
      assert a + b == a;
    } else {
      assert (a + b)[..|a + b| - 1] == a + b[..|b| - 1];
      FilePartsConcat(fs, a, b[..|b| - 1]);
    }
  }

  /** Every part is non-empty, names a path of the input, and carries that file's text. */
  lemma {:induction false} FilePartsSound(fs: FileSystem, paths: seq<string>)
    ensures |FileParts(fs, paths)| <= |paths|
    ensures forall k | 0 <= k < |FileParts(fs, paths)| ::
      exists p | p in paths :: ReadFileContents(fs, p).Some? && ReadFileContents(fs, p).value != ""
        && FileParts(fs, paths)[k] == FilePart(p, ReadFileContents(fs, p).value)
    decreases |paths|
  {
    if |paths| > 0 {
      var init := paths[..|paths| - 1];
      FilePartsSound(fs, init);
      var before := FileParts(fs, init);
      var parts := FileParts(fs, paths);
      forall k | 0 <= k < |parts|
        ensures exists p | p in paths ::
          ReadFileContents(fs, p).Some? && ReadFileContents(fs, p).value != ""
          && parts[k] == FilePart(p, ReadFileContents(fs, p).value)
      {
        if k < |before| {
          var p :| p in init && ReadFileContents(fs, p).Some? && ReadFileContents(fs, p).value != ""
            && before[k] == FilePart(p, ReadFileContents(fs, p).value);
          assert p in paths && parts[k] == before[k];
        } else {
          assert paths[|paths| - 1] in paths;
        }
      }
    }
  }

  /** `get_file_context`. */
  method GetFileContext(fs: FileSystem, filePaths: seq<string>) returns (s: string)
    ensures s == Join("\n", FileParts(fs, filePaths))
  {
    var parts: seq<string> := [];
    for i := 0 to |filePaths|
      invariant parts == FileParts(fs, filePaths[..i])
    {
      assert filePaths[..i + 1][..i] == filePaths[..i];
      var content := ReadFileContents(fs, filePaths[i]);
      if content.Some? && content.value != "" {
        parts := parts + [FilePart(filePaths[i], content.value)];
      }
    }
    assert filePaths[..|filePaths|] == filePaths;
    s := Join("\n", parts);
  }

  /** Joining non-empty parts gives `""` exactly when there are none. */
  lemma JoinEmpty(sep: string, parts: seq<string>)
    requires forall k | 0 <= k < |parts| :: parts[k] != ""
    ensures Join(sep, parts) == "" <==> parts == []
  {
    if |parts| > 1 {
      assert Join(sep, parts) == parts[0] + sep + Join(sep, parts[1..]);
    }
  }

  /** The file context is empty exactly when no file yields a non-empty text. */
  lemma FileContextEmpty(fs: FileSystem, paths: seq<string>)
    ensures Join("\n", FileParts(fs, paths)) == "" <==>
      forall p | p in paths :: ReadFileContents(fs, p).None? || ReadFileContents(fs, p).value == ""
  {
    FilePartsSound(fs, paths);
    JoinEmpty("\n", FileParts(fs, paths));
    if FileParts(fs, paths) == [] {
      forall p | p in paths ensures ReadFileContents(fs, p).None? || ReadFileContents(fs, p).value == "" {
        var i :| 0 <= i < |paths| && paths[i] == p;
        assert paths == paths[..i] + [p] + paths[i + 1..];
        FilePartsConcat(fs, paths[..i] + [p], paths[i + 1..]);
        FilePartsConcat(fs, paths[..i], [p]);
        assert [p][..0] == [];
      }
    }
  }

  /** The depth `get_directory_context` scans with. */
  const ContextDepth: int := 3

  function DirectoryHeader(path: string, tree: string): string {
    "# Directory: " + path + "\n" + tree + "\n"
  }

  /** The parts one directory contributes to `get_directory_context`: its tree, then the
      text of its top-level files only. */
  function DirectoryPartsOf(fs: FileSystem, path: string): seq<string> {
    match Scan(fs, path, ContextDepth)
    case None => []
    case Some(r) =>
      [DirectoryHeader(path, Join("\n", TreeLines(r, "")))] + ListedFileParts(r.files)
  }

  /** The parts for files a scan listed, in order. */
  function ListedFileParts(files: seq<FileInfo>): (parts: seq<string>)
    ensures |parts| == |files|
  {
    seq(|files|, i requires 0 <= i < |files| => FilePart(files[i].path, files[i].content))
  }

  function DirectoryParts(fs: FileSystem, paths: seq<string>): seq<string>
    decreases |paths|
  {
    if |paths| == 0 then [] else DirectoryParts(fs, paths[..|paths| - 1]) + DirectoryPartsOf(fs, paths[|paths| - 1])
  }

  /** A directory's contribution is its tree followed by one part per file the scan
      listed at its top level; each such file was read from a direct entry of the
      directory, under its joined path. */
  lemma DirectoryPartsTopLevel(fs: FileSystem, path: string)
    requires Scan(fs, path, ContextDepth).Some?
    ensures var r := Scan(fs, path, ContextDepth).value;
      && |DirectoryPartsOf(fs, path)| == 1 + |r.files|
      && forall i | 0 <= i < |r.files| ::
        && DirectoryPartsOf(fs, path)[i + 1] == FilePart(r.files[i].path, r.files[i].content)
        && FileFrom(SourceFilters, r.files[i], fs(path).value.entries, path)
  {
    ScanSound(fs, path, ContextDepth);
  }

  /** `get_directory_context`. */
  method GetDirectoryContext(fs: FileSystem, directoryPaths: seq<string>) returns (s: string)
    ensures s == Join("\n", DirectoryParts(fs, directoryPaths))
  {
    var parts: seq<string> := [];
    for i := 0 to |directoryPaths|
      invariant parts == DirectoryParts(fs, directoryPaths[..i])
    {
      assert directoryPaths[..i + 1][..i] == directoryPaths[..i];
      parts := AddDirectoryParts(fs, directoryPaths[i], parts);
    }
    assert directoryPaths[..|directoryPaths|] == directoryPaths;
    s := Join("\n", parts);
  }

  /** One turn of the loop of `get_directory_context`. */
  method AddDirectoryParts(fs: FileSystem, path: string, parts: seq<string>) returns (parts': seq<string>)
    ensures parts' == parts + DirectoryPartsOf(fs, path)
  {
    parts' := parts;
    var data := ScanDirectory(fs, path, ContextDepth);
    if data.Some? {
      var tree := FormatDirectoryTree(data, "");
      parts' := AppendListedFiles(parts' + [DirectoryHeader(path, tree)], data.value.files);
    }
  }

  /** The inner loop of `get_directory_context`: one part per listed file. */
  method AppendListedFiles(parts: seq<string>, files: seq<FileInfo>) returns (parts': seq<string>)
    ensures parts' == parts + ListedFileParts(files)
  {
    parts' := parts;
    for j := 0 to |files|
      invariant parts' == parts + ListedFileParts(files)[..j]
    {
      parts' := parts' + [FilePart(files[j].path, files[j].content)];
      assert ListedFileParts(files)[..j + 1] == ListedFileParts(files)[..j] + [ListedFileParts(files)[j]];
    }
    assert ListedFileParts(files)[..|files|] == ListedFileParts(files);
  }

  // ------------------------------------------------------------ path validation

  /** `(file_paths, directory_paths)`. */
  datatype ValidPaths = ValidPaths(files: seq<string>, dirs: seq<string>)

  /** A path `validate_paths` accepts as a file: an existing file with a text suffix. */
  predicate IsValidFile(fs: FileSystem, p: string) {
    fs(p).Some? && fs(p).value.File? && IsTextFile(PathName(p))
  }

  predicate IsValidDir(fs: FileSystem, p: string) {
    fs(p).Some? && fs(p).value.Dir?
  }

  function Validated(fs: FileSystem, paths: seq<string>): ValidPaths
    decreases |paths|
  {
    if |paths| == 0 then ValidPaths([], [])
    else
      var v := Validated(fs, paths[..|paths| - 1]);
      var p := paths[|paths| - 1];
      if IsValidFile(fs, p) then v.(files := v.files + [p])
      else if IsValidDir(fs, p) then v.(dirs := v.dirs + [p])
      else v
  }

  /** A path is kept as a file exactly when it is listed and is a text file; as a directory
      exactly when it is listed and is a directory. Missing paths, other file types and
      special entries are dropped; nothing is kept twice over. */
  lemma {:induction false} ValidatedMembers(fs: FileSystem, paths: seq<string>)
    ensures var v := Validated(fs, paths);
      && |v.files| + |v.dirs| <= |paths|
      && (forall p :: p in v.files <==> p in paths && IsValidFile(fs, p))
      && (forall p :: p in v.dirs <==> p in paths && IsValidDir(fs, p))
    decreases |paths|
  {
    if |paths| > 0 {
      var init := paths[..|paths| - 1];
      var last := paths[|paths| - 1];
      ValidatedMembers(fs, init);
      var v0, v := Validated(fs, init), Validated(fs, paths);
      assert paths == init + [last];
      KeptStep(init, last, v0.files, v.files, p => IsValidFile(fs, p));
      KeptStep(init, last, v0.dirs, v.dirs, p => IsValidDir(fs, p));
    }
  }

  /** One more path, kept exactly when it passes the test, keeps the kept list exactly the
      listed paths that pass. */
  lemma KeptStep(init: seq<string>, last: string, kept0: seq<string>, kept: seq<string>, keep: string -> bool)
    requires forall p :: p in kept0 <==> p in init && keep(p)
    requires kept == if keep(last) then kept0 + [last] else kept0
    ensures forall p :: p in kept <==> p in init + [last] && keep(p)
  {
    forall p ensures p in kept <==> p in init + [last] && keep(p) {
      assert p in init + [last] <==> p in init || p == last;
    }
  }

  /** `validate_paths`. */
  method ValidatePaths(fs: FileSystem, paths: seq<string>) returns (filePaths: seq<string>, directoryPaths: seq<string>)
    ensures ValidPaths(filePaths, directoryPaths) == Validated(fs, paths)
  {
    filePaths, directoryPaths := [], [];
    for i := 0 to |paths|
      invariant ValidPaths(filePaths, directoryPaths) == Validated(fs, paths[..i])
    {
      assert paths[..i + 1][..i] == paths[..i];
      var path := paths[i];
      var entry := fs(path);
      if entry.None? {
        continue;
      }
      if entry.value.File? {
        if IsTextFile(PathName(path)) {
          filePaths := filePaths + [path];
        }
      } else if entry.value.Dir? {
        directoryPaths := directoryPaths + [path];
      }
    }
    assert paths[..|paths|] == paths;
  }
}
