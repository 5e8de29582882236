/**
 * The one piece of logic in the terminal-decoration module: the emoji shown next
 * to a file name, chosen by the name's final extension as `os.path.splitext`
 * computes it.
 */
module Ui {
  import opened Wrappers
  import opened Strings

  /** `FILE_EMOJI_MAP.get(ext)`: the table of extensions and their emoji, in source order. */
  function FileEmojiEntry(ext: string): Option<string> {
    match ext
    case ".py" => Some("🐍")
    case ".js" => Some("🟨")
    case ".ts" => Some("🔷")
    case ".json" => Some("📦")
    case ".md" => Some("📄")
    case ".txt" => Some("📝")
    case ".sh" => Some("💻")
    case ".yaml" => Some("🧾")
    case ".yml" => Some("🧾")
    case ".html" => Some("🌐")
    case ".css" => Some("🎨")
    case ".csv" => Some("📊")
    case ".xml" => Some("🗂")
    case ".lock" => Some("🔒")
    case ".toml" => Some("⚙️")
    case ".ini" => Some("⚙️")
    case ".cfg" => Some("⚙️")
    case ".env" => Some("🌱")
    case ".go" => Some("🐹")
    case ".rs" => Some("🦀")
    case ".java" => Some("☕️")
    case ".c" => Some("🔵")
    case ".cpp" => Some("🔷")
    case ".h" => Some("📘")
    case ".hpp" => Some("📘")
    case ".rb" => Some("💎")
    case ".php" => Some("🐘")
    case ".swift" => Some("🦅")
    case ".kt" => Some("🟣")
    case ".scala" => Some("🔴")
    case ".dart" => Some("🎯")
    case ".vue" => Some("🟩")
    case ".svelte" => Some("🟧")
    case ".dockerfile" => Some("🐳")
    case ".lockfile" => Some("🔒")
    case ".bat" => Some("🪟")
    case ".exe" => Some("📦")
    case ".zip" => Some("🗜")
    case ".tar" => Some("🗜")
    case ".gz" => Some("🗜")
    case ".pdf" => Some("📕")
    case ".jpg" => Some("🖼")
    case ".jpeg" => Some("🖼")
    case ".png" => Some("🖼")
    case ".gif" => Some("🖼")
    case ".svg" => Some("🖼")
    case _ => None
  }

  const FolderEmoji: string := "📁"
  const DefaultFileEmoji: string := "📄"

  /** The extension half of `os.path.splitext(p)` on POSIX: from the last dot of the
      final path component to the end, unless that component is only dots up to the
      last dot (a leading-dot name such as `.env` has no extension). */
  function SplitExt(p: string): string {
    var sep := RFind(p, '/');
    var dot := RFind(p, '.');
    if dot > sep && exists k | sep + 1 <= k < dot :: p[k] != '.' then p[dot..] else ""
  }

  /** An extension is empty or one dot followed by text with no dot and no slash, and
      it ends the path. */
  lemma SplitExtShape(p: string)
    ensures var ext := SplitExt(p);
      ext == "" || (ext[0] == '.' && '.' !in ext[1..] && '/' !in ext && EndsWith(p, ext))
  {
    var sep := RFind(p, '/');
    var dot := RFind(p, '.');
    var ext := SplitExt(p);
    if ext != "" {
      assert ext == p[dot..];
      forall j | 1 <= j < |ext| ensures ext[j] != '.' && ext[j] != '/' {
        assert ext[j] == p[dot + j];
      }
      assert ext[0] != '/';
    }
  }

  /** A stem holding some non-dot character and no slash, followed by `.` and text with
      neither dot nor slash: the extension is exactly that final part. */
  lemma SplitExtOfStem(stem: string, e: string, k: nat)
    requires '/' !in stem && '/' !in e && '.' !in e
    requires k < |stem| && stem[k] != '.'
    ensures SplitExt(stem + "." + e) == "." + e
  {
    var p := stem + "." + e;
    var dot := RFind(p, '.');
    assert p[|stem|] == '.';
    assert dot == |stem| by {
      forall j | |stem| < j < |p| ensures p[j] != '.' {
        assert p[j] == e[j - |stem| - 1];
      }
    }
    var sep := RFind(p, '/');
    assert sep < |stem|;
    forall j | 0 <= j < |stem| ensures p[j] != '/' {
      assert p[j] == stem[j];
    }
    assert sep == -1;
    assert p[k] == stem[k];
    assert p[dot..] == "." + e;
  }

  /** A name that is one leading dot and then text with no dot and no slash (`.env`) has
      no extension. */
  lemma SplitExtOfDotName(e: string)
    requires '/' !in e && '.' !in e
    ensures SplitExt("." + e) == ""
  {
    var p := "." + e;
    forall j | 1 <= j < |p| ensures p[j] != '.' && p[j] != '/' {
      assert p[j] == e[j - 1];
    }
    assert p[0] == '.';
    assert RFind(p, '.') == 0;
  }

  /** Lower-casing a path and taking its extension commute. */
  lemma SplitExtLower(p: string)
    ensures SplitExt(Lower(p)) == Lower(SplitExt(p))
  {
    var q := Lower(p);
    RFindLower(p, '.');
    RFindLower(p, '/');
    var sep := RFind(p, '/');
    var dot := RFind(p, '.');
    forall k | sep + 1 <= k < dot && 0 <= k
      ensures q[k] != '.' <==> p[k] != '.'
    {
      LowerCharFixes(p[k], '.');
    }
    if dot > sep && exists k | sep + 1 <= k < dot :: p[k] != '.' {
      LowerSlice(p, dot, |p|);
      assert p[dot..] == p[dot..|p|] && q[dot..] == q[dot..|q|];
    }
  }

  /** `get_file_emoji`: the emoji of the lower-cased name's extension, or the default. */
  function GetFileEmoji(filename: string): string {
    match FileEmojiEntry(SplitExt(Lower(filename)))
    case Some(emoji) => emoji
    case None => DefaultFileEmoji
  }

  /** A name without an extension, or whose extension is not in the table, gets the default. */
  lemma UnknownExtensionGetsDefault(filename: string)
    requires FileEmojiEntry(SplitExt(Lower(filename))).None? || SplitExt(filename) == ""
    ensures GetFileEmoji(filename) == DefaultFileEmoji
  {
    if SplitExt(filename) == "" {
      SplitExtLower(filename);
    }
  }

  /** The lookup ignores case: a name and its lower-cased form get the same emoji. */
  lemma EmojiCaseInsensitive(a: string, b: string)
    requires Lower(a) == Lower(b)
    ensures GetFileEmoji(a) == GetFileEmoji(b) == GetFileEmoji(Lower(a))
  {
    assert Lower(Lower(a)) == Lower(a);
  }

  lemma LowerConcat(a: string, b: string)
    ensures Lower(a + b) == Lower(a) + Lower(b)
  {
  }

  /** A known extension after a lower-case stem yields its emoji. */
  lemma EmojiOfKnownExtension(stem: string, ext: string, k: nat)
    requires FileEmojiEntry(ext).Some?
    requires |ext| >= 1 && ext[0] == '.' && '/' !in ext && '.' !in ext[1..] && Lower(ext) == ext
    requires Lower(stem) == stem && '/' !in stem && k < |stem| && stem[k] != '.'
    ensures GetFileEmoji(stem + ext) == FileEmojiEntry(ext).value
  {
    var p := stem + ext;
    LowerConcat(stem, ext);
    SplitExtOfStem(stem, ext[1..], k);
    assert stem + "." + ext[1..] == p;
  }

  /** Only the final extension counts: `a.tar.gz` is looked up by `.gz`. */
  lemma TarGzUsesGz()
    ensures GetFileEmoji("a.tar.gz") == "🗜"
  {
    assert FileEmojiEntry(".gz") == Some("🗜");
    assert "a.tar.gz" == "a.tar" + ".gz";
    EmojiOfKnownExtension("a.tar", ".gz", 0);
  }

  /** `.env` has no extension and gets the default emoji. */
  lemma DotEnvGetsDefault()
    ensures GetFileEmoji(".env") == DefaultFileEmoji
  {
    assert Lower(".env") == ".env";
    SplitExtOfDotName("env");
    assert "." + "env" == ".env";
  }

  lemma EnvEntry()
    ensures FileEmojiEntry(".env") == Some("🌱")
  {
  }

  /** `x.env` has the extension `.env` and gets its emoji. */
  lemma XEnvGetsSeedling()
    ensures GetFileEmoji("x.env") == "🌱"
  {
    EnvEntry();
    assert Lower("x") == "x" && Lower(".env") == ".env";
    assert "x" + ".env" == "x.env";
    EmojiOfKnownExtension("x", ".env", 0);
  }

  lemma PyEntry()
    ensures FileEmojiEntry(".py") == Some("🐍")
  {
  }

  /** Case does not matter: `Main.PY` gets the Python emoji. */
  lemma UpperCaseExtension()
    ensures GetFileEmoji("Main.PY") == "🐍"
  {
    PyEntry();
    assert Lower("Main.PY") == "main.py";
    assert Lower("main") == "main" && Lower(".py") == ".py";
    assert "main" + ".py" == "main.py";
    EmojiOfKnownExtension("main", ".py", 0);
    EmojiCaseInsensitive("Main.PY", "main.py");
  }
}
