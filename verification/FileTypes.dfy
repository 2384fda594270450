/**
Selecting files by name alone: a union of fixed classes, extensions and exact
names. Names are compared in lower case.
*/
module FileTypes {
  import opened Wrappers

  datatype Class = Video | Audio | Image | Document | Archive | Executable | Secret

  function ClassExtensions(c: Class): set<string> {
    match c
    case Video => {"mp4", "mkv", "avi", "mov", "webm", "m4v", "mpeg", "mpg", "ts"}
    case Audio => {"mp3", "flac", "wav", "ogg", "m4a", "aac", "opus"}
    case Image => {"jpg", "jpeg", "png", "gif", "webp", "svg", "avif", "bmp", "tif", "tiff"}
    case Document =>
      {"txt", "md", "pdf", "doc", "docx", "xls", "xlsx", "ppt", "pptx", "odt", "ods", "csv", "json", "xml", "yaml", "yml"}
    case Archive => {"zip", "gz", "tar", "tgz", "7z", "rar", "bz2", "xz", "zst"}
    case Executable =>
      {"exe", "dll", "msi", "com", "bat", "cmd", "ps1", "sh", "bash", "zsh", "elf", "bin", "so", "dylib", "appimage", "wasm"}
    case Secret => {"env", "pem", "key", "p12", "pfx", "p8", "jks", "kdbx"}
  }

  function ClassNames(c: Class): set<string> {
    if c.Secret? then {".env", "acme.json", "id_rsa", "id_ed25519"} else {}
  }

  /** A class that is not one of the fixed ones is None. */
  datatype Selector = Selector(classes: seq<Option<Class>>, extensions: seq<string>, names: seq<string>)

  datatype Matcher = Matcher(extensions: set<string>, names: set<string>)

  // ---------- Names ----------

  function LowerChar(c: char): char {
    if 'A' <= c <= 'Z' then ((c as int) + 32) as char else c
  }

  function Lower(s: string): (r: string)
    ensures |r| == |s|
  {
    seq(|s|, i requires 0 <= i < |s| => LowerChar(s[i]))
  }

  function LastDot(s: string): (r: Option<nat>)
    ensures r.Some? ==> r.value < |s| && s[r.value] == '.' && '.' !in s[r.value + 1..]
    ensures r.None? ==> '.' !in s
  {
    if s == [] then None
    else if s[|s| - 1] == '.' then Some(|s| - 1)
    else
      var r := LastDot(s[..|s| - 1]);
      assert r.Some? ==> s[r.value + 1..] == s[..|s| - 1][r.value + 1..] + [s[|s| - 1]];
      assert s == s[..|s| - 1] + [s[|s| - 1]];
      r
  }

  /** What follows the last dot, or nothing. */
  function Extension(name: string): string {
    match LastDot(name)
    case Some(at) => name[at + 1..]
    case None => []
  }

  predicate PlainName(name: string) {
    name != "" && name != "." && name != ".." && '/' !in name && '\\' !in name && '\0' !in name
  }

  predicate ExtensionChar(c: char) {
    'a' <= c <= 'z' || 'A' <= c <= 'Z' || '0' <= c <= '9' || c == '-' || c == '_' || c == '+'
  }

  // ---------- Selectors ----------

  predicate DistinctLower(values: seq<string>) {
    forall i, j | 0 <= i < j < |values| :: Lower(values[i]) != Lower(values[j])
  }

  predicate ExtensionOk(value: string) {
    value != "" && |value| <= 128 && forall i | 0 <= i < |value| :: ExtensionChar(Lower(value)[i])
  }

  predicate NameOk(value: string) {
    PlainName(Lower(value)) && |value| <= 255
  }

  predicate ValidSelector(s: Selector) {
    && 1 <= |s.classes| + |s.extensions| + |s.names| <= 64
    && (forall i | 0 <= i < |s.classes| :: s.classes[i].Some?)
    && (forall i, j | 0 <= i < j < |s.classes| :: s.classes[i] != s.classes[j])
    && (forall i | 0 <= i < |s.extensions| :: ExtensionOk(s.extensions[i]))
    && DistinctLower(s.extensions)
    && (forall i | 0 <= i < |s.names| :: NameOk(s.names[i]))
    && DistinctLower(s.names)
  }

  method ClassesOk(classes: seq<Option<Class>>) returns (ok: bool)
    ensures ok <==> && (forall i | 0 <= i < |classes| :: classes[i].Some?)
                    && (forall i, j | 0 <= i < j < |classes| :: classes[i] != classes[j])
  {
    var seen: set<Class> := {};
    for i := 0 to |classes|
      invariant forall k | 0 <= k < i :: classes[k].Some?
      invariant forall j, k | 0 <= j < k < i :: classes[j] != classes[k]
      invariant forall c :: c in seen <==> exists k :: 0 <= k < i && classes[k] == Some(c)
    {
      if classes[i].None? || classes[i].value in seen {
        return false;
      }
      seen := seen + {classes[i].value};
    }
    return true;
  }

  method ExtensionsOk(values: seq<string>) returns (ok: bool)
    ensures ok <==> (forall i | 0 <= i < |values| :: ExtensionOk(values[i])) && DistinctLower(values)
  {
    hide ExtensionOk, Lower;
    var seen: set<string> := {};
    for i := 0 to |values|
      invariant forall k | 0 <= k < i :: ExtensionOk(values[k])
      invariant forall j, k | 0 <= j < k < i :: Lower(values[j]) != Lower(values[k])
      invariant forall v :: v in seen <==> exists k :: 0 <= k < i && Lower(values[k]) == v
    {
      if !ExtensionOk(values[i]) || Lower(values[i]) in seen {
        return false;
      }
      seen := seen + {Lower(values[i])};
    }
    return true;
  }

  method NamesOk(values: seq<string>) returns (ok: bool)
    ensures ok <==> (forall i | 0 <= i < |values| :: NameOk(values[i])) && DistinctLower(values)
  {
    hide NameOk, Lower;
    var seen: set<string> := {};
    for i := 0 to |values|
      invariant forall k | 0 <= k < i :: NameOk(values[k])
      invariant forall j, k | 0 <= j < k < i :: Lower(values[j]) != Lower(values[k])
      invariant forall v :: v in seen <==> exists k :: 0 <= k < i && Lower(values[k]) == v
    {
      if !NameOk(values[i]) || Lower(values[i]) in seen {
        return false;
      }
      seen := seen + {Lower(values[i])};
    }
    return true;
  }

  method Validate(s: Selector) returns (ok: bool)
    ensures ok <==> ValidSelector(s)
  {
    hide ExtensionOk, NameOk, DistinctLower;
    var count := |s.classes| + |s.extensions| + |s.names|;
    if count == 0 || count > 64 {
      return false;
    }
    var classes := ClassesOk(s.classes);
    var extensions := ExtensionsOk(s.extensions);
    var names := NamesOk(s.names);
    ok := classes && extensions && names;
  }

  /** Some class, extension or name of the selector is this file's. */
  predicate Selects(s: Selector, name: string) {
    || (exists i :: 0 <= i < |s.names| && Lower(s.names[i]) == name)
    || (exists i :: 0 <= i < |s.extensions| && Lower(s.extensions[i]) == Extension(name))
    || (exists i :: 0 <= i < |s.classes| && s.classes[i].Some? &&
                    (name in ClassNames(s.classes[i].value) || Extension(name) in ClassExtensions(s.classes[i].value)))
  }

  predicate Matches(m: Matcher, name: string) {
    PlainName(name) && (Lower(name) in m.names || Extension(Lower(name)) in m.extensions)
  }

  method LowerAll(values: seq<string>) returns (lowered: set<string>)
    ensures forall v :: v in lowered <==> exists k :: 0 <= k < |values| && Lower(values[k]) == v
  {
    lowered := {};
    for i := 0 to |values|
      invariant forall v :: v in lowered <==> exists k :: 0 <= k < i && Lower(values[k]) == v
    {
      lowered := lowered + {Lower(values[i])};
    }
  }

  method ClassTables(classes: seq<Option<Class>>) returns (extensions: set<string>, names: set<string>)
    requires forall i | 0 <= i < |classes| :: classes[i].Some?
    ensures forall v :: v in extensions <==> exists k :: 0 <= k < |classes| && v in ClassExtensions(classes[k].value)
    ensures forall v :: v in names <==> exists k :: 0 <= k < |classes| && v in ClassNames(classes[k].value)
  {
    hide ClassExtensions, ClassNames;
    extensions, names := {}, {};
    for i := 0 to |classes|
      invariant forall v :: v in extensions <==> exists k :: 0 <= k < i && v in ClassExtensions(classes[k].value)
      invariant forall v :: v in names <==> exists k :: 0 <= k < i && v in ClassNames(classes[k].value)
    {
      extensions := extensions + ClassExtensions(classes[i].value);
      names := names + ClassNames(classes[i].value);
    }
  }

  method CompileSelector(s: Selector) returns (r: Option<Matcher>)
    ensures r.Some? <==> ValidSelector(s)
    ensures r.Some? ==> forall name: string :: Matches(r.value, name) <==> PlainName(name) && Selects(s, Lower(name))
  {
    hide ClassExtensions, ClassNames, PlainName, Lower, ExtensionOk, NameOk, DistinctLower, Extension;
    var ok := Validate(s);
    if !ok {
      return None;
    }
    var names := LowerAll(s.names);
    var extensions := LowerAll(s.extensions);
    var classExtensions, classNames := ClassTables(s.classes);
    r := Some(Matcher(extensions + classExtensions, names + classNames));
  }

  // ---------- Names, by character ----------

  /** Only the capital letters of ASCII change, each to its own small letter. */
  lemma LowerByCharacter(s: string, i: nat)
    requires i < |s|
    ensures |Lower(s)| == |s|
    ensures Lower(s)[i] == if 'A' <= s[i] <= 'Z' then s[i] - 'A' + 'a' else s[i]
    ensures Lower(Lower(s)) == Lower(s)
  {
  }

  /** The extension is what follows the last dot; a name without one has none. */
  lemma ExtensionByLastDot(name: string, at: nat)
    ensures at < |name| && name[at] == '.' && '.' !in name[at + 1..] ==> Extension(name) == name[at + 1..]
    ensures '.' !in name ==> Extension(name) == ""
  {
  }

  /** What a valid selector selects, told of the name as given. */
  lemma SelectsExactly(s: Selector, name: string)
    requires ValidSelector(s)
    ensures Selects(s, Lower(name)) <==>
              || (exists n :: n in s.names && Lower(n) == Lower(name))
              || (exists e :: e in s.extensions && Lower(e) == Extension(Lower(name)))
              || (exists c :: Some(c) in s.classes && Extension(Lower(name)) in ClassExtensions(c))
              || (Some(Secret) in s.classes && Lower(name) in {".env", "acme.json", "id_rsa", "id_ed25519"})
  {
    hide Lower, Extension, ClassExtensions, ExtensionOk, NameOk, DistinctLower;
  }

  /** One to 128 letters, digits, dashes, underscores and pluses. */
  predicate GoodExtension(e: string) {
    0 < |e| <= 128 && forall c | c in e :: 'a' <= c <= 'z' || 'A' <= c <= 'Z' || '0' <= c <= '9' || c in "-_+"
  }

  /** One to 255 characters that name something in one directory. */
  predicate GoodName(n: string) {
    0 < |n| <= 255 && n !in {".", ".."} && forall c | c in n :: c !in "/\\\0"
  }

  /** What makes a selector valid, told of the values as given. */
  lemma ValidExactly(s: Selector)
    ensures ValidSelector(s) <==>
              && 0 < |s.classes| + |s.extensions| + |s.names| <= 64
              && (forall c | c in s.classes :: c.Some?)
              && (forall i, j | 0 <= i < j < |s.classes| :: s.classes[i] != s.classes[j])
              && (forall e | e in s.extensions :: GoodExtension(e))
              && (forall i, j | 0 <= i < j < |s.extensions| :: Lower(s.extensions[i]) != Lower(s.extensions[j]))
              && (forall n | n in s.names :: GoodName(n))
              && (forall i, j | 0 <= i < j < |s.names| :: Lower(s.names[i]) != Lower(s.names[j]))
  {
    hide ExtensionOk, NameOk, Lower, GoodExtension, GoodName;
    forall i | 0 <= i < |s.extensions|
      ensures ExtensionOk(s.extensions[i]) <==> GoodExtension(s.extensions[i])
    {
      ExtensionExactly(s.extensions[i]);
    }
    forall i | 0 <= i < |s.names|
      ensures NameOk(s.names[i]) <==> GoodName(s.names[i])
    {
      NameExactly(s.names[i]);
    }
  }

  lemma ExtensionExactly(e: string)
    ensures ExtensionOk(e) <==> GoodExtension(e)
  {
    if ExtensionOk(e) {
      forall c | c in e
        ensures 'a' <= c <= 'z' || 'A' <= c <= 'Z' || '0' <= c <= '9' || c in "-_+"
      {
        var i :| 0 <= i < |e| && e[i] == c;
        assert ExtensionChar(Lower(e)[i]);
      }
    } else if 0 < |e| <= 128 {
      var i :| 0 <= i < |e| && !ExtensionChar(Lower(e)[i]);
      assert e[i] in e;
    }
  }

  lemma NameExactly(n: string)
    ensures NameOk(n) <==> GoodName(n)
  {
    LowerKeeps(n, '/');
    LowerKeeps(n, '\\');
    LowerKeeps(n, '\0');
    assert Lower(n) == "." <==> n == "." by {
      if |n| == 1 { assert Lower(n)[0] == LowerChar(n[0]); }
    }
    assert Lower(n) == ".." <==> n == ".." by {
      if |n| == 2 { assert Lower(n)[0] == LowerChar(n[0]) && Lower(n)[1] == LowerChar(n[1]); }
    }
  }

  lemma LowerKeeps(s: string, c: char)
    requires !('A' <= c <= 'Z') && !('a' <= c <= 'z')
    ensures c in Lower(s) <==> c in s
  {
    if c in Lower(s) {
      var i :| 0 <= i < |s| && Lower(s)[i] == c;
      assert s[i] == c;
    }
    if c in s {
      var i :| 0 <= i < |s| && s[i] == c;
      assert Lower(s)[i] == c;
    }
  }

  /** What a matcher matches: a plain name whose small letters are listed, or whose extension is. */
  lemma MatchesExactly(m: Matcher, name: string)
    ensures Matches(m, name) <==>
              && name !in {"", ".", ".."} && (forall c | c in name :: c !in "/\\\0")
              && (Lower(name) in m.names || Extension(Lower(name)) in m.extensions)
  {
    hide Lower, Extension;
  }
}
