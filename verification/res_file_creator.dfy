/**
 * The text-building part of EVEMon's build tool `ResFileCreator`, which reads
 * the assembly attributes of `AssemblyInfo.cs`, writes a Windows resource
 * script (`.rc`) with the icons, the manifest and the version block, and hands
 * it to the resource compiler `RC.exe`.
 *
 * The file system is not modelled: the content of `AssemblyInfo.cs`, the list
 * of icon files, whether the manifest exists and which files exist are inputs.
 * The script is modelled as its list of lines.
 */
module ResFileCreator {
  import opened Wrappers
  import opened Collections
  import opened Text

  /** A `System.Version`; `Build` and `Revision` are -1 when the text gives no such component. */
  datatype Version = Version(major: int, minor: int, build: int, revision: int)

  /** The assembly attributes `ParserAssemblyInfo` stores in the static dictionary. */
  datatype AssemblyInfo = AssemblyInfo(title: string, company: string, product: string, copyright: string, version: Version)

  // ---------------------------------------------------------------------------
  // Reading AssemblyInfo.cs

  /**
   * The inputs on which `GetValueOf` does not throw: the cut starts within the
   * content, and a `)` follows it, not immediately (otherwise the substring
   * length is negative).  A missing key is not among the failures: `IndexOf`
   * gives -1 and the cut starts at `|key| - 1`.
   */
  predicate HasValueOf(content: string, key: string): (b: bool)
    ensures b <==> var index := IndexOf(content, key) + |key|;
      0 <= index < |content| && content[index] != ')' && ')' in content[index..]
  {
    var index := IndexOf(content, key) + |key|;
    if 0 <= index <= |content| then
      IndexOfChar(content[index..], ')');
      IndexOf(content[index..], ")") >= 1
    else false
  }

  /**
   * `GetValueOf(key)`: the text from the end of the first occurrence of `key`
   * up to one character before the first following `)`, with every `("` and
   * then every `")` removed.  The value never holds a `)`.
   */
  function GetValueOf(content: string, key: string): (r: string)
    requires HasValueOf(content, key)
    ensures ')' !in r
  {
    var text := ValueText(content, key);
    UnquoteKeepsAbsent(text, ')');
    Unquote(text)
  }

  /**
   * The `Substring` of `GetValueOf`: it starts where the key ends and runs up
   * to the character just before the first `)` that follows.
   */
  function ValueText(content: string, key: string): (r: string)
    requires HasValueOf(content, key)
    ensures var index := IndexOf(content, key) + |key|;
      && index + |r| + 1 < |content|
      && r == content[index..index + |r|]
      && ')' !in content[index..index + |r| + 1]
      && content[index + |r| + 1] == ')'
  {
    var index := IndexOf(content, key) + |key|;
    var substring := content[index..];
    var length := IndexOf(substring, ")") - 1;
    CutBeforeClose(content, index);
    content[index..index + length]
  }

  /** The two `Replace` calls of `GetValueOf`: every `("`, then every `")`, removed. */
  function Unquote(text: string): (r: string)
    ensures |r| <= |text|
  {
    Strip(Strip(text, "(\""), "\")")
  }

  /** Cutting `content` from `index` to one before the first `)` leaves a text free of `)` that a `)` follows. */
  lemma CutBeforeClose(content: string, index: nat)
    requires index <= |content| && IndexOf(content[index..], ")") >= 1
    ensures var close := index + IndexOf(content[index..], ")");
      && close < |content| && content[close] == ')' && ')' !in content[index..close]
  {
    var substring := content[index..];
    var k := IndexOf(substring, ")");
    IndexOfChar(substring, ')');
    assert content[index..index + k] == substring[..k];
  }

  /**
   * A missing key does not make `GetValueOf` fail when the content is long
   * enough: the cut then starts at position `|key| - 1` of the content.
   */
  lemma MissingKeyCutsAtKeyLength(content: string, key: string)
    requires IndexOf(content, key) < 0
    requires |key| - 1 <= |content| && IndexOf(content[|key| - 1..], ")") >= 1
    ensures HasValueOf(content, key)
    ensures ValueText(content, key) == content[|key| - 1..|key| - 1 + IndexOf(content[|key| - 1..], ")") - 1]
  {
    assert !OccursAt(content, key, 0);
  }

  /** Removing the quotes adds no character. */
  lemma UnquoteKeepsAbsent(text: string, c: char)
    requires c !in text
    ensures c !in Unquote(text)
  {
    StripKeepsAbsent(text, "(\"", c);
    StripKeepsAbsent(Strip(text, "(\""), "\")", c);
  }

  /** In `("v")...` with no `)` in `v`, the first `)` is the one after the closing quote. */
  lemma FirstCloseOfAttribute(v: string, post: string)
    requires ')' !in v
    ensures IndexOf("(\"" + v + "\")" + post, ")") == |v| + 3
  {
    var s := "(\"" + v + "\")" + post;
    IndexOfChar(s, ')');
    assert s[|v| + 3] == ')';
    assert forall j | 2 <= j < |v| + 2 :: s[j] == v[j - 2];
  }

  /**
   * For an attribute written `key("v")` at the first occurrence of `key`,
   * `GetValueOf` returns exactly `v`, provided `v` holds no `)` and no `("`.
   */
  lemma GetValueOfAttribute(content: string, pre: string, key: string, v: string, post: string)
    requires content == pre + key + ("(\"" + v + "\")" + post)
    requires IndexOf(content, key) == |pre|
    requires ')' !in v
    requires IndexOf(v, "(\"") < 0
    ensures HasValueOf(content, key)
    ensures GetValueOf(content, key) == v
  {
    AttributeCut(content, pre, key, v, post);
    StripQuotes(v);
  }

  /** For `key("v")`, the text `GetValueOf` cuts out is the opening `("` followed by `v`. */
  lemma AttributeCut(content: string, pre: string, key: string, v: string, post: string)
    requires content == pre + key + ("(\"" + v + "\")" + post)
    requires IndexOf(content, key) == |pre|
    requires ')' !in v
    ensures HasValueOf(content, key)
    ensures ValueText(content, key) == "(\"" + v
  {
    var attribute := "(\"" + v + "\")" + post;
    assert content[|pre| + |key|..] == attribute;
    FirstCloseOfAttribute(v, post);
    assert attribute[..|v| + 2] == "(\"" + v;
    ValueTextAfterKey(content, key, attribute);
  }

  /** The cut in terms of the text that follows the first occurrence of the key. */
  lemma ValueTextAfterKey(content: string, key: string, rest: string)
    requires IndexOf(content, key) >= 0
    requires content[IndexOf(content, key) + |key|..] == rest
    requires IndexOf(rest, ")") >= 1
    ensures HasValueOf(content, key)
    ensures ValueText(content, key) == rest[..IndexOf(rest, ")") - 1]
  {
    var index := IndexOf(content, key) + |key|;
    var length := IndexOf(rest, ")") - 1;
    assert content[index..][..length] == content[index..index + length];
  }

  /** Stripping `("` and `")` from `("v` leaves `v` when `v` holds neither. */
  lemma StripQuotes(v: string)
    requires ')' !in v
    requires IndexOf(v, "(\"") < 0
    ensures Unquote("(\"" + v) == v
  {
    StripLeading("(\"", v);
    StripAbsent(v, "(\"");
    IndexOfMissingChar(v, "\")", 1);
    StripAbsent(v, "\")");
  }

  /**
   * `ParserAssemblyInfo`: the four text attributes and the version. Parsing
   * the version text is `System.Version`'s and is given as `parseVersion`.
   */
  function ParseAssemblyInfo(content: string, parseVersion: string -> Version): (r: AssemblyInfo)
    requires HasValueOf(content, "AssemblyTitle") && HasValueOf(content, "AssemblyCompany")
    requires HasValueOf(content, "AssemblyProduct") && HasValueOf(content, "AssemblyCopyright")
    requires HasValueOf(content, "AssemblyVersion")
    ensures r.title == GetValueOf(content, "AssemblyTitle") && r.company == GetValueOf(content, "AssemblyCompany")
    ensures r.product == GetValueOf(content, "AssemblyProduct") && r.copyright == GetValueOf(content, "AssemblyCopyright")
    ensures ')' !in r.title && ')' !in r.company && ')' !in r.product && ')' !in r.copyright
    ensures r.version == parseVersion(GetValueOf(content, "AssemblyVersion"))
  {
    AssemblyInfo(
      GetValueOf(content, "AssemblyTitle"),
      GetValueOf(content, "AssemblyCompany"),
      GetValueOf(content, "AssemblyProduct"),
      GetValueOf(content, "AssemblyCopyright"),
      parseVersion(GetValueOf(content, "AssemblyVersion")))
  }

  // ---------------------------------------------------------------------------
  // The sections of the script

  const EvemonIcon := "EVEMon.ico"

  predicate IsEvemonIcon(path: string): (b: bool)
    ensures b <==> exists i :: OccursAt(path, EvemonIcon, i)
  {
    IndexOf(path, EvemonIcon) >= 0
  }

  /** `FirstOrDefault(file => file.Contains("EVEMon.ico"))`: its position, or -1. */
  function FirstEvemonIcon(paths: seq<string>): (k: int)
    ensures -1 <= k < |paths|
  {
    if paths == [] then -1
    else if IsEvemonIcon(paths[0]) then 0
    else
      var k := FirstEvemonIcon(paths[1..]);
      if k < 0 then -1 else k + 1
  }

  /** The path `FirstEvemonIcon` finds names `EVEMon.ico`. */
  lemma {:induction false} FirstEvemonIconFinds(paths: seq<string>)
    requires FirstEvemonIcon(paths) >= 0
    ensures IsEvemonIcon(paths[FirstEvemonIcon(paths)])
  {
    if !IsEvemonIcon(paths[0]) {
      FirstEvemonIconFinds(paths[1..]);
    }
  }

  /** No path before the one `FirstEvemonIcon` finds names `EVEMon.ico`; none at all when it finds none. */
  lemma {:induction false} FirstEvemonIconIsFirst(paths: seq<string>, j: nat)
    requires j < |paths|
    requires var k := FirstEvemonIcon(paths); k < 0 || j < k
    ensures !IsEvemonIcon(paths[j])
  {
    if j > 0 {
      FirstEvemonIconIsFirst(paths[1..], j - 1);
    }
  }

  /** The order icons are numbered in: the first `EVEMon.ico` path, then the list without it. */
  function IconOrder(paths: seq<string>): (r: seq<string>)
    ensures |r| == |paths|
    ensures FirstEvemonIcon(paths) < 0 ==> r == paths
    ensures FirstEvemonIcon(paths) >= 0 ==> r[0] == paths[FirstEvemonIcon(paths)]
  {
    var k := FirstEvemonIcon(paths);
    if k < 0 then paths else [paths[k]] + RemoveFirst(paths, paths[k])
  }

  /** One icon entry: `<number> ICON "<path>"`. */
  function IconLine(number: nat, path: string): (r: string)
    ensures |r| == |NatToDecimal(number)| + 8 + |path|
  {
    NatToDecimal(number) + " ICON \"" + path + "\""
  }

  /** An icon entry names its number and its path: both read back from the line. */
  lemma IconLineFields(number: nat, path: string)
    ensures var r := IconLine(number, path);
      var digits := |NatToDecimal(number)|;
      && AllDigits(r[..digits]) && DecimalValue(r[..digits]) == number
      && r[digits..digits + 7] == " ICON \""
      && r[digits + 7..|r| - 1] == path && r[|r| - 1] == '"'
  {
    var digits := NatToDecimal(number);
    DecimalRoundTrip(number);
    var r := IconLine(number, path);
    assert r[..|digits|] == digits;
  }

  /** The icon entries for `paths`, numbered from `first` on. */
  function NumberedIcons(paths: seq<string>, first: nat): (r: seq<string>)
    ensures |r| == |paths|
  {
    seq(|paths|, i requires 0 <= i < |paths| => IconLine(first + i, paths[i]))
  }

  /** The lines `AddIcons` appends: nothing at all without icons. */
  function IconSection(paths: seq<string>): (r: seq<string>)
    ensures paths == [] <==> r == []
  {
    if paths == [] then []
    else ["// Icon"] + NumberedIcons(IconOrder(paths), 1) + [""]
  }

  /**
   * The icons keep their order, except that the first `EVEMon.ico` path moves
   * to the front; no path is lost or repeated.
   */
  lemma IconOrderMovesEvemonFirst(paths: seq<string>)
    ensures var k := FirstEvemonIcon(paths);
      IconOrder(paths) == if k < 0 then paths else [paths[k]] + paths[..k] + paths[k + 1..]
    ensures multiset(IconOrder(paths)) == multiset(paths)
  {
    var k := FirstEvemonIcon(paths);
    if k >= 0 {
      RemoveFirstEvemonIcon(paths);
      assert [paths[k]] + (paths[..k] + paths[k + 1..]) == [paths[k]] + paths[..k] + paths[k + 1..];
      IconOrderIsPermutation(paths, k);
    }
  }

  /** Moving the path at `k` to the front keeps the multiset of paths. */
  lemma IconOrderIsPermutation(paths: seq<string>, k: nat)
    requires k < |paths|
    ensures multiset([paths[k]] + RemoveFirst(paths, paths[k])) == multiset(paths)
  {
    var rest := RemoveFirst(paths, paths[k]);
    assert multiset(rest) == multiset(paths) - multiset{paths[k]};
  }

  /** Removing the first `EVEMon.ico` path by value removes it at the position found. */
  lemma RemoveFirstEvemonIcon(paths: seq<string>)
    requires FirstEvemonIcon(paths) >= 0
    ensures var k := FirstEvemonIcon(paths);
      RemoveFirst(paths, paths[k]) == paths[..k] + paths[k + 1..]
  {
    var k := FirstEvemonIcon(paths);
    FirstEvemonIconFinds(paths);
    forall j | 0 <= j < k ensures paths[j] != paths[k] {
      FirstEvemonIconIsFirst(paths, j);
    }
    RemoveFirstAt(paths, k);
  }

  /**
   * For n icon files the section is a header, the entries numbered 1..n, each
   * path exactly once with an `EVEMon.ico` path as number 1, and a blank line.
   */
  lemma IconSectionNumbering(paths: seq<string>)
    requires paths != []
    ensures var r := IconSection(paths);
      && |r| == |paths| + 2
      && r[0] == "// Icon" && r[|r| - 1] == ""
      && (forall i | 0 <= i < |paths| :: r[i + 1] == IconLine(i + 1, IconOrder(paths)[i]))
      && multiset(IconOrder(paths)) == multiset(paths)
      && (FirstEvemonIcon(paths) >= 0 ==> r[1] == IconLine(1, paths[FirstEvemonIcon(paths)]))
  {
    IconOrderMovesEvemonFirst(paths);
  }

  /** The lines `AddManifest` appends. */
  function ManifestSection(manifestExists: bool): (r: seq<string>)
    ensures !manifestExists <==> r == []
  {
    if manifestExists then ["// Manifest", "1 24 \"app.manifest\"", ""] else []
  }

  /** The version's components, each as `int.ToString()` renders it. */
  function VersionFields(v: Version): (r: seq<string>)
    ensures |r| == 4
  {
    [IntToDecimal(v.major), IntToDecimal(v.minor), IntToDecimal(v.build), IntToDecimal(v.revision)]
  }

  /**
   * `String.Format("{0},{1},{2},{3}", ...)` for `FILEVERSION` (separator `,`)
   * and `String.Format("{0}.{1}.{2}.{3}", ...)` for `FileVersion` (separator `.`).
   */
  function JoinedVersion(v: Version, separator: char): (r: string)
    requires separator == ',' || separator == '.'
    ensures ReadVersion(r, separator) == Some(v)
  {
    VersionTextRoundTrip(v, separator);
    Join(VersionFields(v), separator)
  }

  /** Reads back four integers separated by `separator`. */
  function ReadVersion(text: string, separator: char): Option<Version>
  {
    var fields := SplitOn(text, separator);
    if |fields| != 4 then None
    else
      match (ParseInt(fields[0]), ParseInt(fields[1]), ParseInt(fields[2]), ParseInt(fields[3]))
      case (Some(a), Some(b), Some(c), Some(d)) => Some(Version(a, b, c, d))
      case _ => None
  }

  /** A value line of the `StringFileInfo` block. */
  function ValueLine(name: string, value: string): (r: string)
    ensures |r| == 24 + |name| + |value|
  {
    "            VALUE \"" + name + "\", \"" + value + "\""
  }

  /** A value line names its value and its text: both read back from the line. */
  lemma ValueLineFields(name: string, value: string)
    ensures var r := ValueLine(name, value);
      && r[..19] == "            VALUE \""
      && r[19..19 + |name|] == name && r[19 + |name|..23 + |name|] == "\", \""
      && r[23 + |name|..|r| - 1] == value && r[|r| - 1] == '"'
  {
  }

  /** The `VERSIONINFO` header and the opening of the string table. */
  function VersionHeader(commaVersion: string): (r: seq<string>)
    ensures |r| == 18
    ensures r[2] == " FILEVERSION " + commaVersion && r[3] == " PRODUCTVERSION " + commaVersion
  {
    [ "// Version",
      "1 VERSIONINFO",
      " FILEVERSION " + commaVersion,
      " PRODUCTVERSION " + commaVersion,
      " FILEFLAGSMASK 0x3fL",
      "#ifdef _DEBUG",
      " FILEFLAGS 0x1L",
      "#else",
      " FILEFLAGS 0x0L",
      "#endif",
      " FILEOS 0x40004L",
      " FILETYPE 0x0L",
      " FILESUBTYPE 0x0L",
      "BEGIN",
      "    BLOCK \"StringFileInfo\"",
      "    BEGIN",
      "        BLOCK \"000004b0\"",
      "        BEGIN" ]
  }

  /** The values of the string table. */
  function VersionValues(info: AssemblyInfo, dotVersion: string): (r: seq<string>)
    ensures |r| == 8
    ensures r[2] == ValueLine("FileVersion", dotVersion) && r[7] == ValueLine("ProductVersion", dotVersion)
  {
    [ ValueLine("CompanyName", info.company),
      ValueLine("FileDescription", info.title),
      ValueLine("FileVersion", dotVersion),
      ValueLine("InternalName", info.title + ".exe"),
      ValueLine("LegalCopyright", info.copyright),
      ValueLine("OriginalFilename", info.title + ".exe"),
      ValueLine("ProductName", info.product),
      ValueLine("ProductVersion", dotVersion) ]
  }

  /** The end of the string table and the translation table. */
  const VersionTrailer: seq<string> :=
    [ "        END",
      "    END",
      "    BLOCK \"VarFileInfo\"",
      "    BEGIN",
      "        VALUE \"Translation\", 0x000, 1200",
      "    END",
      "END" ]

  /** The lines `AddVersionInfo` appends. */
  function VersionInfoSection(info: AssemblyInfo): (r: seq<string>)
    ensures |r| == 33
  {
    VersionHeader(JoinedVersion(info.version, ',')) + VersionValues(info, JoinedVersion(info.version, '.')) + VersionTrailer
  }

  /**
   * Where the version appears in the block: comma-joined on the `FILEVERSION`
   * and `PRODUCTVERSION` lines, dot-joined in the `FileVersion` and
   * `ProductVersion` values.
   */
  lemma VersionInfoLines(info: AssemblyInfo)
    ensures var r := VersionInfoSection(info);
      && r[0] == "// Version" && r[32] == "END"
      && r[2] == " FILEVERSION " + JoinedVersion(info.version, ',')
      && r[3] == " PRODUCTVERSION " + JoinedVersion(info.version, ',')
      && r[20] == ValueLine("FileVersion", JoinedVersion(info.version, '.'))
      && r[25] == ValueLine("ProductVersion", JoinedVersion(info.version, '.'))
  {
  }

  /** A rendered integer holds neither separator. */
  lemma NoSeparators(n: int)
    ensures ',' !in IntToDecimal(n) && '.' !in IntToDecimal(n)
  {
    var s := IntToDecimal(n);
    assert forall k | 0 <= k < |s| :: s[k] != ',' && s[k] != '.';
  }

  /** Reading a rendered version back with the same separator gives the version. */
  lemma {:induction false} VersionTextRoundTrip(v: Version, separator: char)
    requires separator == ',' || separator == '.'
    ensures ReadVersion(Join(VersionFields(v), separator), separator) == Some(v)
  {
    var fields := VersionFields(v);
    forall i | 0 <= i < 4 ensures separator !in fields[i] {
      NoSeparators([v.major, v.minor, v.build, v.revision][i]);
    }
    SplitJoin(fields, separator);
    IntRoundTrip(v.major);
    IntRoundTrip(v.minor);
    IntRoundTrip(v.build);
    IntRoundTrip(v.revision);
  }

  // ---------------------------------------------------------------------------
  // Writing the script

  /** The `StringBuilder` the script is written into, one appended line at a time. */
  class RcBuilder {
    var lines: seq<string>

    constructor ()
      ensures lines == []
    {
      lines := [];
    }

    /** `AppendLine(line)` (and `AppendFormat(...).AppendLine()`). */
    method AppendLine(line: string)
      modifies this
      ensures lines == old(lines) + [line]
    {
      lines := lines + [line];
    }

    method AppendLines(more: seq<string>)
      modifies this
      ensures lines == old(lines) + more
    {
      lines := lines + more;
    }
  }

  /** Numbering one more icon extends the entries by one line. */
  lemma NumberedIconsSnoc(paths: seq<string>, path: string, first: nat)
    ensures NumberedIcons(paths + [path], first) == NumberedIcons(paths, first) + [IconLine(first + |paths|, path)]
  {
  }

  /** The first entry, then the rest numbered from the next number. */
  lemma NumberedIconsCons(path: string, paths: seq<string>, first: nat)
    ensures NumberedIcons([path] + paths, first) == [IconLine(first, path)] + NumberedIcons(paths, first + 1)
  {
  }

  /** The `foreach` loop of `AddIcons`: one numbered entry per path, counting up from `first`. */
  method AppendNumberedIcons(sb: RcBuilder, paths: seq<string>, first: nat)
    modifies sb
    ensures sb.lines == old(sb.lines) + NumberedIcons(paths, first)
  {
    var count := first;
    var i := 0;
    while i < |paths|
      invariant 0 <= i <= |paths|
      invariant count == first + i
      invariant sb.lines == old(sb.lines) + NumberedIcons(paths[..i], first)
    {
      assert paths[..i + 1] == paths[..i] + [paths[i]];
      NumberedIconsSnoc(paths[..i], paths[i], first);
      sb.AppendLine(IconLine(count, paths[i]));
      count := count + 1;
      i := i + 1;
    }
    assert paths[..i] == paths;
  }

  /** The entry `AddIcons` writes first: the `EVEMon.ico` icon as number 1, when there is one. */
  function EvemonEntry(iconFiles: seq<string>): seq<string>
  {
    var k := FirstEvemonIcon(iconFiles);
    if k >= 0 then [IconLine(1, iconFiles[k])] else []
  }

  /** The icons `AddIcons` numbers in its loop: all but the `EVEMon.ico` one written first. */
  function RemainingIcons(iconFiles: seq<string>): seq<string>
  {
    var k := FirstEvemonIcon(iconFiles);
    if k >= 0 then RemoveFirst(iconFiles, iconFiles[k]) else iconFiles
  }

  /** The number the loop of `AddIcons` starts counting from. */
  function NextNumber(iconFiles: seq<string>): nat
  {
    if FirstEvemonIcon(iconFiles) >= 0 then 2 else 1
  }

  /** The icon section is its header, the `EVEMon.ico` entry, the loop's entries and a blank line. */
  lemma IconSectionFrom(iconFiles: seq<string>)
    requires iconFiles != []
    ensures IconSection(iconFiles)
      == ["// Icon"] + EvemonEntry(iconFiles) + NumberedIcons(RemainingIcons(iconFiles), NextNumber(iconFiles)) + [""]
  {
    var k := FirstEvemonIcon(iconFiles);
    if k >= 0 {
      var rest := RemoveFirst(iconFiles, iconFiles[k]);
      assert IconOrder(iconFiles) == [iconFiles[k]] + rest;
      NumberedIconsCons(iconFiles[k], rest, 1);
      assert ["// Icon"] + ([IconLine(1, iconFiles[k])] + NumberedIcons(rest, 2)) + [""]
          == ["// Icon"] + [IconLine(1, iconFiles[k])] + NumberedIcons(rest, 2) + [""];
    } else {
      assert ["// Icon"] + [] == ["// Icon"];
    }
  }

  /**
   * The `EVEMon.ico` step of `AddIcons`: write that icon as number 1 and drop it
   * from the list, returning the paths left and the next number.
   */
  method AddEvemonIcon(sb: RcBuilder, iconFiles: seq<string>) returns (paths: seq<string>, count: nat)
    modifies sb
    ensures sb.lines == old(sb.lines) + EvemonEntry(iconFiles)
    ensures paths == RemainingIcons(iconFiles) && count == NextNumber(iconFiles)
  {
    paths := iconFiles;
    count := 1;
    var k := FirstEvemonIcon(paths);
    if k >= 0 {
      var iconEvemon := paths[k];
      sb.AppendLine(IconLine(count, iconEvemon));
      count := count + 1;
      paths := RemoveFirst(paths, iconEvemon);
    }
  }

  /** `AddIcons`: `iconFiles` is the listing of the icons directory, empty when it does not exist. */
  method AddIcons(sb: RcBuilder, iconFiles: seq<string>)
    modifies sb
    ensures sb.lines == old(sb.lines) + IconSection(iconFiles)
  {
    if |iconFiles| == 0 {
      return;
    }
    ghost var start := sb.lines;
    sb.AppendLine("// Icon");
    var paths, count := AddEvemonIcon(sb, iconFiles);
    AppendNumberedIcons(sb, paths, count);
    sb.AppendLine("");
    IconSectionFrom(iconFiles);
    assert start + (["// Icon"] + EvemonEntry(iconFiles) + NumberedIcons(paths, count) + [""])
        == start + ["// Icon"] + EvemonEntry(iconFiles) + NumberedIcons(paths, count) + [""];
  }

  /** `AddManifest`: `manifestExists` says whether `..\EVEMon\app.manifest` exists. */
  method AddManifest(sb: RcBuilder, manifestExists: bool)
    modifies sb
    ensures sb.lines == old(sb.lines) + ManifestSection(manifestExists)
  {
    if !manifestExists {
      return;
    }
    sb.AppendLine("// Manifest");
    sb.AppendLine("1 24 \"app.manifest\"");
    sb.AppendLine("");
  }

  method AddVersionInfo(sb: RcBuilder, info: AssemblyInfo)
    modifies sb
    ensures sb.lines == old(sb.lines) + VersionInfoSection(info)
  {
    var commaVersion := JoinedVersion(info.version, ',');
    var dotVersion := JoinedVersion(info.version, '.');
    sb.AppendLines(VersionHeader(commaVersion));
    sb.AppendLines(VersionValues(info, dotVersion));
    sb.AppendLines(VersionTrailer);
  }

  /**
   * `GenerateRcFile` up to the write: the path of the script and its lines,
   * the icons first, then the manifest, then the version block.
   */
  method GenerateRcFile(info: AssemblyInfo, iconFiles: seq<string>, manifestExists: bool)
    returns (filePath: string, text: seq<string>)
    ensures filePath == "..\\EVEMon\\" + info.title + ".rc"
    ensures text == IconSection(iconFiles) + ManifestSection(manifestExists) + VersionInfoSection(info)
  {
    filePath := "..\\EVEMon\\" + info.title + ".rc";
    var sb := new RcBuilder();
    AddIcons(sb, iconFiles);
    assert sb.lines == IconSection(iconFiles);
    AddManifest(sb, manifestExists);
    AddVersionInfo(sb, info);
    text := sb.lines;
  }

  /** The places `FindRcExe` looks for the resource compiler, in order. */
  function RcExeLocations(programFilesDir: string, programFilesX86Dir: string): (r: seq<string>)
    ensures |r| == 4
    ensures forall i | 0 <= i < 4 :: r[i] != ""
  {
    [ programFilesDir + "\\Microsoft SDKs\\Windows\\v7.0A\\Bin\\RC.exe",
      programFilesX86Dir + "\\Microsoft SDKs\\Windows\\v7.0A\\Bin\\RC.exe",
      "F:\\Program Files\\Microsoft SDKs\\Windows\\v7.1\\Bin\\RC.exe",
      "F:\\Program Files (x86)\\Microsoft SDKs\\Windows\\v7.1\\Bin\\RC.exe" ]
  }

  /**
   * `FindRcExe`: the first location that exists, or the empty string when none
   * does. `fileExists` stands for `File.Exists`.
   */
  method FindRcExe(programFilesDir: string, programFilesX86Dir: string, fileExists: string -> bool)
    returns (path: string)
    ensures path == "" <==> forall i | 0 <= i < 4 :: !fileExists(RcExeLocations(programFilesDir, programFilesX86Dir)[i])
    ensures path != "" ==> exists i | 0 <= i < 4 ::
              && path == RcExeLocations(programFilesDir, programFilesX86Dir)[i]
              && fileExists(path)
              && forall j | 0 <= j < i :: !fileExists(RcExeLocations(programFilesDir, programFilesX86Dir)[j])
  {
    var candidates := RcExeLocations(programFilesDir, programFilesX86Dir);
    var locations := new string[4];
    locations[0] := candidates[0];
    locations[1] := candidates[1];
    locations[2] := candidates[2];
    locations[3] := candidates[3];
    for i := 0 to 4
      invariant forall j | 0 <= j < i :: !fileExists(candidates[j])
    {
      if fileExists(locations[i]) {
        return locations[i];
      }
    }
    return "";
  }
}
