# EVEMon character ignore list and resource-script generator, in Dafny

This project models two pieces of EVEMon, the EVE Online character monitor.

**The per-account character ignore list** (`CharacterIdentityIgnoreList`). Every
account key owns one ignore list: an ordered list of character identities the
account chose to stop tracking. `Add` appends an identity and, when the identity
belongs to the list's own account, takes its character out of the process-wide
character collection. `Remove` takes the identity off the list and, when no CCP
character exists for it, puts a new one into the collection flagged as new.
`Import` rebuilds the list from saved (ID, name) records through the
process-wide identity directory, reusing known identities and creating unknown
ones. `Export` turns the list back into records.

The module `IgnoreList` (`ignore_list.dfy`) first writes each operation as a
function of a `World` value: the list, the tracked-character collection and the
identity directory. The properties are lemmas about those functions. The
classes `Client` (the two registries of `EveMonClient`) and
`CharacterIdentityIgnoreList` hold the same state in fields. Each of their
methods is proved to move the state exactly as its function says.

**The resource-script generator** (`Tools/ResFileCreator`). This build tool reads
`AssemblyInfo.cs`, extracts the assembly's title, company, product, copyright and
version, and writes a Windows resource script (`.rc`) with three sections: the
icons, the manifest and the version block. It also looks for `RC.exe`. The module
`ResFileCreator` (`res_file_creator.dfy`) models the text extraction
(`GetValueOf`), the three sections, their order in `GenerateRcFile`, and
`FindRcExe`. The file system is replaced by inputs: the icon listing, a flag
saying whether the manifest exists, and a `fileExists` predicate. The
`StringBuilder` becomes the class `RcBuilder`, which holds the script as a
sequence of lines.

Support modules:
- `Collections` (`collections.dfy`): `List<T>.Remove` as `RemoveFirst`, plus small sequence lemmas.
- `Text` (`text.dfy`): ordinal `IndexOf`, `Replace(pattern, "")` as `Strip`, and decimal rendering and parsing of integers.
- `Wrappers` (`wrappers.dfy`): `Option`.

## Model

| member | source | states |
|---|---|---|
| IgnoreList.AddStep | EVEMon.Common/CharacterIdentityIgnoreList.cs:59-70 | An identity already on the list changes nothing. A new identity is appended after the old items, in order. When the identity's key is the owner's, the tracked collection becomes `Untrack` of the old one: it loses one copy of the character if it holds one, and is otherwise unchanged. Otherwise the collection is unchanged, order and `isNew` flags included. The directory is never touched. |
| IgnoreList.RemoveStep | EVEMon.Common/CharacterIdentityIgnoreList.cs:38-52 | An absent identity changes nothing. For a present identity, its first occurrence leaves the list. If a CCP character already existed, the collection is unchanged. Otherwise exactly one new entry, a CCP character for the identity flagged as new, is appended. Afterwards a CCP character exists. |
| IgnoreList.ImportStep | EVEMon.Common/CharacterIdentityIgnoreList.cs:76-85 | The list is replaced by one identity per record, and the tracked characters are untouched. |
| IgnoreList.Serialize | EVEMon.Common/CharacterIdentityIgnoreList.cs:91-94 | One (ID, name) record per identity, in list order. |
| IgnoreList.Untrack | EVEMon.Common/CharacterIdentityIgnoreList.cs:69 | A tracked character's first entry is cut out at its position, and every other entry, with its `isNew` flag, keeps its place. A character not present leaves the collection as it was. |
| IgnoreList.HasCcpCharacter | EVEMon.Common/CharacterIdentityIgnoreList.cs:41 | `id.CCPCharacter != null` holds exactly when some entry of the collection is the CCP character of the identity. |
| IgnoreList.Resolve | EVEMon.Common/CharacterIdentityIgnoreList.cs:80-81 | Lookup-or-create: the record's ID joins the directory, known entries keep their identity, and the result is the directory's entry for the ID. An unknown ID gets a new unowned identity with the record's name. |
| IgnoreList.ResolveAll | EVEMon.Common/CharacterIdentityIgnoreList.cs:79-84 | One identity per record. What each identity is and what the directory becomes is stated by `ResolveAllShape`. |
| IgnoreList.ResolveAllShape | EVEMon.Common/CharacterIdentityIgnoreList.cs:79-84 | After resolving all records, the directory's IDs are the old ones plus the records' IDs, and known identities are kept. Element i is the directory's identity for record i. |
| IgnoreList.ResolveAllDirectory | EVEMon.Common/CharacterIdentityIgnoreList.cs:79-81 | Resolving only adds the records' IDs to the directory and never changes a known entry. |
| IgnoreList.ResolveAllElements | EVEMon.Common/CharacterIdentityIgnoreList.cs:79-84 | Element i of the resolved list is the final directory's entry for the ID of record i. |
| IgnoreList.ResolveAllAdds | EVEMon.Common/CharacterIdentityIgnoreList.cs:80-81 | Every identity the import adds is unowned and carries its ID and the name of the first record with that ID. |
| IgnoreList.AddIsIdempotent | EVEMon.Common/CharacterIdentityIgnoreList.cs:61-63 | Adding the same character twice leaves the world as adding it once. |
| IgnoreList.AddKeepsDistinct | EVEMon.Common/CharacterIdentityIgnoreList.cs:62-65 | Add never creates a repetition in a list that has none. |
| IgnoreList.AddUntracksOwned | EVEMon.Common/CharacterIdentityIgnoreList.cs:65-69 | Ignoring an owned character tracked once leaves it untracked, and the collection is the old one with exactly that entry cut out. |
| IgnoreList.AddThenRemoveOwned | EVEMon.Common/CharacterIdentityIgnoreList.cs:38-70 | Ignoring then un-ignoring an owned CCP character restores the list and the multiset of tracked characters. The character comes back as a new entry at the end. |
| IgnoreList.AddThenRemoveForeign | EVEMon.Common/CharacterIdentityIgnoreList.cs:38-70 | Ignoring then un-ignoring a tracked CCP character of another account restores the whole world. |
| IgnoreList.RemoveKeepsDistinct | EVEMon.Common/CharacterIdentityIgnoreList.cs:42 | On a list without repetitions, Remove keeps it without repetitions, and the identity is no longer on it. |
| IgnoreList.ImportFollowsRecords | EVEMon.Common/CharacterIdentityIgnoreList.cs:76-85 | After Import over a consistent directory, exporting gives the records' IDs in input order. Records with equal IDs give the same identity, so repeated IDs give repeated entries. The directory stays consistent. |
| IgnoreList.ResolveExported | EVEMon.Common/CharacterIdentityIgnoreList.cs:79-93 | Resolving the exported records of a list whose identities the directory holds gives the same list back and adds nothing to the directory. |
| IgnoreList.ImportOfExport | EVEMon.Common/CharacterIdentityIgnoreList.cs:76-94 | `Import(Export())` leaves the world unchanged when the directory holds every ignored identity under its ID. |
| IgnoreList.Client.AddCharacter | EVEMon.Common/CharacterIdentityIgnoreList.cs:51 | The character is appended to the collection with the given `isNew` flag. |
| IgnoreList.Client.RemoveCharacter | EVEMon.Common/CharacterIdentityIgnoreList.cs:69 | The collection becomes `Untrack` of the old one. |
| IgnoreList.Client.Lookup | EVEMon.Common/CharacterIdentityIgnoreList.cs:80 | Returns the identity registered under the ID, or none exactly when the ID is unknown. |
| IgnoreList.Client.AddIdentity | EVEMon.Common/CharacterIdentityIgnoreList.cs:81 | Returns a new unowned identity with the ID and name, and registers it under the ID. |
| IgnoreList.CharacterIdentityIgnoreList.constructor | EVEMon.Common/CharacterIdentityIgnoreList.cs:16-19 | The list starts empty and is owned by the given key. |
| IgnoreList.CharacterIdentityIgnoreList.Contains | EVEMon.Common/CharacterIdentityIgnoreList.cs:26-29 | True exactly when some item equals the character's identity. |
| IgnoreList.CharacterIdentityIgnoreList.Remove | EVEMon.Common/CharacterIdentityIgnoreList.cs:38-52 | The list and the collection move as `RemoveStep` says. |
| IgnoreList.CharacterIdentityIgnoreList.Add | EVEMon.Common/CharacterIdentityIgnoreList.cs:59-70 | The list and the collection move as `AddStep` says. |
| IgnoreList.CharacterIdentityIgnoreList.Import | EVEMon.Common/CharacterIdentityIgnoreList.cs:76-85 | The list and the directory move as `ImportStep` says. The loop keeps the items and the directory equal to resolving the records read so far. |
| IgnoreList.CharacterIdentityIgnoreList.Export | EVEMon.Common/CharacterIdentityIgnoreList.cs:91-94 | Returns one record per item, in list order, and changes nothing. |
| Collections.RemoveFirst | EVEMon.Common/CharacterIdentityIgnoreList.cs:42 | `List.Remove`: an absent element leaves the list unchanged. A present one shortens it by one, and exactly one copy leaves the multiset. |
| Collections.RemoveFirstAt | EVEMon.Common/CharacterIdentityIgnoreList.cs:42 | The copy removed is the first one: the list is cut at that position. |
| Collections.RemoveFirstDistinct | EVEMon.Common/CharacterIdentityIgnoreList.cs:42 | On a list without repetitions, the removed element is gone entirely and no repetition appears. |
| Text.IndexOf | Tools/ResFileCreator/Program.cs:68-70 | The result is the first position where the text occurs, or -1 when it occurs nowhere. |
| Text.IndexOfChar | Tools/ResFileCreator/Program.cs:70 | Searching for one character finds its first occurrence, and -1 exactly when it is absent. |
| Text.StripAbsent | Tools/ResFileCreator/Program.cs:71 | `Replace` of a pattern that does not occur changes nothing. |
| Text.StripKeepsAbsent | Tools/ResFileCreator/Program.cs:71 | `Replace` with the empty string introduces no character that was not there. |
| Text.StripLeading | Tools/ResFileCreator/Program.cs:71 | `Replace` removes a leading occurrence of the pattern and goes on with the rest. |
| Text.Strip | Tools/ResFileCreator/Program.cs:71 | `Replace(pattern, "")` never lengthens the text. What it removes is stated by `StripAbsent`, `StripLeading` and `StripKeepsAbsent`. |
| Text.IntToDecimal | Tools/ResFileCreator/Program.cs:108-109 | `int.ToString()` gives at least one character, all digits or `-`, with a leading `-` exactly for a negative number. `IntRoundTrip` reads it back. |
| Text.NatToDecimal | Tools/ResFileCreator/Program.cs:108-109 | A number renders as at least one decimal digit, without a leading zero. |
| Text.DecimalRoundTrip | Tools/ResFileCreator/Program.cs:108-109 | Reading the rendered digits back gives the number. |
| Text.IntRoundTrip | Tools/ResFileCreator/Program.cs:108-109 | A rendered integer, sign included, parses back to itself. |
| Text.SplitJoin | Tools/ResFileCreator/Program.cs:108-109 | Splitting separator-free fields joined by the separator gives the fields back. |
| ResFileCreator.GetValueOf | Tools/ResFileCreator/Program.cs:66-73 | On every input where it does not throw, including a missing key, the value read never contains `)`. Its exact value for `key("v")` is stated by `GetValueOfAttribute`. |
| ResFileCreator.HasValueOf | Tools/ResFileCreator/Program.cs:68-71 | The inputs on which `GetValueOf` does not throw: the cut starts inside the content, the character there is not `)`, and a `)` follows somewhere after it. A missing key is included. |
| ResFileCreator.ValueText | Tools/ResFileCreator/Program.cs:68-71 | The cut is a piece of the content starting where the key ends. It holds no `)`, and the character after its end is followed by the first `)`. |
| ResFileCreator.Unquote | Tools/ResFileCreator/Program.cs:71 | Removing `("` and then `")` never lengthens the text. What it removes is stated by `StripQuotes` and `UnquoteKeepsAbsent`. |
| ResFileCreator.UnquoteKeepsAbsent | Tools/ResFileCreator/Program.cs:71 | Removing the quotes adds no character that was not there. |
| ResFileCreator.CutBeforeClose | Tools/ResFileCreator/Program.cs:70-71 | The text from the cut's start up to the first `)` holds no `)`, and that `)` is inside the content. |
| ResFileCreator.MissingKeyCutsAtKeyLength | Tools/ResFileCreator/Program.cs:68-71 | With the key missing, `GetValueOf` does not throw when the content is long enough. It silently cuts from position `|key| - 1` up to one before the next `)`. |
| ResFileCreator.GetValueOfAttribute | Tools/ResFileCreator/Program.cs:66-73 | For `key("v")` at the first occurrence of the key, with no `)` and no `("` in `v`, `GetValueOf` does not throw and returns exactly `v`. |
| ResFileCreator.AttributeCut | Tools/ResFileCreator/Program.cs:68-71 | For `key("v")` at the first occurrence of the key, the substring cut is `("` followed by `v`. |
| ResFileCreator.ValueTextAfterKey | Tools/ResFileCreator/Program.cs:68-71 | The cut starts right after the first occurrence of the key and ends one character before the first `)` that follows. |
| ResFileCreator.StripQuotes | Tools/ResFileCreator/Program.cs:71 | Removing `("` and then `")` from `("v` gives `v` when `v` holds neither. |
| ResFileCreator.ParseAssemblyInfo | Tools/ResFileCreator/Program.cs:51-59 | The title, company, product and copyright are `GetValueOf` of `AssemblyTitle`, `AssemblyCompany`, `AssemblyProduct` and `AssemblyCopyright` respectively, and hold no `)`. The version is the parse of the `AssemblyVersion` text. |
| ResFileCreator.IsEvemonIcon | Tools/ResFileCreator/Program.cs:176 | `file.Contains("EVEMon.ico")` holds exactly when `EVEMon.ico` occurs somewhere in the path. |
| ResFileCreator.FirstEvemonIcon | Tools/ResFileCreator/Program.cs:176 | `FirstOrDefault`: a position within the list, or -1. |
| ResFileCreator.FirstEvemonIconFinds | Tools/ResFileCreator/Program.cs:176 | The path found contains `EVEMon.ico`. |
| ResFileCreator.FirstEvemonIconIsFirst | Tools/ResFileCreator/Program.cs:176 | No earlier path contains `EVEMon.ico`, and none at all does when nothing is found. |
| ResFileCreator.RemoveFirstEvemonIcon | Tools/ResFileCreator/Program.cs:183 | Removing the found path by value removes it at the position found. |
| ResFileCreator.IconSection | Tools/ResFileCreator/Program.cs:172-173 | The icon section is empty exactly when there are no icon files, so there is no `// Icon` header either. |
| ResFileCreator.IconOrder | Tools/ResFileCreator/Program.cs:176-183 | The order has as many paths as the input. Without an `EVEMon.ico` path it is the input itself; otherwise it starts with the first such path. The rest of the order is stated by `IconOrderMovesEvemonFirst`. |
| ResFileCreator.IconLine | Tools/ResFileCreator/Program.cs:181-188 | An entry `<number> ICON "<path>"` is as long as the number's digits plus the path plus eight characters. |
| ResFileCreator.IconLineFields | Tools/ResFileCreator/Program.cs:181-188 | The entry starts with the number's digits, which read back as the number, followed by ` ICON "`, the path and a closing quote. |
| ResFileCreator.NumberedIcons | Tools/ResFileCreator/Program.cs:175-190 | One entry per path. The numbering is stated by `IconSectionNumbering` and `NumberedIconsSnoc`. |
| ResFileCreator.IconOrderMovesEvemonFirst | Tools/ResFileCreator/Program.cs:176-190 | The first `EVEMon.ico` path moves to the front and the others keep their order. The order is a permutation of the input. |
| ResFileCreator.IconOrderIsPermutation | Tools/ResFileCreator/Program.cs:183 | Moving one path to the front loses and repeats nothing. |
| ResFileCreator.IconSectionNumbering | Tools/ResFileCreator/Program.cs:175-191 | For n paths, the section is the header, the entries numbered 1..n over a permutation of the paths, and a blank line. An `EVEMon.ico` path is number 1. |
| ResFileCreator.IconSectionFrom | Tools/ResFileCreator/Program.cs:174-191 | The section is the header, the `EVEMon.ico` entry if any, the loop's entries counted from the next number, and a blank line. |
| ResFileCreator.AddEvemonIcon | Tools/ResFileCreator/Program.cs:174-183 | Writes the `EVEMon.ico` entry as number 1 when there is one. Returns the remaining paths and the next number. |
| ResFileCreator.AppendNumberedIcons | Tools/ResFileCreator/Program.cs:185-189 | The loop appends one entry per path, numbered consecutively from the start number. |
| ResFileCreator.AddIcons | Tools/ResFileCreator/Program.cs:164-192 | Appends exactly the icon section to the builder. |
| ResFileCreator.ManifestSection | Tools/ResFileCreator/Program.cs:151-158 | The manifest section is empty exactly when the manifest does not exist. |
| ResFileCreator.AddManifest | Tools/ResFileCreator/Program.cs:151-159 | Appends exactly the manifest section. |
| ResFileCreator.ValueLine | Tools/ResFileCreator/Program.cs:130-137 | A value line is 24 characters longer than its name and its value together. |
| ResFileCreator.ValueLineFields | Tools/ResFileCreator/Program.cs:130-137 | A value line is twelve spaces and `VALUE "`, the name, `", "`, the value and a closing quote, so both read back from the line. |
| ResFileCreator.VersionHeader | Tools/ResFileCreator/Program.cs:111-129 | Eighteen lines; `FILEVERSION` and `PRODUCTVERSION` carry the comma-joined version. |
| ResFileCreator.VersionValues | Tools/ResFileCreator/Program.cs:130-137 | Eight value lines; `FileVersion` and `ProductVersion` carry the dot-joined version. |
| ResFileCreator.VersionInfoSection | Tools/ResFileCreator/Program.cs:105-145 | The version block is 33 lines. |
| ResFileCreator.VersionInfoLines | Tools/ResFileCreator/Program.cs:108-144 | The block opens with `// Version` and closes with `END`. Lines 2 and 3 carry the comma-joined version, and lines 20 and 25 the dot-joined one. |
| ResFileCreator.VersionTextRoundTrip | Tools/ResFileCreator/Program.cs:108-109 | The four components joined by `,` or `.` read back as the same four components. |
| ResFileCreator.JoinedVersion | Tools/ResFileCreator/Program.cs:108-109 | The four components joined by `,` (line 108) or by `.` (line 109) read back as exactly the assembly's version. |
| ResFileCreator.AddVersionInfo | Tools/ResFileCreator/Program.cs:105-145 | Appends exactly the version block. |
| ResFileCreator.RcBuilder.AppendLine | Tools/ResFileCreator/Program.cs:111 | One line is added at the end. |
| ResFileCreator.RcBuilder.AppendLines | Tools/ResFileCreator/Program.cs:111-144 | The lines are added at the end, in order. |
| ResFileCreator.GenerateRcFile | Tools/ResFileCreator/Program.cs:79-88 | The script path is `..\EVEMon\<title>.rc`. The text is the icon section, then the manifest section, then the version block. |
| ResFileCreator.RcExeLocations | Tools/ResFileCreator/Program.cs:227-232 | Four non-empty candidate paths. |
| ResFileCreator.FindRcExe | Tools/ResFileCreator/Program.cs:225-239 | Returns the first candidate, in index order, that exists. Returns the empty string exactly when none exists. |

## Left out

- File and process I/O (reading `AssemblyInfo.cs`, writing and deleting the `.rc` file, listing the icon directory, running `RC.exe`, setting the current directory) is not modelled. The icon listing, the manifest's existence and `File.Exists` are inputs, and the script is returned as lines.
- The `Main` driver and `CreateResFile` only sequence I/O steps and are not modelled.
- Console messages, `Encoding.Default` and line terminators are not modelled; the script is a sequence of lines.
- `Path.GetFullPath` and `Environment.GetFolderPath` are not modelled; the path is kept relative and the program-files folders are parameters.
- `GenerateRcFile`: the `IOException` path that prints the message and returns false is not modelled.
- `ParseAssemblyInfo`: `new Version(string)` is a library parser and is a parameter. The `s_dictionary` static store becomes the returned `AssemblyInfo` record.
- `GetValueOf`: the calls that throw are excluded by the precondition `HasValueOf`, not modelled as errors. They are a cut that starts past the end of the content, no `)` after the cut, or a `)` right at the cut. A missing key is not one of them: `IndexOf` gives -1, and the value is read from position `|key| - 1` (`MissingKeyCutsAtKeyLength`).
- `Text.IndexOf`: culture-aware comparison (`InvariantCulture`) is modelled as ordinal comparison.
- `CCPCharacter` is not part of this model. `id.CCPCharacter` is modelled as "the collection holds the CCP character of this identity" (`HasCcpCharacter`), and a new `CCPCharacter(id)` as that character value.
- `EveMonClient`, `APIKey`, `ReadonlyCollection` and `SerializableCharacterIdentity` are not part of this model. Keys are numbers and identities are values. Comparison by reference is modelled as equality of values, and the directory keeps one identity per ID.
- `IgnoreList.Client.AddIdentity`: the directory's `Add` is assumed to create an unowned identity; its source is not part of this model.
- The tracked collection's change notifications and the rest of `EveMonClient` are not modelled.
- The ignore list is not duplicate-free in general. `Add` never appends an identity already listed (EVEMon.Common/CharacterIdentityIgnoreList.cs:62-63), so `Add` and `Remove` keep a list without repetitions (`AddKeepsDistinct`, `RemoveKeepsDistinct`). `Import` appends one identity per record without checking (lines 79-84), so records that repeat an ID give repeated entries, as `ImportFollowsRecords` states.
