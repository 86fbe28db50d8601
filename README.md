# CakePHP "go to view" extension: a verified model of its core

The extension helps with CakePHP projects. It reads Composer's PSR-4
autoloader to learn where each plugin lives, and it walks the project to
build four indexes:

- elements, keyed by `Plugin.path/to/element`;
- cells, keyed by `Plugin.Cell::view`;
- scripts and stylesheets, each under several spellings of its name.

From these it answers three kinds of question:

- Which files does a line of a view, controller, cell, mailer or
  `asset_compress.ini` refer to? (`getFilePaths`)
- Which names can complete the text typed after `$this->element('`,
  `$this->cell('`, `$this->Html->script('` or `$this->Html->css('`?
  (the completion provider)
- How are all indexes rebuilt from scratch? (`generateMaps`)

The Dafny project models these pieces, one module per source file:

- the string helpers (`StringUtils`);
- the plugin-path resolver (`PluginUtils`);
- search-path construction (`PathUtils`);
- the three indexers (`ElementMapper`, `CellMapper`, `AssetMapper`);
- the autoloader parser and the file finders (`Autoload`, `FileUtils`);
- the pattern dispatcher (`SearchUtils`);
- the completion provider (`Completion`);
- the rebuild (`MapRefresher`).

Three support modules stand in for the JavaScript and Node.js built-ins
the code relies on:

- `Text`: `split`, `join`, `indexOf`, `trim`, `slice` and `sort`;
- `NodePath`: `path.join`, `path.basename`, `path.extname` and
  `path.relative` with `/` as separator;
- `Dicts` and `FileSystem`: insertion-ordered JavaScript objects, and the
  file system as a tree of directories and files.

The modules differ in how they are written:

- State that the source keeps in module-level variables is a field of a
  class. This covers the cached namespace map, the plugin registry, each
  index and the completion provider's position. Methods change those
  fields and name them in `modifies`.
- A source function that loops is a `method` with loop invariants. It is
  proved equal to a specification function, and the properties of that
  function are proved as lemmas.
- A scan that throws part-way is a scan that returns `false`. What it
  appended before the throw stays appended.

## Model

| member | source | states |
|---|---|---|
| StringUtils.Underscore | src/utils/stringUtils.ts:1-3 | every capital becomes `_` plus its lower-case letter: the result is one character longer per capital and contains no capital |
| StringUtils.UnderscoreNoUpper | src/utils/stringUtils.ts:1-3 | a string without capitals is returned unchanged |
| StringUtils.UnderscoreIdempotent | src/utils/stringUtils.ts:1-3 | applying `underscore` twice gives the same result as applying it once |
| StringUtils.UnderscoreConcat | src/utils/stringUtils.ts:1-3 | the replacement works character by character, so it distributes over concatenation |
| StringUtils.Pluralize | src/utils/stringUtils.ts:5-13 | a final `y` becomes `ies`; otherwise a final `s` gets `es` and any other word gets `s` |
| StringUtils.Singularize | src/utils/stringUtils.ts:15-25 | the suffix rules in source order: a final `ies` becomes `y`; otherwise a final `es` is dropped; otherwise a final `s` is dropped; a word not ending in `s` is returned unchanged; no result is longer than its input |
| StringUtils.SingularizePluralize | src/utils/stringUtils.ts:5-25 | `singularize(pluralize(w)) == w` exactly when `w` does not end in `e` |
| StringUtils.PluralizeY | src/utils/stringUtils.ts:5-25 | words ending in `y` survive the plural round trip |
| StringUtils.PluralizeS | src/utils/stringUtils.ts:5-25 | words ending in `s` (and not `y`) survive the plural round trip |
| StringUtils.PluralizeOther | src/utils/stringUtils.ts:5-25 | for any other word, the round trip holds exactly when the word does not end in `e` |
| StringUtils.PluralizeE | src/utils/stringUtils.ts:15-25 | a word ending in `e` plus `s` does not singularize back to the word (`houses` gives `hous`) |
| StringUtils.PluralizeNotE | src/utils/stringUtils.ts:15-25 | a word ending in neither `e` nor `s` plus `s` singularizes back to the word |
| StringUtils.CamelizeStep | src/utils/stringUtils.ts:27-29 | a `-` or `_` followed by a word character is dropped and that character upper-cased; any other character is copied and scanning resumes after it |
| StringUtils.Camelize | src/utils/stringUtils.ts:27-29 | the result is no longer than the input and empty only for the empty input; a match at the start gives its character upper-cased, otherwise the first character is kept |
| StringUtils.VariableCamelize | src/utils/stringUtils.ts:31-37 | the same bounds; a match at index 0 gives its character lower-cased, otherwise the first character is kept |
| StringUtils.VariableCamelizeIsCamelize | src/utils/stringUtils.ts:31-37 | `variableCamelize` is `camelize` except that a match at index 0 lower-cases its character |
| StringUtils.CamelizeNoSeparator | src/utils/stringUtils.ts:27-29 | a string without `-` or `_` is returned unchanged |
| StringUtils.CamelizeTrailingDash | src/utils/stringUtils.ts:27-29 | a trailing `-` has no word character after it and is kept |
| StringUtils.CamelizeUnderscore | src/utils/stringUtils.ts:1-29 | `camelize` undoes `underscore` on names without separators |
| StringUtils.VariableCamelizeUnderscore | src/utils/stringUtils.ts:1-37 | `variableCamelize` undoes `underscore` on separator-free names that start in lower case |
| PluginUtils.LookupPluginPath | src/utils/pluginUtils.ts:9-20 | a path is found exactly when the map is set and holds a non-empty value under the slash-normalised namespace; that value is returned |
| PluginUtils.NormalizeNamespace | src/utils/pluginUtils.ts:15 | no `/` is left after normalisation |
| PluginUtils.PluginPathSlashInsensitive | src/utils/pluginUtils.ts:15-17 | `Vendor/Name` and `Vendor\Name` resolve to the same plugin path |
| PluginUtils.PluginRegistry.constructor | src/utils/pluginUtils.ts:3 | the registry starts with no namespace map |
| PluginUtils.PluginRegistry.SetNamespaceMap | src/utils/pluginUtils.ts:5-7 | the registry holds exactly the given map afterwards |
| PluginUtils.PluginRegistry.GetPluginPath | src/utils/pluginUtils.ts:9-20 | nothing is found before a map is set; a found path is never empty |
| PluginUtils.DropExtension | src/utils/pluginUtils.ts:25-29 | the parts are kept as they are, or the last one is removed when there are at least two |
| PluginUtils.ParseElementName | src/utils/pluginUtils.ts:22-38 | a plugin name never contains `.`; a name without `.` has no plugin and is its own path |
| PluginUtils.ParseElementNameRoundTrip | src/utils/pluginUtils.ts:30-34 | when the last part is not `js`/`css`, the plugin, a `.` and the path give back the name |
| PluginUtils.ParseElementNameExtension | src/utils/pluginUtils.ts:25-34 | a trailing `js`/`css` part is dropped: the plugin is the first part and the path the middle parts |
| PluginUtils.ParseElementNameSingle | src/utils/pluginUtils.ts:36-37 | when one part is left, there is no plugin and the whole name is the path |
| PluginUtils.ExampleBlogAppCss | src/utils/pluginUtils.ts:22-38 | `Blog.app.css` parses to plugin `Blog`, path `app` |
| PluginUtils.ExampleAppJs | src/utils/pluginUtils.ts:22-38 | `app.js` has no plugin and keeps its full name as path |
| PluginUtils.PluginNameTwoLevels | src/utils/elementMapper.ts:35 | the indexers name a plugin by its first two namespace levels joined with `/` and drop deeper levels |
| PathUtils.CreateFileInfo | src/utils/pathUtils.ts:140-150 | the file's path is kept and its displayed name has no separator |
| PathUtils.CreateFileInfoName | src/utils/pathUtils.ts:144 | the displayed name is `path.basename` of the file and ends its path, before at most one trailing `/` |
| PathUtils.CreateFileInfoBelow | src/utils/pathUtils.ts:142 | for a file below the workspace root, the shown path is its path relative to the root |
| PathUtils.LeadingBases | src/utils/pathUtils.ts:17-31 | at most two bases lead: the given plugin path, or else `vendor/<plugin lower-cased, first / as ->`; then `templates/plugin/<plugin>` when a plugin is named |
| PathUtils.RootIsLastBase | src/utils/pathUtils.ts:57 | the workspace root is always the last base |
| PathUtils.FolderBasesByKind | src/utils/pathUtils.ts:37-52 | for each `plugins/` entry, scripts and stylesheets use the entry itself; other kinds use its `templates` and, with a plugin, its `templates/plugin/<plugin>` |
| PathUtils.PushLeadingBases | src/utils/pathUtils.ts:17-31 | the pushes build the leading bases |
| PathUtils.FolderLoop | src/utils/pathUtils.ts:37-52 | the loop over `plugins/` appends each entry's bases in listing order |
| PathUtils.BuildBasePaths | src/utils/pathUtils.ts:15-57 | the bases are the leading ones, then those of every `plugins/` entry (only when `plugins/` is a directory), then the root |
| PathUtils.PluginFolders | src/utils/pathUtils.ts:33-36 | a listing exactly when `<root>/plugins` is a directory, with one name per entry (regular files included) |
| PathUtils.BasePaths | src/utils/pathUtils.ts:15-57 | the leading bases come first and the root last; without a `plugins/` listing the bases are the leading ones and the root |
| PathUtils.Expand | src/utils/pathUtils.ts:59-132 | a cell class base expands to `src/View/Cell`; a template base outside `plugins/` expands to its `templates` directory |
| PathUtils.ExpandAll | src/utils/pathUtils.ts:59-132 | a path results exactly when some base expands to it |
| PathUtils.DistinctSorted | src/utils/pathUtils.ts:134 | duplicates are removed and the result is strictly ascending, with the same members |
| PathUtils.SearchPaths | src/utils/pathUtils.ts:13-138 | the search paths are strictly ascending and hold exactly the expansions of the bases |
| PathUtils.ConstructSearchPaths | src/utils/pathUtils.ts:13-138 | the method computes `SearchPaths` of the workspace's `plugins/` listing |
| PathUtils.ElementSearchHasAppElements | src/utils/pathUtils.ts:57-66 | `templates/element` of the workspace is always searched for elements |
| PathUtils.CellClassSearchPaths | src/utils/pathUtils.ts:67-76 | cell classes are looked for exactly in `src/View/Cell` of each base |
| PathUtils.JsSearchPaths | src/utils/pathUtils.ts:117-123 | scripts are looked for exactly in `webroot` and `webroot/js` of each base, plus `webroot/js` of the plugin path when one is given |
| PathUtils.CssSearchPaths | src/utils/pathUtils.ts:124-129 | stylesheets are looked for exactly in `webroot` and `webroot/css` of each base, plus `webroot/css` of the plugin path when one is given |
| Dicts.Put | src/utils/fileUtils.ts:69 | assigning a key sets its value and leaves every other key alone; a new key goes last in the key order |
| Dicts.Append | src/utils/elementMapper.ts:78-81 | pushing a path adds it at the end of its key's list; a new key goes last in the key order |
| Dicts.AppendNew | src/utils/assetMapper.ts:72-77 | a path already in the key's list is not pushed again, so lists stay free of duplicates |
| Dicts.AppendAllLookup | src/utils/elementMapper.ts:67-83 | after a series of pushes each key lists its old paths followed by the new ones for it, in order |
| Dicts.AppendAllNames | src/utils/elementMapper.ts:78-81 | a key is present after the pushes exactly when it was before or a push used it |
| Dicts.AppendNewAllLookup | src/utils/assetMapper.ts:70-78 | after de-duplicating pushes, each list holds its old paths and the new ones, with no duplicate |
| Dicts.AppendAllWellFormed | src/utils/elementMapper.ts:78-81 | pushes never leave an empty list in the index |
| NodePath.JoinPath | src/utils/elementMapper.ts:68 | `path.join` leaves out empty operands and puts one `/` between two plain ones |
| NodePath.RelativeJoin | src/utils/pathUtils.ts:142 | the path from the root to `root/rel` is `rel` |
| NodePath.Basename | src/utils/pathUtils.ts:144 | the base name has no separator |
| NodePath.BasenameLastSegment | src/utils/pathUtils.ts:144 | the base name ends the path with one trailing `/` dropped, and is all of it or follows a `/`: it is the last segment |
| NodePath.ExtName | src/utils/elementMapper.ts:73 | the extension is empty or starts with `.`; it ends the base name and is shorter than it |
| NodePath.ExtNameDot | src/utils/elementMapper.ts:73 | the extension has no `.` after its first character, and is non-empty exactly when the base name is not `..` and has a `.` after its first character |
| NodePath.LastDotAfterFirst | src/utils/elementMapper.ts:73 | the last `.` of a name is past its first character exactly when the name has a `.` after its first character |
| FileSystem.OverrideStepFound | src/utils/elementMapper.ts:96-116 | completeness: every directory at any depth below the listing that has a `sub` entry (`element`, `cell`) is scanned there under its exact chain of names, or throws there when the entry is a regular file |
| FileSystem.OverrideStepOrigin | src/utils/elementMapper.ts:96-116 | soundness: every step comes from such a directory, reached through directories only, and carries its chain of names |
| FileSystem.OverrideExample | src/utils/elementMapper.ts:100-110 | a folder `Blog` holding an `element` directory is scanned there under the name `Blog` |
| FileSystem.OverrideSteps | src/utils/elementMapper.ts:96-116 | a listing of regular files only yields no scan |
| FileSystem.Walk | src/utils/elementMapper.ts:65-86 | every regular file of the listing itself is met, with its full path and its `/`-separated relative path |
| FileSystem.RunSteps | src/utils/elementMapper.ts:13-56 | a run completes only when no step is a `readdirSync` on a regular file |
| FileSystem.OverrideNames | src/utils/elementMapper.ts:96-116 | every directory scanned below `templates/plugin` is named by the folder chain above it, at least one folder longer than the start |
| FileSystem.RunStepsConcat | src/utils/elementMapper.ts:13-56 | running two groups of scans: the second runs from the state the first left, or not at all when the first threw |
| ElementMapper.ElementKey | src/utils/elementMapper.ts:75 | without a plugin the key is the element path; with one it is the plugin, a `.`, then the path |
| ElementMapper.ElementPairsMember | src/utils/elementMapper.ts:65-84 | a key/file pair is pushed exactly for each `.php` file found (extension in any case), keyed by its relative path without `.php` |
| ElementMapper.ElementPairsConcat | src/utils/elementMapper.ts:65-84 | scanning two listings in turn pushes what each would push, in order |
| ElementMapper.ElementScanLookup | src/utils/elementMapper.ts:58-87 | after a scan each key lists its old files, then the scanned `.php` files keyed by it, in listing order |
| ElementMapper.ElementRunWellFormed | src/utils/elementMapper.ts:13-56 | the index stays well formed through any sequence of scans |
| ElementMapper.ElementPlanWellFormed | src/utils/elementMapper.ts:13-56 | the element map built from an empty one is well formed |
| ElementMapper.ElementKeyParses | src/utils/elementMapper.ts:75 | a plugin element key parses back into its plugin and element path |
| ElementMapper.AppElementKey | src/utils/elementMapper.ts:74-75 | an application element file `x.php` at the root gets the key `x` |
| ElementMapper.PluginSteps | src/utils/elementMapper.ts:34-52 | one group of scans per namespace, in namespace order: its element directory, then its overrides |
| ElementMapper.ElementIndex.constructor | src/utils/elementMapper.ts:11 | the index starts empty |
| ElementMapper.ElementIndex.GetElementPaths | src/utils/elementMapper.ts:121-123 | the files listed under the name, or none for an unknown name |
| ElementMapper.ElementIndex.GetAllElementNames | src/utils/elementMapper.ts:125-127 | the names returned are exactly the index's keys |
| ElementMapper.ElementIndex.GenerateElementMap | src/utils/elementMapper.ts:13-56 | the map is rebuilt from empty: the application's elements, its overrides, then each plugin's elements and overrides; `ok` is false when a scan threw |
| ElementMapper.ElementIndex.ScanPlugins | src/utils/elementMapper.ts:34-52 | the loop over the plugin map runs each plugin's scans in turn and stops at the first throw |
| ElementMapper.ElementIndex.ScanDirSteps | src/utils/elementMapper.ts:17-31 | a directory's `templates/element` scan and then its `templates/plugin` overrides scan |
| ElementMapper.ElementIndex.ScanElementDirectory | src/utils/elementMapper.ts:58-87 | a missing directory adds nothing; otherwise every file found below it is pushed |
| ElementMapper.ElementIndex.ScanDir | src/utils/elementMapper.ts:65-84 | the loop pushes the pairs of the whole listing, entering subdirectories in place |
| ElementMapper.ElementIndex.ScanEntry | src/utils/elementMapper.ts:68-82 | a directory is entered; a `.php` file pushes its key; any other file adds nothing |
| ElementMapper.ElementIndex.ScanPluginOverrides | src/utils/elementMapper.ts:89-119 | the method runs `OverrideRoot`'s steps: nothing for a missing path, a throw for a regular file, otherwise every nested folder with an `element` entry under its folder chain (`OverrideStepFound`, `OverrideStepOrigin`) |
| ElementMapper.ElementIndex.ScanNestedPlugins | src/utils/elementMapper.ts:96-116 | the loop runs the scans of each listed directory in turn, descending even after an `element` directory is found |
| ElementMapper.ElementIndex.ScanNestedItem | src/utils/elementMapper.ts:100-114 | a directory first scans its `element` directory, then recurses; a file adds nothing |
| CellMapper.CellKey | src/utils/cellMapper.ts:77-79 | the key is `Cell::view`, behind `Plugin.` when a plugin is given |
| CellMapper.EntryPairs | src/utils/cellMapper.ts:74-98 | a non-`.php` file pushes nothing; a file directly in the cell root throws after pushing `Name::undefined`; at most two keys per file |
| CellMapper.CellEntryKeys | src/utils/cellMapper.ts:75-98 | a view file `…/Cell/view.php` pushes `Cell::view`, and also the camel-cased view name when the name holds `_` |
| CellMapper.CellRootFileCrashes | src/utils/cellMapper.ts:76-87 | a `.php` file directly in a cell root pushes `Name::undefined`, and then the scan throws |
| CellMapper.CellPairsConcat | src/utils/cellMapper.ts:66-101 | scanning two listings pushes the first's pairs, then the second's, but only when the first did not throw |
| CellMapper.CellOkConcat | src/utils/cellMapper.ts:66-101 | a listing scans without throwing exactly when both of its parts do |
| CellMapper.CellScanLookup | src/utils/cellMapper.ts:59-104 | after a scan each key lists its old files, then the pushed files keyed by it, in listing order |
| CellMapper.CellRunWellFormed | src/utils/cellMapper.ts:14-57 | the cell index stays well formed through any sequence of scans |
| CellMapper.CellPlanWellFormed | src/utils/cellMapper.ts:14-57 | the cell map built from an empty one is well formed |
| CellMapper.CellStop | src/utils/cellMapper.ts:66-101 | once a file has thrown, later files of the listing push nothing |
| CellMapper.PluginSteps | src/utils/cellMapper.ts:35-53 | one group of scans per namespace, in namespace order: its cell directory, then its overrides |
| CellMapper.CellIndex.constructor | src/utils/cellMapper.ts:12 | the index starts empty |
| CellMapper.CellIndex.GetCellPaths | src/utils/cellMapper.ts:137-142 | the files listed under the name, or none |
| CellMapper.CellIndex.GetAllCellNames | src/utils/cellMapper.ts:144-146 | the names returned are exactly the index's keys |
| CellMapper.CellIndex.GenerateCellMap | src/utils/cellMapper.ts:14-57 | the map is rebuilt from empty by the application's and then each plugin's cell and override scans; it stops at the first throw |
| CellMapper.CellIndex.ScanPlugins | src/utils/cellMapper.ts:35-53 | the loop over the plugin map runs each plugin's scans in turn and stops at the first throw |
| CellMapper.CellIndex.ScanDirSteps | src/utils/cellMapper.ts:18-32 | a directory's `templates/cell` scan, then (unless it threw) its `templates/plugin` overrides scan |
| CellMapper.CellIndex.ScanCellDirectory | src/utils/cellMapper.ts:59-104 | a missing directory adds nothing; otherwise the files below it are pushed up to the first throw |
| CellMapper.CellIndex.ScanDir | src/utils/cellMapper.ts:66-101 | the loop pushes the listing's pairs up to the first throw; `ok` tells whether it threw |
| CellMapper.CellIndex.ScanEntry | src/utils/cellMapper.ts:69-99 | a directory is entered, a file pushes its keys |
| CellMapper.CellIndex.PushView | src/utils/cellMapper.ts:75-98 | one file's view key and, when `_` is in the view name, its camel-cased key are pushed |
| CellMapper.CellIndex.ScanPluginOverrides | src/utils/cellMapper.ts:106-135 | the method runs `OverrideRoot`'s steps: every nested folder with a `cell` entry under its folder chain (`OverrideStepFound`, `OverrideStepOrigin`) |
| CellMapper.CellIndex.ScanNestedPlugins | src/utils/cellMapper.ts:113-132 | the loop runs the scans of each listed directory in turn, stopping at a throw |
| CellMapper.CellIndex.ScanNestedItem | src/utils/cellMapper.ts:117-130 | a directory first scans its `cell` directory, then recurses |
| AssetMapper.StripScopeDirJs | src/utils/assetMapper.ts:91 | a leading `js/`, in any case, is removed |
| AssetMapper.StripScopeDirCss | src/utils/assetMapper.ts:91 | a leading `css/`, in any case, is removed |
| AssetMapper.StripScopeDirOther | src/utils/assetMapper.ts:91 | a path starting with neither is left alone |
| AssetMapper.StripScopeDir | src/utils/assetMapper.ts:91 | the result is a suffix of the path |
| AssetMapper.BaseKeys | src/utils/assetMapper.ts:88-117 | four keys, or six for `css` and `js`: the path and its trimmed form, each followed by its form without the extension, then the trimmed pair behind `/css/` or `/js/` |
| AssetMapper.GenerateAssetKeys | src/utils/assetMapper.ts:87-121 | at most six keys and none twice; an application asset's keys are exactly its base keys: the path and the path without a leading `css/`/`js/`, each with and without extension, plus the `/css/` pair for stylesheets and the `/js/` pair for scripts; a plugin's keys are exactly the base keys behind `<plugin>.` |
| AssetMapper.AssetKeysPlugin | src/utils/assetMapper.ts:94-118 | a plugin asset's keys are the application keys with `<plugin>.` in front |
| AssetMapper.AssetKeysScript | src/utils/assetMapper.ts:87-121 | `js/x.js` is found as `js/x.js`, `js/x`, `x.js`, `x`, `/js/x.js` and `/js/x` |
| AssetMapper.AssetKeysStylesheet | src/utils/assetMapper.ts:87-121 | `css/x.css` is found as `css/x.css`, `css/x`, `x.css`, `x`, `/css/x.css` and `/css/x` |
| AssetMapper.ExampleBlogScript | src/utils/assetMapper.ts:87-121 | the six keys of `js/app.js` in plugin `Blog`, in push order |
| AssetMapper.ExampleAppScript | src/utils/assetMapper.ts:106-117 | the six keys of an application `js/app.js`, in push order |
| AssetMapper.AssetPairsMember | src/utils/assetMapper.ts:53-82 | a key/file pair is pushed exactly for each file with the extension (in any case) and each of its keys |
| AssetMapper.AssetPairsConcat | src/utils/assetMapper.ts:53-82 | scanning two listings in turn pushes what each would push |
| AssetMapper.AssetScanLookup | src/utils/assetMapper.ts:46-85 | a scan keeps both maps free of duplicates; a file is listed under a key exactly when it was before or the scan found it with that key |
| AssetMapper.AssetRunInvariant | src/utils/assetMapper.ts:14-44 | the duplicate-free invariant holds through any sequence of scans |
| AssetMapper.AssetPlanInvariant | src/utils/assetMapper.ts:14-44 | the rebuilt maps are well formed and free of duplicates |
| AssetMapper.PluginSteps | src/utils/assetMapper.ts:28-38 | one `webroot` scan per namespace, in namespace order, under its two-level plugin name |
| AssetMapper.AssetIndex.constructor | src/utils/assetMapper.ts:11-12 | both maps start empty |
| AssetMapper.AssetIndex.GetJsPaths | src/utils/assetMapper.ts:123-125 | the scripts listed under the name, or none |
| AssetMapper.AssetIndex.GetCssPaths | src/utils/assetMapper.ts:127-129 | the stylesheets listed under the name, or none |
| AssetMapper.AssetIndex.GetAllJsNames | src/utils/assetMapper.ts:131-133 | exactly the script map's keys |
| AssetMapper.AssetIndex.GetAllCssNames | src/utils/assetMapper.ts:135-137 | exactly the stylesheet map's keys |
| AssetMapper.AssetIndex.GenerateAssetMaps | src/utils/assetMapper.ts:14-44 | both maps are rebuilt from empty by the application's `webroot` scan and then each plugin's |
| AssetMapper.AssetIndex.ScanPlugins | src/utils/assetMapper.ts:28-38 | the loop over the plugin map scans each plugin's `webroot` in turn and stops at the first throw |
| AssetMapper.AssetIndex.ScanWebroot | src/utils/assetMapper.ts:30-37 | the `webroot` of one directory is scanned when it exists |
| AssetMapper.AssetIndex.ScanAssetDirectory | src/utils/assetMapper.ts:46-85 | a missing directory adds nothing; otherwise every script and stylesheet below it is added |
| AssetMapper.AssetIndex.ScanDir | src/utils/assetMapper.ts:53-82 | the loop adds the listing's `.js` files to the script map and its `.css` files to the stylesheet map |
| AssetMapper.AssetIndex.ScanEntry | src/utils/assetMapper.ts:56-80 | a directory is entered; a file goes to the map of its extension |
| AssetMapper.AssetIndex.AddKeys | src/utils/assetMapper.ts:70-78 | each key gets the file unless already listed; only the map of the file's kind changes |
| Autoload.UnescapeEscape | src/utils/fileUtils.ts:60 | turning `\\` back into `\` undoes PHP's escaping of a namespace |
| Autoload.CleanNamespaceLiteral | src/utils/fileUtils.ts:58-61 | a quoted PHP namespace key with its trailing `\\` cleans back to the namespace |
| Autoload.FirstLine | src/utils/fileUtils.ts:62-63 | the longest start of the text without a line terminator (what `.*` can match) |
| Autoload.CaptureSimple | src/utils/fileUtils.ts:62-63 | `$baseDir . '<p>'…` captures `p` when neither side has a quote or line break |
| Autoload.ArrayCapture | src/utils/fileUtils.ts:62-63 | in `array($baseDir . '<p>')` the leftmost match captures `p` |
| Autoload.RelativeDir | src/utils/fileUtils.ts:66-68 | a directory is dropped exactly when it ends in `tests` after its leading `/` is removed |
| Autoload.RelativeDirSrc | src/utils/fileUtils.ts:66-68 | `/<dir>/src` becomes `<dir>` |
| Autoload.RelativeDirTests | src/utils/fileUtils.ts:67 | `/<dir>tests` is dropped |
| Autoload.EntryTargetRules | src/utils/fileUtils.ts:62-76 | a `$baseDir` path is placed under the root, and a `$vendorDir` path (used only without a `$baseDir` one) under `vendor`; test directories and unmatched entries are skipped |
| Autoload.ParseEntry | src/utils/fileUtils.ts:56-61 | an accepted entry is keyed by the cleaned, trimmed text before its first `=>` |
| Autoload.PutAllKeys | src/utils/fileUtils.ts:55-79 | a namespace is in the map exactly when some accepted entry names it |
| Autoload.PutAllLast | src/utils/fileUtils.ts:55-79 | each namespace maps to the directory of the last entry that names it |
| Autoload.PutAll | src/utils/fileUtils.ts:55-79 | the assignments in order leave a well-formed map (`PutAllKeys` and `PutAllLast` give its contents) |
| Autoload.NamespaceEntries | src/utils/fileUtils.ts:55-79 | the map built from the array's entries is well formed |
| Autoload.ReturnBody | src/utils/fileUtils.ts:45-46 | the lazy `([\s\S]*?)\);` capture never contains `);` |
| Autoload.ReturnBodyOf | src/utils/fileUtils.ts:45-46 | `return array(<body>);…` yields `body` when `body` holds no `);` |
| FileUtils.FoundMember | src/utils/fileUtils.ts:86-103 | a path is found exactly when it exists and is some base joined with the name plus some extension |
| FileUtils.FoundBySound | src/utils/fileUtils.ts:86-103 | every found path exists and is a base/name/extension combination |
| FileUtils.FoundByComplete | src/utils/fileUtils.ts:86-103 | every existing base/name/extension combination is found |
| FileUtils.SearchFiles | src/utils/fileUtils.ts:86-103 | the two loops collect the existing combinations, bases outer and extensions inner |
| FileUtils.SearchBase | src/utils/fileUtils.ts:90-99 | the inner loop collects one base's existing combinations in extension order |
| FileUtils.ByPathAt | src/utils/fileUtils.ts:153-157 | a path is keyed exactly when some file has it, and maps to the last such file |
| FileUtils.RemoveDuplicatesAndSort | src/utils/fileUtils.ts:152-162 | sorted by shown path, one file per path, exactly the last file of each path, and no path lost |
| FileUtils.InfosDeduplicated | src/utils/fileUtils.ts:144-146 | de-duplicating the infos of a list of paths keeps exactly those paths |
| FileUtils.MarkCapitalsLower | src/utils/fileUtils.ts:314 | prefixing capitals with `_` and lower-casing is `underscore` |
| FileUtils.ParseCellName | src/utils/fileUtils.ts:306-328 | without exactly one `::`, the name is its own path and class with no method; otherwise the method is the text after `::` |
| FileUtils.ParseCellNameQualified | src/utils/fileUtils.ts:312-325 | `Plugin.Cls::method` gives the plugin, class `Cls` (with `\` as `/`) and path `Cls/<underscored method>` |
| FileUtils.ParseCellNameBare | src/utils/fileUtils.ts:312-327 | `Cls::method` without a plugin gives path `Cls/<underscored method>` |
| FileUtils.ParseCellNameNoMethod | src/utils/fileUtils.ts:307-310 | a name without `::` is its own path and class, with no method |
| FileUtils.ExtractClassInfo | src/utils/fileUtils.ts:387-422 | information exists exactly when both a namespace and a `class …Controller` (or `…Cell`) are found; its name is the class capture |
| FileUtils.ClassInfoParts | src/utils/fileUtils.ts:406-415 | with the marker in the namespace, the prefix is the part before it and the suffix the part after it |
| FileUtils.ClassInfoNoMarker | src/utils/fileUtils.ts:412-415 | without the marker segment, prefix and suffix are empty |
| FileUtils.Longest | src/utils/fileUtils.ts:360-365 | the chosen entry has the longest non-empty directory that starts the path, and the earliest among equals |
| FileUtils.PluginFromFilePath | src/utils/fileUtils.ts:347-375 | a path containing `plugins` always yields a name without `/`; otherwise nothing without a map, and with one a found plugin is the first namespace segment of the entry with the longest matching directory |
| FileUtils.PluginFromFilePathFound | src/utils/fileUtils.ts:347-375 | outside `plugins`, whenever an entry's directory matches and the first segment of the longest one's namespace is non-empty, that segment is the plugin |
| FileUtils.PluginFolderName | src/utils/fileUtils.ts:348-354 | the folder after `plugins/` is the plugin |
| FileUtils.PluginUnmatched | src/utils/fileUtils.ts:356-374 | without `plugins` in the path, no plugin when no non-empty directory of the map starts the path |
| FileUtils.Resolver.GetPluginFromFilePath | src/utils/fileUtils.ts:347-375 | the loop computes `PluginFromFilePath` of the cached map |
| FileUtils.ElementSearchKeys | src/utils/fileUtils.ts:113-120 | the bare parsed path is always the last key tried |
| FileUtils.FirstEndsWith | src/utils/fileUtils.ts:126-131 | the first map key (in key order) that ends with the search key |
| FileUtils.FirstNonEmpty | src/utils/fileUtils.ts:124-136 | nothing is found exactly when every key's list is empty |
| FileUtils.FirstNonEmptyFound | src/utils/fileUtils.ts:124-136 | a found list is the list of the first key that has one |
| FileUtils.FirstFilesEmpty | src/utils/fileUtils.ts:138-141 | no files exactly when every key's list is empty |
| FileUtils.FirstFilesAt | src/utils/fileUtils.ts:124-149 | the files returned are exactly those of the first key with a non-empty list |
| FileUtils.ElementFilesEmpty | src/utils/fileUtils.ts:105-141 | `findElementFiles` finds nothing exactly when no search key matches a non-empty list |
| FileUtils.ElementFilesAt | src/utils/fileUtils.ts:105-149 | it returns exactly the files of the first search key that matches |
| FileUtils.ElementFiles | src/utils/fileUtils.ts:105-150 | the files are sorted by shown path with no path twice |
| FileUtils.Resolver.FindElementFiles | src/utils/fileUtils.ts:105-150 | the method computes `ElementFiles`, which `ElementFilesEmpty` and `ElementFilesAt` characterise |
| FileUtils.Resolver.FindElementKeys | src/utils/fileUtils.ts:107-120 | the search keys: the named plugin's, else the document's plugin's, then the bare path |
| FileUtils.FirstElementPaths | src/utils/fileUtils.ts:124-136 | the nested loops stop at the first search key with a non-empty list |
| FileUtils.MatchKey | src/utils/fileUtils.ts:126-131 | the inner loop takes the list of the first map key ending with the search key |
| FileUtils.CellPathsForMember | src/utils/fileUtils.ts:241-248 | the paths gathered are exactly those listed under some search key |
| FileUtils.NormalizedCellPath | src/utils/fileUtils.ts:226 | the normalised cell path always holds `::` (`::view` is added when missing) |
| FileUtils.CellSearchKeys | src/utils/fileUtils.ts:224-237 | the bare normalised path is always the last key |
| FileUtils.CellFilesPaths | src/utils/fileUtils.ts:210-272 | nothing when no key lists a file; otherwise exactly the listed view files plus the existing `<Class>Cell.php` files |
| FileUtils.CellFiles | src/utils/fileUtils.ts:210-272 | the files are sorted by shown path with no path twice |
| FileUtils.Resolver.FindCellFiles | src/utils/fileUtils.ts:210-272 | the method computes `CellFiles`, which `CellFilesPaths` characterises |
| FileUtils.Resolver.FindCellKeys | src/utils/fileUtils.ts:212-237 | the method builds the cell search keys in the source's order |
| FileUtils.FindCellClassPaths | src/utils/fileUtils.ts:212-218 | the cell class search paths of the parsed name |
| FileUtils.CollectCellPaths | src/utils/fileUtils.ts:241-248 | the loop concatenates the lists of all search keys |
| FileUtils.Resolver.constructor | src/utils/fileUtils.ts:27 | the namespace cache starts empty |
| FileUtils.Resolver.ParseAutoloadPsr4 | src/utils/fileUtils.ts:29-84 | a cached map is reused unless a refresh is asked for; a missing or unmatched autoloader returns `{}` and leaves the cache; otherwise the parsed map is cached and returned |
| FileUtils.Resolver.LoadEntries | src/utils/fileUtils.ts:52-79 | the cache becomes the map the entries define |
| FileUtils.PossiblePathsSingle | src/utils/fileUtils.ts:193-200 | with `/` as separator both spellings coincide and one candidate is left |
| FileUtils.TemplateFilesFound | src/utils/fileUtils.ts:163-208 | the files are the existing `<final path>.php` files under the search paths, in search-path order |
| FileUtils.TemplateFiles | src/utils/fileUtils.ts:163-208 | every file is shown by its path relative to the workspace root |
| FileUtils.TemplateTypeFindsNothing | src/utils/fileUtils.ts:171-176 | with type `template` there are no search paths, hence no files |
| FileUtils.FindTemplateFiles | src/utils/fileUtils.ts:163-208 | the method computes `TemplateFiles`, which `TemplateFilesFound` characterises |
| FileUtils.FindTemplateSearchPaths | src/utils/fileUtils.ts:165-176 | controllers search template paths, cells search cell paths |
| FileUtils.SearchAll | src/utils/fileUtils.ts:204 | the `flatMap` concatenates the finds of every candidate name |
| FileUtils.AssetKeys | src/utils/fileUtils.ts:464-468 | the bare name is always the last key |
| FileUtils.AssetFilesChoice | src/utils/fileUtils.ts:461-494 | the current plugin's asset wins when listed; otherwise the bare name's files are returned |
| FileUtils.AssetFiles | src/utils/fileUtils.ts:461-494 | the files are sorted by shown path with no path twice |
| FileUtils.FindAssetFiles | src/utils/fileUtils.ts:472-493 | the loop stops at the first key with files and computes `AssetFiles` |
| FileUtils.FindJsFiles | src/utils/fileUtils.ts:461-494 | scripts are looked up in the script index, with the choice `AssetFilesChoice` states |
| FileUtils.FindCssFiles | src/utils/fileUtils.ts:496-529 | stylesheets are looked up in the stylesheet index, with the choice `AssetFilesChoice` states |
| FileUtils.EmailFilesFound | src/utils/fileUtils.ts:531-537 | exactly the existing `text/<name>.php` and `html/<name>.php` files of the email search paths |
| FileUtils.EmailFiles | src/utils/fileUtils.ts:531-537 | every file is shown by its path relative to the workspace root |
| FileUtils.FindEmailTemplateFiles | src/utils/fileUtils.ts:531-537 | the method computes `EmailFiles`, which `EmailFilesFound` characterises |
| SearchUtils.AssetType | src/utils/searchUtils.ts:152-153 | `css` exactly for a `.css` extension in any case, otherwise `js` |
| SearchUtils.AppAssetPath | src/utils/searchUtils.ts:178-183 | an application asset lies below `webroot`: a name starting with `/` is joined to `webroot` as is, any other under `webroot/<css or js>` |
| SearchUtils.PluginAssetPath | src/utils/searchUtils.ts:166-173 | a plugin asset lies below the plugin's `webroot`: a name starting with `/` or with the asset type is joined to `webroot` as is, any other under `webroot/<type>` |
| SearchUtils.PluginAssetExamples | src/utils/searchUtils.ts:166-173 | `/x.js` and `js/x.js` below `webroot`, and `x.js` below `webroot/js`, of `/p/Blog` |
| SearchUtils.PluginRefAt | src/utils/searchUtils.ts:158-160 | a match splits `<tag><plugin>:<file>` into a plugin without `:` and a non-empty file |
| SearchUtils.AssetCompressPath | src/utils/searchUtils.ts:142-187 | no line match gives nothing; an untagged reference gives `AppAssetPath` of the trimmed text; a plugin path exists exactly when the reference parses and the plugin resolves, and is then `PluginAssetPath` of that plugin's root and the parsed file |
| SearchUtils.AppScript | src/utils/searchUtils.ts:142-187 | a trimmed, untagged script name that does not start with `/` resolves to `<root>/webroot/js/<name>` |
| SearchUtils.JoinSegments | src/utils/searchUtils.ts:166-183 | `path.join` of segments without `/` at their joined ends puts exactly one `/` between each |
| SearchUtils.AssetCompressFiles | src/utils/searchUtils.ts:142-190 | at most one file, present exactly when a path was resolved |
| SearchUtils.AssetCompressFilesAsWritten | src/utils/searchUtils.ts:142-190 | no capture gives no files; it crashes only when there is a capture and a namespace map; otherwise it returns the corrected files |
| SearchUtils.AssetCompressAsWrittenAgrees | src/utils/searchUtils.ts:155-176 | the code as written throws exactly on an unparsable plugin reference; otherwise it agrees with the corrected model |
| SearchUtils.AssetCompressCrashExample | src/utils/searchUtils.ts:155-165 | `files[] = p:Blog` makes the code as written throw; corrected, it yields no file |
| SearchUtils.IniFilePathOf | src/utils/searchUtils.ts:105-111 | on a `files[] =` line the word is the trimmed text after the first `=` |
| SearchUtils.IniFilePath | src/utils/searchUtils.ts:105-111 | a path exactly on a `files[] =` line; it is trimmed and no longer than the line |
| SearchUtils.GetWordAtPosition | src/utils/searchUtils.ts:104-124 | in `asset_compress.ini` on a `files[] =` line the word is that line's path; anywhere else it is the word the patterns found |
| SearchUtils.CellViewFiles | src/utils/searchUtils.ts:126-138 | outside a cell class there are no view files |
| SearchUtils.CellViewFilesFound | src/utils/searchUtils.ts:126-138 | exactly the existing `<dir>/<Cell>/<underscored method>.php` files of the cell search paths |
| SearchUtils.FindCellViewFiles | src/utils/searchUtils.ts:126-138 | the method computes `CellViewFiles`, which `CellViewFilesFound` characterises |
| SearchUtils.MatchElements | src/utils/searchUtils.ts:59-63 | element calls and element arrays go to `findElementFiles` |
| SearchUtils.MatchCells | src/utils/searchUtils.ts:64-67 | cell calls go to `findCellFiles` |
| SearchUtils.MatchMethod | src/utils/searchUtils.ts:68-75 | a method goes to the cell view finder in a cell file, and to the controller template finder elsewhere |
| SearchUtils.MatchAssets | src/utils/searchUtils.ts:76-85 | script helpers and tags search the script index; css helpers and tags the stylesheet index |
| SearchUtils.MatchEmails | src/utils/searchUtils.ts:86-91 | `setTemplate` finds email templates only in a mailer file |
| SearchUtils.MatchRender | src/utils/searchUtils.ts:92-94 | `render` finds templates of type `template` in view files, `controller` elsewhere |
| SearchUtils.MatchFilesNothing | src/utils/searchUtils.ts:86-94 | `setTemplate` outside a mailer and `render` inside a view file both find nothing |
| SearchUtils.ConcatAllMember | src/utils/searchUtils.ts:51-97 | a path is collected exactly when some capture leads to it |
| SearchUtils.FilePaths | src/utils/searchUtils.ts:98-101 | the result is sorted by shown path with one file per path |
| SearchUtils.FilePathsMember | src/utils/searchUtils.ts:51-101 | a file is returned exactly when some capture of some pattern leads to it |
| SearchUtils.FindForPattern | src/utils/searchUtils.ts:58-95 | the `switch` computes `MatchFiles` for one capture; the `Match…` lemmas give each case |
| SearchUtils.CollectPattern | src/utils/searchUtils.ts:54-96 | the inner loop concatenates the finds of each capture of one pattern |
| SearchUtils.CollectMatches | src/utils/searchUtils.ts:51-97 | the outer loop concatenates the patterns' finds, in pattern order |
| SearchUtils.FindMatchingFiles | src/utils/searchUtils.ts:40-101 | with the document's plugin, the loops and the final de-duplication compute `FilePaths` |
| SearchUtils.GetFilePaths | src/utils/searchUtils.ts:22-102 | nothing outside a workspace; otherwise the namespace map is loaded and handed to the plugin registry, `asset_compress.ini` resolves its line with the corrected `AssetCompressFiles` (see Findings), and other files get `FilePaths` |
| Completion.AllKeys | src/providers/cakePhpCompletionProvider.ts:62-79 | the element (and template), cell, script or stylesheet names; none for an unknown type |
| Completion.MatchingKeys | src/providers/cakePhpCompletionProvider.ts:81 | exactly the keys that start with the prefix, ignoring case, in key order |
| Completion.MatchingKeysConcat | src/providers/cakePhpCompletionProvider.ts:81 | filtering distributes over concatenation |
| Completion.MatchingKeysEmptyPrefix | src/providers/cakePhpCompletionProvider.ts:81 | an empty prefix keeps every key |
| Completion.FindMatchingCompletions | src/providers/cakePhpCompletionProvider.ts:59-84 | a name is offered exactly when it is in the type's index and starts with the prefix, ignoring case |
| Completion.CommonPrefixLen | src/providers/cakePhpCompletionProvider.ts:91-96 | the loop's stopping point: the prefixes agree ignoring case up to it, and a bound or a difference follows |
| Completion.CommonPrefixLenUnique | src/providers/cakePhpCompletionProvider.ts:91-96 | there is only one such stopping point |
| Completion.CommonPrefixLength | src/providers/cakePhpCompletionProvider.ts:91-96 | the `while` loop computes that stopping point |
| Completion.MatchedCommonPrefix | src/providers/cakePhpCompletionProvider.ts:91-96 | for a matching completion the whole prefix is common |
| Completion.CommonPrefixMatches | src/providers/cakePhpCompletionProvider.ts:81-96 | a whole common prefix means the completion matches |
| Completion.ItemFor | src/providers/cakePhpCompletionProvider.ts:87-106 | the label and detail are the completion; common part plus inserted text is the completion; the range ends at the cursor and starts the non-common part of the prefix before it |
| Completion.MatchedItem | src/providers/cakePhpCompletionProvider.ts:98-104 | for a matching completion the inserted text is what follows the prefix and the range is empty at the cursor |
| Completion.MapItems | src/providers/cakePhpCompletionProvider.ts:87-107 | one item per completion, in order |
| Completion.CallPrefix | src/providers/cakePhpCompletionProvider.ts:27-29 | a found prefix ends the line and is made of word characters, `/` and `.` |
| Completion.CallPrefixOf | src/providers/cakePhpCompletionProvider.ts:27-29 | `<callee> ( '<p>` at the end of the line yields `p`, whatever spaces surround `(` |
| Completion.CallPrefixPieces | src/providers/cakePhpCompletionProvider.ts:27-29 | a found prefix comes from a line of exactly that shape |
| Completion.Classify | src/providers/cakePhpCompletionProvider.ts:27-53 | the tests run in source order; element is chosen exactly when its pattern matches; nothing is chosen exactly when no pattern matches |
| Completion.ClassifyElement | src/providers/cakePhpCompletionProvider.ts:27-32 | a line ending in `$this->element('<p>` completes element names from `p` |
| Completion.LinePrefix | src/providers/cakePhpCompletionProvider.ts:18 | the first `position.character` characters of the line, or the whole line if it is shorter |
| Completion.ClassifiedPrefixFits | src/providers/cakePhpCompletionProvider.ts:18-29 | a recognised prefix is never longer than the cursor column |
| Completion.ItemsFor | src/providers/cakePhpCompletionProvider.ts:25-56 | no items for `render` or for a line with no pattern |
| Completion.ItemsForLabels | src/providers/cakePhpCompletionProvider.ts:25-56 | the item labels are exactly the matching completions |
| Completion.ItemsForComplete | src/providers/cakePhpCompletionProvider.ts:25-56 | every item matches the prefix, inserts the rest of its name and has an empty range at the cursor |
| Completion.Provider.constructor | src/providers/cakePhpCompletionProvider.ts:11-13 | the position starts at line 0, character 0 |
| Completion.Provider.CreateCompletionItems | src/providers/cakePhpCompletionProvider.ts:86-108 | the `map` builds one item for each completion at the stored position |
| Completion.Provider.ProvideCompletionItems | src/providers/cakePhpCompletionProvider.ts:15-57 | the position is stored; no items outside a workspace; otherwise the items of the classified line prefix |
| Completion.Provider.ItemsAt | src/providers/cakePhpCompletionProvider.ts:25-53 | the branch chosen by the line context builds its items |
| MapRefresher.RebuildPluginMap | src/utils/mapRefresher.ts:48-51 | the indexers see the freshly parsed map, or the old cache when the autoloader cannot be read, or `{}` when there is no cache |
| MapRefresher.GenerateMaps | src/utils/mapRefresher.ts:45-53 | a forced re-read of the namespace map, then the element, cell and asset maps rebuilt in that order from the same plugin map; a throw leaves the later maps as they were |
| MapRefresher.ScanAll | src/utils/mapRefresher.ts:49-51 | the three indexers run one after another, each given the cached namespace map; the cache is unchanged |
| Text.JoinSplit | src/utils/elementMapper.ts:35 | joining the pieces of a split with the same separator gives back the string |
| Text.SplitJoin | src/utils/elementMapper.ts:107 | splitting a join of separator-free pieces gives back the pieces |
| Text.DropLast | src/utils/elementMapper.ts:74 | `slice(0, -n)` drops the last `n` characters; with `n` zero or at least the length it is empty |
| Text.Distinct | src/utils/assetMapper.ts:120 | `[...new Set(xs)]` has no duplicates, the same elements as `xs`, and is never longer |
| Text.DistinctMapInjective | src/utils/assetMapper.ts:94-120 | putting the same prefix in front of every key commutes with removing duplicates |
| Text.IndexOfFrom | src/utils/fileUtils.ts:348 | `indexOf` finds the first occurrence, or reports that none exists |
| Text.SortBy | src/utils/fileUtils.ts:159-161 | the sort result is ordered by the key and is a permutation of its input |
| Text.SortByNoDuplicates | src/utils/fileUtils.ts:159-161 | sorting keeps a duplicate-free list duplicate-free |
| Text.LeTotal | src/utils/pathUtils.ts:134 | the string order compares any two strings |
| Text.LeTransitive | src/utils/pathUtils.ts:134 | the string order is transitive |
| Text.LeAntisymmetric | src/utils/pathUtils.ts:134 | two strings ordered both ways are equal |

## Left out

- File-system access is not modelled as I/O. `fs.existsSync`,
  `readdirSync` and `readFileSync` read a `FileSystem.Node` tree, or the
  autoloader file's content, passed in as a parameter. Listing order is the
  order of a directory's children. Symbolic links and permission errors
  are not modelled.
- `vscode` objects become plain values: the workspace folder (an optional
  root path), documents (a path and a text), positions and completion
  items. `getWorkspaceFolder` is a parameter. Logging, the status bar item
  and `showInformationMessage` are omitted because they do not affect any
  result.
- The regular expressions of `SEARCH_PATTERNS` and `getWordAtPosition`'s
  `getWordRangeAtPosition` are not modelled as matchers. `getFilePaths`
  takes, for each pattern, the sequence of its captures on the text as a
  parameter; `getWordAtPosition` takes the word matched by a pattern. The
  regular expressions of the autoloader parser, `parseCellName`,
  `extractControllerInfo` and `extractCellInfo`, `asset_compress.ini` and
  the completion tests are written out as functions.
- `findMatchingFiles` (src/utils/fileUtils.ts:539-580) is not part of this
  model. It is asynchronous, reads directories through
  `vscode.workspace.fs` and nothing in the core calls it.
- `findMethodInFile` (src/utils/fileUtils.ts:330-345) is not part of this
  model. It only fills `methodLocation`, a `vscode.Location` inside a
  file; the model's `FileInfo` has no such field.
- `_findCellFiles` and `_getPluginFromFilePath` are left out: they are
  exported, unused variants of `findCellFiles` and `getPluginFromFilePath`.
- `initializeMapRefresher`, `createFileWatcher` and
  `listenForComposerChanges` are left out. They register editor events
  that call `generateMaps`, which is modelled.
- `localeCompare` is modelled as lexicographic order on characters (`Le`).
  The locale's collation rules are left out.
- `toLowerCase`, `toUpperCase`, `\w` and `\s` are modelled on ASCII.
  Unicode case mappings are left out, and so is all non-ASCII whitespace
  (U+00A0, U+2028, U+2029, U+FEFF and the others `\s` and `trim` accept):
  `IsSpace` holds only for space, tab, `\n`, `\r`, `\v` and `\f`.
- NodePath.Basename: strips one trailing `/` where Node strips them all.
  The paths the model builds and walks never end in more than one `/`.
- JavaScript objects are modelled as keys in insertion order. Objects
  list integer-like keys first and inherit `constructor` and similar keys
  from their prototype; neither is modelled. The source's `map[key] || []`
  is modelled as "absent reads as empty".
- Paths use `/` as separator (`path.sep` on POSIX). `path.join` is
  modelled for the operands the code builds: `.` and `..` segments and
  doubled slashes inside an operand are not normalised.
- The `template` branch: `findTemplateFiles` is called with type
  `template` for `render` in view files but builds search paths only for
  `controller` and `cell`. The model keeps that behaviour
  (`FileUtils.TemplateTypeFindsNothing`).
- FileUtils.Resolver.FindElementFiles: requires the element index to be
  well formed (`Valid`). Every index the model builds is well formed
  (`ElementMapper.ElementPlanWellFormed`); an arbitrary object is not.
- SearchUtils.GetFilePaths: requires the same well-formed element index.
- SearchUtils.GetFilePaths: on `asset_compress.ini` it uses the corrected
  `AssetCompressFiles`. For the line `files[] = p:Blog` it returns no file
  where the source throws (see Findings and
  `SearchUtils.AssetCompressFilesAsWritten`).
- PathUtils.PluginFolders: a regular file at `<root>/plugins` is treated
  as a missing folder. In the source `existsSync` is true there and
  `readdirSync` (src/utils/pathUtils.ts:33-36) throws, so
  `constructSearchPaths`, every finder that builds search paths and
  `getFilePaths` throw. The model builds the search paths without
  `plugins/` entries instead (`PathUtils.BuildBasePaths`,
  `PathUtils.ConstructSearchPaths`).
- ElementMapper.ElementIndex.GenerateElementMap: requires a well-formed
  plugin map, and so do `CellMapper.CellIndex.GenerateCellMap` and
  `AssetMapper.AssetIndex.GenerateAssetMaps`. Every map
  `ParseAutoloadPsr4` returns is one.
- Completion.AllKeys: states which names are offered only for
  well-formed indexes.
- PluginUtils.PluginRegistry.GetPluginPath: states only that nothing is
  found without a map and that a found path is not empty. The full lookup
  is `PluginUtils.LookupPluginPath`, which it calls.
- Autoload.StripQuotes, Autoload.Unescape: their own contracts bound only
  the length. What they compute is stated by
  `Autoload.CleanNamespaceLiteral` and `Autoload.UnescapeEscape`.
- The extension's hover and link providers and `extension.ts` are not part
  of this model.

## Findings

| source | as written | input that shows it | evidently intended | confidence | as-written member | corrected member |
|---|---|---|---|---|---|---|
| src/utils/searchUtils.ts:155-176 | A `p:` or `plugin:` reference without a second `:` leaves `pluginName` undefined. `getPluginPath(undefined)` then calls `.replace` on it and throws, because `getFilePaths` has already set the namespace map, so the null guard at src/utils/pluginUtils.ts:11 does not return. | an `asset_compress.ini` line `files[] = p:Blog` | the `if (pluginName && pluginFilePath && pluginPath)` guard suggests that an unparsable reference should yield no file | not executed | SearchUtils.AssetCompressFilesAsWritten (with SearchUtils.AssetCompressCrashExample) | SearchUtils.AssetCompressFiles |
