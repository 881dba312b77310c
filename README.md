# Visual tests of the PlayCanvas engine, modelled in Dafny

The visual-test harness renders scenes in real browsers, uploads a
screenshot of each test stage to a test server, and then compares the
screenshots taken with different engine builds. This project models the
parts of the harness that decide what is rendered, what is uploaded and
what is reported, and proves properties of that model.

- **Screenshot comparison (`src/diff.js`).**
  - `ArtifactKey`: reading a screenshot's identity from its path.
  - `NestedTree`: `Helpers.add`, the get-or-insert walk down a nested object.
  - `ImageDiff`: the 16-bucket histogram of byte differences.
  - `ImageDatabase`: the database of screenshots (`ImageDb`: `addFile`, `addDirectory`, `genReport`).
  - `Report`: the HTML report visitor.
  - `Consistency`: the check for missing and mismatched screenshots, with the exit code it sets.
- **Test server (`test-server/`).**
  - `TestRegistry`: the registry of tests.
  - `MaterialTests`: the material tests. They split an object permutation into frames of 8 x 8 spheres.
  - `GltfTestsServer`: one test per variant of every glTF sample model.
- **Browser client (`src/test-client/`).**
  - `Permutation`: the mixed-radix object permutation.
  - `GltfTestsClient`: the browser-side glTF test tree.
  - `TestRunner`: the helpers of the runner.
    - `getBrowser`;
    - the chain of resource contexts searched by `findResource`;
    - `getPathname`;
    - the substitution of `$name` references in material and component options.
  - `TestEvaluation`: `createResources`, `destroyResources` and `evaluateTest`, as a log of the calls made on the engine, the console and the server.
  - `EvaluationProperties`: what that log amounts to.
    - One upload per leaf stage, named by its path of stage names.
    - Every entity that is added is removed again.
    - The last asset of a given name wins.
    - References resolve to the nearest enclosing stage.
  - `AssetLoading`: the asset loader of the client.
- **Shared modules.**
  - `Dict`: a JavaScript plain object, as an insertion-ordered list of properties, so that the order of `Object.keys` is part of the model (for names that are not array indices; see "## Left out").
  - `Strings`, `Sorting`, `Seqs`: the string operations, the default `sort()` order, and helpers for sequences.
  - `Descriptors`: JavaScript values and test descriptors.
  - `Wrappers`: `Option`.

Objects that the source updates in place are classes: `ImageDatabase.ImageDb`,
`Report.ReportVisitor`, `TestRegistry.Registry`, `Permutation.Permutation`,
`TestEvaluation.Runner`, `AssetLoading.AssetLoader` and `AssetLoading.Batch`.
Each of their methods is proved against a specification function of the
old state. The properties are stated as lemmas about those functions.

Some things come from outside the model and are supplied as parameters:

- md5 and PNG decoding are functions.
- A directory listing is an `FsNode` value.
- `path.relative` and `path.dirname` are functions the report visitor is built with.
- The engine's asset loading and the defaults of a fresh `pc.StandardMaterial` are part of `TestEvaluation.Host`.
- The user-agent string is a parameter.
- Completions of asynchronous asset loads are explicit calls of `AssetLoading.Batch.Complete`.

Two behaviours of the code that the model keeps:

- **The identity tree.** `Helpers.add` (src/diff.js:19-27) never overwrites a node. The identity tree `tree2` therefore keeps the FIRST screenshot filed for each (model, browser, variant, engine), not the last (`ImageDatabase.IdentityFirstWins`).
- **`addDirectory`.** It tests `child.isFile` without calling it (src/diff.js:96-101), and a function is always truthy. So every entry of a directory that is not a directory itself is passed to `addFile`.

## Model

| member | source | states |
|---|---|---|
| ArtifactKey.ExtractKey | src/diff.js:8-16 | no key exactly when the path's last segment is `.DS_Store` |
| ArtifactKey.ExtractKeyOfArtifactPath | src/diff.js:8-16 | for `dir/engine/model/variant/browser` with separator-free segments the key is exactly those four segments, whatever `dir` holds, and `null` for a `.DS_Store` file |
| ArtifactKey.ExtractKeyOfShortPath | src/diff.js:9-15 | a path of only two segments reads the missing model and engine as `undefined` |
| ArtifactKey.ExtractKeyBrowser | src/diff.js:9-12 | the browser is the path's last segment and holds no separator |
| NestedTree.Add | src/diff.js:19-27 | the walk leaves the tree equal to `Added` (every missing node on the path created, nothing overwritten) and returns the node that is at the end of the path afterwards |
| NestedTree.FillGet | src/diff.js:20-25 | a property is inserted only when missing: present properties keep their value, missing ones take the new one |
| NestedTree.FillValid | src/diff.js:20-25 | inserting only missing properties keeps every property name unique |
| NestedTree.FillPresent | src/diff.js:21 | when every wanted property exists, the walk changes nothing |
| NestedTree.WantedGet | src/diff.js:22 | the nodes the walk wants are exactly those on the path: an object at every proper prefix, `value` at the whole path |
| NestedTree.AddedGet | src/diff.js:19-27 | after the add a node on the path is the old one when it existed and the fresh one otherwise; nodes off the path are untouched |
| NestedTree.AddedAtPath | src/diff.js:26 | the node returned is the existing one at the path or the new leaf holding `value` |
| NestedTree.AddedHasPath | src/diff.js:20-25 | every prefix of the path exists afterwards |
| NestedTree.AddedValid | src/diff.js:19-27 | the add keeps each object's property names unique |
| NestedTree.AddedTwice | src/diff.js:21-22 | a second add along the same path changes nothing: the first value wins |
| NestedTree.ChildEntriesGet | src/diff.js:123-125 | `Object.entries` of the object at `p` holds `x` with exactly the node stored at `p + [x]` |
| NestedTree.NamesMember | src/diff.js:107-109 | `Object.keys` of an object lists exactly the names with a node below it |
| NestedTree.ChildEntriesValid | src/diff.js:123-125 | each object's entries name each property once |
| NestedTree.AddedShaped | src/diff.js:79-86 | adding along a path as deep as the tree keeps leaves exactly at that depth and every parent present |
| NestedTree.ShapedPrefix | src/diff.js:20-25 | in such a tree every ancestor of a node exists |
| NestedTree.AddedExisting | src/diff.js:21 | adding along a path that already holds a leaf leaves the tree unchanged |
| NestedTree.SetLeafShaped | src/diff.js:79 | replacing an existing leaf's value (the `push` onto the returned array) keeps the tree's shape |
| ImageDiff.Bucket | src/diff.js:46 | a byte difference always falls in one of the 16 histogram buckets |
| ImageDiff.Log10Floor | src/diff.js:59 | `Math.floor(Math.log10(n))` is the `k` with `10^k <= n < 10^(k+1)` |
| ImageDiff.Diff | src/diff.js:31-66 | the three loops (zeroing, histogram scan, glyph text) return exactly `DiffText`: the dimensions message, `null`, or the prefix, 16 glyphs and a bar |
| ImageDiff.NewHistogram | src/diff.js:36-42 | the first loop yields a fresh array of sixteen zero buckets |
| ImageDiff.Scan | src/diff.js:44-48 | the scan over every channel byte leaves exactly `Histogram` of the two byte strings: one count per differing byte, in the bucket of its absolute difference divided by 16 |
| ImageDiff.Render | src/diff.js:54-63 | the glyph loop builds `Glyphs` of the histogram, and the error flag is set exactly when some bucket is non-zero |
| ImageDiff.HistogramSum | src/diff.js:44-48 | the bucket counts add up to the number of differing bytes |
| ImageDiff.SumZero | src/diff.js:54-65 | the histogram sums to zero exactly when every bucket is empty |
| ImageDiff.DiffCountZero | src/diff.js:44-48 | no byte differs exactly when the pixel data are equal |
| ImageDiff.DiffNoneIff | src/diff.js:31-66 | with equal dimensions, `imageDiff` returns `null` if and only if the pixel data are equal |
| ImageDiff.DiffSelf | src/diff.js:31-66 | an image compared with itself never reports a difference |
| ImageDiff.DiffDimensions | src/diff.js:32-34 | different widths or heights are always reported with the dimensions message, whatever the pixels |
| ImageDiff.GlyphsAt | src/diff.js:56-63 | glyph `i` of the text belongs to bucket `i`, and it is a space exactly when that bucket is empty |
| ImageDiff.HistogramSingle | src/diff.js:44-48 | images differing in exactly one byte give a histogram holding a single count of one, in that byte's bucket |
| ImageDiff.DiffSingleByte | src/diff.js:31-66 | images differing in exactly one byte give a single lowest bar at that byte's bucket and spaces elsewhere |
| ImageDatabase.IngestAllAppend | src/diff.js:90-104 | adding two batches of files in turn is adding their concatenation |
| ImageDatabase.EmptyWf | src/diff.js:69-73 | a new database (three empty objects) is well formed |
| ImageDatabase.AddedHas | src/diff.js:19-27 | after an add, a node exists exactly when it existed or lies on the path |
| ImageDatabase.FiledGet | src/diff.js:79 | filing a path appends it to its hash's list, creates the missing objects on the way, and leaves every other node unchanged |
| ImageDatabase.IngestPaths | src/diff.js:75-88 | after `addFile` the path follows those already listed for its (model, browser, hash); every other list is unchanged; a `.DS_Store` file changes nothing |
| ImageDatabase.FiledLeaf | src/diff.js:79 | the node `push` is called on is a list: the existing one or a new empty one |
| ImageDatabase.FiledWf | src/diff.js:79 | filing a keyed path keeps the hash tree model -> browser -> hash -> non-empty list of keyed paths |
| ImageDatabase.NotedHas | src/diff.js:80-82 | the key sets gain exactly the screenshot's model, browser and engine |
| ImageDatabase.NotedHasRoot | src/diff.js:80-82 | the three key objects all exist after an `addFile` of a keyed path, and no other top-level key appears |
| ImageDatabase.NotedValid | src/diff.js:80-82 | recording the keys keeps property names unique |
| ImageDatabase.IngestNames | src/diff.js:80-82 | `Object.keys` of each key set gains the screenshot's model, browser or engine and nothing else |
| ImageDatabase.IngestKeysOk | src/diff.js:79-82 | the three key sets are created together, and every recorded model has its object in the hash tree |
| ImageDatabase.IngestWf | src/diff.js:75-88 | `addFile` keeps all three objects well formed: unique names, the hash tree three levels deep with non-empty keyed lists, the identity tree four levels deep, the key sets consistent |
| ImageDatabase.IngestAllWf | src/diff.js:90-104 | adding any sequence of files keeps the database well formed |
| ImageDatabase.IdentityFirstWins | src/diff.js:83-86 | once a (model, browser, variant, engine) has a record, a later screenshot with the same identity leaves the identity tree unchanged |
| ImageDatabase.AxisMembers | src/diff.js:107-109 | each report axis lists exactly the recorded keys, in ascending order |
| ImageDatabase.GroupsOf | src/diff.js:217 | `Object.entries` of a (model, browser) object gives, in order, each hash and its list of paths |
| ImageDatabase.CellMap | src/diff.js:114-116 | row `m` of the table holds, for exactly the browser indexes, the hash groups of that (model, browser) |
| ImageDatabase.Grid | src/diff.js:113-117 | one row per model and one cell per browser, every cell renderable |
| ImageDatabase.CellRenderable | src/diff.js:217-226 | every hash group of a (model, browser) lists at least one screenshot, each with a key, so `images[0]` and `extractKey` never fail |
| ImageDatabase.Matrix | src/diff.js:112-118 | the matrix `done` renders has one renderable row per sorted model |
| ImageDatabase.EnteredFilled | src/diff.js:113-117 | the table is complete exactly when every (model, browser) pair of the axes has an object in the hash tree |
| ImageDatabase.EnteredRows | src/diff.js:113-117 | a complete table holds exactly the matrix of hash groups |
| ImageDatabase.QueueSizeAppend | src/diff.js:92-98 | the outstanding work of a queue is additive over concatenation |
| ImageDatabase.ListingSnocFile | src/diff.js:99-101 | a file entry of a listing extends the files visited and not the queue |
| ImageDatabase.ListingSnocDirectory | src/diff.js:97-98 | a directory entry extends the queue and not the files visited |
| ImageDatabase.DirsOfSmaller | src/diff.js:92-103 | the directories a listing queues hold less work than the listing, so the breadth-first walk terminates |
| ImageDatabase.BfsTopFirst | src/diff.js:90-104 | the files directly in the scanned directory are visited first, in listing order |
| ImageDatabase.ImageDb.constructor | src/diff.js:69-73 | a new database holds three empty objects |
| ImageDatabase.ImageDb.AddFile | src/diff.js:75-88 | the new state is `Ingest` of the old one and the database stays well formed |
| ImageDatabase.ImageDb.FileShot | src/diff.js:78-86 | the five `Helpers.add` steps leave the state `IngestKey` of the old one |
| ImageDatabase.ImageDb.AddDirectory | src/diff.js:90-104 | the queue loop ingests exactly the files `Bfs` lists, in that breadth-first order, and keeps the database well formed |
| ImageDatabase.BfsCoversTree | src/diff.js:90-104 | the files the queue visits from `dir` are exactly the files below `dir`, each as often as a depth-first walk of the listing finds it (equal multisets, so equal membership both ways) |
| ImageDatabase.BfsQueueFiles | src/diff.js:92-103 | for any queue, the breadth-first visit lists the same multiset of files as walking each queued directory in turn |
| ImageDatabase.AllFilesListing | src/diff.js:94-102 | below one listing lie its own files and the files below each subdirectory it pushes on the queue, and nothing else |
| ImageDatabase.ImageDb.ScanListing | src/diff.js:95-102 | one listing adds its files in order and queues its subdirectories in order on `paths` |
| ImageDatabase.ImageDb.GenReport | src/diff.js:106-153 | crashes exactly when no screenshot was filed (`Object.keys` of the undefined `keys.models`) or `done` meets an undefined cell; otherwise the page is rendered from the sorted axes, every missing or mismatched screenshot is reported in order, and the code is 1 exactly when something was reported |
| ImageDatabase.Run | src/diff.js:107-152 | the same once the key sets exist: render, then check |
| ImageDatabase.Check | src/diff.js:120-152 | the errors logged are the violations over the sorted engines, and the code is 1 exactly when there is one |
| ImageDatabase.Render | src/diff.js:112-118 | `init`, an `entry` per cell and `done` render the page of the grid, or crash exactly when a cell is undefined |
| ImageDatabase.FillTable | src/diff.js:113-117 | after the `entry` calls each row holds that model's cells; nothing else of the visitor changes |
| ImageDatabase.FillRow | src/diff.js:114-116 | one row's `entry` calls fill that row and leave the others unchanged |
| ImageDatabase.CheckAll | src/diff.js:123-150 | every model of the identity tree is checked, in insertion order, and the errors logged are exactly its violations |
| ImageDatabase.CheckModel | src/diff.js:124-149 | the checks of one model, one browser after another |
| ImageDatabase.CheckBrowser | src/diff.js:125-148 | the checks of one browser, one variant after another |
| ImageDatabase.CheckVariant | src/diff.js:127-147 | the missing engines are reported first, then the comparisons with the first engine |
| ImageDatabase.CheckMissing | src/diff.js:127-132 | one error per sorted engine with no screenshot for (model, browser, variant) |
| ImageDatabase.CheckMatches | src/diff.js:135-147 | every other engine's screenshot is compared with the first one in sorted engine order, and each mismatch is logged in that order |
| ImageDatabase.CompareWithFirst | src/diff.js:135-146 | with two or more screenshots, the loop logs exactly the mismatches against the first one, in order, reports whether there was any, and writes no page |
| ImageDatabase.CompareNext | src/diff.js:137-145 | one turn of that loop extends the logged mismatches from the first i screenshots to the first i + 1, and the flag with them |
| ImageDatabase.Compare | src/diff.js:138-146 | equal hashes are never reported; different hashes are decoded and reported only when `imageDiff` finds a difference |
| ImageDatabase.ComparedNext | src/diff.js:137-147 | one more comparison appends its problems after those of the earlier ones |
| ImageDatabase.NoCrashIff | src/diff.js:107-118 | once a screenshot is filed, `genReport` does not crash exactly when every recorded model has a screenshot from every recorded browser |
| Report.Head | src/diff.js:181-201 | the fixed head is the 21 lines from `<!DOCTYPE html>` to `<body>` |
| Report.Label | src/diff.js:219-220 | a screenshot's label `engine/variant` always contains a separator, so it is never empty |
| Report.TagsFrom | src/diff.js:218-221 | from a non-empty accumulator, the `reduce` adds each label after a newline |
| Report.TagsJoin | src/diff.js:218-221 | a link's title is exactly the group's labels joined by newlines, one per screenshot |
| Report.CellLinesSnoc | src/diff.js:217-227 | one more hash group appends its link after the links of the earlier groups |
| Report.CellLinesAt | src/diff.js:217-227 | a cell renders three lines per hash group, the middle one the thumbnail of the group's first screenshot |
| Report.CellsLinesSnoc | src/diff.js:215-229 | one more browser appends its `td` after the earlier ones |
| Report.BodyLinesSnoc | src/diff.js:212-231 | one more model appends its row after the earlier ones |
| Report.TableRows | src/diff.js:212-217 | a filled table has one row per model, one renderable cell per browser, each the groups `entry` recorded |
| Report.Lines.Push | src/diff.js:242-244 | the page gains the line at its end |
| Report.ReportVisitor.constructor | src/diff.js:157-166 | the output directory is the dirname of the output path; axes unset, table, page and error stream empty, nothing written |
| Report.ReportVisitor.Init | src/diff.js:168-174 | the axes are remembered and rows `0 .. |models|-1` are reset to empty; later rows keep their contents |
| Report.ReportVisitor.Entry | src/diff.js:176-178 | cell (m, b) records the given groups and no other cell changes |
| Report.ReportVisitor.Put | src/diff.js:242-244 | the page gains one line |
| Report.ReportVisitor.Open | src/diff.js:246-248 | the page gains `<tag>` |
| Report.ReportVisitor.Close | src/diff.js:250-252 | the page gains `</tag>` |
| Report.ReportVisitor.Tag | src/diff.js:254-258 | the page gains the opening tag, the value and the closing tag |
| Report.ReportVisitor.Error | src/diff.js:260-262 | the error stream gains one line; nothing else changes |
| Report.ReportVisitor.Rows | src/diff.js:212-217 | the filled matrix has one renderable row per model |
| Report.ReportVisitor.PutPreamble | src/diff.js:181-205 | the page gains the head and the opening of the table and its header row |
| Report.ReportVisitor.PutHeaderRow | src/diff.js:206-211 | the page gains the `model` heading, one heading per browser, and the switch to the body |
| Report.ReportVisitor.PutClosing | src/diff.js:232-236 | the page gains the closing tags of body, table and document |
| Report.ReportVisitor.PutHeader | src/diff.js:207-209 | one `th` per browser, in axis order |
| Report.ReportVisitor.PutCell | src/diff.js:217-227 | one link per hash group, in `Object.entries` order |
| Report.ReportVisitor.PutLink | src/diff.js:218-226 | a link to the group's first screenshot, titled with every label, around its thumbnail |
| Report.ReportVisitor.PutTd | src/diff.js:216-228 | a `td` around the links of a cell |
| Report.ReportVisitor.PutRow | src/diff.js:213-230 | a row: the model name, then one `td` per browser |
| Report.ReportVisitor.PutBody | src/diff.js:212-231 | one row per model, in axis order |
| Report.ReportVisitor.Done | src/diff.js:180-240 | throws exactly when an axis or a cell is missing; otherwise appends the whole page and writes its lines joined by newlines |
| Consistency.MessagesAppend | src/diff.js:129-143 | the lines for two lists of problems are the lines of the first followed by those of the second |
| Consistency.ShotsOf | src/diff.js:135-138 | the records of the engines present for (model, browser, variant), in sorted engine order |
| Consistency.BelowAt | src/diff.js:123-125 | each child of a node of the identity tree contributes exactly the reports of the walk below it |
| Consistency.MissingForMember | src/diff.js:127-132 | a problem is in the missing list exactly when it names a known engine with no screenshot for (model, browser, variant) |
| Consistency.MissingForEmpty | src/diff.js:127-132 | no missing screenshot is reported exactly when every known engine has one |
| Consistency.ComparedEmpty | src/diff.js:139-145 | a comparison reports nothing exactly when the hashes are equal or the pixels agree, and otherwise a single mismatch naming both paths |
| Consistency.MismatchesMember | src/diff.js:137-147 | a problem is reported by the comparisons exactly when some engine after the first disagrees with the first |
| Consistency.MismatchesEmpty | src/diff.js:137-147 | the comparisons report nothing exactly when every engine agrees with the first |
| Consistency.MismatchesOnly | src/diff.js:137-147 | the comparisons only ever report mismatches |
| Consistency.VariantViolationsEmpty | src/diff.js:127-147 | nothing is reported for (model, browser, variant) exactly when every known engine is present and agrees with the first |
| Consistency.VariantMissing | src/diff.js:127-132 | the missing reports of (model, browser, variant) are exactly the known engines without a screenshot |
| Consistency.VariantMissingOwn | src/diff.js:129 | a variant's missing reports name that same model, browser and variant |
| Consistency.BrowserMissing | src/diff.js:124-132 | the missing reports for (model, browser) are exactly those of its variants |
| Consistency.ModelMissing | src/diff.js:123-132 | the missing reports for a model are exactly those of its browsers |
| Consistency.AllMissing | src/diff.js:123-132 | the missing reports overall are exactly those of every model |
| Consistency.WalkedIff | src/diff.js:123-125 | in a four-level tree the walk visits (model, browser, variant) exactly when that variant object exists |
| Consistency.MissingReported | src/diff.js:123-132 | a missing screenshot is reported exactly for each known engine absent from a (model, browser, variant) where some engine has one |
| Consistency.BrowserEmpty | src/diff.js:124-148 | nothing is reported for (model, browser) exactly when each of its variants is in order |
| Consistency.ModelEmpty | src/diff.js:123-149 | nothing is reported for a model exactly when each of its (browser, variant) pairs is in order |
| Consistency.WalkEmpty | src/diff.js:123-150 | nothing is reported exactly when every visited (model, browser, variant) is in order |
| Consistency.ViolationsEmpty | src/diff.js:120-152 | nothing is reported (the exit code stays 0) exactly when every (model, browser, variant) has a screenshot from every known engine and each agrees with the first |
| Sorting.Insert | src/diff.js:107 | inserting one string lengthens the list by one |
| Sorting.InsertPermutes | src/diff.js:107 | insertion adds exactly that one string |
| Sorting.InsertSorted | src/diff.js:107 | insertion into an ascending list keeps it ascending |
| Sorting.SortSorted | src/diff.js:107-109 | `sort()` without a comparator yields the strings in ascending code-unit order |
| Sorting.SortPermutes | src/diff.js:107-109 | `sort()` yields a permutation of its input |
| Sorting.SortElements | src/diff.js:107-109 | sorting keeps exactly the input's elements |
| Seqs.JoinedSnoc | src/diff.js:123-125 | a loop that appends each element's output produces, after one more element, the old output followed by that element's |
| Seqs.JoinedMember | src/diff.js:123-125 | an output of the loop comes from exactly one of the elements' outputs |
| Seqs.JoinedSplit | src/diff.js:123-125 | the outputs for a prefix come first, then those for the rest |
| Seqs.JoinedEmpty | src/diff.js:120-152 | the loop outputs nothing exactly when no element does |
| Strings.Split | src/diff.js:9 | `split` on one character yields at least one piece, no piece holds the separator, and joining the pieces gives back the string |
| Strings.JoinSnoc | src/diff.js:239 | joining one more part appends the separator and the part |
| Strings.SplitConcat | src/diff.js:9 | splitting at a separator splits the two sides independently |
| Strings.SplitNoSeparator | src/diff.js:9 | a string without the separator splits to itself |
| Strings.SplitJoin | src/diff.js:9 | splitting undoes joining for separator-free pieces |
| Strings.IndexOf | src/test-client/test-runner.js:5-7 | `indexOf` is -1 exactly when the pattern does not occur at or after `from`; otherwise it is the first such occurrence |
| Strings.ContainsIff | src/test-client/test-runner.js:5-7 | `indexOf(pat) != -1` exactly when the pattern occurs somewhere |
| Strings.NatToString | src/test-client/asset-loader.js:51 | a count prints as at least one decimal digit, exactly one when below ten |
| Strings.DigitsValueOfNatToString | src/test-client/asset-loader.js:51 | the printed digits read back as the same number |
| Strings.NatToStringInjective | src/test-client/asset-loader.js:51 | different counts print differently |
| Strings.LexLeTotal | src/diff.js:107 | any two strings are ordered one way or the other |
| Strings.LexLeAntisymmetric | src/diff.js:107 | strings ordered both ways are equal |
| Strings.LexLeTransitive | src/diff.js:107 | the default string order is transitive |
| Dict.Keys | src/test-client/test-runner.js:288 | the property names in insertion order, one per property: the order of `Object.keys` when no name is an array index |
| Dict.Get | src/test-client/test-runner.js:203 | a lookup finds nothing exactly when the name is not an own property, and otherwise a value stored under it (inherited names are not modelled) |
| Dict.GetAt | src/test-client/test-runner.js:203 | in a well-formed object every entry is what a lookup of its name finds |
| Dict.SetGet | src/test-client/test-runner.js:319 | after `d[k] = v`, `k` holds `v` and every other property keeps its value |
| Dict.SetAt | src/test-client/test-runner.js:291 | assigning an existing property replaces that entry in place |
| Dict.SetAtEach | src/test-client/test-runner.js:291 | assigning an existing property changes that one entry and no other |
| Dict.SetKeys | src/test-client/test-runner.js:319 | an assignment keeps the position of an existing property and appends a new one |
| Dict.SetValid | src/test-client/test-runner.js:319 | an assignment keeps property names unique |
| Dict.SetFresh | src/test-client/test-runner.js:319 | assigning a property the object lacks appends it |
| Dict.AssignGet | src/test-client/test-runner.js:287 | after `Object.assign(t, s)` a property of `s` has its value from `s`, every other keeps its value from `t` |
| Dict.AssignDisjoint | src/test-client/test-runner.js:287 | with no property in common the result is `t`'s properties followed by `s`'s |
| Dict.AssignCopy | src/test-client/test-runner.js:287 | `Object.assign({}, s)` copies a well-formed object entry for entry |
| Dict.AssignValid | src/test-client/test-runner.js:287 | `Object.assign` keeps property names unique |
| TestRunner.GetBrowser | src/test-client/test-runner.js:3-8 | the platform is `chrome` exactly when the user agent mentions Chrome, `safari` when it mentions Safari but not Chrome, `firefox` when only Firefox, `unknown` when none |
| TestRunner.IsString | src/test-client/test-runner.js:30-32 | `isString(v)` is truthy exactly for a non-empty string |
| TestRunner.FindResource | src/test-client/test-runner.js:201-205 | the value found for a resource on the chain is always truthy |
| TestRunner.FindResourceNearest | src/test-client/test-runner.js:201-205 | `findResource` returns the entry of the nearest context up the parent chain that holds the name |
| TestRunner.NearestFirst | src/test-client/test-runner.js:203-204 | inner contexts shadow outer ones: no nearer context holds the name |
| TestRunner.HoldsUp | src/test-client/test-runner.js:203-204 | any context up the chain holding the name makes the lookup succeed |
| TestRunner.OnChainIff | src/test-client/test-runner.js:201-205 | the lookup succeeds exactly when some context up the chain holds the name |
| TestRunner.Names | src/test-client/test-runner.js:352-354 | a stage context has at least one stage name on its chain; the root has none |
| TestRunner.PathnameJoinsNames | src/test-client/test-runner.js:352-354 | the pathname is `/` followed by the stage names from the outermost in, joined by `/`; the root's is empty |
| TestRunner.TopPathname | src/test-client/test-runner.js:352-354 | a test evaluated from `{}` uploads under `/` and its name |
| TestRunner.Reference | src/test-client/test-runner.js:265-290 | an option refers to a resource exactly when it is a string starting with `$`, the name being the rest of the string |
| TestRunner.MaterialValue | src/test-client/test-runner.js:264-266 | a `$` option takes the referenced asset's resource when that is truthy and keeps the raw value otherwise; any other option keeps its value |
| TestRunner.ComponentValue | src/test-client/test-runner.js:289-291 | a `$` component option takes the material found up the chain; any other keeps its value |
| TestRunner.MaterialPropsGet | src/test-client/test-runner.js:257-272 | after `handleMaterial` a property the material has and the options set holds the substituted option; every other property keeps its default |
| TestRunner.MaterialPropsLastGet | src/test-client/test-runner.js:260-268 | the last option is substituted exactly when the material has that property |
| TestRunner.MaterialPropsOtherGet | src/test-client/test-runner.js:260-268 | any other property is settled by the options before the last |
| TestRunner.KeyIndexUnique | src/test-client/test-runner.js:260 | the loop meets each key of a well-formed object at its one position |
| TestRunner.MaterialWarningsAre | src/test-client/test-runner.js:260-263 | `handleMaterial` warns once for each option key the material does not have, in key order, and for no other |
| TestRunner.HandleMaterial | src/test-client/test-runner.js:257-272 | the loop returns the material with the substituted properties and the warnings, in order; only references under keys the material has must resolve |
| TestRunner.UnknownKeyWarnsOnly | src/test-client/test-runner.js:260-262 | an option the material does not have, whatever its value (an unresolvable `$name` included), only adds its warning and leaves the properties at their defaults |
| TestRunner.Substituted | src/test-client/test-runner.js:287-292 | the substituted options have one entry per option |
| TestRunner.SubstitutedAt | src/test-client/test-runner.js:288-292 | entry `i` keeps option `i`'s key and holds its substituted value |
| TestRunner.PartialAt | src/test-client/test-runner.js:288-292 | midway through the loop the entries before `i` are substituted and the rest are as copied |
| TestRunner.PartialEnds | src/test-client/test-runner.js:287-292 | before the loop the copy equals the options; after it, their substitution |
| TestRunner.PartialKeys | src/test-client/test-runner.js:288-292 | the loop never changes the keys or their order |
| TestRunner.PartialValid | src/test-client/test-runner.js:288-292 | the copy stays a well-formed object throughout |
| TestRunner.PartialStep | src/test-client/test-runner.js:291 | assigning entry `i` in place gives the next partial copy |
| TestRunner.SubstituteOptions | src/test-client/test-runner.js:287-292 | the in-place loop over the copied options returns exactly their substitution |
| TestRunner.SubstitutedGet | src/test-client/test-runner.js:287-292 | afterwards the keys are the options' keys in order, and each key holds its option substituted |
| TestEvaluation.AssetAdds | src/test-client/test-runner.js:249-317 | one `app.assets.add` per asset descriptor |
| TestEvaluation.WarnEvents | src/test-client/test-runner.js:262 | one console warning per message |
| TestEvaluation.EntitiesOf | src/test-client/test-runner.js:328 | one entity per entity descriptor |
| TestEvaluation.Additions | src/test-client/test-runner.js:311-328 | one `addChild` per entity descriptor |
| TestEvaluation.Created | src/test-client/test-runner.js:240-331 | the context `createResources` returns sits directly below the parent and holds this stage |
| TestEvaluation.EntityTeardown | src/test-client/test-runner.js:334-337 | two calls, `remove` and `destroy`, per entity |
| TestEvaluation.MaterialTeardown | src/test-client/test-runner.js:339-341 | one `destroy` per material |
| TestEvaluation.AssetTeardown | src/test-client/test-runner.js:343-347 | two calls, `remove` and `unload`, per asset |
| TestEvaluation.ChildrenResolvePrefix | src/test-client/test-runner.js:379-381 | when the first `n` children can be evaluated, so can any shorter prefix |
| TestEvaluation.TraceChildrenLast | src/test-client/test-runner.js:379-381 | evaluating one more child appends its events after those of the earlier children |
| TestEvaluation.Runner.constructor | src/test-client/test-runner.js:35-36 | the platform is the browser `getBrowser` names; nothing has been logged |
| TestEvaluation.Runner.EvaluateTest | src/test-client/test-runner.js:356-389 | the log gains exactly the events of evaluating the test below the root context `{}` |
| TestEvaluation.CreateResources | src/test-client/test-runner.js:240-331 | returns the stage's new context and the events of making its assets, materials and entities, in that order |
| TestEvaluation.DestroyResources | src/test-client/test-runner.js:333-350 | the three loops tear down entities, then materials, then assets, and return the parent context |
| TestEvaluation.EvaluateStage | src/test-client/test-runner.js:357-386 | create, upload a stage without `children`, evaluate the children in order, destroy: exactly the stage's trace |
| TestEvaluation.EvaluateChildren | src/test-client/test-runner.js:377-382 | the loop evaluates each child in order below the stage's context |
| TestEvaluation.LoadAssets | src/test-client/test-runner.js:317-320 | every descriptor is added to the registry in order, then each loaded asset is filed under its name |
| TestEvaluation.MakeMaterials | src/test-client/test-runner.js:323-325 | each material is made in order, seeing the materials filed before it, and filed under its name; the warnings follow in order |
| TestEvaluation.MakeEntities | src/test-client/test-runner.js:328 | each entity is made in order and added to the scene |
| TestEvaluation.HandleEntity | src/test-client/test-runner.js:274-314 | an entity with an `asset` is instantiated from that asset's resource; otherwise it is named (`testEntity` by default) and gets the substituted component options; the transforms are those given |
| TestEvaluation.MaterialsResolvePrefix | src/test-client/test-runner.js:323-325 | when the first `n` materials resolve their references, so do the first `i` for `i <= n` |
| EvaluationProperties.PickedAppend | src/test-client/test-runner.js:356-389 | projecting the log of two consecutive phases projects each phase in turn |
| EvaluationProperties.PickedNone | src/test-client/test-runner.js:356-389 | a phase with no event of a kind contributes none to that projection |
| EvaluationProperties.AssetAddsAt | src/test-client/test-runner.js:317 | the `i`-th registry addition adds the `i`-th asset descriptor |
| EvaluationProperties.WarnEventsAt | src/test-client/test-runner.js:262 | each warning carries its message, in order |
| EvaluationProperties.MaterialWarnsAreWarnings | src/test-client/test-runner.js:323-325 | making materials only prints warnings |
| EvaluationProperties.AdditionsAt | src/test-client/test-runner.js:311-328 | the `i`-th `addChild` adds the `i`-th entity made |
| EvaluationProperties.AdditionsMapped | src/test-client/test-runner.js:311-328 | the entities added and the entities made have the same length, and each `addChild` adds the entity made at its position |
| EvaluationProperties.SetupEvents | src/test-client/test-runner.js:240-331 | `createResources` only adds assets, warns and adds entities |
| EvaluationProperties.EntityTeardownAt | src/test-client/test-runner.js:334-337 | entity `i` is removed from the scene, then destroyed |
| EvaluationProperties.MaterialTeardownAt | src/test-client/test-runner.js:339-341 | the `i`-th material in key order is destroyed |
| EvaluationProperties.AssetTeardownAt | src/test-client/test-runner.js:343-347 | the `i`-th asset in key order is removed from the registry, then unloaded |
| EvaluationProperties.TeardownEvents | src/test-client/test-runner.js:333-350 | `destroyResources` only removes, destroys and unloads |
| EvaluationProperties.StageUploadsNothing | src/test-client/test-runner.js:240-350 | creating and destroying resources never uploads |
| EvaluationProperties.UploadsTrace | src/test-client/test-runner.js:357-386 | evaluating a stage uploads one screenshot per leaf stage below it, depth first, each named by the stage names from the top down |
| EvaluationProperties.UploadsStage | src/test-client/test-runner.js:360-382 | a stage uploads its own pathname when it has no `children` property, then what its children upload |
| EvaluationProperties.LeafUploadPicked | src/test-client/test-runner.js:360-374 | a leaf uploads under its context's pathname; a stage with children uploads nothing itself |
| EvaluationProperties.UploadsChildren | src/test-client/test-runner.js:377-382 | the first `n` children upload their leaves in order |
| EvaluationProperties.ChildPathsLast | src/test-client/test-runner.js:379-381 | the leaf paths of the first `n` children end with those of the `n`-th |
| EvaluationProperties.UploadsLastChild | src/test-client/test-runner.js:379-381 | the `n`-th child adds its uploads after those of the children before it |
| EvaluationProperties.UploadsTest | src/test-client/test-runner.js:356-389 | `evaluateTest` uploads exactly the test's leaf paths, each starting with `/` and the test's name |
| EvaluationProperties.LeafPathsUnder | src/test-client/test-runner.js:352-354 | every leaf path below a stage starts with the prefix, a slash and the stage's name |
| EvaluationProperties.ChildPathsUnder | src/test-client/test-runner.js:352-354 | every leaf path of the children starts with the parent's path |
| EvaluationProperties.SetupAdds | src/test-client/test-runner.js:311-328 | the entities `createResources` adds to the scene are those its context records, in order |
| EvaluationProperties.AdditionsAdd | src/test-client/test-runner.js:328 | the scene additions pick out the entities made, in order |
| EvaluationProperties.TeardownRemoves | src/test-client/test-runner.js:334-337 | `destroyResources` removes exactly its context's entities, in order |
| EvaluationProperties.EntityTeardownRemoves | src/test-client/test-runner.js:334-337 | tearing down the first `n` entities removes them in order |
| EvaluationProperties.EntitiesBalance | src/test-client/test-runner.js:357-386 | evaluating a stage removes from the scene every entity it adds, and no other |
| EvaluationProperties.StageBalance | src/test-client/test-runner.js:240-350 | a stage's setup adds its context's entities and removes none; its teardown removes them and adds none |
| EvaluationProperties.SetupBalance | src/test-client/test-runner.js:240-331 | the entities a stage's setup adds are exactly its context's entities, in order, and the setup removes none |
| EvaluationProperties.TeardownBalance | src/test-client/test-runner.js:333-343 | a context's teardown removes exactly its entities, in order, and adds none |
| EvaluationProperties.LeafAddsNothing | src/test-client/test-runner.js:360-374 | the leaf upload neither adds nor removes entities |
| EvaluationProperties.ChildrenBalance | src/test-client/test-runner.js:377-382 | the first `n` children together remove every entity they add |
| EvaluationProperties.LastNamed | src/test-client/test-runner.js:318-320 | the last descriptor of a given name, if any, among the first `n` |
| EvaluationProperties.AssetTableValid | src/test-client/test-runner.js:318-320 | filing the loaded assets by name keeps each name a key once |
| EvaluationProperties.AssetTableLast | src/test-client/test-runner.js:318-320 | the `n`-th asset is filed over the first `n - 1` |
| EvaluationProperties.AssetTableGet | src/test-client/test-runner.js:318-320 | a name holds the last asset loaded under it; a name no asset has is absent |
| EvaluationProperties.AssetTableAbsent | src/test-client/test-runner.js:318-320 | a name no descriptor has is absent from the table |
| EvaluationProperties.AssetTableKeys | src/test-client/test-runner.js:318-320 | only names of loaded descriptors are keys of the table |
| EvaluationProperties.AssetTableLatest | src/test-client/test-runner.js:318-320 | a name some descriptor has holds the last asset loaded under it |
| EvaluationProperties.AssetFiledGet | src/test-client/test-runner.js:319 | filing `v` under a name answers that name with `v` and every other as before |
| EvaluationProperties.EntityOfAsset | src/test-client/test-runner.js:277-283 | an `asset` reference instantiates the resource of the asset filed under that name in the nearest context holding it |
| EvaluationProperties.EntityOfBuilt | src/test-client/test-runner.js:284-294 | without an asset the entity is named by the descriptor or `testEntity`, has its component type, the options' keys in order, and each option with material references replaced |
| TestRegistry.RegisterAllSnoc | test-server/test-registry.js:7-9 | registering one more test is one more assignment to the tests object |
| TestRegistry.RegisterAllAppend | test-server/test-registry.js:7-9 | registering two batches in turn is registering their concatenation |
| TestRegistry.LastKeyed | test-server/test-registry.js:8 | the last test filed under a key, if any |
| TestRegistry.LastKeyedSpec | test-server/test-registry.js:8 | no test is found exactly when none is filed under the key, and no later test is filed under it |
| TestRegistry.RegisterAllGet | test-server/test-registry.js:7-17 | last write wins: a key holds the last test filed under it, and a key no test is filed under keeps what it held |
| TestRegistry.KeysOf | test-server/test-registry.js:8 | the key of each test, in order |
| TestRegistry.RegisterAllKeys | test-server/test-registry.js:7-13 | registering keeps each key once, and the keys are the old ones and those of the new tests |
| TestRegistry.RegisterAllWithoutIds | test-server/test-registry.js:8 | as written, tests without an `id` all land on the key `undefined`: the index lists that key alone and it holds the last test registered |
| TestRegistry.RegisterAllOneKey | test-server/test-registry.js:8 | when every registered test yields the same key, the index lists that key alone and holds the last test registered |
| TestRegistry.RegisterAllNamedKeys | test-server/test-registry.js:7-13 | filed by name, tests with distinct names are listed in registration order |
| TestRegistry.RegisterAllNamedGet | test-server/test-registry.js:15-17 | filed by name, each of a set of distinctly named tests is fetched by its name |
| TestRegistry.Registry.constructor | test-server/test-registry.js:3-5 | a new registry holds no tests |
| TestRegistry.Registry.Register | test-server/test-registry.js:7-9 | as written: the test is assigned under `test.id` (the text `undefined` when absent) and keys stay unique |
| TestRegistry.Registry.RegisterNamed | test-server/test-registry.js:7-9 | corrected: the test is assigned under its name and keys stay unique |
| TestRegistry.Registry.GetIndex | test-server/test-registry.js:11-13 | the index is `Object.keys` of the registry: the keys in the order they were first registered, each once, and only registered keys |
| TestRegistry.Registry.GetTest | test-server/test-registry.js:15-17 | a lookup finds nothing exactly when the key is not registered, and otherwise the test filed under it |
| Permutation.Coords | src/test-client/permutation.js:25-31 | one coordinate per axis |
| Permutation.ModProduct | src/test-client/permutation.js:28-30 | taking the remainder by a larger dimension size and then by a smaller one leaves the digit of the larger one |
| Permutation.TotalPositive | src/test-client/permutation.js:10-13 | the total is positive exactly when every axis offers at least one object |
| Permutation.TotalSnoc | src/test-client/permutation.js:11-19 | one more axis multiplies the running product by its length |
| Permutation.LastDimSize | src/test-client/permutation.js:16-19 | the last dimension size times the last axis's length is the total |
| Permutation.CoordsInRange | src/test-client/permutation.js:25-31 | every coordinate selects an object of its axis |
| Permutation.CoordsAt | src/test-client/permutation.js:25-31 | coordinate `i` is the quotient by dimension size `i`, reduced in the base of axis `i` |
| Permutation.ValueOfCoords | src/test-client/permutation.js:21-31 | round trip: the coordinates of an index stand for that index wrapped modulo the total |
| Permutation.ValueBelowTotal | src/test-client/permutation.js:25-31 | coordinates in range stand for an index below the total |
| Permutation.CoordsOfValue | src/test-client/permutation.js:25-31 | round trip: any coordinates in range are the decomposition of the index they stand for |
| Permutation.CoordsInjective | src/test-client/permutation.js:25-31 | distinct indices below the total have distinct coordinates |
| Permutation.CoordsBijective | src/test-client/permutation.js:21-31 | every combination of one object per axis is reached by exactly one index below the total |
| Permutation.ResolvedPeriodic | src/test-client/permutation.js:22-23 | the index wraps: adding the total selects the same permutation |
| Permutation.ResolvedNoAxes | src/test-client/permutation.js:9-40 | with no axes there is one permutation, the empty object |
| Permutation.LastWith | src/test-client/permutation.js:35-37 | the last axis below `n` whose selected object has a given property |
| Permutation.LastWithSpec | src/test-client/permutation.js:35-37 | no axis is found exactly when none has the property, and no later axis has it |
| Permutation.MergedGet | src/test-client/permutation.js:34-37 | a merged property takes its value from the last axis having it, and is absent when none has it |
| Permutation.MergedValid | src/test-client/permutation.js:34-37 | the merged object has each property once |
| Permutation.ResolvedGet | src/test-client/permutation.js:21-40 | `resolve` reads each property from the last axis whose selected object has it |
| Permutation.Permutation.constructor | src/test-client/permutation.js:5-19 | the loops leave in `total` the product of the axis lengths and in `dimSizes` 1 followed by the running products |
| Permutation.Permutation.Resolve | src/test-client/permutation.js:21-40 | the wrap, the decomposition from the last axis down, and the merge return exactly `Resolved` |
| Permutation.Permutation.Decompose | src/test-client/permutation.js:25-31 | peeling coordinates from the last axis down yields exactly the mixed-radix coordinates `Coords` of the wrapped index |
| Permutation.Permutation.Merge | src/test-client/permutation.js:33-37 | assigning the selected fragment of each axis in axis order yields `Merged`, so a later axis overrides an earlier one |
| Permutation.DecomposeStep | src/test-client/permutation.js:28-30 | one loop step: the index reduced by the first i+1 axes, divided by the size of the first i, is coordinate i, and its remainder is the index reduced by the first i axes |
| MaterialTests.FrameCountIsCeiling | test-server/material-tests.js:62 | the frame count is the least number of 64-sphere frames that holds every permutation |
| MaterialTests.RowMaterials | test-server/material-tests.js:88-94 | one material per cell of the row |
| MaterialTests.RowEntities | test-server/material-tests.js:88-104 | one sphere per cell of the row |
| MaterialTests.MaterialRows | test-server/material-tests.js:87-106 | eight materials per row |
| MaterialTests.EntityRows | test-server/material-tests.js:87-106 | eight spheres per row |
| MaterialTests.RowsAt | test-server/material-tests.js:87-106 | entry `8 * i + j` of the pushed lists belongs to cell (i, j) |
| MaterialTests.RowAt | test-server/material-tests.js:88-105 | entry `j` of a row belongs to cell (i, j) |
| MaterialTests.FramesUpTo | test-server/material-tests.js:65-109 | one test per frame |
| MaterialTests.FramesAt | test-server/material-tests.js:65-109 | entry `f` of the frame tests is the test of frame `f` |
| MaterialTests.FillRow | test-server/material-tests.js:88-105 | the inner loop pushes the row's eight materials and spheres, drawing the next eight permutations from the counter |
| MaterialTests.BuildFrame | test-server/material-tests.js:66-106 | the test of one frame, its 64 spheres drawing permutations `64 * frame` to `64 * frame + 63` |
| MaterialTests.RegisterFrames | test-server/material-tests.js:63-109 | the frame loop files the test of every frame under `test.id`, in order, the counter carrying over from frame to frame; on an empty registry only the last frame survives, under `undefined` |
| MaterialTests.Register | test-server/material-tests.js:60-110 | `register` files one test per frame of the configured axes under `test.id`; on an empty registry the index lists `undefined` alone |
| MaterialTests.RegisterFramesNamed | test-server/material-tests.js:63-109 | the corrected frame loop: every frame's test filed under its name, in order |
| MaterialTests.RegisterNamed | test-server/material-tests.js:60-110 | the corrected `register`: on an empty registry the index lists every frame's name, in frame order |
| MaterialTests.AxesNonEmpty | test-server/material-tests.js:9-57 | every axis of the configuration offers at least one option object |
| MaterialTests.AxesTotal | test-server/material-tests.js:9-62 | the configuration has 1 * 2 * 2 * 4 * 2 * 2 * 2 = 128 permutations, which fill two frames |
| MaterialTests.FrameNamed | test-server/material-tests.js:67 | frame `f`'s test is named `material/<f>` |
| MaterialTests.FrameNames | test-server/material-tests.js:65-67 | the frames' tests are named `material/<f>`, all different |
| MaterialTests.FrameTestsCollide | test-server/material-tests.js:66-108 | registered as written, under `test.id`, the frames overwrite each other on the key `undefined`: only the last frame survives |
| MaterialTests.FrameTestsListed | test-server/material-tests.js:66-108 | registered under their names, every frame is listed in order and fetched by its name |
| MaterialTests.TwoFrames | test-server/material-tests.js:62-67 | a configuration filling two frames gives the tests `material/0` and `material/1` |
| MaterialTests.AxesFrames | test-server/material-tests.js:9-67 | the configured axes give exactly the tests `material/0` and `material/1` |
| MaterialTests.CellIdInjective | test-server/material-tests.js:89 | different (frame, i, j) cells have different ids |
| MaterialTests.FrameLayout | test-server/material-tests.js:87-106 | each frame has 64 materials and 64 spheres; entry `8 * i + j` carries the ids of cell (i, j) and the permutation drawn for it |
| MaterialTests.EntityUsesCellMaterial | test-server/material-tests.js:96-104 | each sphere's `material` option names, after the `$`, the material made in the same cell |
| MaterialTests.GridSymmetric | test-server/material-tests.js:103 | the spheres sit on a grid symmetric about the origin |
| MaterialTests.CellIndexBelowTotal | test-server/material-tests.js:62-93 | sphere `k` of frame `f` draws permutation `64 * f + k`, below the total, so no permutation wraps around |
| MaterialTests.EveryPermutationOnce | test-server/material-tests.js:59-110 | every permutation of the configuration is drawn by exactly one sphere of one frame |
| GltfTestsServer.VariantDescriptors | test-server/gltf-tests.js:12-28 | one test per variant |
| GltfTestsServer.VariantDescriptorAt | test-server/gltf-tests.js:12-28 | test `j` is the one for variant `j` |
| GltfTestsServer.RegisterModel | test-server/gltf-tests.js:12-28 | the inner `forEach` files the test of each variant of the model under `test.id`, in key order |
| GltfTestsServer.Register | test-server/gltf-tests.js:6-30 | every model's variants are filed under `test.id` in manifest order, the Promise the call returns resolves to `undefined` (what `forEach` returns), and on an empty registry only the last test survives, under `undefined` |
| GltfTestsServer.RegisterModelNamed | test-server/gltf-tests.js:12-28 | the corrected inner `forEach`: each variant's test filed under its name, in key order |
| GltfTestsServer.RegisterNamed | test-server/gltf-tests.js:6-30 | the corrected `register`: every test filed under its name, models in manifest order, returning `undefined` |
| GltfTestsServer.TestCount | test-server/gltf-tests.js:11-29 | one test per (model, variant) pair |
| GltfTestsServer.DescriptorAt | test-server/gltf-tests.js:11-29 | variant `j` of model `i` comes after the tests of the models before it |
| GltfTestsServer.DescriptorMember | test-server/gltf-tests.js:11-29 | a test is registered exactly for each model of the manifest and each key of its variants |
| GltfTestsServer.DescriptorShape | test-server/gltf-tests.js:13-27 | a test is named `gltf/model/variant/file`, loads the stable engine, the Draco decoder and the environment map, has the one container asset `gltf` at that file under the sample-model root, and one entity instantiating it through `$gltf` |
| GltfTestsServer.VariantFileOf | test-server/gltf-tests.js:13 | a variant key names the file the manifest gives for it |
| GltfTestsServer.TestsCollide | test-server/gltf-tests.js:14-27 | registered as written, under `test.id`, all the glTF tests share the key `undefined` and only the last survives |
| GltfTestsClient.VariantStages | src/test-client/gltf-tests.js:10-23 | one child stage per variant |
| GltfTestsClient.ModelItems | src/test-client/gltf-tests.js:7-25 | one top-level stage per model |
| GltfTestsClient.FlatOfItems | src/test-client/gltf-tests.js:25 | `.flat()` leaves an array of stage objects as it is |
| GltfTestsClient.ModelItemAt | src/test-client/gltf-tests.js:7-25 | entry `i` is the stage of model `i` |
| GltfTestsClient.VariantStageAt | src/test-client/gltf-tests.js:10-23 | child `j` is the stage of variant `j` |
| GltfTestsClient.GltfTestsAt | src/test-client/gltf-tests.js:3-26 | one top-level stage per model, in manifest order, named after the model, with no resources of its own and one child per variant |
| GltfTestsClient.ChildAt | src/test-client/gltf-tests.js:11-22 | child `j` is named by variant key `j`, has no children, one container `gltf` at `model/variant/file`, and one entity instantiating it through `$gltf` |
| GltfTestsClient.ServerMatchesClient | test-server/gltf-tests.js:13-22 | the server's test of a variant and the browser's stage load the same file, and the server's name is `gltf/` and the model, variant and file joined by `/` |
| AssetLoading.BmNameInjective | src/test-client/asset-loader.js:51 | different counter values name different glTF files |
| AssetLoading.GltfCount | src/test-client/asset-loader.js:28-51 | the counter advances at most once per manifest entry |
| AssetLoading.Started | src/test-client/asset-loader.js:25-39 | `load` starts at most one load per manifest key |
| AssetLoading.StartedAll | src/test-client/asset-loader.js:27-38 | a load starts for every key exactly when every entry's type is `gltf` or `texture` |
| AssetLoading.StartedGltfNames | src/test-client/asset-loader.js:51-54 | every glTF asset one `load` creates is named `bm_<c>.glb` for a counter value `c` that call passes through |
| AssetLoading.StartedGltfDistinct | src/test-client/asset-loader.js:51 | the glTF assets of one `load` all have different urls |
| AssetLoading.SuccessiveLoadsDistinct | src/test-client/asset-loader.js:4-51 | a later `load` never reuses a glTF url an earlier one gave |
| AssetLoading.StartCallsAt | src/test-client/asset-loader.js:65-85 | each started asset is added to the registry and then loaded, in the order the loads started |
| AssetLoading.StartCallsAppend | src/test-client/asset-loader.js:25-39 | the calls for two runs of loads are those of the first followed by those of the second |
| AssetLoading.DestroyCallsAt | src/test-client/asset-loader.js:43-48 | each asset is removed from the registry and then unloaded, in order |
| AssetLoading.LastFailure | src/test-client/asset-loader.js:15-17 | the last completion that reported an error, if any |
| AssetLoading.LastFor | src/test-client/asset-loader.js:18 | the last completion for a key, if any |
| AssetLoading.RunRemaining | src/test-client/asset-loader.js:11-20 | each completion counts `remaining` down by one |
| AssetLoading.RunError | src/test-client/asset-loader.js:12-17 | `lastError` is the error of the last completion that failed, or what it was before if none did |
| AssetLoading.RunAssets | src/test-client/asset-loader.js:18 | a key holds what its last completion delivered (`null` on error, else the asset's resource), or what it held before if none came |
| AssetLoading.FiresOnce | src/test-client/asset-loader.js:9-23 | the callback fires exactly once, on the completion that brings `remaining` to zero, with the state the completions so far left; with no keys it never fires |
| AssetLoading.Loads | src/test-client/asset-loader.js:14 | the key and asset each completion reports |
| AssetLoading.AllCompleted | src/test-client/asset-loader.js:8-40 | once every started load has completed once, in any order, the callback has fired once if the manifest is non-empty and every type is known, and never otherwise |
| AssetLoading.AssetLoader.constructor | src/test-client/asset-loader.js:2-6 | the counter is 0 and no asset has been loaded |
| AssetLoading.AssetLoader.LoadManifest | src/test-client/asset-loader.js:8-40 | starts exactly `Started` of the manifest at the current counter, advances it by the number of glTF entries, and returns the closure's fresh state: `remaining` the number of keys, `lastError` `null`, `assets` empty |
| AssetLoading.AssetLoader.StartEntry | src/test-client/asset-loader.js:26-38 | a `gltf` entry starts a glTF load and advances the counter, a `texture` entry a texture load, any other type nothing |
| AssetLoading.AssetLoader.LoadGltf | src/test-client/asset-loader.js:50-67 | a container asset `gltf-file` at `bm_<numLoads>.glb` with the entry's contents, added and loaded; the counter advances by one |
| AssetLoading.AssetLoader.LoadTexture | src/test-client/asset-loader.js:69-86 | a texture asset `skybox_equi` at the entry's url with its contents, added and loaded; the counter is unchanged |
| AssetLoading.AssetLoader.Destroy | src/test-client/asset-loader.js:43-48 | every asset completed so far is removed from the registry and unloaded, in order |
| AssetLoading.Batch.constructor | src/test-client/asset-loader.js:9-12 | the closure starts with the number of keys, no error and no assets |
| AssetLoading.Batch.Complete | src/test-client/asset-loader.js:14-23 | the closure's state steps as `Step` says and the loader records the asset |

## Left out

- Command line of src/diff.js (lines 265-274). Reading `process.argv` and calling `process.exit` are I/O. `ImageDatabase.ImageDb.AddDirectory` and `ImageDatabase.ImageDb.GenReport` model what it calls, and the exit code it would pass on.
- File system, hashing and image decoding in src/diff.js: `fs.readdirSync`, `fs.readFileSync`, `crypto` md5 and `PNG.sync.read`. The model takes each of them as a parameter. The model does not capture the errors they can throw.
- Writing the report file (`fs.writeFileSync`, src/diff.js:236-239) and `console.error` (src/diff.js:260-262). The model records the text that would be written and the lines that would be printed.
- Report.ReportVisitor.Done: when the report crashes on a missing cell, the model keeps `html` as it was. The source has already put the page head lines into it before the `TypeError`. The file is not written in either case.
- Floating point. The option values of the material tests are `real`s. `Math.floor(Math.log10(n))` is the integer floor of the decimal logarithm, which is exact for the integer counts it is applied to.
- Engine setup in the runner's constructor (src/test-client/test-runner.js:35-134): the application, canvas, camera, light and skybox. These are calls into the engine, and nothing the model decides depends on them.
- `update`, `render` and `frame` (src/test-client/test-runner.js:136-165). These drive the engine and place the camera with floating-point geometry. `evaluateTest` still records the upload these calls precede.
- `upload` (src/test-client/test-runner.js:167-190). The model records the test name and the platform it sends. It leaves out the canvas data URL, its `Blob` conversion and the `fetch`.
- `add` and `remove` (src/test-client/test-runner.js:192-198). They are engine calls, recorded as `AddChild` and `RemoveChild` events.
- Asynchrony in the runner. `loadAsset` (src/test-client/test-runner.js:10-28) and `Promise.all` are modelled as an asset load that always succeeds, and the resources of a stage are created in descriptor order. The rejection path of a failed load is not modelled.
- TestEvaluation.Runner.EvaluateTest: requires every `$name` reference the test looks up to resolve on the chain of contexts: an asset reference of an entity, a material reference among an entity's component options, and an asset reference under a material key the fresh material has (keys it lacks are only warned about, `TestRunner.UnknownKeyWarnsOnly`). For a reference that does not resolve, `findResource` (src/test-client/test-runner.js:201-205) recurses past the root context, whose `parent` is undefined, and throws reading `rc.parent`; the model does not describe that exception. The same precondition (`OnChain`, `RefsResolve`, `KnownRefsResolve`, `TreeResolves`) appears on the `TestRunner` and `TestEvaluation` members that look references up.
- Permutation.Permutation.Resolve: takes `idx` as a natural number, where `resolve(idx)` (src/test-client/permutation.js:21) accepts any number. Every caller passes a counter that starts at 0 and only counts up (test-server/material-tests.js:93, src/test-client/material-tests.js:36). A negative index would make JavaScript's truncating `%` negative, and the model does not describe that.
- TestEvaluation.HandleEntity: an entity's `asset` reference is taken to name a container asset, whose resource has `instantiateRenderEntity` (src/test-client/test-runner.js:283). For any other asset, such as a `texture`, that call throws a `TypeError`, `createResources` rejects, and nothing is uploaded or torn down. The model always instantiates the resource, so `EvaluationProperties.UploadsTest` and `EvaluationProperties.EntitiesBalance` do not cover that input. Every descriptor the servers and the client build refers only to the `gltf` container asset.
- GltfTestsServer.Register: the manifest is a parameter, already parsed. Reading it with `readFile` and `JSON.parse` (test-server/gltf-tests.js:8-9) is I/O, and their errors are not modelled. `register` is `async`: the returned Promise is modelled by the value it resolves to. The same holds for `MaterialTests.Register` (test-server/material-tests.js:60), whose body awaits nothing.
- GltfTestsClient.GltfTests: the manifest is a parameter, already parsed. Fetching it with `fetch` and `response.json()` (src/test-client/gltf-tests.js:6-7) is I/O, and their rejections are not modelled. `gltfTests` is `async`: the returned Promise is modelled by the list of test stages it resolves to.
- The `!asset` warning branch in `handleEntity` is not modelled. `findResource` either throws or returns an object, which is truthy, so the branch cannot be reached.
- A `children` property that is present but not an array (for example `null`). The model has `children` present exactly when it is an array, absent otherwise. Every descriptor of this repository uses one of those two forms.
- Object identity and aliasing of engine objects (`pc.Asset`, `pc.Entity`, materials). The model shows them as values, so two equal descriptors give equal objects.
- Asset loader completions. The engine's asynchronous load callbacks are explicit calls of `AssetLoading.Batch.Complete`, arriving in whatever order the caller chooses. The engine's `registry.add/load/remove` and `asset.unload` are recorded as `Call` values.
- Dict.Keys: names are listed in insertion order. JavaScript lists the names that are array indices ("0", "1", "10", ...) first, in ascending numeric order, and the rest after them in insertion order. The option, stage and test names the runner and the servers use are not array indices. A variant directory of the screenshot tree can be one: a test named `material/0` puts its screenshots under the variant `0`.
- ImageDatabase.CheckAll: it visits models, browsers and variants in insertion order (see `Dict.Keys`). For variants named by array indices, the source visits them, and logs their errors, in numeric order instead. The errors logged and the exit code are the same either way; only their order can differ.
- Dict.Get: a lookup sees own properties only. A name that JavaScript finds on `Object.prototype` (`getTest("toString")`) and the special name `__proto__` are not modelled.
- The default order of `Array.prototype.sort()` compares UTF-16 code units. The model compares Dafny `char`s lexicographically (`Strings.LexLe`), which is the same order for the names the harness sorts.
- The other files of the repository are not part of this model: the test server's HTTP endpoints (test-server/index.js), the client entry point and page environment (src/test-client/index.js, src/test-client/test-env.js), the client's own material tests (src/test-client/material-tests.js), the WebDriver script (src/wdio-test.js), the static site generator (src/gen.js, src/server.js) and the report generator under gen-test-report/.

## Findings

| source | as written | input that shows it | evidently intended | confidence | as-written member | corrected member |
|---|---|---|---|---|---|---|
| test-server/test-registry.js:8 | `register` files each test under `test.id`, but no test descriptor the servers build has an `id` (test-server/material-tests.js:66-85, test-server/gltf-tests.js:14-27). Every test lands on the key `undefined`, so `getIndex` lists that key alone and `getTest` finds only the last test registered | the frame tests of the material permutation (`material/0` onward: there is at least one for any axes), or any glTF manifest with at least one variant | file each test under its `name`, so the index lists every test and each is found by its name | not executed | TestRegistry.Registry.Register, TestRegistry.RegisterAllWithoutIds, MaterialTests.RegisterFrames, MaterialTests.FrameTestsCollide, GltfTestsServer.Register, GltfTestsServer.TestsCollide | TestRegistry.Registry.RegisterNamed, TestRegistry.RegisterAllNamedKeys, TestRegistry.RegisterAllNamedGet, MaterialTests.RegisterNamed, MaterialTests.FrameTestsListed, GltfTestsServer.RegisterNamed |
