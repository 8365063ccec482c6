# ComfyUI image-generation clients, modelled in Dafny

The repository holds three small clients for a ComfyUI server: a JavaScript
class `ComfyUI` (`comfy_image.mjs`) and two Python scripts (`comfy_image.py`,
`comfy-image.py`). Each one loads a job template, substitutes its inputs into
the template, submits it, waits for the completion message, fetches the images
listed in the job's history and names one output file per image. This project
models the logic inside that flow. The network, the file system and JSON text
are parameters or are left out.

The modules follow the structure of the sources:

- `Json`: parsed JSON documents. Objects are ordered member lists, so insertion order is part of the value.
  - `Object.entries` on an array reports index strings such as `"0"`. This is `Json.ChildKey`, built on `Decimal.NatStr`.
- `Search`: the depth-first, pre-order search of `completePrompt` (the nested `findKey`).
  - Beside it is an independent reference: `Visits` lists every entry position in pre-order, `FirstMatch` picks the first listed position with the key, and `ReplaceAt`/`ValueAt` write and read one position.
- `JsPath`: JavaScript property reads and writes along a dotted path. Reading a property of `null`/`undefined` throws, and a strict-mode write to a primitive throws.
- `Dotted`: `split('.')` on path strings, and its inverse.
- `Client`: the class `ComfyUI`.
  - `CompletePrompt` is a loop over the inputs, proved equal to the fold `CompleteFrom`.
  - `GenerateImage` and `SaveImages` assemble the completion wait, the image gathering and the file naming.
- `Loader`: `fetchPromptFile`, which derives the sidecar name with `/\.[^/.]+$/` and reads files as a map from names to contents.
- `Monitor`: the completion test and the wait loop, over a finite sequence of received frames.
- `Outputs`: the rest of the output handling.
  - Gathering each node's images and flattening them into `(node id, index, data)` results.
  - The timestamp prefix, with a decoding round trip.
  - The JavaScript file names (`output_<prefix>_<node>_<index>.png`) and the Python ones, which carry no index.
- `PyPath`: Python item access along a dotted path. Only dicts can be indexed by the string segments.
- `PyGenerate`: `generate_image` of `comfy_image.py`.
  - Inputs go only through declared paths, with the two `ValueError` cases.
  - The sidecar name is derived with `rsplit('.', 1)`. Lemmas compare it with the JavaScript derivation.
- `PySimple`: `generate_image` of `comfy-image.py`, which writes one prompt path.

Two behaviours of the code shape the model:

- Property access on an array accepts index strings, so a path segment such as `"0"` indexes an array (comfy_image.mjs:119-124). The model keeps that.
- The Python scripts name files without an index, unlike the JavaScript client (comfy_image.mjs:146), so two images of one node get the same name. See "Findings".

## Model

| member | source | states |
|---|---|---|
| Client.InputMembers | comfy_image.mjs:75-77 | A bare string is the single input `text`. No inputs gives no members. An object's members are kept in order. |
| Client.Step | comfy_image.mjs:85-126 | Handling one input: query mode leaves the document unchanged and apply mode keeps the given value in the inputs. An undeclared key fails only with a not-found error naming it; a declared key fails only with a path error naming it. |
| Client.ComfyUI.constructor | comfy_image.mjs:9-13 | A missing or empty server address falls back to `localhost:8000`. The template and the path map are kept as given. |
| Client.ComfyUI.CompletePrompt | comfy_image.mjs:73-131 | The loop over the inputs computes exactly `CompleteFrom` over the members, in order, stopping at the first error. With no inputs it returns the template unchanged. The template is a constant field, so two calls with the same inputs give equal results. |
| Client.ComfyUI.GenerateImage | comfy_image.mjs:184-239 | There is no result exactly when no frame is the job's completion message. Otherwise the result is the flattened list of images gathered from the manifest. |
| Client.ComfyUI.SaveImages | comfy_image.mjs:136-154 | One record per result, in order. Each file name is built from the node id and index and from one prefix computed from the clock reading and the random suffix. |
| Client.CompleteSequential | comfy_image.mjs:84-127 | Handling inputs a then b equals handling a, then handling b on the document a left. Every input sees the writes of the earlier ones. |
| Client.QueryKeepsTemplate | comfy_image.mjs:101-125 | In query mode, a successful call returns the template unchanged, with one read-back entry per input under the input's key, in order. |
| Client.ApplyKeepsInputs | comfy_image.mjs:101-125 | In apply mode, a successful call leaves the inputs object exactly as given. |
| Client.UndeclaredStep | comfy_image.mjs:85-114 | An undeclared input fails exactly when no entry anywhere in the document has its name. Otherwise apply mode replaces the value at the first such position in pre-order, and query mode reads that value. |
| Client.UndeclaredFrame | comfy_image.mjs:100-111 | After an undeclared input is applied, every position that branches away from the matched entry keeps its key and value. Later entries with the same name are untouched. |
| Client.DeclaredAssign | comfy_image.mjs:116-125 | After a declared input is applied, its path reads the input's value. Every path that branches away from it reads as before. |
| Client.AssignableIsQueryable | comfy_image.mjs:116-125 | Any input that can be applied can also be queried. Writing fails in more cases than reading. |
| Client.QueryAfterAssign | comfy_image.mjs:84-127 | Querying an input right after applying it returns the applied value and leaves the document unchanged. This holds for declared paths and for the search. |
| Client.ScriptScenario | comfy_image.mjs:263-269 | The script's inputs `text` and `seed`, with `seed` declared as `6.inputs.seed`: `text` is found by the search inside node `6`, `seed` is written through its path, and the result is as expected. |
| Search.Search | comfy_image.mjs:87-99 | A successful search keeps the document's shape: the same number of entries under the same keys. |
| Search.SearchFrom | comfy_image.mjs:88-97 | The entry loop from entry i never changes the entries before i. |
| Search.FirstMatchInSpec | comfy_image.mjs:101-111 | The reference finds nothing exactly when no listed position has the key. Otherwise it returns the earliest position that does. |
| Search.SearchIsFirst | comfy_image.mjs:100-111 | The search equals acting on the first pre-order match: it replaces that entry's value, reports the value it held, and finds nothing exactly when no entry matches. |
| Search.SearchFromIsFirst | comfy_image.mjs:89-96 | The entry loop from entry i equals acting on the first match among the positions from entry i on. |
| Search.ReplaceAtHit | comfy_image.mjs:106 | Writing at a position makes that position read the new value, under the same key. |
| Search.ReplaceAtFrame | comfy_image.mjs:106 | Writing at a position leaves every position that branches away from it with its key and value. |
| Search.SearchFoundIndependent | comfy_image.mjs:101-111 | Whether the search finds an entry, and the value it reports, do not depend on the value being written. |
| Search.SearchAgain | comfy_image.mjs:101-111 | Searching the updated document again finds the same entry, which now holds the value just written. |
| JsPath.Read | comfy_image.mjs:119 | Reading a property fails exactly on `null` or `undefined`. |
| JsPath.Write | comfy_image.mjs:124 | Writing succeeds exactly on an object, or on an array with an in-range index. The key then reads the new value and every other key reads as before. |
| JsPath.GetAfterSet | comfy_image.mjs:116-125 | `GetPath` is the walk `d = d[k]` followed by reading the last key. `SetPath` is the same walk followed by assigning the last key, with every container on the way updated. After a successful `SetPath`, `GetPath` on the same path reads the assigned value. |
| JsPath.SetPathFrame | comfy_image.mjs:116-125 | Assigning a dotted path leaves every path that branches away from it reading as before. |
| JsPath.SetPathReadable | comfy_image.mjs:116-125 | A path that can be assigned can be read. |
| JsPath.SetPathDefined | comfy_image.mjs:116-124 | Assigning a path succeeds exactly when the walk to the last container reaches a value without a TypeError, and that value can take the last key. An object takes any key, and creates it when missing; an array takes only one of its indices. The walk fails on `undefined`, `null` or a primitive. |
| Json.FindMember | comfy_image.mjs:119 | The lookup finds the first member with the key, or none when no member has it. |
| Json.PutMember | comfy_image.mjs:124 | An existing key keeps its position and takes the new value. A new key is appended. Other keys' lookups and all other members are unchanged. |
| Json.WithChild | comfy_image.mjs:106 | Replacing entry i gives entry i the new value and keeps every key and every other entry. |
| Json.WithChildTwice | comfy_image.mjs:106 | Writing the same entry twice keeps only the second write. |
| Dotted.Split | comfy_image.mjs:116 | `split('.')` returns at least one segment, no segment contains a dot, and joining the segments with dots gives back the string. |
| Dotted.SplitJoin | comfy_image.py:54 | Splitting a dot-joined list of dot-free segments gives back the list. |
| Decimal.NatStr | comfy_image.mjs:146 | A number's decimal text is a non-empty string of digits. |
| Decimal.ParseNatStr | comfy_image.mjs:89 | The entry key `Object.entries` gives array element i is read back as the index i. |
| Decimal.ParseIndexSound | comfy_image.mjs:119 | A key read as index n is exactly the decimal text of n, so no other spelling such as `"01"` names an element. |
| Decimal.NatStrInjective | comfy_image.mjs:146 | Distinct indices have distinct decimal texts. |
| Decimal.PadRoundTrip | comfy_image.mjs:139-142 | `padStart(w, '0')` on a number below 10^w gives exactly w digits with the same value. |
| Loader.StripExtension | comfy_image.mjs:58 | The name is unchanged exactly when no suffix is a dot followed by one or more characters that are neither `.` nor `/`. Otherwise exactly such a suffix is removed. `Loader.SidecarName` appends `.paths.json` to the result. |
| Loader.FetchFile | comfy_image.mjs:16-53 | An empty name or an unreadable file gives null. Otherwise the call returns the file's contents. |
| Loader.FetchPromptFile | comfy_image.mjs:55-71 | The template is null when missing. The path map is read from the derived sidecar when asked to derive it, from the given name otherwise, and not at all when a falsy value such as `null` or `false` is passed. Leaving the argument out means `true`, which derives the sidecar. |
| Monitor.WaitForCompletion | comfy_image.mjs:184-200 | The result is the first frame satisfying `IsCompletion` (comfy_image.mjs:188-193): a text `executing` message with no node and this job's id. Binary frames, other types and other ids are skipped. None means no such frame was received. |
| Outputs.GatherImages | comfy_image.mjs:217-228 | One entry per manifest node, in order, with its images fetched in list order. A node without `images` gets an empty list. |
| Outputs.FlattenOutputs | comfy_image.mjs:230-239 | The loop pushes exactly `Flattened`: node after node, each image with index 0, 1, … |
| Outputs.FlattenedLength | comfy_image.mjs:230-239 | The number of results is the total number of images. |
| Outputs.FlattenedAt | comfy_image.mjs:231-238 | Image i of node n is result `Offset(n) + i` and carries node n's id, the index i and the image. |
| Outputs.FlattenedFrom | comfy_image.mjs:231-238 | Every result carries the id of some node and an index below that node's image count. |
| Outputs.FlattenedDistinct | comfy_image.mjs:230-239 | With distinct node ids, no two results share both node id and index. |
| Outputs.SaveImages | comfy_image.mjs:143-154 | One saved-file record per result, in the same order, named `output_<prefix>_<node>_<index>.png`. |
| Outputs.FileNameInjective | comfy_image.mjs:146 | `FileName` builds `output_<prefix>_<node>_<index>.png`. Under one prefix, such a name determines its node id and its index. |
| Outputs.SavedNamesDistinct | comfy_image.mjs:146 | With distinct node ids, the names given to a job's results are pairwise distinct. |
| Outputs.PrefixRoundTrip | comfy_image.mjs:139-142 | `Prefix` lays out `YYYYMMDD-HHMMSS-ffffff-rrrrrr`, the layout of comfy_image.mjs:139-142, comfy_image.py:109 and comfy-image.py:90. For clock fields in range and a suffix below 10^6, the prefix is 29 characters long and decodes back to the same fields and suffix. |
| Outputs.ImageNamesWithoutIndex | comfy_image.py:110-118 | The Python name loop produces exactly one name per image, node after node. |
| Outputs.NamesWithoutIndexAt | comfy_image.py:111-118 | There is one name per result, and name k is `NameWithoutIndex`, that is `output_<prefix>_<node>.png` (comfy_image.py:116, comfy-image.py:97), for the node of result k. |
| Outputs.NamesWithoutIndexCollide | comfy_image.py:116 | A node with two or more images gets the same name for its first two images. |
| Outputs.CollectFiles | comfy_image.py:74-118 | After submission, there are no file names exactly when no frame is the job's completion message. Otherwise there is one index-less name per gathered image, in manifest order. |
| PyPath.Get | comfy_image.py:56-57 | `d[k]` succeeds exactly on a dict that has k. A dict without k raises KeyError and anything else raises TypeError. |
| PyPath.Set | comfy_image.py:58 | `d[k] = v` succeeds exactly on a dict. The key then reads v and every other key reads as before. Anything else raises TypeError. |
| PyPath.GetAfterSet | comfy_image.py:54-58 | `GetPath` walks `d = d[k]` over the segments, and `SetPath` walks to the last container and assigns `d[last] = v`; the same walk appears at comfy-image.py:35-39. After a successful `SetPath`, `GetPath` on the same path reads the assigned value. |
| PyPath.SetPathDefined | comfy_image.py:54-58 | The assignment succeeds exactly when the walk to the last container succeeds and that container is a dict. The final key need not exist. |
| PyPath.SetPathFrame | comfy_image.py:54-58 | Assigning a dotted path leaves every path that branches away from it reading as before. |
| PyGenerate.InputMembers | comfy_image.py:29-30 | A bare string is the single input `prompt`. None gives no inputs. A dict's items are kept in order. |
| PyGenerate.LastDot | comfy_image.py:42 | The position of the last dot, or none when the name has no dot. |
| PyGenerate.BeforeLastDot | comfy_image.py:42 | `rsplit('.', 1)[0]` is the whole name when it has no dot. Otherwise it is the prefix before a dot that has no dot after it. `PyGenerate.SidecarName` appends `.paths.json` to it. |
| PyGenerate.ResolvePaths | comfy_image.py:33-45 | A dict of paths is used as given, and a bare path stands for `prompt`. With no paths, the sidecar's map is used if that file exists, and there is no map otherwise. |
| PyGenerate.SidecarNamesAgree | comfy_image.py:42 | The sidecar names `PyGenerate.SidecarName` and `Loader.SidecarName` (comfy_image.mjs:58) are equal exactly when the name has no dot, or its text after the last dot is non-empty and has no `/`. |
| PyGenerate.SidecarDirectoryDot | comfy_image.py:42 | When the last dot of the name is followed by a `/`, as in `v1.2/default`, the JavaScript client looks for the whole name plus `.paths.json`, and the Python script for the part before that dot plus `.paths.json` (`v1.paths.json`). |
| PyGenerate.ApplyInputs | comfy_image.py:48-58 | The loop over the inputs computes exactly `ApplyAll`. With no inputs it returns the template unchanged. |
| PyGenerate.ApplySequential | comfy_image.py:49-58 | Handling inputs a then b equals handling a, then handling b on the document a left. |
| PyGenerate.ApplyNeedsPaths | comfy_image.py:48-53 | No inputs need no paths. Any input with no paths raises the missing-paths error. A successful call with inputs had paths, and every input had a declared path. |
| PyGenerate.UndeclaredNamed | comfy_image.py:52-53 | A key-not-in-paths error names the first input, in order, that has no path. All inputs before it are declared. |
| PyGenerate.ApplyOne | comfy_image.py:54-58 | After one input is written, its path reads the value. Every path that branches away from it reads as before. |
| PyGenerate.GenerateImage | comfy_image.py:27-120 | A missing template is an error. Otherwise the call fails exactly when writing the inputs fails, with the same error, and submits the written document. It names files only when the completion message arrives, one index-less name per image. |
| PySimple.SetPromptText | comfy-image.py:31-39 | No prompt text leaves the template unchanged. Text with a missing or empty path is an error. Otherwise the write succeeds exactly when the path walk does. |
| PySimple.PromptWritten | comfy-image.py:35-39 | After the prompt is written, its path reads the text. Every path that branches away from it reads as before. |
| PySimple.DefaultPathSegments | comfy-image.py:23 | The default path names node `6`, then `inputs`, then `text`. |
| PySimple.GenerateImage | comfy-image.py:26-104 | A missing template is an error. Otherwise the call fails exactly when writing the prompt fails, and submits the written document. It names files only when the completion message arrives, one index-less name per image. |

All three clients share the completion test: comfy_image.mjs:184-200, comfy_image.py:74-84 and comfy-image.py:55-65; `Monitor` models it once. The two Python scripts also share the gathering and the index-less naming: comfy_image.py:98-118 and comfy-image.py:79-99; `Outputs.GatherImages` and `Outputs.ImageNamesWithoutIndex` model those. `Outputs.CollectFiles` puts them together, and both Python `GenerateImage` methods call it.

## Left out

- Network traffic is not modelled: the WebSocket, the `/prompt`, `/history` and `/view` requests, URL building and the client id. The job id, the received frames, the history manifest and the image fetch are parameters.
- The file system is a map from names to parsed contents. Reading, writing, `os.path.exists` and the browser-versus-Node choice in `fetchFile` are not modelled. Neither is PIL decoding and saving.
- JSON text is not modelled. `JSON.parse`, `JSON.stringify` and `json.load` are taken as given. A file whose text is empty is falsy in JavaScript and gives null; the model has no text. The deep clone in `completePrompt` is value copying.
- Numbers are integers. Floating-point values in templates are not modelled.
- Objects are ordered member lists whose keys are assumed distinct, as parsed JSON gives them; no contract depends on it. JavaScript enumerates integer-like keys first, and `in` also sees prototype keys such as `toString`; neither quirk is modelled.
- JsPath.Write: assigning a non-index or out-of-range key to an array is an error in the model (`ArrayGrowth`). JavaScript would add a property or extend the array.
- JsPath.Read: in a query or a path walk (comfy_image.mjs:119, 122), the model can read only a JSON value's own data. Everything else reads as `undefined`, where JavaScript gives a value:
  - a property of a string or number, such as a string's `length`;
  - an array's `length`;
  - inherited members of any object or array, such as `toString`.
- Client.CompletePrompt: values read back in query mode are returned in the result. In the source they are written into the caller's inputs object. The model does not capture two effects of that:
  - entries written before an error stay in the caller's object;
  - with a string input the values are lost, because the object is local.
- Client.Step: the source assigns the input value by reference, so a later path write through that value would also change the caller's input. The model copies values.
- The cursor walks (`d = d[k]` then `d[last] = v`) update containers in place. The model rebuilds the containers along the path, which has the same effect on a tree without shared parts.
- The clock, the random suffix and the random seed are parameters (`Outputs.Clock`, `random`). The floating-point computation of the microseconds in comfy_image.mjs:136-137 is not modelled.
- Monitor.WaitForCompletion: the wait has no timeout in the source and may never end. The model scans a finite sequence of received frames, and a malformed message is not modelled.
- Outputs.SavedNamesDistinct: requires distinct node ids in the manifest, as keys of a JSON object are.
- The script entry points (`import.meta.main`, `__main__`), console output and the export line are not modelled.

## Findings

| source | as written | input that shows it | evidently intended | confidence | as-written member | corrected member |
|---|---|---|---|---|---|---|
| comfy_image.py:116 | every image of a node is saved as `output_<prefix>_<node>.png` | a node whose `images` list has two entries: both are saved under one name, so the second file overwrites the first and the returned list repeats that name | one file per image, named with the index as the JavaScript client does (`output_<prefix>_<node>_<index>.png`) | high that the names collide; not executed | Outputs.NamesWithoutIndexCollide | Outputs.SavedNamesDistinct |
| comfy-image.py:97 | every image of a node is saved as `output_<prefix>_<node>.png` | a node whose `images` list has two entries: the second file overwrites the first | one file per image, named with its index | high that the names collide; not executed | Outputs.NamesWithoutIndexCollide | Outputs.SavedNamesDistinct |
