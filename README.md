# Localization pack assembly, modelled in Dafny

This project models `build/lib/locFunc.ts`. That file turns translated XLF
documents into the language packs of the data studio's localization
extensions. It also collects the messages of the built-in extensions into
XLF documents for translation. It has three pieces:

- **Pack documents** (`createI18nFile`, `updateMainI18nFile`). A pack is
  written as a JSON object. The fixed five-line copyright header sits under
  the empty key, and the properties of the pack are copied after it. The main
  pack is first merged with the pack already on disk; the new translations
  win.
- **Pack assembly** (`modifyI18nPackFiles`). Every translated file of a
  parsed XLF document is stored under a key cut out of its original path.
  Files of the `extensions` project go to one pack per resource. A resource
  that has an internal extension id loses the `extensions/<id>/` prefix of its
  paths. Everything else goes to the main pack. At the end of the input the
  main pack is merged and written, then every extension pack is written, and
  one `{ id, resourceName }` entry per extension pack is appended to the
  caller's list. A recorded parse failure is reported instead.
- **XLF extraction** (`createXlfFilesForExtensions`). Every extension folder
  starts a sub-stream. It reads `package.nls.json` and `nls.metadata.json`
  files into a lazily created XLF document, which is queued when the
  sub-stream ends. A counter and two flags make sure the outer stream's end
  marker is queued exactly once. That happens after the input has ended and
  every sub-stream has finished.
- **Shape tests** (`LocalizeInfo.is`, `PackageJsonFormat.is`).

Modules:

- `Dicts` holds JavaScript objects: insertion-ordered string-keyed
  dictionaries, property assignment, and object spread.
- `JsValues` holds JSON values and the tests of the `is` package.
- `PackPaths` holds the `indexOf`/`substr` key computations.
- `I18nFiles` holds the pack documents.
- `PackAssembly` holds the stream of `modifyI18nPackFiles`. It is a class
  whose methods are the stream's events.
- `XlfExtraction` holds the stream of `createXlfFilesForExtensions`. It is
  also a class.
- `Validators` holds the shape tests.

The two streams change captured variables step by step, so each becomes a
class:

- `PackAssembler` has fields for the main pack, the extension packs and the
  recorded errors. The caller's `resultingTranslationPaths` array is a
  separate `PathList` object that the stream appends to.
- `XlfFolderStream` has fields for the counter, the two flags, the running
  sub-streams and everything queued so far.

Each method is specified against pure functions (`Route`, `RouteAll`,
`Document`, `ExtensionFiles`, `TranslationPaths`, `HandleNlsFile`,
`MetadataEntries`). The properties are then proved as lemmas about those
functions.

The `errors` array suggests that parse failures are collected and thrown
together. But `Promise.all` runs over the parse promises themselves and not
over the promises that record the failures. So a failed parse rejects it with
that one reason, and `throw errors` is not reached from a parse failure. `Flush` therefore reports a single reason, the first recorded one.

## Model

| member | source | states |
|---|---|---|
| `Dicts.SetValid` | build/lib/locFunc.ts:50 | A property assignment keeps an object well formed: every key is listed once, and exactly the present keys are listed. |
| `Dicts.MergeValid` | build/lib/locFunc.ts:68 | Object spread `{...a, ...b}` of two well-formed objects is well formed. |
| `Dicts.MergePrefixStep` | build/lib/locFunc.ts:49-51 | One turn of the loop that copies `Object.keys(b)` onto `a` extends the copy so far by the next key of `b`. That key keeps its place if `a` already has it, and otherwise goes last. It takes `b`'s value. So the loop computes `{...a, ...b}`. |
| `PackPaths.IndexOf` | build/lib/locFunc.ts:106 | `indexOf` of one character gives the first position at or after `from` that holds it, or -1 exactly when there is none. |
| `PackPaths.MainKeyOfPath` | build/lib/locFunc.ts:121 | A main-pack file whose path has a slash is stored under its path without the first segment and that slash. |
| `PackPaths.MainKeyWithoutSlash` | build/lib/locFunc.ts:121 | A main-pack file whose path has no slash is stored under its whole path. |
| `PackPaths.AdsKeyOfPath` | build/lib/locFunc.ts:115-116 | For an internal extension, a path with two slashes loses its first two segments. |
| `PackPaths.AdsKeyOneSlash` | build/lib/locFunc.ts:115-116 | For an internal extension, a path with exactly one slash is kept whole, because the second `indexOf` gives -1. |
| `PackPaths.AdsKeyWithoutSlash` | build/lib/locFunc.ts:115-116 | For an internal extension, a path with no slash is kept whole. |
| `Validators.EveryStringIff` | build/lib/locFunc.ts:166 | `every(element => Is.string(element))` holds exactly when every element is a string. |
| `Validators.LocalizeInfoIsAsWrittenThrowsOnNull` | build/lib/locFunc.ts:164-167 | Evaluated as written, `LocalizeInfo.is(null)` throws a TypeError instead of returning false. |
| `Validators.LocalizeInfoIsIff` | build/lib/locFunc.ts:164-167 | The corrected test holds exactly for an object with a string `key` whose `comment` is missing or an array of strings. On every other value it agrees with the test as written. The written test throws exactly on `null`. |
| `Validators.EveryEntryIff` | build/lib/locFunc.ts:191-194 | The `every` over the keys holds exactly when each key holds a string, or an object with defined `message` and `comment`. |
| `Validators.PackageJsonFormatIsIff` | build/lib/locFunc.ts:187-195 | `PackageJsonFormat.is` is false for `undefined` and every non-object, `null` and arrays included. For an object it holds exactly when every own key holds a valid entry. |
| `I18nFiles.HeaderObject` | build/lib/locFunc.ts:41-48 | The object holding only the header is a well-formed object. |
| `I18nFiles.PackDocument` | build/lib/locFunc.ts:69-79 | The document written for a pack is a well-formed object with exactly three keys, in order: `''` holding the header, `version` holding the pack's version, and `contents` holding the pack's contents. |
| `I18nFiles.DocumentFields` | build/lib/locFunc.ts:40-52 | The document lists the header key first, then every other key of the messages in their order. Its keys are the header key plus the message keys. Every message value is copied. The header survives unless the messages have an empty key. |
| `I18nFiles.CreateI18nFile` | build/lib/locFunc.ts:40-61 | The copy loop produces the document of the messages, and the path is `originalFilePath + '.i18n.json'`. |
| `I18nFiles.MergeExistingSpec` | build/lib/locFunc.ts:68 | The merge keeps the pack's version. Its contents hold the keys of both the existing and the new contents. A new value wins on a shared key, existing-only keys keep their value, and the existing keys stay first. |
| `I18nFiles.UpdateMainI18nFile` | build/lib/locFunc.ts:63-89 | The main file is written exactly when the existing file was read and is not `null`/`undefined`. In that case the pack becomes the merge and the document is that of the merged pack as `{ version, contents }`. |
| `PackAssembly.RouteToMainPack` | build/lib/locFunc.ts:120-122 | A file of any project but `extensions` is stored in the main pack under its main key. The extension packs and the version do not change. |
| `PackAssembly.RouteToExtensionPack` | build/lib/locFunc.ts:108-119 | A file of the `extensions` project goes to its resource's pack. The pack is created with version "1.0.0" and appended to the pack order when missing, and reused otherwise. The key is cut for an internal id and is the whole path otherwise. The main pack and all other packs do not change. |
| `PackAssembly.RouteValid` | build/lib/locFunc.ts:104-123 | Routing a file keeps every pack a well-formed object. |
| `PackAssembly.RouteTarget` | build/lib/locFunc.ts:104-123 | Routing a file sets exactly its key in the target pack's contents. |
| `PackAssembly.RouteAllLastWins` | build/lib/locFunc.ts:104-123 | After the files of a parse result are routed, a key holds the messages of the last file stored under it. A key no file maps to keeps its old value, or stays absent. |
| `PackAssembly.RouteAllFrame` | build/lib/locFunc.ts:104-123 | Routing a parse result changes only its target pack. An extension pack is created at most once, on the first file, with version "1.0.0". Its version and place are kept afterwards. |
| `PackAssembly.ResourceNameInjective` | build/lib/locFunc.ts:144-146 | Distinct extensions get distinct resource names. |
| `PackAssembly.TranslationPathsSpec` | build/lib/locFunc.ts:137-149 | There is one translation path per extension pack, in the packs' order. |
| `PackAssembly.TranslationPathsDistinct` | build/lib/locFunc.ts:137-149 | The recorded resource names are pairwise distinct. |
| `PackAssembly.ExtensionFilesAt` | build/lib/locFunc.ts:137-140 | There is one written file per extension pack, in the packs' order, and file i is the file of pack i. |
| `PackAssembly.CreateExtensionFile` | build/lib/locFunc.ts:139 | An extension pack is written as the file `extensions/<ext>.i18n.json` holding the document of the pack. |
| `PackAssembly.PathList.Push` | build/lib/locFunc.ts:144 | `push` appends one entry at the end. |
| `PackAssembly.PackAssembler.constructor` | build/lib/locFunc.ts:92-95 | A new stream has an empty main pack, no extension packs and no errors. |
| `PackAssembly.PackAssembler.OnParsed` | build/lib/locFunc.ts:102-124 | A resolved parse routes its files in order, which keeps the packs well formed. |
| `PackAssembly.PackAssembler.RouteFile` | build/lib/locFunc.ts:104-123 | The body of `forEach` routes one file, and the packs stay well formed. |
| `PackAssembly.PackAssembler.RouteExtensionFile` | build/lib/locFunc.ts:108-119 | The extension branch of that body routes the file as `Route` does. |
| `PackAssembly.PackAssembler.RouteMainFile` | build/lib/locFunc.ts:120-122 | The main branch of that body routes the file as `Route` does. |
| `PackAssembly.PackAssembler.OnParseRejected` | build/lib/locFunc.ts:125-127 | A rejected parse appends its reason to the errors. |
| `PackAssembly.PackAssembler.Flush` | build/lib/locFunc.ts:128-155 | After a recorded parse failure, the first reason is reported and nothing is written. If the existing main file cannot be read, that is reported and nothing is written. Otherwise the merged main file is written first, then one file per extension pack in order. The caller's list gains one translation path per extension pack. |
| `PackAssembly.PackAssembler.WriteMainPack` | build/lib/locFunc.ts:134-136 | The main pack becomes its merge with the existing file and is written to `./main.i18n.json`. It stays unchanged when the existing file cannot be read. |
| `PackAssembly.PackAssembler.WriteExtensionPack` | build/lib/locFunc.ts:139-147 | One turn of the loop writes the file of one extension pack and appends its translation path. |
| `PackAssembly.PackAssembler.WriteExtensionPacks` | build/lib/locFunc.ts:137-149 | The loop writes every extension pack in order and appends their translation paths in the same order. |
| `XlfExtraction.MessagesOfAt` | build/lib/locFunc.ts:242-252 | There is one message per key, in key order. It is the string value itself, or the `message` of any other truthy value, or `Unknown message for key: <key>`. |
| `XlfExtraction.ValidFormatMessages` | build/lib/locFunc.ts:242-252 | For a `package.nls.json` that passes `PackageJsonFormat.is`, no fallback message is used and every message is defined. |
| `XlfExtraction.HandleNlsFileSpec` | build/lib/locFunc.ts:236-264 | A `package.nls.json` creates the XLF document if needed and adds one file whose keys and messages have the same length. An `nls.metadata.json` appends its entries after the existing ones, one per bundled file, and creates the document only when it has a bundled file. Other files add nothing. Exactly the unknown files emit an error. |
| `XlfExtraction.MetadataEntriesAt` | build/lib/locFunc.ts:255-260 | An `nls.metadata.json` gives one `addFile` per bundled file, in key order. Entry i has the path `extensions/<name>/<relPath>/<file>` of bundled file i, and that file's keys and messages. |
| `XlfExtraction.AddMetadataFiles` | build/lib/locFunc.ts:255-260 | The `for...in` loop adds the bundled files to the sub-stream's document in key order. |
| `XlfExtraction.XlfFolderStream.constructor` | build/lib/locFunc.ts:218-220 | The counter starts at zero, both flags are off and nothing is queued. |
| `XlfExtraction.XlfFolderStream.OnFolder` | build/lib/locFunc.ts:221-228 | A non-directory changes nothing. A directory starts a sub-stream with no XLF document and increments the counter. |
| `XlfExtraction.XlfFolderStream.OnNlsFile` | build/lib/locFunc.ts:236-265 | A file read by a sub-stream changes only that sub-stream, as `HandleNlsFile` says. |
| `XlfExtraction.XlfFolderStream.OnSubStreamEnd` | build/lib/locFunc.ts:266-280 | The sub-stream's document, if any, is queued as `extensions/<name>.xlf`, and the counter drops by one. The end marker follows exactly when the counter reaches zero after the input has ended. Invariant kept: counter equals the number of running sub-streams, and the end marker is queued at most once and last. |
| `XlfExtraction.XlfFolderStream.QueueSubStreamOutput` | build/lib/locFunc.ts:267-273 | A sub-stream's document is queued only if it was created, and never adds an end marker. |
| `XlfExtraction.XlfFolderStream.EmitEnd` | build/lib/locFunc.ts:276-279 | Queuing the end marker for the first time leaves exactly one end marker, at the end. |
| `XlfExtraction.XlfFolderStream.OnFolderStreamEnd` | build/lib/locFunc.ts:281-287 | The end of the input sets the flag and queues the end marker now exactly when no sub-stream is running. |

## Left out

- File-system and stream I/O is not modelled: `fs.readFileSync`, `gulp.src`, `fs.statSync`, vinyl files and the `event-stream` plumbing. A file's content becomes a parameter: the parsed existing main pack, the parsed `package.nls.json` or `nls.metadata.json`, a directory flag. An unreadable or unparsable existing main file is `None`.
- XLF parsing and serialisation (`i18n.XLF.parse`, `parsePseudo`, `addFile`, `toString`) live in `i18n.ts`, which is not part of this model. A parse result is given as a list of translated files, and an XLF document is the list of its `addFile` calls. The `pseudo` flag only chooses the parser, so it is left out.
- JSON text is not modelled. `JSON.stringify` with tab indentation, the `\r\n` rewriting on win32 and the UTF-8 encoding are left out; a written file carries the object it encodes.
- `path.join`/`path.basename`/`path.relative` normalisation is not modelled. Paths are concatenated as written, so the main file is `./main.i18n.json`, whereas `path.join` gives `main.i18n.json`. The XLF file of a sub-stream is `extensions/<name>.xlf`. A project and resource name, and the relative directory of an `nls.metadata.json`, are given directly.
- Prototype lookups are not modelled. A resource or key named like an `Object.prototype` member (`constructor`, `__proto__`) would read an inherited value in JavaScript. The model treats every absent key as absent.
- JavaScript's ordering of integer-like keys (listed first, numerically) is not modelled. Keys are listed in insertion order.
- Spreading a non-object `contents` of the existing main file is modelled as spreading nothing. There are two exceptions. JavaScript spreads a string's characters as indexed keys, and it spreads an array's elements the same way (`{...["a"]}` is `{0: "a"}`).
- Floating-point numbers are not modelled. JSON numbers are integers.
- `PackAssembly.PackAssembler.Flush`: reports the first recorded parse failure. In JavaScript `Promise.all` reports the first rejection in time, which the model takes to be the first recorded one. The `throw errors` branch is unreachable in the model, because routing a parsed file never fails here.
- The existing main file is `existingTranslationFolder + '\\main'` with `.i18n.json` appended, and its parsed content is a parameter of `Flush`. That name places the file inside the folder only where the backslash is the path separator, that is on Windows.
- Extension packs are stored as values in the packs dictionary. The shared `extPack` reference of the source is reproduced by storing the updated pack back under its resource.
- Sub-stream end-of-stream markers (`this.queue(null)` on the inner stream) and `console.log` are not modelled.
- Malformed `nls.metadata.json` entries are not modelled. An entry without `keys`/`messages` arrays would pass `undefined` to `addFile`, and the model's entries always carry both.
- `packageADSExtensionsStream` is build-pipeline glue around file globbing, renaming and stream merging, and is not modelled.
- `XlfExtraction.XlfFolderStream.OnFolder`, `OnFolderStreamEnd`: require that the input has not ended. A through-stream never delivers data after its end and ends once.

## Findings

| source | as written | input that shows it | evidently intended | confidence | as-written member | corrected member |
|---|---|---|---|---|---|---|
| build/lib/locFunc.ts:164-167 | `Is.defined` is true for `null`, so the test goes on to read `candidate.key` on `null` | `LocalizeInfo.is(null)` throws a TypeError | return false for `null`, like every other non-object | high; not executed | `Validators.LocalizeInfoIsAsWritten` | `Validators.LocalizeInfoIs` |

`LocalizeInfo.is` has no caller in this file. `Validators.LocalizeInfoIsIff` proves two things about the corrected test: it characterises the test, and it shows that the test agrees with the as-written one on every value but `null`.
