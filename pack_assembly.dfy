/**
 * `modifyI18nPackFiles`: XLF files parsed into translated files are routed
 * into the main language pack or into one pack per extension, and at the end
 * of the input every pack is written out and one translation path per
 * extension pack is recorded. The stream is replaced by a class whose methods
 * are the stream's events in the order they happen: a parse that resolves
 * (`OnParsed`), a parse that rejects (`OnParseRejected`), and the end of the
 * input once every parse has settled (`Flush`).
 */
module PackAssembly {
  import opened Dicts
  import opened JsValues
  import opened PackPaths
  import opened I18nFiles

  /** One translated source file out of an XLF document. */
  datatype ParsedXlf = ParsedXlf(messages: Dict<string>, originalFilePath: string, language: string)

  /** An entry of the caller's `resultingTranslationPaths`. */
  datatype TranslationPath = TranslationPath(id: string, resourceName: string)

  /** The main pack and the extension packs keyed by resource name. */
  datatype Packs = Packs(main: I18nPack, exts: Dict<I18nPack>)

  ghost predicate PacksValid(ps: Packs)
  {
    && ps.main.contents.Valid()
    && ps.exts.Valid()
    && forall r :: r in ps.exts.values ==> ps.exts.values[r].contents.Valid()
  }

  /** A file's messages as the object stored in a pack. */
  function MessagesValue(m: Dict<string>): Value
  {
    Obj(Dict(m.keys, map k | k in m.values :: Str(m.values[k])))
  }

  /** `adsExtensions[resource]` when it is truthy, that is present and not empty. */
  function AdsId(adsExtensions: map<string, string>, resource: string): Option<string>
  {
    if resource in adsExtensions && adsExtensions[resource] != "" then Some(adsExtensions[resource]) else None
  }

  /** The key a file is stored under in its pack. */
  function FileKey(adsExtensions: map<string, string>, project: string, resource: string, path: string): string
  {
    if project == ExtensionsProject then
      if AdsId(adsExtensions, resource).Some? then AdsKey(path) else path
    else MainKey(path)
  }

  /** The contents a file of `project`/`resource` lands in (an extension pack not created yet has none). */
  function TargetContents(ps: Packs, project: string, resource: string): Dict<Value>
  {
    if project != ExtensionsProject then ps.main.contents
    else if resource in ps.exts.values then ps.exts.values[resource].contents
    else Empty()
  }

  /** The effect of routing one parsed file. */
  function Route(ps: Packs, adsExtensions: map<string, string>, project: string, resource: string, file: ParsedXlf): Packs
  {
    var key := FileKey(adsExtensions, project, resource, file.originalFilePath);
    var messages := MessagesValue(file.messages);
    if project == ExtensionsProject then
      var pack := if resource in ps.exts.values then ps.exts.values[resource] else NewPack();
      ps.(exts := ps.exts.Set(resource, pack.(contents := pack.contents.Set(key, messages))))
    else
      ps.(main := ps.main.(contents := ps.main.contents.Set(key, messages)))
  }

  /** Routing the files of one parse result in order. */
  function RouteAll(ps: Packs, adsExtensions: map<string, string>, project: string, resource: string, files: seq<ParsedXlf>): Packs
  {
    if files == [] then ps
    else Route(RouteAll(ps, adsExtensions, project, resource, files[..|files| - 1]), adsExtensions, project, resource, files[|files| - 1])
  }

  /**
   * A file of any project but `extensions` goes to the main pack under its
   * main key; nothing else changes.
   */
  lemma RouteToMainPack(ps: Packs, adsExtensions: map<string, string>, project: string, resource: string, file: ParsedXlf)
    requires project != ExtensionsProject
    ensures Route(ps, adsExtensions, project, resource, file).exts == ps.exts
    ensures Route(ps, adsExtensions, project, resource, file).main.version == ps.main.version
    ensures Route(ps, adsExtensions, project, resource, file).main.contents.values
         == ps.main.contents.values[MainKey(file.originalFilePath) := MessagesValue(file.messages)]
  {
  }

  /**
   * A file of the `extensions` project goes to the pack of its resource, which
   * is created with version "1.0.0" and no contents if it does not exist yet
   * and is reused otherwise; the file is stored under its path with the first
   * two segments cut when the resource has an internal id, under its path
   * unchanged otherwise. The main pack and every other extension pack stay as
   * they were.
   */
  lemma RouteToExtensionPack(ps: Packs, adsExtensions: map<string, string>, project: string, resource: string, file: ParsedXlf)
    requires PacksValid(ps) && project == ExtensionsProject
    ensures var r := Route(ps, adsExtensions, project, resource, file);
      && r.main == ps.main
      && resource in r.exts.values
      && r.exts.values[resource].version
         == (if resource in ps.exts.values then ps.exts.values[resource].version else "1.0.0")
      && r.exts.values[resource].contents.values
         == TargetContents(ps, project, resource).values[
              (if AdsId(adsExtensions, resource).Some? then AdsKey(file.originalFilePath) else file.originalFilePath)
              := MessagesValue(file.messages)]
      && r.exts.keys == (if resource in ps.exts.values then ps.exts.keys else ps.exts.keys + [resource])
      && forall other :: other != resource ==>
           (other in r.exts.values <==> other in ps.exts.values)
           && (other in ps.exts.values ==> r.exts.values[other] == ps.exts.values[other])
  {
  }

  lemma RouteValid(ps: Packs, adsExtensions: map<string, string>, project: string, resource: string, file: ParsedXlf)
    requires PacksValid(ps)
    ensures PacksValid(Route(ps, adsExtensions, project, resource, file))
  {
    var key := FileKey(adsExtensions, project, resource, file.originalFilePath);
    var messages := MessagesValue(file.messages);
    if project == ExtensionsProject {
      var pack := if resource in ps.exts.values then ps.exts.values[resource] else NewPack();
      SetValid(pack.contents, key, messages);
      SetValid(ps.exts, resource, pack.(contents := pack.contents.Set(key, messages)));
    } else {
      SetValid(ps.main.contents, key, messages);
    }
  }

  /** The last of `files` that is stored under `key`, if any. */
  function LastWithKey(adsExtensions: map<string, string>, project: string, resource: string, files: seq<ParsedXlf>, key: string): Option<ParsedXlf>
  {
    if files == [] then None
    else if FileKey(adsExtensions, project, resource, files[|files| - 1].originalFilePath) == key then Some(files[|files| - 1])
    else LastWithKey(adsExtensions, project, resource, files[..|files| - 1], key)
  }

  /**
   * After routing a sequence of files, a key of the target pack holds the
   * messages of the last file stored under it: a later file overwrites an
   * earlier one. A key no file maps to keeps what it had.
   */
  lemma {:induction false} RouteAllLastWins(ps: Packs, adsExtensions: map<string, string>, project: string, resource: string, files: seq<ParsedXlf>, key: string)
    ensures var after := TargetContents(RouteAll(ps, adsExtensions, project, resource, files), project, resource);
      match LastWithKey(adsExtensions, project, resource, files, key)
      case Some(f) => key in after.values && after.values[key] == MessagesValue(f.messages)
      case None =>
        var before := TargetContents(ps, project, resource);
        (key in after.values <==> key in before.values)
        && (key in before.values ==> after.values[key] == before.values[key])
  {
    if files != [] {
      var init := files[..|files| - 1];
      RouteAllLastWins(ps, adsExtensions, project, resource, init, key);
      RouteTarget(RouteAll(ps, adsExtensions, project, resource, init), adsExtensions, project, resource, files[|files| - 1]);
    }
  }

  /** Routing a file stores its messages under its key in the target pack and changes no other key there. */
  lemma RouteTarget(ps: Packs, adsExtensions: map<string, string>, project: string, resource: string, file: ParsedXlf)
    ensures TargetContents(Route(ps, adsExtensions, project, resource, file), project, resource).values
         == TargetContents(ps, project, resource).values[
              FileKey(adsExtensions, project, resource, file.originalFilePath) := MessagesValue(file.messages)]
  {
  }

  /**
   * Routing the files of one parse result changes only the target pack; an
   * extension pack is created at most once, on the first file, with version
   * "1.0.0", keeps its version and its place afterwards, and is not created
   * for a result with no files.
   */
  lemma {:induction false} RouteAllFrame(ps: Packs, adsExtensions: map<string, string>, project: string, resource: string, files: seq<ParsedXlf>)
    requires PacksValid(ps)
    ensures var r := RouteAll(ps, adsExtensions, project, resource, files);
      && PacksValid(r)
      && (project != ExtensionsProject ==> r.exts == ps.exts && r.main.version == ps.main.version)
      && (project == ExtensionsProject ==>
           && r.main == ps.main
           && (resource in r.exts.values <==> resource in ps.exts.values || files != [])
           && (resource in ps.exts.values ==>
                 r.exts.keys == ps.exts.keys && r.exts.values[resource].version == ps.exts.values[resource].version)
           && (resource !in ps.exts.values && files != [] ==>
                 r.exts.keys == ps.exts.keys + [resource] && r.exts.values[resource].version == "1.0.0")
           && forall other :: other != resource ==>
                (other in r.exts.values <==> other in ps.exts.values)
                && (other in ps.exts.values ==> r.exts.values[other] == ps.exts.values[other]))
  {
    if files != [] {
      var init := files[..|files| - 1];
      RouteAllFrame(ps, adsExtensions, project, resource, init);
      var mid := RouteAll(ps, adsExtensions, project, resource, init);
      RouteValid(mid, adsExtensions, project, resource, files[|files| - 1]);
      if project == ExtensionsProject {
        RouteToExtensionPack(mid, adsExtensions, project, resource, files[|files| - 1]);
      }
    }
  }

  /** The resource name recorded for an extension pack. */
  function ResourceName(ext: string): string
  {
    "extensions/" + ext + ".i18n.json"
  }

  /** The translation path recorded for an extension pack. */
  function TranslationPathFor(adsExtensions: map<string, string>, ext: string): TranslationPath
  {
    match AdsId(adsExtensions, ext)
    case Some(id) => TranslationPath(id, ResourceName(ext))
    case None => TranslationPath("vscode." + ext, ResourceName(ext))
  }

  /** The translation paths recorded for the first `n` extension packs of `exts`, in order. */
  function TranslationPaths(adsExtensions: map<string, string>, exts: seq<string>, n: nat): seq<TranslationPath>
    requires n <= |exts|
  {
    if n == 0 then []
    else TranslationPaths(adsExtensions, exts, n - 1) + [TranslationPathFor(adsExtensions, exts[n - 1])]
  }

  lemma ResourceNameInjective(a: string, b: string)
    requires ResourceName(a) == ResourceName(b)
    ensures a == b
  {
    var prefix := |"extensions/"|;
    assert |a| == |b|;
    assert a == ResourceName(a)[prefix..prefix + |a|];
    assert b == ResourceName(b)[prefix..prefix + |b|];
  }

  /**
   * One translation path per extension pack, in the packs' order: the id is
   * the internal id of the extension when it has a truthy one and
   * `vscode.<ext>` otherwise, the resource name is
   * `extensions/<ext>.i18n.json`, and distinct packs get distinct resource
   * names.
   */
  lemma {:induction false} TranslationPathsSpec(adsExtensions: map<string, string>, exts: seq<string>, n: nat)
    requires n <= |exts|
    ensures |TranslationPaths(adsExtensions, exts, n)| == n
    ensures forall i :: 0 <= i < n ==> TranslationPaths(adsExtensions, exts, n)[i] == TranslationPathFor(adsExtensions, exts[i])
  {
    if n != 0 {
      TranslationPathsSpec(adsExtensions, exts, n - 1);
    }
  }

  /**
   * The translation path of an extension pack: the internal id of the
   * extension when it has a truthy one and `vscode.<ext>` otherwise, and the
   * resource name `extensions/<ext>.i18n.json`.
   */
  lemma TranslationPathForSpec(adsExtensions: map<string, string>, ext: string)
    ensures TranslationPathFor(adsExtensions, ext).resourceName == "extensions/" + ext + ".i18n.json"
    ensures TranslationPathFor(adsExtensions, ext).id
         == (if ext in adsExtensions && adsExtensions[ext] != "" then adsExtensions[ext] else "vscode." + ext)
  {
  }

  /** Distinct extension packs get distinct resource names. */
  lemma TranslationPathsDistinct(adsExtensions: map<string, string>, exts: seq<string>, n: nat)
    requires n <= |exts| && Distinct(exts)
    ensures |TranslationPaths(adsExtensions, exts, n)| == n
    ensures forall i, j :: 0 <= i < j < n ==>
      TranslationPaths(adsExtensions, exts, n)[i].resourceName != TranslationPaths(adsExtensions, exts, n)[j].resourceName
  {
    TranslationPathsSpec(adsExtensions, exts, n);
    var r := TranslationPaths(adsExtensions, exts, n);
    forall i, j | 0 <= i < j < n ensures r[i].resourceName != r[j].resourceName {
      if r[i].resourceName == r[j].resourceName {
        ResourceNameInjective(exts[i], exts[j]);
      }
    }
  }

  /** The file written for the main pack. */
  function MainFile(pack: I18nPack): I18nFile
  {
    I18nFile("./main.i18n.json", Document(PackObject(pack)))
  }

  /** The file written for an extension pack. */
  function ExtensionFile(ext: string, pack: I18nPack): I18nFile
  {
    I18nFile("extensions/" + ext + ".i18n.json", Document(PackObject(pack)))
  }

  /** `createI18nFile(`extensions/${extension}`, extensionsPacks[extension])`. */
  method CreateExtensionFile(extension: string, pack: I18nPack) returns (file: I18nFile)
    ensures file == ExtensionFile(extension, pack)
  {
    PackObjectValid(pack);
    file := CreateI18nFile("extensions/" + extension, PackObject(pack));
  }

  /** The files written for the first `n` extension packs of `exts`, in order. */
  function ExtensionFiles(exts: seq<string>, packs: map<string, I18nPack>, n: nat): seq<I18nFile>
    requires n <= |exts| && forall i :: 0 <= i < n ==> exts[i] in packs
  {
    if n == 0 then []
    else ExtensionFiles(exts, packs, n - 1) + [ExtensionFile(exts[n - 1], packs[exts[n - 1]])]
  }

  /** One file per extension pack, in the order of `exts`: the file of pack `exts[i]`. */
  lemma {:induction false} ExtensionFilesAt(exts: seq<string>, packs: map<string, I18nPack>, n: nat)
    requires n <= |exts| && forall i :: 0 <= i < n ==> exts[i] in packs
    ensures |ExtensionFiles(exts, packs, n)| == n
    ensures forall i :: 0 <= i < n ==> ExtensionFiles(exts, packs, n)[i] == ExtensionFile(exts[i], packs[exts[i]])
  {
    if n != 0 {
      ExtensionFilesAt(exts, packs, n - 1);
    }
  }

  /** One more file written by the loop over the extension packs. */
  lemma ExtensionFilesStep(exts: seq<string>, packs: map<string, I18nPack>, i: nat, queued: seq<I18nFile>, file: I18nFile)
    requires i < |exts| && forall j :: 0 <= j < |exts| ==> exts[j] in packs
    requires queued == ExtensionFiles(exts, packs, i) && file == ExtensionFile(exts[i], packs[exts[i]])
    ensures queued + [file] == ExtensionFiles(exts, packs, i + 1)
  {
  }

  /** One more translation path recorded by the loop over the extension packs. */
  lemma TranslationPathsStep(adsExtensions: map<string, string>, exts: seq<string>, i: nat,
                             paths: seq<TranslationPath>, before: seq<TranslationPath>, after: seq<TranslationPath>)
    requires i < |exts|
    requires before == paths + TranslationPaths(adsExtensions, exts, i)
    requires after == before + [TranslationPathFor(adsExtensions, exts[i])]
    ensures after == paths + TranslationPaths(adsExtensions, exts, i + 1)
  {
  }

  /** Why the end of the input reports an error instead of writing the packs. */
  datatype FlushError = ParseRejected(reason: string) | MainFileUnreadable

  /** What the end of the input queues: every file and then the end marker, or only an error. */
  datatype FlushOutcome = Completed(files: seq<I18nFile>) | Failed(error: FlushError)

  /** The caller's `resultingTranslationPaths` array, which the stream appends to. */
  class PathList {
    var paths: seq<TranslationPath>

    constructor(paths: seq<TranslationPath>)
      ensures this.paths == paths
    {
      this.paths := paths;
    }

    /** `push`: one more entry at the end. */
    method Push(p: TranslationPath)
      modifies this
      ensures paths == old(paths) + [p]
    {
      paths := paths + [p];
    }
  }

  class PackAssembler {
    const existingTranslationFolder: string
    const adsExtensions: map<string, string>
    const resultingTranslationPaths: PathList
    var mainPack: I18nPack
    var extensionsPacks: Dict<I18nPack>
    var errors: seq<string>

    ghost predicate Valid()
      reads this
    {
      PacksValid(Packs(mainPack, extensionsPacks))
    }

    function State(): Packs
      reads this
    {
      Packs(mainPack, extensionsPacks)
    }

    constructor(existingTranslationFolder: string, adsExtensions: map<string, string>, resultingTranslationPaths: PathList)
      ensures Valid()
      ensures this.existingTranslationFolder == existingTranslationFolder
      ensures this.adsExtensions == adsExtensions
      ensures this.resultingTranslationPaths == resultingTranslationPaths
      ensures mainPack == NewPack() && extensionsPacks == Empty() && errors == []
    {
      this.existingTranslationFolder := existingTranslationFolder;
      this.adsExtensions := adsExtensions;
      this.resultingTranslationPaths := resultingTranslationPaths;
      mainPack := NewPack();
      extensionsPacks := Empty();
      errors := [];
    }

    /** A parse of the XLF file of `project`/`resource` resolved with `files`. */
    method OnParsed(project: string, resource: string, files: seq<ParsedXlf>)
      requires Valid()
      modifies this`mainPack, this`extensionsPacks
      ensures Valid()
      ensures State() == RouteAll(old(State()), adsExtensions, project, resource, files)
    {
      var i := 0;
      while i < |files|
        invariant 0 <= i <= |files|
        invariant Valid()
        invariant State() == RouteAll(old(State()), adsExtensions, project, resource, files[..i])
      {
        RouteFile(project, resource, files[i]);
        assert files[..i + 1][..i] == files[..i];
        i := i + 1;
      }
      assert files[..|files|] == files;
    }

    /** The body of `resolvedFiles.forEach` for one file. */
    method RouteFile(project: string, resource: string, file: ParsedXlf)
      requires Valid()
      modifies this`mainPack, this`extensionsPacks
      ensures Valid()
      ensures State() == Route(old(State()), adsExtensions, project, resource, file)
    {
      RouteValid(State(), adsExtensions, project, resource, file);
      if project == ExtensionsProject {
        RouteExtensionFile(resource, file);
      } else {
        RouteMainFile(project, resource, file);
      }
    }

    /** A file of the `extensions` project, stored in the pack of its resource. */
    method RouteExtensionFile(resource: string, file: ParsedXlf)
      modifies this`extensionsPacks
      ensures State() == Route(old(State()), adsExtensions, ExtensionsProject, resource, file)
    {
      ghost var ps := State();
      ghost var key := FileKey(adsExtensions, ExtensionsProject, resource, file.originalFilePath);
      ghost var messages := MessagesValue(file.messages);
      ghost var pack := if resource in ps.exts.values then ps.exts.values[resource] else NewPack();
      var path := file.originalFilePath;
      var firstSlash := IndexOf(path, '/', 0);
      var extPack: I18nPack;
      if resource !in extensionsPacks.values {
        extPack := NewPack();
        extensionsPacks := extensionsPacks.Set(resource, extPack);
      } else {
        extPack := extensionsPacks.values[resource];
      }
      assert extPack == pack;
      var adsId := AdsId(adsExtensions, resource);
      if adsId.Some? {
        var secondSlash := IndexOf(path, '/', firstSlash + 1);
        assert Substr(path, secondSlash + 1) == key;
        extPack := extPack.(contents := extPack.contents.Set(Substr(path, secondSlash + 1), MessagesValue(file.messages)));
      } else {
        extPack := extPack.(contents := extPack.contents.Set(path, MessagesValue(file.messages)));
      }
      assert extPack == pack.(contents := pack.contents.Set(key, messages));
      SetTwice(ps.exts, resource, NewPack(), extPack);
      extensionsPacks := extensionsPacks.Set(resource, extPack);
      assert extensionsPacks == ps.exts.Set(resource, extPack);
    }

    /** A file of any other project, stored in the main pack. */
    method RouteMainFile(project: string, resource: string, file: ParsedXlf)
      requires project != ExtensionsProject
      modifies this`mainPack
      ensures State() == Route(old(State()), adsExtensions, project, resource, file)
    {
      var path := file.originalFilePath;
      var firstSlash := IndexOf(path, '/', 0);
      mainPack := mainPack.(contents := mainPack.contents.Set(Substr(path, firstSlash + 1), MessagesValue(file.messages)));
    }

    /** A parse rejected with `reason`. */
    method OnParseRejected(reason: string)
      modifies this`errors
      ensures errors == old(errors) + [reason]
    {
      errors := errors + [reason];
    }

    /**
     * The end of the input, once every parse has settled. `Promise.all` over
     * the parse promises rejects with the first rejection, so a recorded parse
     * failure is reported as that one reason and nothing is queued. Otherwise
     * the main pack is merged with the existing main file, the file
     * `existingTranslationFolder + '\\main'` plus `.i18n.json` (whose parsed content
     * is `existing`, `None` when it cannot be read), and written, then each
     * extension pack is written and its translation path appended to the
     * caller's list, and the end marker follows.
     */
    method Flush(existing: Option<Value>) returns (outcome: FlushOutcome)
      requires Valid()
      requires existing.Some? ==> ContentsWellFormed(existing.value)
      modifies this`mainPack, resultingTranslationPaths
      ensures Valid()
      ensures |errors| > 0 ==>
        && outcome == Failed(ParseRejected(errors[0]))
        && mainPack == old(mainPack)
        && resultingTranslationPaths.paths == old(resultingTranslationPaths.paths)
      ensures |errors| == 0 && (existing.None? || Nullish(existing.value)) ==>
        && outcome == Failed(MainFileUnreadable)
        && mainPack == old(mainPack)
        && resultingTranslationPaths.paths == old(resultingTranslationPaths.paths)
      ensures |errors| == 0 && existing.Some? && !Nullish(existing.value) ==>
        && mainPack == MergeExisting(existing.value, old(mainPack))
        && outcome == Completed([MainFile(mainPack)] + ExtensionFiles(extensionsPacks.keys, extensionsPacks.values, |extensionsPacks.keys|))
        && resultingTranslationPaths.paths
           == old(resultingTranslationPaths.paths) + TranslationPaths(adsExtensions, extensionsPacks.keys, |extensionsPacks.keys|)
    {
      if |errors| > 0 {
        return Failed(ParseRejected(errors[0]));
      }
      var mainFile := WriteMainPack(existing);
      if mainFile.None? {
        return Failed(MainFileUnreadable);
      }
      var translatedExtFiles := WriteExtensionPacks();
      outcome := Completed([mainFile.value] + translatedExtFiles);
    }

    /**
     * `updateMainI18nFile(existingTranslationFilePath, './main', mainPack)`:
     * the main pack merged with the existing one and its file, or `None` when
     * the existing file cannot be read.
     */
    method WriteMainPack(existing: Option<Value>) returns (file: Option<I18nFile>)
      requires mainPack.contents.Valid()
      requires existing.Some? ==> ContentsWellFormed(existing.value)
      modifies this`mainPack
      ensures mainPack.contents.Valid()
      ensures file.Some? <==> existing.Some? && !Nullish(existing.value)
      ensures file.None? ==> mainPack == old(mainPack)
      ensures file.Some? ==> mainPack == MergeExisting(existing.value, old(mainPack)) && file.value == MainFile(mainPack)
    {
      var main := UpdateMainI18nFile(existing, "./main", mainPack);
      if main.ExistingUnreadable? {
        return None;
      }
      MergeValid(ExistingContents(existing.value), mainPack.contents);
      mainPack := main.pack;
      assert "./main" + ".i18n.json" == "./main.i18n.json";
      file := Some(main.file);
    }

    /**
     * One turn of the loop: the file of one extension pack, and the translation path appended
     * to the caller's list (the internal id of the extension when it has a
     * truthy one, `vscode.<extension>` otherwise).
     */
    method WriteExtensionPack(extension: string, pack: I18nPack) returns (file: I18nFile)
      modifies resultingTranslationPaths
      ensures file == ExtensionFile(extension, pack)
      ensures resultingTranslationPaths.paths
              == old(resultingTranslationPaths.paths) + [TranslationPathFor(adsExtensions, extension)]
    {
      file := CreateExtensionFile(extension, pack);
      var adsExtensionId := AdsId(adsExtensions, extension);
      if adsExtensionId.Some? {
        resultingTranslationPaths.Push(TranslationPath(adsExtensionId.value, "extensions/" + extension + ".i18n.json"));
      } else {
        resultingTranslationPaths.Push(TranslationPath("vscode." + extension, "extensions/" + extension + ".i18n.json"));
      }
    }

    /** The `for (let extension in extensionsPacks)` loop of the end of the input. */
    method WriteExtensionPacks() returns (queued: seq<I18nFile>)
      requires forall i :: 0 <= i < |extensionsPacks.keys| ==> extensionsPacks.keys[i] in extensionsPacks.values
      modifies resultingTranslationPaths
      ensures queued == ExtensionFiles(extensionsPacks.keys, extensionsPacks.values, |extensionsPacks.keys|)
      ensures resultingTranslationPaths.paths
              == old(resultingTranslationPaths.paths) + TranslationPaths(adsExtensions, extensionsPacks.keys, |extensionsPacks.keys|)
    {
      var exts := extensionsPacks.keys;
      var packs := extensionsPacks.values;
      var list := resultingTranslationPaths;
      ghost var paths := list.paths;
      queued := [];
      var i := 0;
      while i < |exts|
        invariant 0 <= i <= |exts|
        invariant queued == ExtensionFiles(exts, packs, i)
        invariant list.paths == paths + TranslationPaths(adsExtensions, exts, i)
      {
        ghost var before := list.paths;
        var translatedExtFile := WriteExtensionPack(exts[i], packs[exts[i]]);
        ExtensionFilesStep(exts, packs, i, queued, translatedExtFile);
        TranslationPathsStep(adsExtensions, exts, i, paths, before, list.paths);
        queued := queued + [translatedExtFile];
        i := i + 1;
      }
    }
  }
}
