/**
 * `createXlfFilesForExtensions`: for every extension folder on the input
 * stream a sub-stream reads the extension's `package.nls.json` and
 * `nls.metadata.json` files into an XLF document, which is queued on the
 * outer stream when the sub-stream ends. A counter of running sub-streams and
 * two flags make sure the outer stream's end marker is queued once, after the
 * input has ended and every sub-stream has finished.
 */
module XlfExtraction {
  import opened Dicts
  import opened JsValues
  import opened Validators
  import opened PackPaths

  /** The message `keys.map` gives for one key of a `package.nls.json`. */
  function PackageNlsMessage(key: string, value: Value): Value
  {
    if IsString(value) then value
    else if Truthy(value) then Member(value, "message")
    else Str("Unknown message for key: " + key)
  }

  /** `keys.map(key => ...)` over the first keys `keys` of the parsed `package.nls.json` object `json`. */
  function MessagesOf(json: Dict<Value>, keys: seq<string>): seq<Value>
  {
    if keys == [] then []
    else MessagesOf(json, keys[..|keys| - 1]) + [PackageNlsMessage(keys[|keys| - 1], Member(Obj(json), keys[|keys| - 1]))]
  }

  /** The messages extracted from a `package.nls.json`, one per key of `Object.keys(json)`. */
  function PackageNlsMessages(json: Dict<Value>): seq<Value>
  {
    MessagesOf(json, json.keys)
  }

  /**
   * The extracted list has one message per key, in the order of the keys:
   * the value itself when it is a string, its `message` when it is any other
   * truthy value, and `Unknown message for key: <key>` otherwise.
   */
  lemma {:induction false} MessagesOfAt(json: Dict<Value>, keys: seq<string>)
    ensures |MessagesOf(json, keys)| == |keys|
    ensures forall i :: 0 <= i < |keys| ==>
      var value := Member(Obj(json), keys[i]);
      MessagesOf(json, keys)[i]
      == if value.Str? then value
         else if Truthy(value) then Member(value, "message")
         else Str("Unknown message for key: " + keys[i])
  {
    if keys != [] {
      MessagesOfAt(json, keys[..|keys| - 1]);
    }
  }

  /**
   * For a `package.nls.json` that passes `PackageJsonFormat.is`, the fallback
   * message is never used: every extracted message is the string value or the
   * object's defined `message`.
   */
  lemma ValidFormatMessages(json: Dict<Value>)
    requires PackageJsonFormatIs(Obj(json))
    ensures |PackageNlsMessages(json)| == |json.keys|
    ensures forall i :: 0 <= i < |json.keys| ==>
      var value := Member(Obj(json), json.keys[i]);
      && PackageNlsMessages(json)[i] == (if value.Str? then value else Member(value, "message"))
      && IsDefined(PackageNlsMessages(json)[i])
  {
    MessagesOfAt(json, json.keys);
    PackageJsonFormatIsIff(Obj(json));
    forall i | 0 <= i < |json.keys| ensures IsValueFormatEntry(Member(Obj(json), json.keys[i])) {
      assert json.keys[i] in json.keys;
    }
  }

  /** One `addFile(path, keys, messages)` call on an XLF document. */
  datatype XlfFileEntry = XlfFileEntry(path: string, keys: seq<Value>, messages: seq<Value>)

  /** An entry of an `nls.metadata.json`: the messages and keys of one bundled file. */
  datatype BundledEntry = BundledEntry(messages: seq<Value>, keys: seq<Value>)

  /**
   * A file a sub-stream receives: one that is not a buffer, a parsed
   * `package.nls.json`, a parsed `nls.metadata.json` (with its directory
   * relative to the extension's), or a file of any other name.
   */
  datatype NlsFile =
    | NonBuffer
    | PackageNls(json: Dict<Value>)
    | NlsMetadata(relPath: string, bundled: Dict<BundledEntry>)
    | OtherFile(path: string)

  ghost predicate NlsFileWellFormed(file: NlsFile)
  {
    match file
    case PackageNls(json) => json.Valid()
    case NlsMetadata(_, bundled) => bundled.Valid()
    case _ => true
  }

  /**
   * The state of the sub-stream of one extension folder: the folder's name,
   * the lazily created XLF document (`None` until `getXlf` is first called)
   * and the errors it emitted.
   */
  datatype SubStream = SubStream(extensionName: string, xlf: Option<seq<XlfFileEntry>>, errors: seq<string>)

  /** What the outer stream queues: an XLF file, or its end marker. */
  datatype OutItem = XlfOut(path: string, files: seq<XlfFileEntry>) | EndOfStream

  /** The XLF document after `addFile` was called with `entries`, one after the other. */
  function AddFiles(xlf: Option<seq<XlfFileEntry>>, entries: seq<XlfFileEntry>): Option<seq<XlfFileEntry>>
  {
    if entries == [] then xlf
    else match xlf
      case None => Some(entries)
      case Some(files) => Some(files + entries)
  }

  /** The `addFile` calls of the first `n` bundled files of an `nls.metadata.json`. */
  function MetadataEntries(extensionName: string, relPath: string, bundled: Dict<BundledEntry>, n: nat): seq<XlfFileEntry>
    requires n <= |bundled.keys| && forall i :: 0 <= i < n ==> bundled.keys[i] in bundled.values
  {
    if n == 0 then []
    else
      var file := bundled.keys[n - 1];
      MetadataEntries(extensionName, relPath, bundled, n - 1)
        + [XlfFileEntry("extensions/" + extensionName + "/" + relPath + "/" + file,
                        bundled.values[file].keys, bundled.values[file].messages)]
  }

  /** The keys of a `package.nls.json` as the values passed to `addFile`. */
  function KeyValues(keys: seq<string>): (r: seq<Value>)
    ensures |r| == |keys| && forall i :: 0 <= i < |keys| ==> r[i] == Str(keys[i])
  {
    seq(|keys|, i requires 0 <= i < |keys| => Str(keys[i]))
  }

  /** The effect of one file on a sub-stream. */
  function HandleNlsFile(s: SubStream, file: NlsFile): SubStream
    requires NlsFileWellFormed(file)
  {
    match file
    case NonBuffer => s
    case PackageNls(json) =>
      s.(xlf := AddFiles(s.xlf, [XlfFileEntry("extensions/" + s.extensionName + "/package", KeyValues(json.keys), PackageNlsMessages(json))]))
    case NlsMetadata(relPath, bundled) =>
      s.(xlf := AddFiles(s.xlf, MetadataEntries(s.extensionName, relPath, bundled, |bundled.keys|)))
    case OtherFile(path) =>
      s.(errors := s.errors + [path + " is not a valid extension nls file"])
  }

  /**
   * A `package.nls.json` always creates the XLF document and adds exactly one
   * file to it, `extensions/<name>/package`, whose keys are the object's keys
   * and whose messages are the extracted messages, one per key; an
   * `nls.metadata.json` appends one file per bundled file after the files
   * already there (`MetadataEntriesAt` says which) and creates the document
   * only when it has at least one; other files add nothing.
   */
  lemma HandleNlsFileSpec(s: SubStream, file: NlsFile)
    requires NlsFileWellFormed(file)
    ensures var t := HandleNlsFile(s, file);
      && t.extensionName == s.extensionName
      && (file.PackageNls? ==>
            && t.xlf.Some?
            && t.xlf.value == s.xlf.GetOr([])
                 + [XlfFileEntry("extensions/" + s.extensionName + "/package", KeyValues(file.json.keys), PackageNlsMessages(file.json))]
            && |KeyValues(file.json.keys)| == |PackageNlsMessages(file.json)|)
      && (file.NlsMetadata? ==>
            && (t.xlf.Some? <==> s.xlf.Some? || |file.bundled.keys| > 0)
            && t.xlf.GetOr([]) == s.xlf.GetOr([]) + MetadataEntries(s.extensionName, file.relPath, file.bundled, |file.bundled.keys|)
            && |t.xlf.GetOr([])| == |s.xlf.GetOr([])| + |file.bundled.keys|)
      && (file.NonBuffer? || file.OtherFile? ==> t.xlf == s.xlf)
      && (t.errors != s.errors <==> file.OtherFile?)
  {
    match file
    case PackageNls(json) =>
      MessagesOfAt(json, json.keys);
    case NlsMetadata(relPath, bundled) =>
      MetadataEntriesAt(s.extensionName, relPath, bundled, |bundled.keys|);
    case _ =>
  }

  /**
   * An `nls.metadata.json` gives one `addFile` per bundled file, in the order
   * of the bundled files: the path `extensions/<name>/<relPath>/<file>`, and
   * that file's keys and messages.
   */
  lemma {:induction false} MetadataEntriesAt(extensionName: string, relPath: string, bundled: Dict<BundledEntry>, n: nat)
    requires n <= |bundled.keys| && forall i :: 0 <= i < n ==> bundled.keys[i] in bundled.values
    ensures |MetadataEntries(extensionName, relPath, bundled, n)| == n
    ensures forall i :: 0 <= i < n ==>
      var file := bundled.keys[i];
      MetadataEntries(extensionName, relPath, bundled, n)[i]
      == XlfFileEntry("extensions/" + extensionName + "/" + relPath + "/" + file,
                      bundled.values[file].keys, bundled.values[file].messages)
  {
    if n > 0 {
      MetadataEntriesAt(extensionName, relPath, bundled, n - 1);
    }
  }

  lemma AddFilesStep(xlf: Option<seq<XlfFileEntry>>, entries: seq<XlfFileEntry>, e: XlfFileEntry)
    ensures AddFiles(xlf, entries + [e]) == AddFiles(AddFiles(xlf, entries), [e])
  {
    if entries == [] {
      assert entries + [e] == [e];
    } else if xlf.Some? {
      assert xlf.value + (entries + [e]) == (xlf.value + entries) + [e];
    }
  }

  /** How many end markers `out` holds. */
  function EndMarkers(out: seq<OutItem>): nat
  {
    if out == [] then 0
    else EndMarkers(out[..|out| - 1]) + (if out[|out| - 1] == EndOfStream then 1 else 0)
  }

  lemma EndMarkersAppend(out: seq<OutItem>, item: OutItem)
    ensures EndMarkers(out + [item]) == EndMarkers(out) + (if item == EndOfStream then 1 else 0)
  {
    assert (out + [item])[..|out|] == out;
  }

  /** What an ended sub-stream queues on the outer stream: its XLF document, if it built one. */
  function SubStreamOutput(s: SubStream): seq<OutItem>
  {
    match s.xlf
    case Some(files) => [XlfOut("extensions/" + s.extensionName + ".xlf", files)]
    case None => []
  }

  /** The `for (let file in json)` loop over a parsed `nls.metadata.json`: one XLF file per bundled file, in order. */
  method AddMetadataFiles(s: SubStream, relPath: string, bundled: Dict<BundledEntry>) returns (r: SubStream)
    requires bundled.Valid()
    ensures r == s.(xlf := AddFiles(s.xlf, MetadataEntries(s.extensionName, relPath, bundled, |bundled.keys|)))
  {
    r := s;
    var i := 0;
    while i < |bundled.keys|
      invariant 0 <= i <= |bundled.keys|
      invariant r == s.(xlf := AddFiles(s.xlf, MetadataEntries(s.extensionName, relPath, bundled, i)))
    {
      var bundledFile := bundled.keys[i];
      var fileContent := bundled.values[bundledFile];
      var entry := XlfFileEntry("extensions/" + r.extensionName + "/" + relPath + "/" + bundledFile,
                                fileContent.keys, fileContent.messages);
      AddFilesStep(s.xlf, MetadataEntries(s.extensionName, relPath, bundled, i), entry);
      r := r.(xlf := AddFiles(r.xlf, [entry]));
      i := i + 1;
    }
  }

  class XlfFolderStream {
    var counter: int
    var folderStreamEnded: bool
    var folderStreamEndEmitted: bool
    /** The running sub-streams, by an id the model gives each. */
    var subStreams: map<nat, SubStream>
    var nextId: nat
    /** Everything queued on the outer stream so far. */
    var output: seq<OutItem>

    /**
     * The counter is the number of running sub-streams; the end marker has
     * been queued exactly when the input has ended and no sub-stream runs,
     * it is then the last thing queued, and it is never queued twice.
     */
    ghost predicate Valid()
      reads this
    {
      && counter == |subStreams|
      && (forall id :: id in subStreams ==> id < nextId)
      && (folderStreamEndEmitted <==> folderStreamEnded && counter == 0)
      && EndMarkers(output) == (if folderStreamEndEmitted then 1 else 0)
      && (folderStreamEndEmitted ==> output != [] && output[|output| - 1] == EndOfStream)
    }

    constructor()
      ensures Valid()
      ensures counter == 0 && !folderStreamEnded && !folderStreamEndEmitted
      ensures subStreams == map[] && output == []
    {
      counter := 0;
      folderStreamEnded := false;
      folderStreamEndEmitted := false;
      subStreams := map[];
      nextId := 0;
      output := [];
    }

    /**
     * An entry of the input stream. A non-directory is skipped and changes
     * nothing; a directory starts a sub-stream and increments the counter.
     */
    method OnFolder(isDirectory: bool, extensionName: string) returns (id: Option<nat>)
      requires Valid() && !folderStreamEnded
      modifies this
      ensures Valid()
      ensures !isDirectory ==>
        && id == None
        && counter == old(counter) && subStreams == old(subStreams) && nextId == old(nextId)
        && output == old(output)
        && folderStreamEnded == old(folderStreamEnded) && folderStreamEndEmitted == old(folderStreamEndEmitted)
      ensures isDirectory ==>
        && id.Some? && id.value !in old(subStreams)
        && subStreams == old(subStreams)[id.value := SubStream(extensionName, None, [])]
        && counter == old(counter) + 1
        && output == old(output)
        && folderStreamEnded == old(folderStreamEnded) && folderStreamEndEmitted == old(folderStreamEndEmitted)
    {
      if !isDirectory {
        return None;
      }
      counter := counter + 1;
      var newId := nextId;
      assert (subStreams[newId := SubStream(extensionName, None, [])]).Keys == subStreams.Keys + {newId};
      subStreams := subStreams[newId := SubStream(extensionName, None, [])];
      nextId := nextId + 1;
      id := Some(newId);
    }

    /** A file read by the sub-stream `id`. */
    method OnNlsFile(id: nat, file: NlsFile)
      requires Valid() && id in subStreams && NlsFileWellFormed(file)
      modifies this`subStreams
      ensures Valid()
      ensures subStreams == old(subStreams)[id := HandleNlsFile(old(subStreams)[id], file)]
    {
      var s := subStreams[id];
      match file {
        case NonBuffer =>
        case PackageNls(json) =>
          var keys := json.keys;
          var messages := PackageNlsMessages(json);
          s := s.(xlf := AddFiles(s.xlf, [XlfFileEntry("extensions/" + s.extensionName + "/package", KeyValues(keys), messages)]));
        case NlsMetadata(relPath, bundled) =>
          s := AddMetadataFiles(s, relPath, bundled);
        case OtherFile(path) =>
          s := s.(errors := s.errors + [path + " is not a valid extension nls file"]);
      }
      assert subStreams[id := s].Keys == subStreams.Keys;
      subStreams := subStreams[id := s];
    }

    /**
     * The sub-stream `id` ends: its XLF document, if it has one, is queued on
     * the outer stream as `extensions/<name>.xlf`, the counter is decremented,
     * and if it reaches zero after the input has ended the end marker follows.
     */
    method OnSubStreamEnd(id: nat)
      requires Valid() && id in subStreams
      modifies this
      ensures Valid()
      ensures subStreams == old(subStreams) - {id} && counter == old(counter) - 1 && nextId == old(nextId)
      ensures folderStreamEnded == old(folderStreamEnded)
      ensures folderStreamEndEmitted == (counter == 0 && folderStreamEnded)
      ensures output == old(output) + SubStreamOutput(old(subStreams)[id])
        + (if counter == 0 && folderStreamEnded then [EndOfStream] else [])
    {
      assert !folderStreamEndEmitted;
      QueueSubStreamOutput(subStreams[id]);
      assert |subStreams - {id}| == |subStreams| - 1 by {
        assert (subStreams - {id}).Keys == subStreams.Keys - {id};
      }
      subStreams := subStreams - {id};
      counter := counter - 1;
      if counter == 0 && folderStreamEnded && !folderStreamEndEmitted {
        EmitEnd();
      }
    }

    /** `folderStreamEndEmitted = true; this.queue(null)`: the end marker, queued for the first time. */
    method EmitEnd()
      requires !folderStreamEndEmitted && EndMarkers(output) == 0
      modifies this`folderStreamEndEmitted, this`output
      ensures folderStreamEndEmitted && output == old(output) + [EndOfStream] && EndMarkers(output) == 1
    {
      folderStreamEndEmitted := true;
      EndMarkersAppend(output, EndOfStream);
      output := output + [EndOfStream];
    }

    /** `this.queue(new File({ path: 'extensions/<name>.xlf', ... }))` when the sub-stream built a document. */
    method QueueSubStreamOutput(s: SubStream)
      modifies this`output
      ensures output == old(output) + SubStreamOutput(s)
      ensures EndMarkers(output) == EndMarkers(old(output))
    {
      if s.xlf.Some? {
        EndMarkersAppend(output, XlfOut("extensions/" + s.extensionName + ".xlf", s.xlf.value));
        output := output + [XlfOut("extensions/" + s.extensionName + ".xlf", s.xlf.value)];
      }
    }

    /** The input stream ends: the end marker is queued now if no sub-stream runs. */
    method OnFolderStreamEnd()
      requires Valid() && !folderStreamEnded
      modifies this
      ensures Valid()
      ensures folderStreamEnded
      ensures counter == old(counter) && subStreams == old(subStreams) && nextId == old(nextId)
      ensures folderStreamEndEmitted == (counter == 0)
      ensures output == old(output) + (if counter == 0 then [EndOfStream] else [])
    {
      folderStreamEnded := true;
      if counter == 0 {
        EmitEnd();
      }
    }
  }
}
