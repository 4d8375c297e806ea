/**
 * The language-pack documents written by locFunc.ts: `createI18nFile` and
 * `updateMainI18nFile`. A document is the JSON object that becomes the file
 * `<originalFilePath>.i18n.json`; the JSON text itself is not modelled.
 */
module I18nFiles {
  import opened Dicts
  import opened JsValues

  const I18nPackVersion := "1.0.0"

  /** A language pack: `{ version, contents }`, `contents` mapping a file key to that file's messages. */
  datatype I18nPack = I18nPack(version: string, contents: Dict<Value>)

  /** A file queued on the output stream: its path and the object its JSON text encodes. */
  datatype I18nFile = I18nFile(path: string, document: Dict<Value>)

  /** The pack a fresh `{ version: i18nPackVersion, contents: {} }` literal creates. */
  function NewPack(): (p: I18nPack)
    ensures p.version == "1.0.0" && p.contents.Valid() && p.contents.values == map[]
  {
    I18nPack(I18nPackVersion, Empty())
  }

  /** The five header lines every document carries under the empty key. */
  const HeaderLines: seq<Value> := [Str("--------------------------------------------------------------------------------------------"),
      Str("Copyright (c) Microsoft Corporation. All rights reserved."),
      Str("Licensed under the Source EULA. See License.txt in the project root for license information."),
      Str("--------------------------------------------------------------------------------------------"),
      Str("Do not edit this file. It is machine generated.")]

  function HeaderValue(): Value
  {
    Arr(HeaderLines)
  }

  /** `result` right after `result[''] = [ ...header... ]` on an `Object.create(null)`. */
  function HeaderObject(): (r: Dict<Value>)
    ensures r.Valid()
  {
    Dict([""], map["" := HeaderValue()])
  }

  /** The document written for `messages`: the header, then every property of `messages` copied over it. */
  function Document(messages: Dict<Value>): Dict<Value>
  {
    Merge(HeaderObject(), messages)
  }

  lemma DocumentFields(messages: Dict<Value>)
    requires messages.Valid()
    ensures Document(messages).Valid()
    ensures Document(messages).keys == [""] + Without(messages.keys, {""})
    ensures Document(messages).values.Keys == {""} + messages.values.Keys
    ensures forall k :: k in messages.values ==> Document(messages).values[k] == messages.values[k]
    ensures "" !in messages.values ==> Document(messages).values[""] == HeaderValue()
  {
    MergeValid(HeaderObject(), messages);
    assert HeaderObject().values.Keys == {""};
  }

  /** A pack as the JavaScript object `{ version, contents }` it is. */
  function PackObject(p: I18nPack): Dict<Value>
  {
    Dict(["version", "contents"], map["version" := Str(p.version), "contents" := Obj(p.contents)])
  }

  lemma PackObjectValid(p: I18nPack)
    ensures PackObject(p).Valid()
  {
  }

  /**
   * The document written for a pack: the header under `''`, then `version`,
   * then `contents`, each holding the pack's own value.
   */
  lemma PackDocument(p: I18nPack)
    ensures Document(PackObject(p)).Valid()
    ensures Document(PackObject(p)).keys == ["", "version", "contents"]
    ensures Document(PackObject(p)).values.Keys == {"", "version", "contents"}
    ensures Document(PackObject(p)).values[""] == HeaderValue()
    ensures Document(PackObject(p)).values["version"] == Str(p.version)
    ensures Document(PackObject(p)).values["contents"] == Obj(p.contents)
  {
    PackDocumentKeys(p);
    PackDocumentValues(p);
  }

  lemma PackDocumentKeys(p: I18nPack)
    ensures Document(PackObject(p)).Valid()
    ensures Document(PackObject(p)).keys == ["", "version", "contents"]
  {
    PackObjectValid(p);
    DocumentFields(PackObject(p));
    PackKeysKept();
  }

  lemma PackDocumentValues(p: I18nPack)
    ensures Document(PackObject(p)).values.Keys == {"", "version", "contents"}
    ensures Document(PackObject(p)).values[""] == HeaderValue()
    ensures Document(PackObject(p)).values["version"] == Str(p.version)
    ensures Document(PackObject(p)).values["contents"] == Obj(p.contents)
  {
    PackObjectValid(p);
    DocumentFields(PackObject(p));
  }

  /** Neither key of a pack object is the header key, so both follow it in order. */
  lemma PackKeysKept()
    ensures Without(["version", "contents"], {""}) == ["version", "contents"]
  {
    var keys := ["version", "contents"];
    assert keys[..1] == ["version"] && keys[..1][..0] == [];
  }

  /**
   * `createI18nFile`: the file `originalFilePath + '.i18n.json'` whose document
   * lists the header under `''` first and then every key of `messages` with its
   * value; a `''` key of `messages` replaces the header but keeps its place.
   */
  method CreateI18nFile(originalFilePath: string, messages: Dict<Value>) returns (file: I18nFile)
    requires messages.Valid()
    ensures file.path == originalFilePath + ".i18n.json"
    ensures file.document == Document(messages)
  {
    var result := HeaderObject();
    MergeNothing(HeaderObject(), messages);
    var i := 0;
    while i < |messages.keys|
      invariant 0 <= i <= |messages.keys|
      invariant result == Merge(HeaderObject(), Prefix(messages, i))
    {
      var key := messages.keys[i];
      MergePrefixStep(HeaderObject(), messages, i);
      result := result.Set(key, messages.values[key]);
      i := i + 1;
    }
    PrefixAll(messages);
    file := I18nFile(originalFilePath + ".i18n.json", result);
  }

  /** JSON.parse can only give objects whose keys are listed once; this is that fact for `contents`. */
  ghost predicate ContentsWellFormed(existing: Value)
  {
    Member(existing, "contents").Obj? ==> Member(existing, "contents").fields.Valid()
  }

  /** What `...currentContentObject.contents` spreads: the properties of an object, none otherwise. */
  function ExistingContents(existing: Value): Dict<Value>
  {
    var contents := Member(existing, "contents");
    if contents.Obj? then contents.fields else Empty()
  }

  /** `messages.contents = { ...currentContentObject.contents, ...messages.contents }`. */
  function MergeExisting(existing: Value, messages: I18nPack): I18nPack
  {
    messages.(contents := Merge(ExistingContents(existing), messages.contents))
  }

  /**
   * The merge keeps the pack's version; its contents hold every key of the
   * existing file's contents and of the new contents; on a key both have the
   * new value wins, a key only the existing file has keeps its value, and the
   * existing keys stay first in their order.
   */
  lemma MergeExistingSpec(existing: Value, messages: I18nPack)
    requires ContentsWellFormed(existing) && messages.contents.Valid()
    ensures MergeExisting(existing, messages).version == messages.version
    ensures MergeExisting(existing, messages).contents.Valid()
    ensures MergeExisting(existing, messages).contents.values.Keys
         == ExistingContents(existing).values.Keys + messages.contents.values.Keys
    ensures forall k :: k in messages.contents.values ==>
              MergeExisting(existing, messages).contents.values[k] == messages.contents.values[k]
    ensures forall k :: k in ExistingContents(existing).values && k !in messages.contents.values ==>
              MergeExisting(existing, messages).contents.values[k] == ExistingContents(existing).values[k]
    ensures ExistingContents(existing).keys <= MergeExisting(existing, messages).contents.keys
  {
    MergeValid(ExistingContents(existing), messages.contents);
  }

  /** The main file after the existing one was read: the merged pack and the queued file, or a failure. */
  datatype MainUpdate = Updated(pack: I18nPack, file: I18nFile) | ExistingUnreadable

  /**
   * `updateMainI18nFile`. `existing` is the parsed content of
   * `existingTranslationFilePath + '.i18n.json'`, `None` when reading or
   * parsing it throws; a parsed `null` throws when its `contents` is read.
   * The merged pack replaces `messages` (its `contents` is reassigned in place)
   * and its document is written as `createI18nFile` writes one.
   */
  method UpdateMainI18nFile(existing: Option<Value>, originalFilePath: string, messages: I18nPack)
    returns (u: MainUpdate)
    requires messages.contents.Valid()
    requires existing.Some? ==> ContentsWellFormed(existing.value)
    ensures u.Updated? <==> existing.Some? && !Nullish(existing.value)
    ensures u.Updated? ==> u.pack == MergeExisting(existing.value, messages)
    ensures u.Updated? ==> u.file.path == originalFilePath + ".i18n.json"
    ensures u.Updated? ==> u.file.document == Document(PackObject(u.pack))
  {
    if existing.None? || Nullish(existing.value) {
      return ExistingUnreadable;
    }
    var merged := MergeExisting(existing.value, messages);
    PackObjectValid(merged);
    var file := CreateI18nFile(originalFilePath, PackObject(merged));
    u := Updated(merged, file);
  }
}
