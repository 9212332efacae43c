/**
 * The linter's configuration file, `.spectral.yaml`, and the step that makes
 * sure it extends the custom ruleset `./isp-rules.yaml` (entrypoint.js:22-38).
 * The file is seen as its parsed YAML document; reading, parsing, dumping and
 * writing are outside the model.
 */
module SpectralConfig {
  import opened Wrappers

  /**
   * The value of one of the other keys. The merge only carries these through,
   * so this is a simplification of YAML's values: numbers are integers, and
   * floats, timestamps, anchors and aliases have no counterpart.
   */
  datatype Yaml =
    | YNull
    | YBool(b: bool)
    | YNumber(n: int)
    | YString(s: string)
    | YList(items: seq<Yaml>)
    | YMap(entries: map<string, Yaml>)

  /**
   * A configuration document: every top-level key other than `extends`, and
   * the `extends` list. `None` stands for every value of `extends` that
   * JavaScript finds falsy: a missing key, `null`, `false`, `0` and `""`.
   * The script treats them all alike, replacing them with `[]`.
   */
  datatype Document = Document(fields: map<string, Yaml>, extendsList: Option<seq<string>>)

  /** A document in which `extends` is kept apart from the other keys, as in a parsed mapping. */
  predicate WellFormed(d: Document) {
    "extends" !in d.fields
  }

  /** The file `.spectral.yaml` on disk: absent, or present with its parsed content. */
  datatype ConfigFile = Missing | Present(doc: Document)

  const RulesetRef: string := "./isp-rules.yaml"

  /** The `extends` list a document has, a falsy one read as empty. */
  function Entries(list: Option<seq<string>>): (entries: seq<string>)
    ensures list.None? ==> entries == []
    ensures list.Some? ==> entries == list.value
  {
    if list.Some? then list.value else []
  }

  /**
   * The document written back: the created one when the file is absent,
   * otherwise the parsed one with `ref` appended to `extends` unless it is
   * already listed.
   */
  function Merged(file: ConfigFile, ref: string): (d: Document)
    ensures d.extendsList.Some? && ref in d.extendsList.value
    ensures file.Missing? ==> d == Document(map[], Some([ref]))
    ensures file.Present? ==> d.fields == file.doc.fields
    ensures file.Present? ==> Entries(file.doc.extendsList) <= d.extendsList.value
    ensures file.Present? ==> |d.extendsList.value| <= |Entries(file.doc.extendsList)| + 1
    ensures (file.Missing? || WellFormed(file.doc)) ==> WellFormed(d)
  {
    match file
    case Missing => Document(map[], Some([ref]))
    case Present(doc) =>
      var entries := Entries(doc.extendsList);
      doc.(extendsList := Some(if ref in entries then entries else entries + [ref]))
  }

  /**
   * The script's merge step, updating the parsed document in place: a falsy
   * `extends` becomes `[]`, then `RulesetRef` is pushed unless the list
   * already includes it. Returns the document the script writes.
   */
  method EnsureRulesetLinked(file: ConfigFile) returns (written: Document)
    ensures written == Merged(file, RulesetRef)
  {
    match file
    case Missing =>
      written := Document(map[], Some([RulesetRef]));
    case Present(doc) =>
      var d := doc;
      if d.extendsList.None? {
        d := d.(extendsList := Some([]));
      }
      if RulesetRef !in d.extendsList.value {
        d := d.(extendsList := Some(d.extendsList.value + [RulesetRef]));
      }
      written := d;
  }

  /** Merging the written document again writes the same document. */
  lemma MergeIdempotent(file: ConfigFile, ref: string)
    ensures Merged(Present(Merged(file, ref)), ref) == Merged(file, ref)
  {
  }

  /**
   * The merge adds `ref` only when it is missing: afterwards it occurs once
   * if it did not occur before, and as often as before otherwise; every other
   * entry occurs exactly as often as before.
   */
  lemma MergeOccurrences(file: ConfigFile, ref: string)
    requires file.Present?
    ensures var before, after := multiset(Entries(file.doc.extendsList)), multiset(Merged(file, ref).extendsList.value);
      && after[ref] == (if before[ref] == 0 then 1 else before[ref])
      && forall x :: x != ref ==> after[x] == before[x]
  {
  }

  /** A list that did not repeat `ref` lists it exactly once after the merge. */
  lemma MergeListsRefOnce(file: ConfigFile, ref: string)
    requires file.Present? ==> multiset(Entries(file.doc.extendsList))[ref] <= 1
    ensures multiset(Merged(file, ref).extendsList.value)[ref] == 1
  {
    if file.Present? {
      MergeOccurrences(file, ref);
    }
  }

  /** A document without `extends` gets exactly `[ref]`, as a created file does. */
  lemma MergeWithoutExtends(file: ConfigFile, ref: string)
    requires file.Missing? || file.doc.extendsList.None?
    ensures Merged(file, ref).extendsList == Some([ref])
  {
    if file.Present? {
      assert Entries(file.doc.extendsList) + [ref] == [ref];
    }
  }
}
