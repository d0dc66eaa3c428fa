/** Build metadata supplied by the CI run and the tag lists derived from it
    (`CIBuildMetadata`, `to_tags` and `unpack_dict` in entrypoint.py). */
module BuildTags {
  import opened Aws

  /** The CI-provided facts about the current build; immutable once built. */
  datatype CIBuildMetadata = CIBuildMetadata(
    commitId: string,
    message: string,
    branch: string,
    buildNumber: string,
    committerEmail: string,
    committerUsername: string,
    committerName: string)

  /** Different AWS APIs spell the two fields of a tag "key"/"value" or "Key"/"Value". */
  function KeyField(lowercaseKeys: bool): string {
    if lowercaseKeys then "key" else "Key"
  }

  function ValueField(lowercaseKeys: bool): string {
    if lowercaseKeys then "value" else "Value"
  }

  /** One dict entry as a two-field tag record. */
  function Record(k: string, v: string, lowercaseKeys: bool): TagRecord {
    map[KeyField(lowercaseKeys) := k, ValueField(lowercaseKeys) := v]
  }

  /** A Python dict in insertion order is a sequence of (key, value) pairs. */
  type Dict = seq<(string, string)>

  /** What `unpack_dict` returns: one record per entry, in the dict's order,
      carrying exactly the two fields of the chosen spelling. */
  function Unpacked(d: Dict, lowercaseKeys: bool): (records: seq<TagRecord>)
    ensures |records| == |d|
    ensures forall i :: 0 <= i < |d| ==>
      && records[i].Keys == {KeyField(lowercaseKeys), ValueField(lowercaseKeys)}
      && records[i][KeyField(lowercaseKeys)] == d[i].0
      && records[i][ValueField(lowercaseKeys)] == d[i].1
  {
    seq(|d|, i requires 0 <= i < |d| => Record(d[i].0, d[i].1, lowercaseKeys))
  }

  /** `unpack_dict(dict_to_unpack, lowercase_keys)`: builds the list by appending. */
  method UnpackDict(dictToUnpack: Dict, lowercaseKeys: bool) returns (unpackedDict: seq<TagRecord>)
    ensures unpackedDict == Unpacked(dictToUnpack, lowercaseKeys)
  {
    var keyString := KeyField(lowercaseKeys);
    var valueString := ValueField(lowercaseKeys);
    unpackedDict := [];
    for i := 0 to |dictToUnpack|
      invariant unpackedDict == Unpacked(dictToUnpack[..i], lowercaseKeys)
    {
      var (k, v) := dictToUnpack[i];
      unpackedDict := unpackedDict + [map[keyString := k, valueString := v]];
    }
    assert dictToUnpack[..|dictToUnpack|] == dictToUnpack;
  }

  /** Reads a record list back into dict entries; the inverse of `Unpacked`. */
  function Repacked(records: seq<TagRecord>, lowercaseKeys: bool): Dict
    requires forall i :: 0 <= i < |records| ==>
      KeyField(lowercaseKeys) in records[i] && ValueField(lowercaseKeys) in records[i]
  {
    seq(|records|, i requires 0 <= i < |records| =>
      (records[i][KeyField(lowercaseKeys)], records[i][ValueField(lowercaseKeys)]))
  }

  /** Unpacking loses nothing: the entries, and their order, can be read back. */
  lemma RepackUnpacked(d: Dict, lowercaseKeys: bool)
    ensures Repacked(Unpacked(d, lowercaseKeys), lowercaseKeys) == d
  {
    var back := Repacked(Unpacked(d, lowercaseKeys), lowercaseKeys);
    assert |back| == |d|;
    forall i | 0 <= i < |d| ensures back[i] == d[i] {
      var (k, v) := d[i];
      assert back[i] == (k, v);
    }
  }

  /** The dict literal of `to_tags`, in its insertion order (no message). */
  function TagEntries(build: CIBuildMetadata): Dict {
    [ ("CI_COMMIT_ID", build.commitId),
      ("CI_BRANCH", build.branch),
      ("CI_BUILD_NUMBER", build.buildNumber),
      ("CI_COMMITTER_EMAIL", build.committerEmail),
      ("CI_COMMITTER_NAME", build.committerName),
      ("CI_COMMITTER_USERNAME", build.committerUsername) ]
  }

  /** The tag list `to_tags(lowercase_keys)` returns. */
  function TagSet(build: CIBuildMetadata, lowercaseKeys: bool): seq<TagRecord> {
    Unpacked(TagEntries(build), lowercaseKeys)
  }

  /** `CIBuildMetadata.to_tags(lowercase_keys=True)` */
  method ToTags(build: CIBuildMetadata, lowercaseKeys: bool) returns (tags: seq<TagRecord>)
    ensures tags == TagSet(build, lowercaseKeys)
  {
    tags := UnpackDict(TagEntries(build), lowercaseKeys);
  }

  const TagNames: seq<string> :=
    ["CI_COMMIT_ID", "CI_BRANCH", "CI_BUILD_NUMBER",
     "CI_COMMITTER_EMAIL", "CI_COMMITTER_NAME", "CI_COMMITTER_USERNAME"]

  /** `to_tags` yields six records in a fixed order, each with exactly the
      two fields of the chosen spelling, the build's value for each name, and
      no record for the commit message. */
  lemma TagSetShape(build: CIBuildMetadata, lowercaseKeys: bool)
    ensures var tags := TagSet(build, lowercaseKeys);
      && |tags| == 6
      && (forall i :: 0 <= i < 6 ==>
            && tags[i].Keys == {KeyField(lowercaseKeys), ValueField(lowercaseKeys)}
            && tags[i][KeyField(lowercaseKeys)] == TagNames[i]
            && tags[i][KeyField(lowercaseKeys)] != "CI_MESSAGE")
      && tags[0][ValueField(lowercaseKeys)] == build.commitId
      && tags[1][ValueField(lowercaseKeys)] == build.branch
      && tags[2][ValueField(lowercaseKeys)] == build.buildNumber
      && tags[3][ValueField(lowercaseKeys)] == build.committerEmail
      && tags[4][ValueField(lowercaseKeys)] == build.committerName
      && tags[5][ValueField(lowercaseKeys)] == build.committerUsername
  {
  }
}
