/** The upload-side decisions of the server: which uploads the filter lets
    through, the name an accepted upload is staged under, and the name of the
    audio file derived from it. */
module Naming {
  import opened Paths
  import opened Decimal

  /** The only MIME type the upload filter lets through. */
  const VIDEO_MP4 := "video/mp4"

  /** The extension that replaces the original one in the output name. */
  const MP3_EXTENSION := ".mp3"

  /** The upload filter: true exactly when the declared MIME type is `video/mp4`. */
  predicate AcceptsMime(mimeType: string)
  {
    mimeType == VIDEO_MP4
  }

  /** The staging name: the millisecond timestamp in decimal, then the
      extension of the original name. */
  function StagedName(timestamp: nat, originalName: string): string
  {
    DecimalString(timestamp) + ExtName(originalName)
  }

  /** The output name: the original name with the first occurrence of its
      extension replaced by ".mp3". */
  function OutputName(originalName: string): string
  {
    ReplaceFirst(originalName, ExtName(originalName), MP3_EXTENSION)
  }

  /** The staged name determines both the timestamp and the extension: uploads
      staged at distinct milliseconds never share a staged name. */
  lemma StagedNameInjective(t1: nat, name1: string, t2: nat, name2: string)
    requires StagedName(t1, name1) == StagedName(t2, name2)
    ensures t1 == t2
    ensures ExtName(name1) == ExtName(name2)
  {
    var staged := StagedName(t1, name1);
    var a, b := DecimalString(t1), DecimalString(t2);
    LeadingDigitsOfDigitsAndDotted(a, ExtName(name1));
    LeadingDigitsOfDigitsAndDotted(b, ExtName(name2));
    assert a == staged[..|a|];
    assert b == staged[..|b|];
    DecimalStringInjective(t1, t2);
    assert ExtName(name1) == staged[|a|..] == ExtName(name2);
  }

  /** A staged name keeps the original's extension behind the decimal timestamp. */
  lemma StagedNameOfFileName(timestamp: nat, stem: string, ext: string)
    requires stem != [] && '/' !in stem
    requires '.' !in ext && '/' !in ext
    requires stem + "." + ext != ".."
    ensures StagedName(timestamp, stem + "." + ext) == DecimalString(timestamp) + "." + ext
  {
    ExtNameOfFileName(stem, ext);
  }

  /** The output name is the original name with ".mp3" put in place of the
      FIRST place its extension occurs, which always exists. */
  lemma OutputNameReplacesFirstOccurrence(name: string)
    ensures var e := ExtName(name);
            var i := IndexOf(name, e);
            && 0 <= i
            && OccursAt(name, e, i)
            && (forall j: nat :: j < i ==> !OccursAt(name, e, j))
            && OutputName(name) == name[..i] + ".mp3" + name[i + |e|..]
  {
    ExtNameOccurs(name);
  }

  /** When a name starts with a stem free of '.', a pattern that starts with
      '.' and occurs right after the stem first occurs there. */
  lemma FirstOccurrenceAfterDotFreeStem(name: string, stem: string, pat: string)
    requires |stem| + |pat| <= |name|
    requires '.' !in stem && name[..|stem|] == stem
    requires pat != [] && pat[0] == '.' && name[|stem|..|stem| + |pat|] == pat
    ensures IndexOf(name, pat) == |stem|
    ensures ReplaceFirst(name, pat, MP3_EXTENSION) == stem + ".mp3" + name[|stem| + |pat|..]
  {
    assert OccursAt(name, pat, |stem|);
    forall j: nat | j < |stem|
      ensures !OccursAt(name, pat, j)
    {
      assert name[j] == stem[j];
    }
  }

  /** For a name whose only '.' introduces its extension (for instance
      "clip.mp4"), the extension is swapped for ".mp3". */
  lemma OutputNameOfFileName(stem: string, ext: string)
    requires stem != [] && '.' !in stem && '/' !in stem
    requires '.' !in ext && '/' !in ext
    ensures OutputName(stem + "." + ext) == stem + ".mp3"
  {
    var name := stem + "." + ext;
    assert name[0] == stem[0];
    ExtNameOfFileName(stem, ext);
    var e := "." + ext;
    assert name[..|stem|] == stem;
    assert name[|stem|..|stem| + |e|] == e;
    FirstOccurrenceAfterDotFreeStem(name, stem, e);
  }

  /** For a name without any '.', ".mp3" is put in front of it. */
  lemma OutputNameWithoutExtension(name: string)
    requires '.' !in name
    ensures OutputName(name) == ".mp3" + name
  {
  }

  /** A hidden file such as ".mp4" has no extension, so ".mp3" is put in front of it. */
  lemma OutputNameOfDotName(rest: string)
    requires '.' !in rest && '/' !in rest
    ensures OutputName("." + rest) == ".mp3." + rest
  {
  }

  /** When the extension occurs twice, as in "a.mp4.mp4", the earlier
      occurrence is replaced and the name keeps its original extension:
      "a.mp3.mp4". */
  lemma OutputNameOfRepeatedExtension(stem: string, ext: string)
    requires stem != [] && '.' !in stem && '/' !in stem
    requires '.' !in ext && '/' !in ext
    ensures var e := "." + ext; OutputName(stem + e + e) == stem + MP3_EXTENSION + e
  {
    var e := "." + ext;
    var name := stem + e + e;
    assert name == stem + "." + ext + "." + ext;
    ExtNameOfDoubledExtension(stem, ext);
    assert name[..|stem|] == stem;
    assert name[|stem|..|stem| + |e|] == e;
    FirstOccurrenceAfterDotFreeStem(name, stem, e);
    assert name[|stem| + |e|..] == e;
  }

  /** In "a.mp4.mp4" the extension is the last ".mp4". */
  lemma ExtNameOfDoubledExtension(stem: string, ext: string)
    requires stem != [] && '.' !in stem && '/' !in stem
    requires '.' !in ext && '/' !in ext
    ensures ExtName(stem + "." + ext + "." + ext) == "." + ext
  {
    var first := stem + "." + ext;
    assert first[0] == stem[0];
    assert (first + "." + ext)[0] == stem[0];
    assert forall i :: 0 <= i < |first| ==> first[i] == '.' || first[i] in stem || first[i] in ext;
    ExtNameOfFileName(first, ext);
  }
}
