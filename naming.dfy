/** The output file name and the response media type. */
module Naming {
  import opened Text
  import opened Wrappers

  /** At most this many characters of the encoded text go into the output name. */
  const NameLimit: nat := 50

  /** Characters kept verbatim in the output name. */
  predicate Allowed(c: char) {
    IsAlnum(c) || c == '-' || c == '_'
  }

  /**
   * `safe_name`: the first 50 characters of `words`, each character that is
   * not alphanumeric, '-' or '_' replaced by '_'.
   */
  function SafeName(words: string): (name: string)
    ensures |name| == Min(|words|, NameLimit)
  {
    var prefix := words[..Min(|words|, NameLimit)];
    seq(|prefix|, i requires 0 <= i < |prefix| => if Allowed(prefix[i]) then prefix[i] else '_')
  }

  /**
   * The name holds only allowed characters: each allowed character of the
   * text's first 50 stays where it was, every other one becomes '_'.
   */
  lemma SafeNameChars(words: string)
    ensures var name := SafeName(words);
      && (forall i :: 0 <= i < |name| ==> Allowed(name[i]))
      && (forall i :: 0 <= i < |name| && Allowed(words[i]) ==> name[i] == words[i])
      && (forall i :: 0 <= i < |name| && !Allowed(words[i]) ==> name[i] == '_')
  {
  }

  /** The output is animated exactly when an upload is present and its lower-cased name ends in ".gif". */
  predicate IsGifUpload(filename: Option<string>) {
    filename.Some? && EndsWith(Lower(filename.value), ".gif")
  }

  /** `save_name`: the sanitised text followed by ".gif" or ".png". */
  function SaveName(words: string, filename: Option<string>): (name: string)
    ensures |name| == |SafeName(words)| + 4
    ensures name[..|name| - 4] == SafeName(words)
    ensures EndsWith(name, ".gif") <==> IsGifUpload(filename)
    ensures !EndsWith(name, ".gif") ==> EndsWith(name, ".png")
  {
    var name := SafeName(words) + (if IsGifUpload(filename) then ".gif" else ".png");
    assert name[|name| - 4..] == (if IsGifUpload(filename) then ".gif" else ".png");
    name
  }

  /** `media_type`: chosen from the name the composer returned, case-sensitively. */
  function MediaType(qrName: string): (t: string)
    ensures t == "image/gif" || t == "image/png"
    ensures t == "image/gif" <==> EndsWith(qrName, ".gif")
  {
    if EndsWith(qrName, ".gif") then "image/gif" else "image/png"
  }

  /** Sanitising twice is sanitising once. */
  lemma SafeNameIdempotent(words: string)
    ensures SafeName(SafeName(words)) == SafeName(words)
  {
    var once := SafeName(words);
    var twice := SafeName(once);
    assert |twice| == |once|;
    forall i | 0 <= i < |once|
      ensures twice[i] == once[i]
    {
    }
  }

  /** A text made only of allowed characters and at most 50 long is its own name. */
  lemma SafeNameKeepsAllowed(words: string)
    requires |words| <= NameLimit
    requires forall i :: 0 <= i < |words| ==> Allowed(words[i])
    ensures SafeName(words) == words
  {
    var name := SafeName(words);
    assert |name| == |words|;
    forall i | 0 <= i < |words|
      ensures name[i] == words[i]
    {
    }
  }

  /** The name depends only on the first 50 characters of the text. */
  lemma SafeNameDependsOnPrefix(a: string, b: string)
    requires a[..Min(|a|, NameLimit)] == b[..Min(|b|, NameLimit)]
    ensures SafeName(a) == SafeName(b)
  {
    var na, nb := SafeName(a), SafeName(b);
    assert |na| == |nb|;
    forall i | 0 <= i < |na|
      ensures na[i] == nb[i]
    {
      assert a[i] == a[..Min(|a|, NameLimit)][i];
      assert b[i] == b[..Min(|b|, NameLimit)][i];
    }
  }

  /** When the composer returns the requested name, the media type is GIF exactly for a GIF upload. */
  lemma MediaTypeOfSaveName(words: string, filename: Option<string>)
    ensures MediaType(SaveName(words, filename)) == "image/gif" <==> IsGifUpload(filename)
    ensures MediaType(SaveName(words, filename)) == "image/png" <==> !IsGifUpload(filename)
  {
  }
}
