/**
 * The font uploader: a font name and a font file are validated, the file is read as a data URL,
 * and the font is stored under a family name derived from the font name and announced to the page.
 * The file read is asynchronous; its outcome is an input of the completion step. Injecting the
 * `@font-face` rule into the document is not modelled.
 */
module FontUploader {
  import opened Wrappers
  import opened JsStrings

  /** `getFontFormat(filename)`: the `format()` hint of the `@font-face` rule. */
  function FontFormat(filename: string): (r: string)
    ensures EndsWith(filename, ".ttf") ==> r == "truetype"
    ensures !EndsWith(filename, ".ttf") && EndsWith(filename, ".otf") ==> r == "opentype"
    ensures !EndsWith(filename, ".ttf") && !EndsWith(filename, ".otf") && EndsWith(filename, ".woff") ==> r == "woff"
    ensures !EndsWith(filename, ".ttf") && !EndsWith(filename, ".otf") && !EndsWith(filename, ".woff") && EndsWith(filename, ".woff2") ==> r == "woff2"
    ensures !IsFontFile(filename) ==> r == "truetype"
  {
    if EndsWith(filename, ".ttf") then "truetype"
    else if EndsWith(filename, ".otf") then "opentype"
    else if EndsWith(filename, ".woff") then "woff"
    else if EndsWith(filename, ".woff2") then "woff2"
    else "truetype"
  }

  /** The extensions the uploader accepts. */
  predicate IsFontFile(filename: string) {
    EndsWith(filename, ".ttf") || EndsWith(filename, ".otf") || EndsWith(filename, ".woff") || EndsWith(filename, ".woff2")
  }

  /** The four extensions each map to their own format; in particular ".woff2" is not taken for ".woff". */
  lemma FontFormatOfEachExtension(stem: string)
    ensures FontFormat(stem + ".ttf") == "truetype"
    ensures FontFormat(stem + ".otf") == "opentype"
    ensures FontFormat(stem + ".woff") == "woff"
    ensures FontFormat(stem + ".woff2") == "woff2"
  {
    var t, o, w, w2 := stem + ".ttf", stem + ".otf", stem + ".woff", stem + ".woff2";
    assert t[|t| - 4..] == ".ttf";
    assert o[|o| - 4..] == ".otf" && o[|o| - 4..] != ".ttf";
    assert w[|w| - 5..] == ".woff";
    assert w[|w| - 4..] != ".ttf" && w[|w| - 4..] != ".otf" by { assert w[|w| - 4..][0] == 'w'; }
    assert w2[|w2| - 6..] == ".woff2";
    assert w2[|w2| - 4..] != ".ttf" && w2[|w2| - 4..] != ".otf" by { assert w2[|w2| - 4..][3] == '2'; }
    assert w2[|w2| - 5..] != ".woff" by { assert w2[|w2| - 5..][4] == '2'; }
  }

  const FamilyPrefix: string := "custom-"

  /** `custom-${fontName.replace(/\s+/g, '-').toLowerCase()}`. */
  function FamilyName(fontName: string): (r: string)
    ensures StartsWith(r, FamilyPrefix)
    ensures r[|FamilyPrefix|..] == ToLower(DashWhitespaceRuns(fontName))
  {
    var r := FamilyPrefix + ToLower(DashWhitespaceRuns(fontName));
    assert r[..|FamilyPrefix|] == FamilyPrefix;
    r
  }

  /** A family name has no whitespace and no upper-case ASCII letter, so it is usable as a CSS family and a storage key. */
  lemma FamilyNameShape(fontName: string)
    ensures !HasWhitespace(FamilyName(fontName))
    ensures forall i :: 0 <= i < |FamilyName(fontName)| ==> !('A' <= FamilyName(fontName)[i] <= 'Z')
  {
    var dashed := DashWhitespaceRuns(fontName);
    ToLowerKeepsWhitespace(dashed);
    PrefixIsPlain();
    PlainConcat(FamilyPrefix, ToLower(dashed));
    assert FamilyName(fontName) == FamilyPrefix + ToLower(dashed);
  }

  /** No whitespace and no upper-case ASCII letter. */
  predicate Plain(s: string) {
    !HasWhitespace(s) && forall i :: 0 <= i < |s| ==> !('A' <= s[i] <= 'Z')
  }

  lemma PrefixIsPlain()
    ensures Plain(FamilyPrefix)
  {
  }

  lemma PlainConcat(a: string, b: string)
    requires Plain(a) && Plain(b)
    ensures Plain(a + b)
  {
    forall i | 0 <= i < |a + b| ensures !IsWhitespace((a + b)[i]) && !('A' <= (a + b)[i] <= 'Z') {
      if i >= |a| {
        assert (a + b)[i] == b[i - |a|];
      }
    }
  }

  lemma LowerDash(d: string)
    ensures ToLower("-" + d) == "-" + ToLower(d)
  {
    ToLowerAppend("-", d);
    assert ToLower("-")[0] == LowerChar('-');
  }

  /** The name is not trimmed first: leading whitespace becomes a leading dash of the family. */
  lemma FamilyNameKeepsLeadingBlank(w: string, s: string)
    requires |w| > 0 && IsBlank(w)
    requires s == [] || !IsWhitespace(s[0])
    ensures FamilyName(w + s) == FamilyPrefix + "-" + ToLower(DashWhitespaceRuns(s))
  {
    DashWholeRun(w, s);
    FamilyNameAfterDash(w + s, DashWhitespaceRuns(s));
  }

  /** A name whose dashed form starts with a dash gets a family with a dash after the prefix. */
  lemma FamilyNameAfterDash(fontName: string, d: string)
    requires DashWhitespaceRuns(fontName) == "-" + d
    ensures FamilyName(fontName) == FamilyPrefix + "-" + ToLower(d)
  {
    LowerDash(d);
    assert FamilyName(fontName) == FamilyPrefix + ("-" + ToLower(d));
  }

  const StoragePrefix: string := "lovable.dev.font."

  /** The storage key of a family's font data. */
  function StorageKey(family: string): (r: string)
    ensures StartsWith(r, StoragePrefix) && r[|StoragePrefix|..] == family
  {
    var r := StoragePrefix + family;
    assert r[..|StoragePrefix|] == StoragePrefix;
    r
  }

  /** Different families are stored under different keys. */
  lemma StorageKeyInjective(a: string, b: string)
    requires StorageKey(a) == StorageKey(b)
    ensures a == b
  {
    assert a == StorageKey(a)[|StoragePrefix|..];
  }

  /** The checks of `handleUpload` in their order: the name, a picked file, its extension. */
  function Validate(fontName: string, files: seq<string>): (r: Result<string, string>)
    ensures IsBlank(fontName) ==> r == Err("Please enter a font name")
    ensures !IsBlank(fontName) && |files| == 0 ==> r == Err("Please select a font file")
    ensures !IsBlank(fontName) && |files| > 0 && !IsFontFile(files[0]) ==>
      r == Err("Please upload a valid font file (.ttf, .otf, .woff, or .woff2)")
    ensures r.Ok? <==> !IsBlank(fontName) && |files| > 0 && IsFontFile(files[0])
    ensures r.Ok? ==> r.value == files[0]
  {
    if IsBlank(fontName) then Err("Please enter a font name")
    else if |files| == 0 then Err("Please select a font file")
    else if !IsFontFile(files[0]) then Err("Please upload a valid font file (.ttf, .otf, .woff, or .woff2)")
    else Ok(files[0])
  }

  /** The page tests the name as `!fontName.trim()`; that is the blankness test of `Validate`. */
  lemma ValidateTrims(fontName: string, files: seq<string>)
    ensures Validate(fontName, files) ==
      if Trim(fontName) == [] then Err("Please enter a font name")
      else if |files| == 0 then Err("Please select a font file")
      else if !IsFontFile(files[0]) then Err("Please upload a valid font file (.ttf, .otf, .woff, or .woff2)")
      else Ok(files[0])
  {
    TrimEmptyIffBlank(fontName);
  }

  /** How the read of the file ended: with a data URL, or with an error (the reader's result is then null). */
  datatype ReadOutcome = ReadDone(dataUrl: string) | ReadFailed

  /** What a finished upload writes and announces: the storage write and the callback's arguments. */
  datatype Registration = Registration(key: string, data: string, fontName: string, family: string)

  /**
   * The completion as the handler is written: it is attached to `loadend`, which the File API fires
   * after an error as well, and then reads the null result, which storage turns into "null".
   */
  function CompletionAsWritten(fontName: string, read: ReadOutcome): (r: Registration)
    ensures r.family == FamilyName(fontName) && r.key == StorageKey(r.family) && r.fontName == fontName
    ensures read.ReadDone? ==> r.data == read.dataUrl
    ensures read.ReadFailed? ==> r.data == "null"
  {
    var family := FamilyName(fontName);
    Registration(StorageKey(family), if read.ReadDone? then read.dataUrl else "null", fontName, family)
  }

  /** The completion the handler evidently intends: a font is registered only when its file was read. */
  function Completion(fontName: string, read: ReadOutcome): (r: Option<Registration>)
    ensures r.Some? <==> read.ReadDone?
    ensures r.Some? ==> r.value == Registration(StorageKey(FamilyName(fontName)), read.dataUrl, fontName, FamilyName(fontName))
  {
    if read.ReadDone? then Some(Registration(StorageKey(FamilyName(fontName)), read.dataUrl, fontName, FamilyName(fontName)))
    else None
  }

  /** A failed read still stores "null" and announces the font; the intended completion registers nothing. */
  lemma FailedReadStillRegisters(fontName: string)
    ensures CompletionAsWritten(fontName, ReadFailed).data == "null"
    ensures Completion(fontName, ReadFailed) == None
  {
  }

  /** On a successful read both completions register the same font. */
  lemma CompletionsAgreeOnSuccess(fontName: string, dataUrl: string)
    ensures Completion(fontName, ReadDone(dataUrl)) == Some(CompletionAsWritten(fontName, ReadDone(dataUrl)))
  {
  }

  /** The uploader form and what it has written. */
  class Uploader {
    var fontName: string
    /** The names of the files picked in the file input. */
    var files: seq<string>
    var uploading: bool
    /** The font name of the upload in progress. */
    var pending: Option<string>
    /** The `lovable.dev.font.*` storage slots. */
    var storage: map<string, string>
    /** The `(fontName, fontFamily)` pairs handed to `onFontUploaded`, oldest first. */
    var announced: seq<(string, string)>

    constructor(storage0: map<string, string>)
      ensures fontName == [] && files == [] && !uploading && pending == None
      ensures storage == storage0 && announced == []
    {
      fontName := [];
      files := [];
      uploading := false;
      pending := None;
      storage := storage0;
      announced := [];
    }

    /** The submit handler up to the file read: a failed check changes nothing, otherwise the form is busy. */
    method HandleUpload() returns (r: Result<string, string>)
      modifies this`uploading, this`pending
      ensures r == Validate(fontName, files)
      ensures r.Err? ==> uploading == old(uploading) && pending == old(pending)
      ensures r.Ok? ==> uploading && pending == Some(fontName)
    {
      r := Validate(fontName, files);
      if r.Err? {
        return;
      }
      uploading := true;
      pending := Some(fontName);
    }

    /**
     * The end of the read: on success the data is stored under the family's key, the font is
     * announced and the form is reset; either way the form is no longer busy.
     */
    method OnReadEnd(read: ReadOutcome)
      modifies this
      requires pending.Some?
      ensures !uploading && pending == None
      ensures var reg := Completion(old(pending).value, read);
        && (reg.None? ==> storage == old(storage) && announced == old(announced)
                          && fontName == old(fontName) && files == old(files))
        && (reg.Some? ==> storage == old(storage)[reg.value.key := reg.value.data]
                          && announced == old(announced) + [(reg.value.fontName, reg.value.family)]
                          && fontName == [] && files == [])
    {
      var name := pending.value;
      match read {
        case ReadFailed =>
        case ReadDone(dataUrl) =>
          var family := FamilyName(name);
          storage := storage[StorageKey(family) := dataUrl];
          announced := announced + [(name, family)];
          fontName := [];
          files := [];
      }
      uploading := false;
      pending := None;
    }
  }
}
