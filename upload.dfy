/** The upload configuration: the file filter that decides which files are accepted, the name
    under which an accepted file is stored, the storage folder, and the size limit. The random
    bytes of the name are a parameter. */
module Upload {
  import opened Maybe
  import opened Strings

  // ---------------------------------------------------------------- file extension

  /** The last path component: everything after the last `/`. */
  function BaseName(path: string): (b: string)
    ensures '/' !in b
    ensures |b| <= |path| && b == path[|path| - |b|..]
    ensures '/' !in path ==> b == path
  {
    var i := LastIndexOf(path, '/');
    path[i + 1..]
  }

  /** `path.extname(name)`: the part of the base name from its last `.` to the end. It is empty
      when the base name has no dot, when its only relevant dot is its first character (a
      "dot file" such as `.env`), and for the base name `..`. */
  function ExtName(name: string): (e: string)
    ensures e == "" || (e[0] == '.' && '.' !in e[1..] && '/' !in e)
    ensures |e| <= |name| && e == name[|name| - |e|..]
  {
    var base := BaseName(name);
    var d := LastIndexOf(base, '.');
    if d <= 0 || base == ".." then "" else base[d..]
  }

  /** The extension is empty exactly when the base name is `..` or has no dot after its first
      character. */
  lemma ExtNameEmpty(name: string)
    ensures ExtName(name) == "" <==>
              var base := BaseName(name);
              base == ".." || |base| <= 1 || '.' !in base[1..]
  {
    var base := BaseName(name);
    var d := LastIndexOf(base, '.');
    if d > 0 {
      assert base[1..][d - 1] == '.';
    }
  }

  // ---------------------------------------------------------------- file filter

  /** The alternatives of the extension pattern. It is not anchored, so it matches any extension
      that merely contains one of them. */
  const ExtensionTokens: seq<string> := ["jpeg", "jpg", "png", "gif", "mp4", "mov", "avi", "mkv", "webp", "jfif"]

  /** The image subtypes of the MIME pattern; that alternative is anchored at the start only. */
  const ImageSubtypes: seq<string> := ["jpeg", "jpg", "png", "gif", "webp", "jfif"]

  /** The video subtypes of the MIME pattern; that alternative is anchored at both ends. */
  const VideoSubtypes: seq<string> := ["mp4", "mov", "avi", "mkv", "webm"]

  /** The extension pattern's test on a (lower-cased) extension. */
  predicate ExtensionMatches(ext: string): (b: bool)
    ensures b ==> |ext| >= 3
  {
    exists tok :: tok in ExtensionTokens && Includes(ext, tok)
  }

  /** The MIME pattern's test: `image/` plus a listed subtype at the start of the type, or
      exactly `video/` plus a listed subtype. */
  predicate MimeMatches(mimetype: string): (b: bool)
    ensures b ==> StartsWith(mimetype, "image/") || StartsWith(mimetype, "video/")
    ensures StartsWith(mimetype, "video/") ==> (b <==> mimetype[6..] in VideoSubtypes)
  {
    VideoIsNotImage(mimetype);
    || (exists t :: t in ImageSubtypes && StartsWith(mimetype, "image/" + t))
    || (exists t :: t in VideoSubtypes && mimetype == "video/" + t)
  }

  /** A type that starts with `video/` matches no image alternative. */
  lemma VideoIsNotImage(mimetype: string)
    ensures StartsWith(mimetype, "video/") ==> forall t :: t in ImageSubtypes ==> !StartsWith(mimetype, "image/" + t)
  {
    if StartsWith(mimetype, "video/") {
      forall t | t in ImageSubtypes ensures !StartsWith(mimetype, "image/" + t) {
        FirstCharMismatch(mimetype, "image/" + t);
      }
    }
  }

  const RejectMessage: string := "Only images and videos are allowed!"

  /** The filter's verdict: accepted, or refused with an error. */
  datatype Verdict = Accept | Reject(message: string)

  /** The file filter on the client's file name (`None` when it sent none) and MIME type. */
  function FileFilter(originalName: Option<string>, mimetype: string): (v: Verdict)
    ensures originalName.None? || MimeMatches(mimetype) ==> v == Accept
    ensures v.Reject? ==> v.message == RejectMessage && originalName.Some? && !AllWhitespace(originalName.value)
  {
    TrimEmpty(if originalName.Some? then originalName.value else "");
    if originalName.None? || originalName.value == "" || Trim(originalName.value) == "" then Accept
    else if ExtensionMatches(ToLower(ExtName(originalName.value))) || MimeMatches(mimetype) then Accept
    else Reject(RejectMessage)
  }

  /** A file is accepted exactly when its name is missing or blank, or its lower-cased extension
      contains a listed token, or its MIME type matches; every refusal carries the one message. */
  lemma FilterDecision(originalName: Option<string>, mimetype: string)
    ensures FileFilter(originalName, mimetype) == Accept <==>
              || originalName.None?
              || AllWhitespace(originalName.value)
              || ExtensionMatches(ToLower(ExtName(originalName.value)))
              || MimeMatches(mimetype)
    ensures FileFilter(originalName, mimetype) != Accept ==>
              FileFilter(originalName, mimetype) == Reject("Only images and videos are allowed!")
  {
    if originalName.Some? {
      TrimEmpty(originalName.value);
    }
  }

  /** A name made only of white space is accepted whatever the file is. */
  lemma BlankNameAccepted(name: string, mimetype: string)
    requires AllWhitespace(name)
    ensures FileFilter(Some(name), mimetype) == Accept
  {
    TrimEmpty(name);
  }

  /** The extension of a name without a folder, with a non-empty stem other than `.`, is the
      part after its last dot. */
  lemma ExtNameOfPlainName(stem: string, ext: string)
    requires stem != [] && stem != "." && '/' !in stem && '/' !in ext && '.' !in ext
    ensures ExtName(stem + "." + ext) == "." + ext
  {
    var name := stem + ['.'] + ext;
    assert '/' !in name by {
      forall k | 0 <= k < |name| ensures name[k] != '/' {
        if k < |stem| { assert name[k] == stem[k]; }
        else if k > |stem| { assert name[k] == ext[k - |stem| - 1]; }
      }
    }
    var base := BaseName(name);
    assert base == name;
    LastIndexOfLast(stem, '.', ext);
    assert base != ".." by {
      if |stem| == 1 {
        assert base[0] == stem[0] && stem == [stem[0]];
      }
    }
    assert ExtName(name) == base[|stem|..];
    assert base[|stem|..] == "." + ext;
  }

  /** A string whose first character differs from that of `p` does not start with `p`. */
  lemma FirstCharMismatch(s: string, p: string)
    requires s != [] && p != [] && s[0] != p[0]
    ensures !StartsWith(s, p)
  {
    if |p| <= |s| {
      assert s[..|p|][0] != p[0];
    }
  }

  /** A plain file name whose lower-cased extension contains a listed token is accepted,
      whatever its MIME type. */
  lemma ExtensionTokenAccepted(name: string, stem: string, ext: string, mimetype: string, tok: string, i: int)
    requires name == stem + "." + ext
    requires stem != [] && stem != "." && '/' !in stem && '/' !in ext && '.' !in ext
    requires tok in ExtensionTokens && OccursAt(ToLower("." + ext), tok, i)
    ensures FileFilter(Some(name), mimetype) == Accept
  {
    ExtNameOfPlainName(stem, ext);
    var low := ToLower(ExtName(name));
    assert low == ToLower("." + ext);
    IncludesAt(low, tok, i);
    assert ExtensionMatches(low);
    NonBlankName(stem, ext);
  }

  /** A name with a dot in it is not blank. */
  lemma NonBlankName(stem: string, ext: string)
    ensures Trim(stem + "." + ext) != ""
  {
    var name := stem + "." + ext;
    assert name[|stem|] == '.' && !IsWhitespace('.');
    TrimEmpty(name);
  }

  /** The extension test is a substring test: `photo.jpgx` passes as an image whatever its
      MIME type. */
  lemma UnanchoredExtension()
    ensures FileFilter(Some("photo.jpgx"), "application/octet-stream") == Accept
  {
    LowerCaseJpgx();
    ExtensionTokenAccepted("photo.jpgx", "photo", "jpgx", "application/octet-stream", "jpg", 1);
  }

  /** `.jpgx` lower-cased holds `jpg` after its dot. */
  lemma LowerCaseJpgx()
    ensures OccursAt(ToLower(".jpgx"), "jpg", 1)
  {
    var low := ToLower(".jpgx");
    assert low[1] == 'j' && low[2] == 'p' && low[3] == 'g';
    assert low[1..4] == "jpg";
  }

  /** `.JPG` lower-cased holds `jpg` after its dot. */
  lemma LowerCaseJpg()
    ensures OccursAt(ToLower(".JPG"), "jpg", 1)
  {
    var low := ToLower(".JPG");
    assert low[1] == 'j' && low[2] == 'p' && low[3] == 'g';
    assert low[1..4] == "jpg";
  }

  /** The extension is lower-cased before the test: `PHOTO.JPG` passes. */
  lemma UpperCaseExtension()
    ensures FileFilter(Some("PHOTO.JPG"), "application/octet-stream") == Accept
  {
    LowerCaseJpg();
    ExtensionTokenAccepted("PHOTO.JPG", "PHOTO", "JPG", "application/octet-stream", "jpg", 1);
  }

  /** The image alternative of the MIME test is anchored only at the start, the video
      alternative at both ends: `image/pngx` passes while `video/mp4x` does not. */
  lemma MimeAnchoring()
    ensures MimeMatches("image/pngx")
    ensures !MimeMatches("video/mp4x")
  {
    assert "image/pngx"[..|"image/" + "png"|] == "image/" + "png";
    assert "png" in ImageSubtypes && StartsWith("image/pngx", "image/" + "png");
    forall t | t in ImageSubtypes ensures !StartsWith("video/mp4x", "image/" + t) {
      FirstCharMismatch("video/mp4x", "image/" + t);
    }
    forall t | t in VideoSubtypes ensures "video/mp4x" != "video/" + t {
      if |t| == 3 {
        assert |"video/mp4x"| != |"video/" + t|;
      } else {
        assert t == "webm";
        assert "video/mp4x"[6] != ("video/" + t)[6];
      }
    }
  }

  /** A name without a dot or a folder, starting with a visible character, has no extension,
      so its MIME type alone decides. */
  lemma BareNameUsesMime(name: string, mimetype: string)
    requires name != [] && !IsWhitespace(name[0]) && '.' !in name && '/' !in name
    ensures FileFilter(Some(name), mimetype) == if MimeMatches(mimetype) then Accept else Reject(RejectMessage)
  {
    assert BaseName(name) == name;
    assert ExtName(name) == "";
    assert ToLower("") == "";
    assert !ExtensionMatches("");
    TrimEmpty(name);
  }

  /** With an extension-less name, the MIME type alone decides: `image/pngx` passes,
      `video/mp4x` is refused. */
  lemma MimeDecidesForBareName()
    ensures FileFilter(Some("clip"), "image/pngx") == Accept
    ensures FileFilter(Some("clip"), "video/mp4x") == Reject(RejectMessage)
  {
    MimeAnchoring();
    assert '.' !in "clip" && '/' !in "clip" && !IsWhitespace("clip"[0]);
    BareNameUsesMime("clip", "image/pngx");
    BareNameUsesMime("clip", "video/mp4x");
  }

  // ---------------------------------------------------------------- stored file name

  type Byte = b: int | 0 <= b < 256

  predicate IsLowerHex(c: char)
  {
    '0' <= c <= '9' || 'a' <= c <= 'f'
  }

  function HexDigit(d: int): (c: char)
    requires 0 <= d < 16
    ensures IsLowerHex(c)
  {
    if d < 10 then ('0' as int + d) as char else ('a' as int + d - 10) as char
  }

  function HexValue(c: char): (d: int)
    requires IsLowerHex(c)
    ensures 0 <= d < 16
  {
    if c <= '9' then c as int - '0' as int else c as int - 'a' as int + 10
  }

  /** A text made of pairs of lower-case hexadecimal digits. */
  predicate IsHexText(h: string)
  {
    |h| % 2 == 0 && forall i :: 0 <= i < |h| ==> IsLowerHex(h[i])
  }

  /** `buffer.toString("hex")`: two lower-case hexadecimal digits per byte, high nibble first. */
  function Hex(bytes: seq<Byte>): (h: string)
    ensures |h| == 2 * |bytes|
    ensures IsHexText(h)
  {
    if bytes == [] then [] else [HexDigit(bytes[0] / 16), HexDigit(bytes[0] % 16)] + Hex(bytes[1..])
  }

  /** The bytes a string of hexadecimal digit pairs denotes. */
  function Unhex(h: string): seq<Byte>
    requires IsHexText(h)
  {
    if h == [] then [] else [HexValue(h[0]) * 16 + HexValue(h[1])] + Unhex(h[2..])
  }

  /** The hexadecimal form determines the bytes. */
  lemma {:induction false} UnhexHex(bytes: seq<Byte>)
    ensures Unhex(Hex(bytes)) == bytes
  {
    if bytes != [] {
      UnhexHex(bytes[1..]);
      var h := Hex(bytes);
      assert h[2..] == Hex(bytes[1..]);
      assert HexValue(h[0]) == bytes[0] / 16 && HexValue(h[1]) == bytes[0] % 16;
    }
  }

  /** The outcome of asking for random bytes. */
  datatype RandomBytes = Bytes(bytes: seq<Byte>) | RandomError(error: string)

  /** The stored name: the hexadecimal form of 12 random bytes followed by the extension of the
      original name. If producing the bytes fails, the error is passed on and there is no name. */
  function StoredName(random: RandomBytes, originalName: string): (r: Result<string, string>)
    requires random.Bytes? ==> |random.bytes| == 12
    ensures random.RandomError? ==> r == Err(random.error)
    ensures random.Bytes? ==> r.Ok? && |r.value| == 24 + |ExtName(originalName)|
    ensures random.Bytes? ==> IsHexText(r.value[..24]) && Unhex(r.value[..24]) == random.bytes
    ensures random.Bytes? ==> r.value[24..] == ExtName(originalName)
  {
    match random
    case RandomError(e) => Err(e)
    case Bytes(b) =>
      var name := Hex(b) + ExtName(originalName);
      UnhexHex(b);
      assert name[..24] == Hex(b);
      Ok(name)
  }

  // ---------------------------------------------------------------- destination and limit

  /** The folder every accepted file is written to, whatever the file. */
  function Destination(originalName: Option<string>, mimetype: string): (folder: string)
    ensures folder == "./public/images/uploads"
  {
    "./public/images/uploads"
  }

  /** The largest accepted file, in bytes: 50 MiB. */
  const MaxFileSize: nat := 50 * 1024 * 1024

  /** The result of handling one uploaded file. `NameMissing` is a file the filter let through
      without an original name: taking the extension of a missing name throws inside the
      random-bytes callback, so nothing is stored and nothing answers the request. */
  datatype Outcome =
    | Stored(folder: string, filename: string)
    | Refused(message: string)
    | NamingFailed(error: string)
    | NameMissing
    | TooLarge

  /** One upload: the filter decides first; an accepted file is named and then written, and a
      file of more than `MaxFileSize` bytes ends in the size-limit error. A failure to draw the
      bytes is reported before the name is looked at. */
  function HandleUpload(originalName: Option<string>, mimetype: string, size: nat, random: RandomBytes): (o: Outcome)
    requires random.Bytes? ==> |random.bytes| == 12
    ensures o.Stored? <==>
              FileFilter(originalName, mimetype) == Accept && originalName.Some? && random.Bytes? && size <= 52428800
    ensures o.Refused? <==> FileFilter(originalName, mimetype).Reject?
    ensures o.Refused? ==> o.message == "Only images and videos are allowed!"
    ensures o.NamingFailed? <==> FileFilter(originalName, mimetype) == Accept && random.RandomError?
    ensures o.NameMissing? <==> FileFilter(originalName, mimetype) == Accept && originalName.None? && random.Bytes?
    ensures o.Stored? ==> o.folder == "./public/images/uploads"
    ensures o.Stored? ==> o.filename == StoredName(random, originalName.value).value
  {
    match FileFilter(originalName, mimetype)
    case Reject(m) => Refused(m)
    case Accept =>
      match random
      case RandomError(e) => NamingFailed(e)
      case Bytes(_) =>
        if originalName.None? then NameMissing
        else
          var name := StoredName(random, originalName.value).value;
          if size <= MaxFileSize then Stored(Destination(originalName, mimetype), name) else TooLarge
  }
}
