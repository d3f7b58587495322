/** The checks the `/analyze` endpoint applies to an upload before it tries
    to decode the image: a `file` part must be present, must carry a file
    name, and the name must end in an image extension, ignoring case. */
module UploadValidation {
  import opened Options
  import Text

  datatype Verdict = Accepted | Rejected(message: string, status: int)

  const NoFilePart: string := "No file part"
  const NoSelectedFile: string := "No selected file"
  const InvalidFileType: string := "Invalid file type. Please upload an image."
  const BadRequest: int := 400

  const ImageExtensions: seq<string> := [".png", ".jpg", ".jpeg", ".gif"]

  /** Python `str.endswith` given a tuple of suffixes. */
  predicate EndsWithAny(s: string, suffixes: seq<string>)
  {
    |suffixes| > 0 && (Text.EndsWith(s, suffixes[0]) || EndsWithAny(s, suffixes[1..]))
  }

  predicate HasImageExtension(filename: string) {
    EndsWithAny(Text.LowerAll(filename), ImageExtensions)
  }

  /** The ladder of early returns. `file` is the file name of the `file`
      part, or None when the request has no such part. */
  function Validate(file: Option<string>): (v: Verdict)
    ensures v.Rejected? ==> v.status == BadRequest
    ensures v == Rejected(NoFilePart, BadRequest) <==> file.None?
    ensures v == Rejected(NoSelectedFile, BadRequest) <==> file == Some("")
    ensures v == Rejected(InvalidFileType, BadRequest) <==>
              file.Some? && file.value != "" && !HasImageExtension(file.value)
    ensures v.Accepted? <==> file.Some? && file.value != "" && HasImageExtension(file.value)
  {
    if file.None? then Rejected(NoFilePart, BadRequest)
    else if file.value == "" then Rejected(NoSelectedFile, BadRequest)
    else if !HasImageExtension(file.value) then Rejected(InvalidFileType, BadRequest)
    else Accepted
  }

  /** The list test means: some suffix of the list ends the string. */
  lemma {:induction false} EndsWithAnyIff(s: string, suffixes: seq<string>)
    ensures EndsWithAny(s, suffixes) <==> exists k :: 0 <= k < |suffixes| && Text.EndsWith(s, suffixes[k])
  {
    if |suffixes| > 0 {
      EndsWithAnyIff(s, suffixes[1..]);
      if EndsWithAny(s, suffixes[1..]) {
        var k :| 0 <= k < |suffixes[1..]| && Text.EndsWith(s, suffixes[1..][k]);
        assert Text.EndsWith(s, suffixes[k + 1]);
      }
      if exists k :: 0 <= k < |suffixes| && Text.EndsWith(s, suffixes[k]) {
        var k :| 0 <= k < |suffixes| && Text.EndsWith(s, suffixes[k]);
        if k > 0 {
          assert Text.EndsWith(s, suffixes[1..][k - 1]);
        }
      }
    }
  }

  /** A name is an image name exactly when, lower-cased, it ends in one of
      the four extensions. */
  lemma ImageExtensionIff(filename: string)
    ensures var lower := Text.LowerAll(filename);
      HasImageExtension(filename) <==>
        Text.EndsWith(lower, ".png") || Text.EndsWith(lower, ".jpg") ||
        Text.EndsWith(lower, ".jpeg") || Text.EndsWith(lower, ".gif")
  {
    var lower := Text.LowerAll(filename);
    EndsWithAnyIff(lower, ImageExtensions);
    if HasImageExtension(filename) {
      var k :| 0 <= k < |ImageExtensions| && Text.EndsWith(lower, ImageExtensions[k]);
      assert k == 0 || k == 1 || k == 2 || k == 3;
    }
    assert ImageExtensions[0] == ".png" && ImageExtensions[1] == ".jpg";
    assert ImageExtensions[2] == ".jpeg" && ImageExtensions[3] == ".gif";
  }

  /** The verdict depends on the name only through its lower-cased form. */
  lemma CaseInsensitive(a: string, b: string)
    requires Text.LowerAll(a) == Text.LowerAll(b)
    ensures Validate(Some(a)) == Validate(Some(b))
  {
  }

  /** Lower-casing a name never changes its verdict. */
  lemma LowerCasedSameVerdict(filename: string)
    ensures Validate(Some(Text.LowerAll(filename))) == Validate(Some(filename))
  {
    Text.LowerAllIdempotent(filename);
    CaseInsensitive(Text.LowerAll(filename), filename);
  }

  /** An accepted name is at least as long as the shortest extension. */
  lemma AcceptedNameLength(filename: string)
    requires Validate(Some(filename)).Accepted?
    ensures |filename| >= 4
  {
    ImageExtensionIff(filename);
  }

  lemma ValidateExamples()
    ensures Validate(Some("A.PNG")) == Validate(Some("a.png")) == Accepted
    ensures Validate(Some("photo.JPEG")) == Accepted
    ensures Validate(Some(".gif")) == Accepted
    ensures Validate(Some("notes.txt")) == Rejected(InvalidFileType, 400)
    ensures Validate(Some("png")) == Rejected(InvalidFileType, 400)
    ensures Validate(Some("leaf.png.zip")) == Rejected(InvalidFileType, 400)
  {
    assert Text.LowerAll("A.PNG") == "a.png";
    assert Text.LowerAll("a.png") == "a.png";
    assert Text.LowerAll("photo.JPEG") == "photo.jpeg";
    assert Text.LowerAll(".gif") == ".gif";
    assert Text.LowerAll("notes.txt") == "notes.txt";
    assert Text.LowerAll("png") == "png";
    assert Text.LowerAll("leaf.png.zip") == "leaf.png.zip";
    ImageExtensionIff("notes.txt");
    ImageExtensionIff("png");
    ImageExtensionIff("leaf.png.zip");
  }
}
