/** The upload route's file-type check: the extension is what follows the
    last '.' of the file name, lower-cased (empty when the name has no '.'),
    and it must be one of four image types. */
module Upload {
  import opened Text

  const AllowedExtensions: set<string> := {"png", "jpg", "jpeg", "webp"}

  predicate NoDot(s: string)
  {
    forall j | 0 <= j < |s| :: s[j] != '.'
  }

  /** The index of the last '.' in `name`, if there is one. */
  function LastDot(name: string): (r: Option<nat>)
    ensures r.None? <==> NoDot(name)
    ensures r.Some? ==> r.value < |name| && name[r.value] == '.'
    ensures r.Some? ==> forall j | r.value < j < |name| :: name[j] != '.'
  {
    if |name| == 0 then None
    else if name[|name| - 1] == '.' then Some(|name| - 1)
    else LastDot(name[..|name| - 1])
  }

  /** `filename.rsplit('.', 1)[1].lower() if '.' in filename else ''`. */
  function FileExtension(filename: string): (ext: string)
    ensures NoDot(ext) && forall i | 0 <= i < |ext| :: !IsUpper(ext[i])
    ensures NoDot(filename) ==> ext == ""
    ensures !NoDot(filename) ==> |ext| < |filename|
  {
    match LastDot(filename)
    case Some(k) => Lower(filename[k + 1..])
    case None => ""
  }

  /** `file_ext in allowed_extensions`. The ensures is only a side fact (an
      accepted name has a '.' and room for a type after it); what the check
      means is stated by `AllowedIff`. */
  predicate IsAllowedFile(filename: string): (ok: bool)
    ensures ok ==> !NoDot(filename) && |filename| >= 4
  {
    AllowedType(FileExtension(filename))
  }

  /** One of the four accepted image types. */
  predicate AllowedType(ext: string)
  {
    ext in AllowedExtensions
  }

  /** In a stem, a '.' and a dot-free extension, the last '.' is the one
      before the extension. */
  lemma LastDotOfSplit(stem: string, ext: string)
    requires NoDot(ext)
    ensures LastDot(stem + "." + ext).Some? && LastDot(stem + "." + ext).value == |stem|
  {
    var name := stem + "." + ext;
    assert name[|stem|] == '.';
  }

  /** A name made of a stem, a '.' and a dot-free extension has that
      extension, lower-cased, whatever dots the stem holds. */
  lemma ExtensionOfSplit(stem: string, ext: string)
    requires NoDot(ext)
    ensures FileExtension(stem + "." + ext) == Lower(ext)
    ensures IsAllowedFile(stem + "." + ext) <==> AllowedType(Lower(ext))
  {
    var name := stem + "." + ext;
    LastDotOfSplit(stem, ext);
    assert name[|stem| + 1..] == ext;
  }

  /** A name without a '.' has the empty extension and is refused. */
  lemma NoDotRejected(filename: string)
    requires NoDot(filename)
    ensures FileExtension(filename) == ""
    ensures !IsAllowedFile(filename)
  {
    assert "" != "png" && "" != "jpg" && "" != "jpeg" && "" != "webp";
  }

  /** What follows the last '.' of a name, lower-cased, is an allowed type. */
  predicate EndsInAllowedType(filename: string)
  {
    exists k | 0 <= k < |filename| && filename[k] == '.' && NoDot(filename[k + 1..]) ::
      AllowedType(Lower(filename[k + 1..]))
  }

  /** A '.' followed by no other '.' is the last one. */
  lemma LastDotAt(filename: string, k: nat)
    requires k < |filename| && filename[k] == '.' && NoDot(filename[k + 1..])
    ensures LastDot(filename).Some? && LastDot(filename).value == k
  {
    assert !NoDot(filename);
  }

  /** An accepted name ends in an allowed type after its last '.'. */
  lemma AllowedEndsInAllowedType(filename: string)
    requires IsAllowedFile(filename)
    ensures EndsInAllowedType(filename)
  {
    var k := LastDot(filename).value;
    assert FileExtension(filename) == Lower(filename[k + 1..]);
  }

  /** A name ending in an allowed type after its last '.' is accepted. */
  lemma EndsInAllowedTypeAllowed(filename: string)
    requires EndsInAllowedType(filename)
    ensures IsAllowedFile(filename)
  {
    var k :| 0 <= k < |filename| && filename[k] == '.' && NoDot(filename[k + 1..])
             && AllowedType(Lower(filename[k + 1..]));
    LastDotAt(filename, k);
    assert FileExtension(filename) == Lower(filename[k + 1..]);
  }

  /** A name is accepted exactly when it has a last '.' and what follows it,
      lower-cased, is an allowed type. */
  lemma AllowedIff(filename: string)
    ensures IsAllowedFile(filename) <==> EndsInAllowedType(filename)
  {
    if IsAllowedFile(filename) {
      AllowedEndsInAllowedType(filename);
    }
    if EndsInAllowedType(filename) {
      EndsInAllowedTypeAllowed(filename);
    }
  }

  /** Letter case in the extension does not matter: "scan.JPG" is accepted. */
  lemma UpperCaseAccepted()
    ensures IsAllowedFile("scan.JPG")
  {
    assert "scan.JPG" == "scan" + "." + "JPG";
    ExtensionOfSplit("scan", "JPG");
    assert Lower("JPG") == "jpg";
  }

  /** Only what follows the last '.' counts: "scan.png.exe" is refused. */
  lemma LastExtensionCounts()
    ensures !IsAllowedFile("scan.png.exe")
  {
    assert "scan.png.exe" == "scan.png" + "." + "exe";
    ExtensionOfSplit("scan.png", "exe");
    assert Lower("exe")[0] == 'e';
  }
}
