/** The image-upload filter: a file name is accepted when it has a dot and the
    text after its last dot, lower-cased, is one of four image extensions. */
module Uploads {
  import opened Optional

  /** The accepted image extensions, in lower case. */
  const ALLOWED_EXTENSIONS: set<string> := {"png", "jpg", "jpeg", "gif"}

  /** Index of the last '.' of `s`, if any. */
  function LastDot(s: string): (r: Option<nat>)
    ensures r.Some? ==> r.value < |s| && s[r.value] == '.'
    ensures r.Some? ==> forall j :: r.value < j < |s| ==> s[j] != '.'
    ensures r.None? <==> '.' !in s
  {
    if |s| == 0 then None
    else if s[|s| - 1] == '.' then Some(|s| - 1)
    else
      var r := LastDot(s[..|s| - 1]);
      assert s == s[..|s| - 1] + [s[|s| - 1]];
      r
  }

  /** Lower case of an ASCII letter; every other character is unchanged. */
  function LowerChar(c: char): char {
    if 'A' <= c <= 'Z' then (c as int - 'A' as int + 'a' as int) as char else c
  }

  function Lower(s: string): string {
    seq(|s|, i requires 0 <= i < |s| => LowerChar(s[i]))
  }

  /** The text after the last dot, when there is a dot. */
  function Extension(name: string): Option<string> {
    match LastDot(name)
    case Some(i) => Some(name[i + 1..])
    case None => None
  }

  /** Whether an uploaded file name carries an accepted image extension. */
  predicate AllowedFile(name: string) {
    match Extension(name)
    case Some(ext) => Lower(ext) in ALLOWED_EXTENSIONS
    case None => false
  }

  /** The extension is exactly the text after the dot that joins a name to a
      dot-free suffix. */
  lemma ExtensionOfJoin(base: string, ext: string)
    requires '.' !in ext
    ensures Extension(base + "." + ext) == Some(ext)
  {
    var s := base + "." + ext;
    var i := |base|;
    assert s[i] == '.';
    assert forall j :: i < j < |s| ==> s[j] == ext[j - i - 1];
    assert s[i + 1..] == ext;
  }

  /** A name with a dot is accepted exactly when what follows its last dot is
      an accepted extension in any mix of cases; a name without a dot never
      is. */
  lemma AllowedFileIff(base: string, ext: string, name: string)
    requires '.' !in ext
    ensures AllowedFile(base + "." + ext) <==> Lower(ext) in ALLOWED_EXTENSIONS
    ensures '.' !in name ==> !AllowedFile(name)
  {
    ExtensionOfJoin(base, ext);
  }

  /** Lower-casing keeps the length, is idempotent, and leaves a string
      without upper-case ASCII letters unchanged. */
  lemma LowerSpec(s: string)
    ensures |Lower(s)| == |s|
    ensures Lower(Lower(s)) == Lower(s)
    ensures (forall i :: 0 <= i < |s| ==> !('A' <= s[i] <= 'Z')) ==> Lower(s) == s
  {
  }

  /** An upper-case extension passes. */
  lemma UpperCaseAccepted()
    ensures AllowedFile("photo.PNG")
  {
    var png := "PNG";
    assert "photo" + "." + png == "photo.PNG";
    ExtensionOfJoin("photo", png);
    assert Lower(png) == "png";
  }

  /** Only the text after the last dot counts: a second extension before an
      accepted one does not matter. */
  lemma InnerDotIgnored()
    ensures AllowedFile("archive.tar.gif")
  {
    var gif := "gif";
    assert "archive.tar" + "." + gif == "archive.tar.gif";
    ExtensionOfJoin("archive.tar", gif);
    assert Lower(gif) == "gif";
  }

  /** Only the text after the last dot counts: an accepted extension followed
      by another one is refused. */
  lemma DisguisedExtensionRefused()
    ensures !AllowedFile("image.png.exe")
  {
    var exe := "exe";
    assert "image.png" + "." + exe == "image.png.exe";
    ExtensionOfJoin("image.png", exe);
    assert Lower(exe) == exe by {
      assert forall i :: 0 <= i < |exe| ==> LowerChar(exe[i]) == exe[i];
    }
    assert exe !in ALLOWED_EXTENSIONS by {
      assert exe[0] == 'e';
    }
  }

  /** A bare extension without a dot, or a name ending in a dot, is refused. */
  lemma DotRequired()
    ensures !AllowedFile("png")
    ensures !AllowedFile("photo.")
  {
    var empty := "";
    assert "photo" + "." + empty == "photo.";
    ExtensionOfJoin("photo", empty);
    assert Lower(empty) == "";
    assert '.' !in "png";
  }
}
