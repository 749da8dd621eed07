/**
  The filename sanitizer of the upload handler (server.go:142-147): three
  `strings.ReplaceAll` calls that turn every space, slash and backslash into an
  underscore, followed by `filepath.Clean`.
 */
module Sanitizer {

  /** The characters the sanitizer neutralises. */
  predicate Unsafe(c: char)
  {
    c == ' ' || c == '/' || c == '\\'
  }

  /** What the sanitizer does to one character. */
  function Scrub(c: char): char
  {
    if Unsafe(c) then '_' else c
  }

  /** `strings.ReplaceAll(s, string(from), string(to))` for one-character patterns. */
  function ReplaceAll(s: string, from: char, to: char): (r: string)
    ensures |r| == |s|
    ensures forall i :: 0 <= i < |s| ==> r[i] == (if s[i] == from then to else s[i])
  {
    if s == [] then [] else [if s[0] == from then to else s[0]] + ReplaceAll(s[1..], from, to)
  }

  /**
    `filepath.Clean` on a string without any '/': such a string is a single
    path element, which Clean leaves alone ("." and ".." included); only the
    empty path becomes ".".
   */
  function CleanElement(s: string): (r: string)
    requires '/' !in s
    ensures r != [] && '/' !in r
    ensures s == [] ==> r == "."
    ensures s != [] ==> r == s
  {
    if s == [] then "." else s
  }

  /** The filename sanitizer of server.go:142-147. */
  function Sanitize(name: string): (r: string)
    ensures r != []
    ensures forall i :: 0 <= i < |r| ==> !Unsafe(r[i])
    ensures name == [] ==> r == "."
    ensures name != [] ==> |r| == |name| && forall i :: 0 <= i < |name| ==> r[i] == Scrub(name[i])
  {
    var spaces := ReplaceAll(name, ' ', '_');
    var slashes := ReplaceAll(spaces, '/', '_');
    var backslashes := ReplaceAll(slashes, '\\', '_');
    assert forall i :: 0 <= i < |backslashes| ==> backslashes[i] == Scrub(name[i]);
    CleanElement(backslashes)
  }

  /** A name the sanitizer leaves as it is. */
  predicate IsSanitized(s: string)
  {
    s != [] && forall i :: 0 <= i < |s| ==> !Unsafe(s[i])
  }

  /** The fixed points of the sanitizer are exactly the non-empty names free of unsafe characters. */
  lemma SanitizeFixedPoints(name: string)
    ensures Sanitize(name) == name <==> IsSanitized(name)
  {
    if IsSanitized(name) {
      var r := Sanitize(name);
      assert |r| == |name|;
      forall i | 0 <= i < |name| ensures r[i] == name[i] {
        assert !Unsafe(name[i]);
      }
    }
  }

  /** Sanitizing a second time changes nothing. */
  lemma SanitizeIdempotent(name: string)
    ensures Sanitize(Sanitize(name)) == Sanitize(name)
  {
    SanitizeFixedPoints(Sanitize(name));
  }

  /** A name is sanitized to `expected` when `expected` scrubs it character by character. */
  lemma SanitizeTo(name: string, expected: string)
    requires name != [] && |expected| == |name|
    requires forall i :: 0 <= i < |name| ==> expected[i] == Scrub(name[i])
    ensures Sanitize(name) == expected
  {
    var r := Sanitize(name);
    assert forall i :: 0 <= i < |name| ==> r[i] == expected[i];
  }

  /** A traversal attempt becomes a single path element. */
  lemma SanitizeTraversal()
    ensures Sanitize("../../etc/passwd") == ".._.._etc_passwd"
  {
    SanitizeTo("../../etc/passwd", ".._.._etc_passwd");
  }

  /** The relative names "." and ".." pass through the sanitizer unchanged. */
  lemma SanitizeKeepsDots()
    ensures Sanitize("..") == ".." && Sanitize(".") == "."
  {
    SanitizeFixedPoints("..");
    SanitizeFixedPoints(".");
  }
}
