/**
 * File paths as the scripts use them: a parent directory and a final name,
 * with `pathlib`'s `stem` and `suffix` of the name (the text after the last
 * dot, unless that dot is the first or the last character).
 */
module Paths {
  import opened Text

  datatype FilePath = FilePath(parent: string, name: string)

  /** `parent / name`. */
  function Join(dir: string, name: string): FilePath {
    FilePath(dir, name)
  }

  /** `name.rfind(c)`: the last index of c, or -1. */
  function RFind(s: string, c: char): (r: int)
    ensures -1 <= r < |s|
    ensures r >= 0 ==> s[r] == c
    ensures forall k :: r < k < |s| ==> s[k] != c
  {
    if s == [] then -1
    else if s[|s| - 1] == c then |s| - 1
    else RFind(s[..|s| - 1], c)
  }

  /** Whether `pathlib` splits the name at its last dot. */
  predicate HasSuffix(name: string) {
    0 < RFind(name, '.') < |name| - 1
  }

  /** `Path(name).suffix`. */
  function Suffix(name: string): string {
    if HasSuffix(name) then name[RFind(name, '.')..] else ""
  }

  /** `Path(name).stem`. */
  function Stem(name: string): string {
    if HasSuffix(name) then name[..RFind(name, '.')] else name
  }

  /** The stem and the suffix put back together give the name. */
  lemma StemSuffixSplit(name: string)
    ensures Stem(name) + Suffix(name) == name
    ensures Suffix(name) == "" || (Suffix(name)[0] == '.' && forall k :: 0 < k < |Suffix(name)| ==> Suffix(name)[k] != '.')
  {
    if HasSuffix(name) {
      var i := RFind(name, '.');
      assert name[..i] + name[i..] == name;
      forall k | 0 < k < |Suffix(name)| ensures Suffix(name)[k] != '.' {
        assert Suffix(name)[k] == name[i + k];
      }
    }
  }

  /** A non-empty base with a dot-free extension: the stem is the base and the suffix the extension. */
  lemma {:induction false} StemOfExtension(base: string, ext: string)
    requires base != []
    requires ext != [] && '.' !in ext
    ensures Stem(base + "." + ext) == base
    ensures Suffix(base + "." + ext) == "." + ext
  {
    var name := base + "." + ext;
    RFindLastDot(base, ext);
    assert name[..|base|] == base;
    assert name[|base|..] == "." + ext;
  }

  lemma {:induction false} RFindLastDot(base: string, ext: string)
    requires '.' !in ext
    ensures RFind(base + "." + ext, '.') == |base|
    decreases |ext|
  {
    var name := base + "." + ext;
    if ext == [] {
      assert name[|name| - 1] == '.';
    } else {
      assert name[|name| - 1] == ext[|ext| - 1];
      assert name[..|name| - 1] == base + "." + ext[..|ext| - 1];
      RFindLastDot(base, ext[..|ext| - 1]);
    }
  }
}
