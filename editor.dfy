/** The name the single-image editor saves under: the original name with a
    final extension removed, followed by "_watermarked.png". */
module Editor {
  import opened JsRuntime
  import Zip

  const SaveSuffix := "_watermarked.png"

  /** A final extension as `/\.[^/.]+$/` matches it: a '.', then at least one
      character, none of them '/' or '.', up to the end of the name. */
  predicate IsFinalExtension(ext: string) {
    |ext| >= 2 && ext[0] == '.' && '.' !in ext[1..] && '/' !in ext[1..]
  }

  /** `name.replace(/\.[^/.]+$/, '')`: the name without its final extension,
      or the whole name when it has none. */
  function StripExtension(name: string): (r: string)
    ensures |r| <= |name| && name[..|r|] == r
    ensures r == name || IsFinalExtension(name[|r|..])
  {
    var lastDot := LastIndexOf(name, '.');
    if 0 <= lastDot < |name| - 1 && '/' !in name[lastDot + 1..] then
      assert name[lastDot..][1..] == name[lastDot + 1..];
      name[..lastDot]
    else
      name
  }

  /** Only a final extension is removed: a name without one is kept whole,
      and a base followed by one loses exactly that extension. */
  lemma StripExtensionExact(base: string, ext: string)
    requires IsFinalExtension(ext)
    ensures StripExtension(base + ext) == base
  {
    var name := base + ext;
    assert name[|base|] == '.';
    assert forall j | |base| < j < |name| :: name[j] != '.' by {
      forall j | |base| < j < |name| ensures name[j] != '.' {
        assert name[j] == ext[1..][j - |base| - 1];
      }
    }
    assert name[|base| + 1..] == ext[1..];
    assert name[..|base|] == base;
  }

  /** A name none of whose suffixes is a final extension is kept whole. */
  lemma StripExtensionKeeps(name: string)
    requires forall k | 0 <= k <= |name| :: !IsFinalExtension(name[k..])
    ensures StripExtension(name) == name
  {
    var r := StripExtension(name);
    assert !IsFinalExtension(name[|r|..]);
  }

  /** The save name. */
  function SaveName(originalName: string): (r: string)
    ensures |r| >= |SaveSuffix| && r[|r| - |SaveSuffix|..] == SaveSuffix
    ensures r[..|r| - |SaveSuffix|] == StripExtension(originalName)
  {
    StripExtension(originalName) + SaveSuffix
  }

  /** The editor and the batch export cut names differently: a trailing '.'
      is no extension to the editor, while the batch export splits at it. */
  lemma TrailingDotNamesDiffer(base: string)
    requires '.' !in base
    ensures StripExtension(base + ".") == base + "."
    ensures Zip.SplitName(base + ".") == Zip.NameParts(base, ".")
  {
    var name := base + ".";
    assert name[|base|] == '.';
    assert LastIndexOf(name, '.') == |base|;
    Zip.SplitNameOfJoined(base, ".");
  }
}
