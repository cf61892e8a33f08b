// The integration modules for the Oceanology and Riverology plugins read the plugin's
// VersionName once, at startup, and keep its major, minor and patch numbers in three global
// integers, which the version-dependent code of the integrations consults.

module PluginVersions {
  import opened WaterPhysicsTypes

  /** A plugin version: the three global integers of an integration module. */
  datatype Version = Version(major: int, minor: int, patch: int)

  /** The names the integration modules look their plugin up by. */
  const OceanologyPluginName: string := "Oceanology_Plugin"
  const RiverologyPluginName: string := "Riverology_Plugin"

  predicate IsDigit(c: char) {
    '0' <= c <= '9'
  }

  predicate AllDigits(s: string) {
    forall k :: 0 <= k < |s| ==> IsDigit(s[k])
  }

  /** The characters the C library's atoi skips before the number. */
  predicate IsSpace(c: char) {
    c == ' ' || c == '\t' || c == '\n' || c == '\r' || c == 11 as char || c == 12 as char
  }

  /** The value of a string of decimal digits. */
  function DigitsValue(ds: string): nat
    requires AllDigits(ds)
  {
    if |ds| == 0 then 0 else DigitsValue(ds[..|ds| - 1]) * 10 + (ds[|ds| - 1] - '0') as nat
  }

  /** The longest prefix of `s` made of digits. */
  function LeadingDigits(s: string): (r: string)
    ensures |r| <= |s| && r == s[..|r|] && AllDigits(r)
    ensures |r| < |s| ==> !IsDigit(s[|r|])
  {
    if |s| == 0 || !IsDigit(s[0]) then [] else [s[0]] + LeadingDigits(s[1..])
  }

  function SkipSpaces(s: string): (r: string)
    ensures |r| <= |s| && r == s[|s| - |r|..]
    ensures |r| > 0 ==> !IsSpace(r[0])
  {
    if |s| > 0 && IsSpace(s[0]) then SkipSpaces(s[1..]) else s
  }

  /** FCString::Atoi: leading white space is skipped, then an optional sign, then the longest
      run of digits is read; a string without such digits reads as 0. */
  function Atoi(s: string): int {
    var t := SkipSpaces(s);
    if |t| > 0 && t[0] == '-' then -(DigitsValue(LeadingDigits(t[1..])) as int)
    else if |t| > 0 && t[0] == '+' then DigitsValue(LeadingDigits(t[1..]))
    else DigitsValue(LeadingDigits(t))
  }

  /** The decimal spelling of a natural number, without leading zeros. */
  function Show(n: nat): (r: string)
    ensures |r| > 0 && AllDigits(r)
  {
    if n < 10 then ['0' + n as char] else Show(n / 10) + ['0' + (n % 10) as char]
  }

  /** FString::Split at the first occurrence of `sep`: the parts before and after it, or
      None, leaving the caller's strings alone, when `sep` does not occur. */
  function Split(s: string, sep: char): (r: Option<(string, string)>)
    ensures r.Some? <==> sep in s
    ensures r.Some? ==> s == r.value.0 + [sep] + r.value.1 && sep !in r.value.0
  {
    if |s| == 0 then None
    else if s[0] == sep then Some(([], s[1..]))
    else match Split(s[1..], sep)
      case None => None
      case Some(parts) =>
        assert s == [s[0]] + s[1..];
        Some(([s[0]] + parts.0, parts.1))
  }

  /** StartupModule's reading of VersionName, from the versions it had: with no '.', nothing
      changes; the text before the first '.' is the major version; if the rest holds another
      '.', the text up to it is the minor version and everything after it the patch, and
      otherwise the rest is the minor version and the patch is kept. */
  function ParseVersion(current: Version, versionName: string): Version {
    match Split(versionName, '.')
    case None => current
    case Some((left, right)) =>
      match Split(right, '.')
      case Some((minor, patch)) => Version(Atoi(left), Atoi(minor), Atoi(patch))
      case None => Version(Atoi(left), Atoi(right), current.patch)
  }

  /** The digits of a number end where a non-digit begins. */
  lemma {:induction false} LeadingDigitsOfDigits(ds: string, rest: string)
    requires AllDigits(ds) && (|rest| == 0 || !IsDigit(rest[0]))
    ensures LeadingDigits(ds + rest) == ds
    decreases |ds|
  {
    if |ds| > 0 {
      assert (ds + rest)[1..] == ds[1..] + rest;
      LeadingDigitsOfDigits(ds[1..], rest);
      assert ds == [ds[0]] + ds[1..];
    }
  }

  /** Reading back a spelled number gives the number. */
  lemma {:induction false} DigitsValueOfShow(n: nat)
    ensures DigitsValue(Show(n)) == n
  {
    if n >= 10 {
      DigitsValueOfShow(n / 10);
      var s := Show(n);
      assert s[..|s| - 1] == Show(n / 10);
    }
  }

  /** Atoi reads a spelled number back, and stops at the first character that is not a
      digit. */
  lemma AtoiShow(n: nat, rest: string)
    requires |rest| == 0 || !IsDigit(rest[0])
    ensures Atoi(Show(n) + rest) == n
  {
    var s := Show(n) + rest;
    assert IsDigit(s[0]);
    assert SkipSpaces(s) == s;
    LeadingDigitsOfDigits(Show(n), rest);
    DigitsValueOfShow(n);
  }

  /** Split finds the separator right after a part that does not contain it. */
  lemma {:induction false} SplitAtFirst(left: string, sep: char, right: string)
    requires sep !in left
    ensures Split(left + [sep] + right, sep) == Some((left, right))
    decreases |left|
  {
    var s := left + [sep] + right;
    if |left| == 0 {
      assert s == [sep] + right;
    } else {
      assert s[0] == left[0] != sep;
      assert s[1..] == left[1..] + [sep] + right;
      SplitAtFirst(left[1..], sep, right);
      assert left == [left[0]] + left[1..];
    }
  }

  /** A version name without '.' leaves the versions unchanged. */
  lemma ParseVersionNoDot(current: Version, versionName: string)
    requires '.' !in versionName
    ensures ParseVersion(current, versionName) == current
  {
  }

  /** With exactly one '.', the two sides are the major and minor versions and the patch is
      kept. */
  lemma ParseVersionOneDot(current: Version, major: string, minor: string)
    requires '.' !in major && '.' !in minor
    ensures ParseVersion(current, major + "." + minor) == Version(Atoi(major), Atoi(minor), current.patch)
  {
    SplitAtFirst(major, '.', minor);
  }

  /** With two or more dots, the text between the first two is the minor version and all of
      the text after the second is read as the patch. */
  lemma ParseVersionTwoDots(current: Version, major: string, minor: string, rest: string)
    requires '.' !in major && '.' !in minor
    ensures ParseVersion(current, major + "." + minor + "." + rest) == Version(Atoi(major), Atoi(minor), Atoi(rest))
  {
    assert major + "." + minor + "." + rest == major + ['.'] + (minor + ['.'] + rest);
    SplitAtFirst(major, '.', minor + ['.'] + rest);
    SplitAtFirst(minor, '.', rest);
  }

  /** A version written out as "major.minor.patch" is read back exactly, whatever the versions
      held before. */
  lemma ParseVersionRoundTrip(current: Version, major: nat, minor: nat, patch: nat)
    ensures ParseVersion(current, Show(major) + "." + Show(minor) + "." + Show(patch)) == Version(major, minor, patch)
  {
    ParseVersionTwoDots(current, Show(major), Show(minor), Show(patch));
    AtoiShowAlone(major);
    AtoiShowAlone(minor);
    AtoiShowAlone(patch);
  }

  /** A version name with more than three parts, such as "5.1.7.2", keeps only the number
      that starts the text after the second '.' as the patch. */
  lemma ParseVersionExtraParts(current: Version, major: nat, minor: nat, patch: nat, rest: string)
    ensures ParseVersion(current, Show(major) + "." + Show(minor) + "." + (Show(patch) + "." + rest)) == Version(major, minor, patch)
  {
    var tail := Show(patch) + "." + rest;
    ParseVersionTwoDots(current, Show(major), Show(minor), tail);
    AtoiShowPatch(patch, rest);
    AtoiShowAlone(major);
    AtoiShowAlone(minor);
  }

  lemma AtoiShowAlone(n: nat)
    ensures Atoi(Show(n)) == n
  {
    AtoiShow(n, []);
    assert Show(n) + [] == Show(n);
  }

  lemma AtoiShowPatch(n: nat, rest: string)
    ensures Atoi(Show(n) + "." + rest) == n
  {
    AtoiShow(n, "." + rest);
    assert Show(n) + "." + rest == Show(n) + ("." + rest);
  }

  /** The three global version integers of one integration module. */
  class PluginVersion {
    var major: int
    var minor: int
    var patch: int

    function Current(): Version
      reads this
    {
      Version(major, minor, patch)
    }

    /** The globals start at 0. */
    constructor()
      ensures Current() == Version(0, 0, 0)
    {
      major, minor, patch := 0, 0, 0;
    }

    /** StartupModule: `plugin` is the VersionName of the plugin the module looked up, or None
        when the plugin manager did not find it, in which case the versions stay as they are. */
    method StartupModule(plugin: Option<string>)
      modifies this
      ensures Current() == if plugin.None? then old(Current()) else ParseVersion(old(Current()), plugin.value)
    {
      if plugin.None? {
        return;
      }
      ghost var before := Current();
      var versionName := plugin.value;
      var parts := Split(versionName, '.');
      if parts.Some? {
        var left, right := parts.value.0, parts.value.1;
        var rest := Split(right, '.');
        major := Atoi(left);
        if rest.Some? {
          assert ParseVersion(before, versionName) == Version(Atoi(left), Atoi(rest.value.0), Atoi(rest.value.1));
          left, right := rest.value.0, rest.value.1;
          minor := Atoi(left);
          patch := Atoi(right);
        } else {
          assert ParseVersion(before, versionName) == Version(Atoi(left), Atoi(right), before.patch);
          minor := Atoi(right);
        }
      }
    }
  }
}
