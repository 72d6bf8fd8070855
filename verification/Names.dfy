/** Vault names and the mount points built from them. */
module Names {

  predicate IsNameChar(c: char) {
    'a' <= c <= 'z' || '0' <= c <= '9' || c == '-'
  }

  /** isValidVaultName: 1 to 64 characters out of [a-z0-9-]. */
  predicate IsValidName(s: string) {
    && 1 <= |s| <= 64
    && forall k :: 0 <= k < |s| ==> IsNameChar(s[k])
  }

  const LETTERS := "abcdefghijklmnopqrstuvwxyz"
  const DIGITS := "0123456789"

  lemma LetterAt(i: nat)
    requires i < |LETTERS|
    ensures LETTERS[i] as int == 'a' as int + i
  {
  }

  lemma DigitAt(i: nat)
    requires i < |DIGITS|
    ensures DIGITS[i] as int == '0' as int + i
  {
  }

  /** The alphabet of names, letter by letter. */
  lemma NameCharIff(c: char)
    ensures IsNameChar(c) <==> c in LETTERS || c in DIGITS || c == '-'
  {
    if 'a' <= c <= 'z' {
      LetterAt(c as int - 'a' as int);
    } else if '0' <= c <= '9' {
      DigitAt(c as int - '0' as int);
    } else if i: nat :| i < |LETTERS| && LETTERS[i] == c {
      LetterAt(i);
    } else if i: nat :| i < |DIGITS| && DIGITS[i] == c {
      DigitAt(i);
    }
  }

  /** The mount point is always <mount dir>/<vault name>. */
  function MountPointOf(mountDir: string, name: string): string {
    mountDir + "/" + name
  }

  /** What follows the last slash of a path. */
  function LastSegment(path: string): string {
    if path == "" || path[|path| - 1] == '/' then ""
    else LastSegment(path[..|path| - 1]) + [path[|path| - 1]]
  }

  /** A mount point names its vault: different names never share one, whatever the directories. */
  lemma {:induction false} MountPointNamesVault(mountDir: string, name: string)
    requires forall k :: 0 <= k < |name| ==> IsNameChar(name[k])
    ensures LastSegment(MountPointOf(mountDir, name)) == name
    decreases |name|
  {
    var mp := MountPointOf(mountDir, name);
    if name != "" {
      var shorter := name[..|name| - 1];
      assert mp[..|mp| - 1] == MountPointOf(mountDir, shorter);
      assert mp[|mp| - 1] == name[|name| - 1] && IsNameChar(name[|name| - 1]);
      MountPointNamesVault(mountDir, shorter);
      assert name == shorter + [name[|name| - 1]];
    }
  }
}
