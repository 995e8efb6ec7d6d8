/**
 * The CityFeel user: the avatar upload path, the display string and the
 * avatar URL. File names follow POSIX `os.path.splitext`.
 */
module AuthModels {
  import opened Wrappers
  import opened Text

  /** A user; `avatar` is the stored file name of the picture, if any. */
  datatype User = User(id: nat, username: string, dateJoined: int, avatar: Option<string>)

  /** `__str__`: a user displays as their username. */
  function UserStr(u: User): string
  {
    u.username
  }

  /** The last position of `c` in `s`, or -1 (`str.rfind`). */
  function RFind(s: string, c: char): (r: int)
    ensures -1 <= r < |s|
    ensures r >= 0 ==> s[r] == c
    ensures forall i :: r < i < |s| ==> s[i] != c
  {
    if s == [] then -1
    else if s[|s| - 1] == c then |s| - 1
    else RFind(s[..|s| - 1], c)
  }

  predicate AllDots(s: string)
  {
    forall i :: 0 <= i < |s| ==> s[i] == '.'
  }

  /**
   * The last path component has a dot with a character other than a dot
   * somewhere before it.
   */
  predicate HasExtension(p: string)
  {
    exists i, j :: RFind(p, '/') < i < j < |p| && p[i] != '.' && p[j] == '.'
  }

  /**
   * Where `os.path.splitext` on a POSIX path cuts off the extension, or -1:
   * at the last dot of the last path component, unless only dots precede
   * that dot in the component (a hidden file such as ".profile" has no
   * extension).
   */
  function ExtStart(p: string): (k: int)
    ensures -1 <= k < |p|
    ensures k >= 0 ==> p[k] == '.' && forall i :: k < i < |p| ==> p[i] != '.' && p[i] != '/'
    ensures k >= 0 <==> HasExtension(p)
  {
    var sep := RFind(p, '/');
    var dot := RFind(p, '.');
    if dot > sep && !AllDots(p[sep + 1..dot]) then
      var n :| 0 <= n < |p[sep + 1..dot]| && p[sep + 1..dot][n] != '.';
      assert p[sep + 1 + n] != '.' && p[dot] == '.';
      dot
    else
      assert forall i, j :: sep < i < j < |p| && p[i] != '.' && p[j] == '.' ==> p[sep + 1..dot][i - sep - 1] == p[i];
      -1
  }

  /** `os.path.splitext`: the root and the extension, which is empty or one dot and no dot or slash after it. */
  function SplitExt(p: string): (r: (string, string))
    ensures r.0 + r.1 == p
    ensures r.1 == [] || r.1[0] == '.'
    ensures forall i :: 0 < i < |r.1| ==> r.1[i] != '.'
    ensures forall i :: 0 <= i < |r.1| ==> r.1[i] != '/'
    ensures r.1 != [] <==> HasExtension(p)
  {
    var k := ExtStart(p);
    if k >= 0 then
      assert p[..k] + p[k..] == p;
      (p[..k], p[k..])
    else (p, [])
  }

  /** A name without a dot has no extension. */
  lemma SplitExtNoDot(p: string)
    requires '.' !in p
    ensures SplitExt(p) == (p, [])
  {
  }

  /**
   * A file name whose last component is `base.e`, where `base` holds some
   * character other than a dot ("photo.JPG", "my.photo.jpg", "dir/x.jpg"),
   * splits at its last dot.
   */
  lemma SplitExtAtLastDot(dir: string, base: string, e: string)
    requires '/' !in base && !AllDots(base)
    requires '.' !in e && '/' !in e
    ensures SplitExt(dir + base + "." + e) == (dir + base, "." + e)
  {
    var p := dir + base + "." + e;
    var d := |dir| + |base|;
    assert p[d] == '.';
    assert forall i :: |dir| <= i < d ==> p[i] == base[i - |dir|];
    assert forall i :: d < i < |p| ==> p[i] == e[i - d - 1];
    assert RFind(p, '.') == d;
    assert RFind(p, '/') < |dir|;
    var n :| 0 <= n < |base| && base[n] != '.';
    assert p[|dir| + n] != '.';
    assert HasExtension(p);
    assert p[..d] == dir + base && p[d..] == "." + e;
  }

  /** ".profile" has no extension: only dots come before its one dot. */
  lemma SplitExtHiddenFile(e: string)
    requires '.' !in e && '/' !in e
    ensures SplitExt("." + e) == ("." + e, [])
  {
    var p := "." + e;
    assert forall i :: 0 < i < |p| ==> p[i] == e[i - 1];
    assert p[0] == '.';
    assert RFind(p, '.') == 0;
  }

  /** The id as the f-string renders it: "None" for a user not saved yet. */
  function IdText(id: Option<nat>): (r: string)
    ensures id.Some? ==> r == NatToString(id.value)
  {
    match id
    case None => "None"
    case Some(n) => NatToString(n)
  }

  /** `user_avatar_upload_path`: "avatars/user_{id}_avatar{ext}" with the extension lower-cased. */
  function UploadPath(id: Option<nat>, filename: string): (r: string)
    ensures ("avatars/user_" + IdText(id) + "_avatar") <= r
    ensures r[|"avatars/user_" + IdText(id) + "_avatar"|..] == Lower(SplitExt(filename).1)
  {
    "avatars/user_" + IdText(id) + "_avatar" + Lower(SplitExt(filename).1)
  }

  /** A file name without an extension gives a path ending in "_avatar". */
  lemma UploadPathWithoutExtension(id: Option<nat>, filename: string)
    requires '.' !in filename
    ensures UploadPath(id, filename) == "avatars/user_" + IdText(id) + "_avatar"
  {
    SplitExtNoDot(filename);
  }

  /**
   * The original base name and directory are discarded and the extension's
   * case does not matter: two files whose last components end in the same
   * extension, up to case, get the same path.
   */
  lemma UploadPathIgnoresBaseName(id: Option<nat>, dir1: string, base1: string, e1: string,
                                  dir2: string, base2: string, e2: string)
    requires '/' !in base1 && !AllDots(base1) && '/' !in base2 && !AllDots(base2)
    requires '.' !in e1 && '/' !in e1 && '.' !in e2 && '/' !in e2
    requires Lower(e1) == Lower(e2)
    ensures UploadPath(id, dir1 + base1 + "." + e1) == UploadPath(id, dir2 + base2 + "." + e2)
  {
    SplitExtAtLastDot(dir1, base1, e1);
    SplitExtAtLastDot(dir2, base2, e2);
    LowerConcat(".", e1);
    LowerConcat(".", e2);
  }

  predicate AllDigits(s: string)
  {
    forall i :: 0 <= i < |s| ==> IsDigit(s[i])
  }

  /** A run of digits followed by a non-digit is determined by the text. */
  lemma DigitRunUnique(d1: string, d2: string, x: string, y: string)
    requires AllDigits(d1) && AllDigits(d2)
    requires x != [] && !IsDigit(x[0]) && y != [] && !IsDigit(y[0])
    requires d1 + x == d2 + y
    ensures d1 == d2
  {
    var k := if |d1| <= |d2| then |d1| else |d2|;
    assert (d1 + x)[k] == (d2 + y)[k];
    assert IsDigit((d1 + x)[k]) <==> k < |d1|;
    assert IsDigit((d2 + y)[k]) <==> k < |d2|;
    assert d1 == (d1 + x)[..|d1|];
    assert d2 == (d2 + y)[..|d2|];
  }

  lemma UploadPathAfterPrefix(n: nat, f: string)
    ensures UploadPath(Some(n), f)[13..] == NatToString(n) + ("_avatar" + Lower(SplitExt(f).1))
  {
    var d, e := NatToString(n), Lower(SplitExt(f).1);
    assert "avatars/user_" + d + "_avatar" + e == "avatars/user_" + (d + ("_avatar" + e));
  }

  /** Two saved users never share an upload path, whatever the file names. */
  lemma UploadPathsOfUsersDiffer(m: nat, n: nat, f1: string, f2: string)
    requires m != n
    ensures UploadPath(Some(m), f1) != UploadPath(Some(n), f2)
  {
    var x := "_avatar" + Lower(SplitExt(f1).1);
    var y := "_avatar" + Lower(SplitExt(f2).1);
    UploadPathAfterPrefix(m, f1);
    UploadPathAfterPrefix(n, f2);
    NatToStringInjective(m, n);
    if UploadPath(Some(m), f1) == UploadPath(Some(n), f2) {
      DigitRunUnique(NatToString(m), NatToString(n), x, y);
    }
  }

  /** `get_avatar_url`: no URL without a picture, else the storage URL of the file. */
  function AvatarUrl(mediaUrl: string, u: User): (r: Option<string>)
    ensures r.None? <==> u.avatar.None? || u.avatar.value == []
    ensures r.Some? ==> r.value == mediaUrl + u.avatar.value
  {
    match u.avatar
    case None => None
    case Some(name) => if name == [] then None else Some(mediaUrl + name)
  }
}
