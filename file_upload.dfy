/** The poster upload interceptor: which uploads are accepted (by MIME type) and the name
    under which an accepted poster is stored. */
module FileUpload {
  import opened Wrappers
  import opened Strings

  /** The image subtypes the pattern `^image/(jpg|jpeg|png|gif)$` (case-insensitive) allows. */
  const ALLOWED_SUBTYPES: set<string> := {"jpg", "jpeg", "png", "gif"}
  /** The MIME types it allows, in lower case. */
  const ALLOWED_MIME_TYPES: set<string> := {"image/jpg", "image/jpeg", "image/png", "image/gif"}
  const REJECT_MESSAGE := "Only image files are allowed!"
  /** The name part used when the request carries no user. */
  const ANONYMOUS := "anonymous"

  datatype FilterDecision = Accept | Reject(message: string)

  /** The pattern, read piece by piece: the type `image` and a slash, in any case, then one of
      the allowed subtypes, in any case, up to the end of the text. */
  predicate MatchesAllowedFileTypes(mime: string) {
    |mime| >= 6 && ToLower(mime[..6]) == "image/" && ToLower(mime[6..]) in ALLOWED_SUBTYPES
  }

  lemma ToLowerAppend(a: string, b: string)
    ensures ToLower(a + b) == ToLower(a) + ToLower(b)
  {
  }

  /** `fileFilter`: accepts exactly the MIME types whose lower-case form is one of the four
      image types, and rejects every other one with the same message. */
  function FileFilter(mime: string): (d: FilterDecision)
    ensures d == Accept <==> ToLower(mime) in ALLOWED_MIME_TYPES
    ensures d != Accept ==> d == Reject(REJECT_MESSAGE)
  {
    PatternIsLowerCaseMembership(mime);
    if MatchesAllowedFileTypes(mime) then Accept else Reject(REJECT_MESSAGE)
  }

  /** Matching the pattern is membership of the lower-case form in the four types. */
  lemma PatternIsLowerCaseMembership(mime: string)
    ensures MatchesAllowedFileTypes(mime) <==> ToLower(mime) in ALLOWED_MIME_TYPES
  {
    if |mime| >= 6 {
      var t := ToLower(mime);
      assert mime == mime[..6] + mime[6..];
      ToLowerAppend(mime[..6], mime[6..]);
      assert t[..6] == ToLower(mime[..6]) && t[6..] == ToLower(mime[6..]);
      assert t == t[..6] + t[6..];
      assert t in ALLOWED_MIME_TYPES ==> t[..6] == "image/" && t[6..] in ALLOWED_SUBTYPES;
      assert "image/" + "jpg" == "image/jpg" && "image/" + "jpeg" == "image/jpeg";
      assert "image/" + "png" == "image/png" && "image/" + "gif" == "image/gif";
    } else {
      assert |ToLower(mime)| < 6;
    }
  }

  /** The filter ignores case. */
  lemma FileFilterIgnoresCase(mime: string)
    ensures FileFilter(mime) == FileFilter(ToLower(mime))
  {
    ToLowerIdempotent(mime);
  }

  /** Position of the last occurrence of `c` in `s`. */
  function LastIndexOf(s: string, c: char): (r: Option<nat>)
    ensures r.None? <==> c !in s
    ensures r.Some? ==> r.value < |s| && s[r.value] == c && c !in s[r.value + 1..]
  {
    if |s| == 0 then None
    else if s[|s| - 1] == c then Some(|s| - 1)
    else
      assert s == s[..|s| - 1] + [s[|s| - 1]];
      var r := LastIndexOf(s[..|s| - 1], c);
      if r.Some? then
        assert s[r.value + 1..] == s[..|s| - 1][r.value + 1..] + [s[|s| - 1]];
        r
      else r
  }

  /** The last dot is the first character exactly when the name starts with its only dot. */
  lemma OnlyLeadingDot(name: string)
    ensures LastIndexOf(name, '.') == Some(0) <==> name != "" && name[0] == '.' && '.' !in name[1..]
  {
    var r := LastIndexOf(name, '.');
    if name != "" && name[0] == '.' && '.' !in name[1..] {
      forall k | 0 < k < |name|
        ensures name[k] != '.'
      {
        assert name[k] == name[1..][k - 1];
      }
    }
  }

  /** `extname` of a base name: from the last dot to the end, except when there is no dot,
      when the only dot is the first character, or for `..`. */
  function ExtName(name: string): (ext: string)
    ensures '.' !in name ==> ext == ""
    ensures ext != "" ==> |ext| < |name| && ext == name[|name| - |ext|..]
    ensures ext != "" ==> ext[0] == '.' && '.' !in ext[1..]
    ensures ext == "" <==> '.' !in name || (name[0] == '.' && '.' !in name[1..]) || name == ".."
  {
    OnlyLeadingDot(name);
    match LastIndexOf(name, '.')
    case None => ""
    case Some(i) => if i == 0 || name == ".." then "" else name[i..]
  }

  /** The name part for the uploading user: their id, or `anonymous` without one. */
  function OwnerPart(userId: Option<string>): (p: string)
    ensures p != ""
    ensures userId.Some? && userId.value != "" ==> p == userId.value
  {
    if userId.Some? && userId.value != "" then userId.value else ANONYMOUS
  }

  /** The part made unique per upload: the millisecond clock and a random number from 0 to
      1e9 (both passed in), joined by a dash. */
  function UniqueSuffix(now: nat, random: nat): string {
    NatToString(now) + "-" + NatToString(random)
  }

  /** `filename`: owner part, dash, unique suffix, then the original file's extension. */
  function Filename(userId: Option<string>, now: nat, random: nat, originalName: string): (f: string)
    ensures StartsWith(f, OwnerPart(userId) + "-")
    ensures |ExtName(originalName)| <= |f| && f[|f| - |ExtName(originalName)|..] == ExtName(originalName)
  {
    OwnerPart(userId) + "-" + UniqueSuffix(now, random) + ExtName(originalName)
  }

  lemma NoDotInNumber(n: nat)
    ensures '.' !in NatToString(n) && '-' !in NatToString(n)
  {
    var s := NatToString(n);
    forall i | 0 <= i < |s|
      ensures s[i] != '.' && s[i] != '-'
    {
      assert IsDecimalDigit(s[i]);
    }
  }

  /** Appending an extension to a non-empty name without dots gives that extension back. */
  lemma {:induction false} ExtNameAfterPlainName(p: string, e: string)
    requires p != "" && '.' !in p
    requires e != "" && e[0] == '.' && '.' !in e[1..]
    ensures ExtName(p + e) == e
  {
    var f := p + e;
    assert f[|p|] == '.';
    var i := LastIndexOf(f, '.').value;
    forall k | |p| < k < |f| ensures f[k] != '.' {
      assert f[k] == e[1..][k - |p| - 1];
    }
    forall k | 0 <= k < |p| ensures f[k] != '.' {
      assert f[k] == p[k];
    }
    assert i == |p|;
    assert f[0] == p[0];
    assert ExtName(f) == f[i..];
    assert f[i..] == e;
  }

  /** When the owner part has no dot, the stored name keeps the original file's extension. */
  lemma {:induction false} FilenameKeepsExtension(userId: Option<string>, now: nat, random: nat, originalName: string)
    requires '.' !in OwnerPart(userId)
    ensures ExtName(Filename(userId, now, random, originalName)) == ExtName(originalName)
  {
    var p := OwnerPart(userId) + "-" + UniqueSuffix(now, random);
    var e := ExtName(originalName);
    assert Filename(userId, now, random, originalName) == p + e;
    NoDotInNumber(now);
    NoDotInNumber(random);
    assert '.' !in p;
    if e == "" {
      assert p + e == p;
    } else {
      ExtNameAfterPlainName(p, e);
    }
  }

  /** Two uploads by the same user of files with the same extension get different names
      whenever the clock or the random number differs. */
  lemma {:induction false} FilenamesDiffer(userId: Option<string>, now1: nat, random1: nat, now2: nat, random2: nat, originalName: string)
    requires now1 != now2 || random1 != random2
    ensures Filename(userId, now1, random1, originalName) != Filename(userId, now2, random2, originalName)
  {
    var p := OwnerPart(userId) + "-";
    var e := ExtName(originalName);
    var f1, f2 := Filename(userId, now1, random1, originalName), Filename(userId, now2, random2, originalName);
    var s1, s2 := UniqueSuffix(now1, random1), UniqueSuffix(now2, random2);
    assert f1 == p + s1 + e && f2 == p + s2 + e;
    if f1 == f2 {
      assert s1 == f1[|p|..|f1| - |e|];
      assert s2 == f2[|p|..|f2| - |e|];
      SuffixDetermines(now1, random1, now2, random2);
    }
  }

  /** The unique suffix determines the clock value and the random number. */
  lemma SuffixDetermines(now1: nat, random1: nat, now2: nat, random2: nat)
    requires UniqueSuffix(now1, random1) == UniqueSuffix(now2, random2)
    ensures now1 == now2 && random1 == random2
  {
    var a1, b1, a2, b2 := NatToString(now1), NatToString(random1), NatToString(now2), NatToString(random2);
    var s := UniqueSuffix(now1, random1);
    assert s == a1 + "-" + b1 && s == a2 + "-" + b2;
    NoDotInNumber(now1);
    NoDotInNumber(now2);
    assert s[|a1|] == '-' && s[|a2|] == '-';
    assert forall k :: 0 <= k < |a1| ==> s[k] == a1[k];
    assert forall k :: 0 <= k < |a2| ==> s[k] == a2[k];
    assert |a1| == |a2|;
    assert a1 == s[..|a1|] == a2;
    assert b1 == s[|a1| + 1..] == b2;
  }
}
