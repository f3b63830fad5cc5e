/** The flag-image path pattern `\/fileadmin\/Images\/Icons\/Flags\/[^/]+\/(?P<country_code>[A-Z]{3}).png`,
    matched with `re.match`: anchored at the start, not at the end. */
module FlagPath {
  import opened Wrappers

  const FlagDir: string := "/fileadmin/Images/Icons/Flags/"

  predicate IsUpper(c: char) {
    'A' <= c <= 'Z'
  }

  /** Position of the first `/` of `s`. */
  function IndexOfSlash(s: string): (r: Option<nat>)
    ensures r.Some? ==> r.value < |s| && s[r.value] == '/' && forall k :: 0 <= k < r.value ==> s[k] != '/'
    ensures r.None? ==> forall k :: 0 <= k < |s| ==> s[k] != '/'
  {
    if s == [] then None
    else if s[0] == '/' then Some(0)
    else match IndexOfSlash(s[1..])
      case None => None
      case Some(k) => Some(k + 1)
  }

  /** The `country_code` group when the pattern matches a prefix of `src`.
      `[^/]+` must stop at the first `/` after the directory, so the match is
      decided by that one split. The `.` before `png` is any character but a
      line feed. */
  function MatchFlagPath(src: string): (r: Option<string>)
    ensures r.Some? ==> |r.value| == 3 && forall k :: 0 <= k < 3 ==> IsUpper(r.value[k])
  {
    if |src| < |FlagDir| || src[..|FlagDir|] != FlagDir then None
    else
      var rest := src[|FlagDir|..];
      match IndexOfSlash(rest)
      case None => None
      case Some(j) =>
        if j == 0 || |rest| < j + 8 then None
        else
          var code := rest[j + 1..j + 4];
          if (forall k :: 0 <= k < 3 ==> IsUpper(code[k])) && rest[j + 4] != '\n' && rest[j + 5..j + 8] == "png"
          then Some(code)
          else None
  }

  /** `src` starts with the flag directory, a non-empty `region` without `/`,
      a `/`, the three capital letters `code`, one character other than a line
      feed, and `png`. */
  ghost predicate FlagShape(src: string, region: string, code: string) {
    var p := |FlagDir| + |region|;
    p + 8 <= |src| && src[..|FlagDir|] == FlagDir && src[|FlagDir|..p] == region
    && region != [] && (forall k :: 0 <= k < |region| ==> region[k] != '/')
    && src[p] == '/' && code == src[p + 1..p + 4] && (forall k :: 0 <= k < 3 ==> IsUpper(code[k]))
    && src[p + 4] != '\n' && src[p + 5..p + 8] == "png"
  }

  /** The first `/` is the one the scan reports. */
  lemma IndexOfFirstSlash(s: string, j: nat)
    requires j < |s| && s[j] == '/' && forall k :: 0 <= k < j ==> s[k] != '/'
    ensures IndexOfSlash(s) == Some(j)
  {
  }

  /** Every match has that shape, with the text between the directory and the next `/` as region. */
  lemma MatchHasShape(src: string, code: string)
    requires MatchFlagPath(src) == Some(code)
    ensures FlagShape(src, src[|FlagDir|..|FlagDir| + IndexOfSlash(src[|FlagDir|..]).value], code)
  {
    var n := |FlagDir|;
    var rest := src[n..];
    var j := IndexOfSlash(rest).value;
    var region := rest[..j];
    assert src[n..n + j] == region;
    assert forall k :: 0 <= k < |region| ==> region[k] == rest[k];
    assert src[n + j] == rest[j];
    var codeInSrc, codeInRest := src[n + j + 1..n + j + 4], rest[j + 1..j + 4];
    forall k | 0 <= k < 3 ensures codeInSrc[k] == codeInRest[k] {
      assert src[n + j + 1 + k] == rest[j + 1 + k];
    }
    assert codeInSrc == codeInRest;
    assert src[n + j + 4] == rest[j + 4];
    var extInSrc, extInRest := src[n + j + 5..n + j + 8], rest[j + 5..j + 8];
    forall k | 0 <= k < 3 ensures extInSrc[k] == extInRest[k] {
      assert src[n + j + 5 + k] == rest[j + 5 + k];
    }
    assert extInSrc == extInRest;
  }

  /** Every path of that shape matches, capturing its code. */
  lemma ShapeMatches(src: string, region: string, code: string)
    requires FlagShape(src, region, code)
    ensures MatchFlagPath(src) == Some(code)
  {
    var n := |FlagDir|;
    var rest := src[n..];
    var p := |region|;
    assert forall k :: 0 <= k < p ==> rest[k] == region[k];
    assert rest[p] == src[n + p];
    IndexOfFirstSlash(rest, p);
    assert rest[p + 1..p + 4] == src[n + p + 1..n + p + 4];
    assert rest[p + 4] == src[n + p + 4];
    assert rest[p + 5..p + 8] == src[n + p + 5..n + p + 8];
  }

  /** The matcher accepts exactly the paths of that shape and captures their code. */
  lemma MatchFlagPathIff(src: string, code: string)
    ensures MatchFlagPath(src) == Some(code) <==> exists region :: FlagShape(src, region, code)
  {
    if MatchFlagPath(src) == Some(code) {
      MatchHasShape(src, code);
    }
    if region :| FlagShape(src, region, code) {
      ShapeMatches(src, region, code);
    }
  }

  /** A lower-case code is not a flag path. */
  lemma LowerCaseCodeRejected()
    ensures MatchFlagPath("/fileadmin/Images/Icons/Flags/Europe/xx.png") == None
  {
    var src := "/fileadmin/Images/Icons/Flags/Europe/xx.png";
    assert src[..|FlagDir|] == FlagDir;
    var rest := src[|FlagDir|..];
    assert rest == "Europe/xx.png";
    IndexOfFirstSlash(rest, 6);
    assert !IsUpper(rest[7]);
  }

  /** A well-formed path yields its code, whatever follows `png`. */
  lemma GermanFlagAccepted()
    ensures MatchFlagPath("/fileadmin/Images/Icons/Flags/Europe/GER.png?v=2") == Some("GER")
  {
    var src := "/fileadmin/Images/Icons/Flags/Europe/GER.png?v=2";
    assert src[..|FlagDir|] == FlagDir;
    var rest := src[|FlagDir|..];
    assert rest == "Europe/GER.png?v=2";
    IndexOfFirstSlash(rest, 6);
    assert rest[7..10] == "GER";
    assert rest[11..14] == "png";
  }
}
