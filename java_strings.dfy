/** The part of java.lang.String the connector relies on: `trim()` and the blank test. */
module JavaStrings {

  /** `String.trim()` strips every leading and trailing char whose code is at most U+0020. */
  predicate IsTrimmable(c: char) {
    c <= ' '
  }

  /** Strips the leading trimmable chars: what remains is a suffix that starts with a kept char. */
  function TrimStart(s: string): (t: string)
    ensures |t| <= |s| && t == s[|s| - |t|..]
    ensures forall i :: 0 <= i < |s| - |t| ==> IsTrimmable(s[i])
    ensures t != [] ==> !IsTrimmable(t[0])
  {
    if s == [] || !IsTrimmable(s[0]) then s else TrimStart(s[1..])
  }

  /** Strips the trailing trimmable chars: what remains is a prefix that ends with a kept char. */
  function TrimEnd(s: string): (t: string)
    ensures |t| <= |s| && t == s[..|t|]
    ensures forall i :: |t| <= i < |s| ==> IsTrimmable(s[i])
    ensures t != [] ==> !IsTrimmable(t[|t| - 1])
  {
    if s == [] || !IsTrimmable(s[|s| - 1]) then s else TrimEnd(s[..|s| - 1])
  }

  /**
   * `s.trim()`: the slice of `s` left after cutting trimmable chars only, at
   * both ends, which neither starts nor ends with a trimmable char.
   */
  function Trim(s: string): (t: string)
    ensures |t| <= |s|
    ensures exists a, b ::
              && 0 <= a <= b <= |s| && t == s[a..b]
              && (forall i :: 0 <= i < a ==> IsTrimmable(s[i]))
              && (forall i :: b <= i < |s| ==> IsTrimmable(s[i]))
    ensures t != [] ==> !IsTrimmable(t[0]) && !IsTrimmable(t[|t| - 1])
  {
    var u := TrimStart(s);
    var t := TrimEnd(u);
    InnerSlice(s, u, t);
    t
  }

  /**
   * Cutting trimmable chars off the front of `s` (leaving `u`) and then off
   * the back of `u` (leaving `t`) leaves a slice of `s` between two runs of
   * trimmable chars.
   */
  lemma InnerSlice(s: string, u: string, t: string)
    requires |u| <= |s| && u == s[|s| - |u|..]
    requires forall i :: 0 <= i < |s| - |u| ==> IsTrimmable(s[i])
    requires |t| <= |u| && t == u[..|t|]
    requires forall i :: |t| <= i < |u| ==> IsTrimmable(u[i])
    ensures exists a, b ::
              && 0 <= a <= b <= |s| && t == s[a..b]
              && (forall i :: 0 <= i < a ==> IsTrimmable(s[i]))
              && (forall i :: b <= i < |s| ==> IsTrimmable(s[i]))
  {
    var a := |s| - |u|;
    assert s[a..a + |t|] == t;
    forall i | a + |t| <= i < |s|
      ensures IsTrimmable(s[i])
    {
      assert s[i] == u[i - a];
    }
  }

  /** `s.trim().isEmpty()`: holds exactly when every char of `s` is trimmable. */
  predicate IsBlank(s: string)
    ensures IsBlank(s) <==> forall i :: 0 <= i < |s| ==> IsTrimmable(s[i])
  {
    TrimEmptyIffAllTrimmable(s);
    Trim(s) == []
  }

  /** Trimming leaves nothing exactly when every char is trimmable. */
  lemma TrimEmptyIffAllTrimmable(s: string)
    ensures Trim(s) == [] <==> forall i :: 0 <= i < |s| ==> IsTrimmable(s[i])
  {
    if forall i :: 0 <= i < |s| ==> IsTrimmable(s[i]) {
      AllTrimmableTrimsToEmpty(s);
    } else {
      var i :| 0 <= i < |s| && !IsTrimmable(s[i]);
      KeptCharSurvivesTrim(s, i);
    }
  }

  /** When every char is trimmable, `TrimStart` already leaves nothing. */
  lemma AllTrimmableTrimsToEmpty(s: string)
    requires forall i :: 0 <= i < |s| ==> IsTrimmable(s[i])
    ensures Trim(s) == []
  {
    // Every char `TrimStart` would keep first is a char of `s`, hence trimmable.
    assert TrimStart(s) == [];
  }

  /** A char above U+0020 is neither stripped from the front nor from the back. */
  lemma KeptCharSurvivesTrim(s: string, i: nat)
    requires i < |s| && !IsTrimmable(s[i])
    ensures Trim(s) != []
  {
    var u := TrimStart(s);
    assert |s| - |u| <= i;
    var j := i - (|s| - |u|);
    assert u[j] == s[i];
    var t := TrimEnd(u);
    assert j < |t|;
  }

  /** A string holding any char above U+0020 is not blank. */
  lemma VisibleCharNotBlank(s: string, i: nat)
    requires i < |s| && !IsTrimmable(s[i])
    ensures !IsBlank(s)
  {
    assert !IsTrimmable(s[i]);
  }
}
