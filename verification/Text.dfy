/** The string checks shared by the policy code. */
module Text {
  /** The characters removed by JavaScript's String.prototype.trim. */
  predicate IsWhite(c: char) {
    var code := c as int;
    || 0x9 <= code <= 0xD || code == 0x20 || code == 0xA0 || code == 0x1680
    || 0x2000 <= code <= 0x200A || code == 0x2028 || code == 0x2029
    || code == 0x202F || code == 0x205F || code == 0x3000 || code == 0xFEFF
  }

  predicate IsTrimmed(s: string) {
    s != "" ==> !IsWhite(s[0]) && !IsWhite(s[|s| - 1])
  }

  predicate AllWhite(s: string) {
    forall c :: c in s ==> IsWhite(c)
  }

  /** `t` is `raw` without white space at its ends: nothing else is taken away, and no more can be. */
  ghost predicate Stripped(raw: string, t: string) {
    IsTrimmed(t) && exists i, j :: 0 <= i <= j <= |raw| && IsCut(raw, t, i, j)
  }

  ghost predicate IsCut(raw: string, t: string, i: nat, j: nat)
    requires i <= j <= |raw|
  {
    t == raw[i..j] && AllWhite(raw[..i]) && AllWhite(raw[j..])
  }

  /** String.prototype.trim: `s` without the white space at its two ends. */
  function Trim(s: string): (t: string)
    ensures IsTrimmed(t) && |t| <= |s|
  {
    if IsTrimmed(s) then s
    else if IsWhite(s[0]) then Trim(s[1..])
    else Trim(s[..|s| - 1])
  }

  lemma {:induction false} TrimStrips(s: string)
    ensures Stripped(s, Trim(s))
  {
    if IsTrimmed(s) {
      assert IsCut(s, s, 0, |s|);
    } else if IsWhite(s[0]) {
      TrimStrips(s[1..]);
      StrippedFront(s, Trim(s[1..]));
    } else {
      TrimStrips(s[..|s| - 1]);
      StrippedBack(s, Trim(s[..|s| - 1]));
    }
  }

  lemma StrippedFront(s: string, t: string)
    requires s != "" && IsWhite(s[0]) && Stripped(s[1..], t)
    ensures Stripped(s, t)
  {
    var i, j :| 0 <= i <= j <= |s| - 1 && IsCut(s[1..], t, i, j);
    assert s[..i + 1] == [s[0]] + s[1..][..i];
    assert IsCut(s, t, i + 1, j + 1);
  }

  lemma StrippedBack(s: string, t: string)
    requires s != "" && IsWhite(s[|s| - 1]) && Stripped(s[..|s| - 1], t)
    ensures Stripped(s, t)
  {
    var i, j :| 0 <= i <= j <= |s| - 1 && IsCut(s[..|s| - 1], t, i, j);
    assert s[..i] == s[..|s| - 1][..i] && s[j..] == s[..|s| - 1][j..] + [s[|s| - 1]];
    assert IsCut(s, t, i, j);
  }

  /** There is only one way to strip a text, and it is `Trim`. */
  lemma StrippedIsTrim(raw: string, t: string)
    ensures Stripped(raw, t) <==> t == Trim(raw)
  {
    TrimStrips(raw);
    if Stripped(raw, t) {
      var u := Trim(raw);
      var i, j :| 0 <= i <= j <= |raw| && IsCut(raw, t, i, j);
      var k, l :| 0 <= k <= l <= |raw| && IsCut(raw, u, k, l);
      if t != "" {
        CutIsInside(raw, t, i, j, u, k, l);
      }
      if u != "" {
        CutIsInside(raw, u, k, l, t, i, j);
      }
    }
  }

  /** A trimmed, nonempty cut lies within any other. */
  lemma CutIsInside(raw: string, t: string, i: nat, j: nat, u: string, k: nat, l: nat)
    requires i <= j <= |raw| && IsCut(raw, t, i, j) && IsTrimmed(t) && t != ""
    requires k <= l <= |raw| && IsCut(raw, u, k, l)
    ensures k <= i && j <= l
  {
    assert raw[i] == t[0] && raw[j - 1] == t[|t| - 1];
    assert forall m :: 0 <= m < k ==> raw[m] == raw[..k][m];
    assert forall m :: l <= m < |raw| ==> raw[m] == raw[l..][m - l];
  }

  /** The guard `assertNonBlank`. */
  predicate NonBlank(s: string, maxLength: nat) {
    Trim(s) != "" && s == Trim(s) && |s| <= maxLength
  }

  /** A text that is there, fits, and has no white space at its ends. */
  predicate Filled(s: string, max: nat) {
    s != "" && IsTrimmed(s) && |s| <= max
  }

  lemma NonBlankMeans(s: string, max: nat)
    ensures NonBlank(s, max) <==> Filled(s, max)
  {
  }
}
