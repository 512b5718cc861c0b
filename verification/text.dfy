/** String helpers with the semantics of the JavaScript built-ins the source calls. */
module Text {

  /** `toLowerCase` on one character; only the ASCII capitals are mapped. */
  function LowerChar(c: char): char
  {
    if 'A' <= c <= 'Z' then (c as int - 'A' as int + 'a' as int) as char else c
  }

  /** `toLowerCase` on a string, character by character. */
  function Lower(s: string): string
  {
    seq(|s|, i requires 0 <= i < |s| => LowerChar(s[i]))
  }

  /** No ASCII capital occurs in `s`. */
  predicate IsLowerCase(s: string)
  {
    forall i :: 0 <= i < |s| ==> !('A' <= s[i] <= 'Z')
  }

  /** Lowering yields a lower-case string and leaves a lower-case string alone. */
  lemma LowerFacts(s: string)
    ensures IsLowerCase(Lower(s))
    ensures IsLowerCase(s) ==> Lower(s) == s
    ensures Lower(Lower(s)) == Lower(s)
  {
    assert IsLowerCase(Lower(s));
    if IsLowerCase(s) {
      assert forall i :: 0 <= i < |s| ==> Lower(s)[i] == s[i];
    }
    assert forall i :: 0 <= i < |s| ==> Lower(Lower(s))[i] == Lower(s)[i];
  }

  /** The characters `String.prototype.trim` strips: white space and line terminators. */
  predicate IsJsSpace(c: char)
  {
    || c == ' ' || c == '\t' || c == '\n' || c == '\r' || c == '\U{000B}' || c == '\U{000C}'
    || c == '\U{00A0}' || c == '\U{FEFF}' || c == '\U{1680}' || ('\U{2000}' <= c <= '\U{200A}')
    || c == '\U{2028}' || c == '\U{2029}' || c == '\U{202F}' || c == '\U{205F}' || c == '\U{3000}'
  }

  /** Every character of `s` is stripped by `trim`. */
  predicate AllSpace(s: string)
  {
    forall i :: 0 <= i < |s| ==> IsJsSpace(s[i])
  }

  /** The first position at or after `k` that `trim` keeps: `k` plus the white space run there. */
  function SpaceRunFrom(s: string, k: nat): (n: nat)
    requires k <= |s|
    ensures k <= n <= |s|
    ensures forall i :: k <= i < n ==> IsJsSpace(s[i])
    ensures n == |s| || !IsJsSpace(s[n])
    decreases |s| - k
  {
    if k < |s| && IsJsSpace(s[k]) then SpaceRunFrom(s, k + 1) else k
  }

  /** The end of what `trim` keeps before `k`: `k` minus the white space run ending there. */
  function SpaceRunBefore(s: string, k: nat): (n: nat)
    requires k <= |s|
    ensures n <= k
    ensures forall i :: n <= i < k ==> IsJsSpace(s[i])
    ensures n == 0 || !IsJsSpace(s[n - 1])
  {
    if k > 0 && IsJsSpace(s[k - 1]) then SpaceRunBefore(s, k - 1) else k
  }

  /** `trimStart`: drop the leading white space. */
  function TrimStart(s: string): (r: string)
    ensures |r| <= |s|
    ensures r == s[|s| - |r|..]
    ensures AllSpace(s[..|s| - |r|])
    ensures r == [] || !IsJsSpace(r[0])
  {
    s[SpaceRunFrom(s, 0)..]
  }

  /** `trimEnd`: drop the trailing white space. */
  function TrimEnd(s: string): (r: string)
    ensures |r| <= |s|
    ensures r == s[..|r|]
    ensures AllSpace(s[|r|..])
    ensures r == [] || !IsJsSpace(r[|r| - 1])
  {
    s[..SpaceRunBefore(s, |s|)]
  }

  /** `String.prototype.trim`. */
  function Trim(s: string): string
  {
    TrimEnd(TrimStart(s))
  }

  /** Leading white space is exactly the padding `w` when the rest starts with a kept character. */
  lemma TrimStartPadded(w: string, s: string)
    requires AllSpace(w)
    requires s != [] && !IsJsSpace(s[0])
    ensures TrimStart(w + s) == s
  {
    assert forall i :: 0 <= i < |w| ==> (w + s)[i] == w[i];
    assert (w + s)[|w|] == s[0];
    assert SpaceRunFrom(w + s, 0) == |w|;
    assert (w + s)[|w|..] == s;
  }

  /** Trailing white space is exactly the padding `w` when the rest ends with a kept character. */
  lemma TrimEndPadded(s: string, w: string)
    requires AllSpace(w)
    requires s != [] && !IsJsSpace(s[|s| - 1])
    ensures TrimEnd(s + w) == s
  {
    assert forall i :: |s| <= i < |s + w| ==> (s + w)[i] == w[i - |s|];
    assert (s + w)[|s| - 1] == s[|s| - 1];
    assert SpaceRunBefore(s + w, |s + w|) == |s|;
    assert (s + w)[..|s|] == s;
  }

  /** Trimming a string padded with white space on both sides recovers it exactly,
      provided it neither starts nor ends with white space. */
  lemma TrimPadded(w1: string, s: string, w2: string)
    requires AllSpace(w1) && AllSpace(w2)
    requires s != [] && !IsJsSpace(s[0]) && !IsJsSpace(s[|s| - 1])
    ensures Trim(w1 + s + w2) == s
  {
    assert w1 + s + w2 == w1 + (s + w2);
    assert (s + w2)[0] == s[0];
    TrimStartPadded(w1, s + w2);
    TrimEndPadded(s, w2);
  }
}
