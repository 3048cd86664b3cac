/** Text helpers shared by the tools: Python's `str.lower()` (on ASCII
    letters), the key normalisation `s.lower().replace(" ", "_").replace("-", "_")`
    and the substring test `t in s`. */
module Text {

  datatype Option<T> = None | Some(value: T)

  /** `c.lower()` for one character; only ASCII letters are mapped. */
  function LowerChar(c: char): char {
    if 'A' <= c <= 'Z' then (c as int + 32) as char else c
  }

  /** `s.lower()` */
  function Lower(s: string): string {
    seq(|s|, i requires 0 <= i < |s| => LowerChar(s[i]))
  }

  /** `s.replace(from, to)` for single characters. */
  function Replace(s: string, from: char, to: char): string {
    seq(|s|, i requires 0 <= i < |s| => if s[i] == from then to else s[i])
  }

  /** The normalisation applied to law names and constant names. */
  function NormalizeKey(s: string): string {
    Replace(Replace(Lower(s), ' ', '_'), '-', '_')
  }

  /** What the normalisation does to one character. */
  function KeyChar(c: char): char {
    if c == ' ' || c == '-' then '_' else LowerChar(c)
  }

  /** The normalisation is character-wise: each character is folded on its own. */
  lemma NormalizeKeyAt(s: string)
    ensures |NormalizeKey(s)| == |s|
    ensures forall i :: 0 <= i < |s| ==> NormalizeKey(s)[i] == KeyChar(s[i])
  {
  }

  /** Two names that differ only in letter case and in the choice between
      space, hyphen and underscore normalise to the same key. */
  lemma NormalizeKeyAgrees(a: string, b: string)
    requires |a| == |b|
    requires forall i :: 0 <= i < |a| ==> KeyChar(a[i]) == KeyChar(b[i])
    ensures NormalizeKey(a) == NormalizeKey(b)
  {
    NormalizeKeyAt(a);
    NormalizeKeyAt(b);
  }

  /** A normalised key has no upper-case ASCII letter, no space and no
      hyphen, so normalising it again changes nothing. */
  lemma NormalizeKeyIdempotent(s: string)
    ensures NormalizeKey(NormalizeKey(s)) == NormalizeKey(s)
    ensures forall i :: 0 <= i < |s| ==> NormalizeKey(s)[i] !in {' ', '-'} && !('A' <= NormalizeKey(s)[i] <= 'Z')
  {
    NormalizeKeyAt(s);
    NormalizeKeyAt(NormalizeKey(s));
  }

  /** `t` is a prefix of `s`. */
  predicate IsPrefix(t: string, s: string) {
    |t| <= |s| && s[..|t|] == t
  }

  /** Python's `t in s` on strings: `t` occurs in `s` at some position. */
  predicate IsSubstring(t: string, s: string)
    decreases |s|
  {
    IsPrefix(t, s) || (|s| > 0 && IsSubstring(t, s[1..]))
  }

  /** `t` occurs in `s` starting at offset `k`. */
  predicate OccursAt(t: string, s: string, k: int) {
    0 <= k <= |s| - |t| && s[k..k + |t|] == t
  }

  /** The recursive substring test agrees with "occurs at some offset". */
  lemma {:induction false} IsSubstringAt(t: string, s: string)
    ensures IsSubstring(t, s) <==> exists k :: OccursAt(t, s, k)
    decreases |s|
  {
    if |s| > 0 {
      IsSubstringAt(t, s[1..]);
      if IsSubstring(t, s[1..]) {
        var k :| OccursAt(t, s[1..], k);
        assert s[k + 1..k + 1 + |t|] == s[1..][k..k + |t|];
        assert OccursAt(t, s, k + 1);
      }
      if IsPrefix(t, s) {
        assert OccursAt(t, s, 0);
      }
      if exists k :: OccursAt(t, s, k) {
        var k :| OccursAt(t, s, k);
        if k != 0 {
          assert s[1..][k - 1..k - 1 + |t|] == s[k..k + |t|];
          assert OccursAt(t, s[1..], k - 1);
        }
      }
    } else {
      if IsPrefix(t, s) {
        assert OccursAt(t, s, 0);
      }
    }
  }
}
