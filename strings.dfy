/** The two helpers of Go's `strings` package that the domain filter relies on.
    Lower-casing is modelled on ASCII only: 'A'..'Z' map to 'a'..'z', every
    other character is left alone. */
module Strings {

  predicate IsUpper(c: char) {
    'A' <= c <= 'Z'
  }

  function LowerChar(c: char): char {
    if IsUpper(c) then (c as int + 32) as char else c
  }

  /** `strings.ToLower`, character by character. */
  function ToLower(s: string): (r: string)
    ensures |r| == |s|
    ensures forall i :: 0 <= i < |s| ==> r[i] == LowerChar(s[i])
  {
    if s == [] then [] else [LowerChar(s[0])] + ToLower(s[1..])
  }

  /** `strings.HasSuffix`: `suffix` is what is left of `s` after some prefix. */
  predicate HasSuffix(s: string, suffix: string) {
    |suffix| <= |s| && s[|s| - |suffix|..] == suffix
  }

  lemma HasSuffixMeansEndsWith(s: string, suffix: string)
    ensures HasSuffix(s, suffix) <==> exists p :: p + suffix == s
  {
    if HasSuffix(s, suffix) {
      var p := s[..|s| - |suffix|];
      assert p + suffix == s;
    }
    if p :| p + suffix == s {
      assert s[|s| - |suffix|..] == suffix;
    }
  }

  lemma {:induction false} ToLowerConcat(a: string, b: string)
    ensures ToLower(a + b) == ToLower(a) + ToLower(b)
  {
    assert forall i :: 0 <= i < |a + b| ==> ToLower(a + b)[i] == (ToLower(a) + ToLower(b))[i];
  }

  /** Lower-casing neither creates nor removes an '@'. */
  lemma {:induction false} ToLowerKeepsAt(s: string)
    ensures '@' in ToLower(s) <==> '@' in s
  {
    var r := ToLower(s);
    if '@' in r {
      var i :| 0 <= i < |r| && r[i] == '@';
      assert s[i] == '@';
    }
    if '@' in s {
      var i :| 0 <= i < |s| && s[i] == '@';
      assert r[i] == '@';
    }
  }
}
