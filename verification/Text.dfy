/** Go's string helpers as the repository uses them: `strings.TrimSpace` and `strings.ToLower`. */
module Text {

  datatype Option<+T> = None | Some(value: T)

  /** White space as `strings.TrimSpace` understands it (Unicode property White_Space). */
  predicate IsSpace(c: char) {
    || '\U{0009}' <= c <= '\U{000D}'
    || c == ' '
    || c == '\U{0085}'
    || c == '\U{00A0}'
    || c == '\U{1680}'
    || '\U{2000}' <= c <= '\U{200A}'
    || c == '\U{2028}'
    || c == '\U{2029}'
    || c == '\U{202F}'
    || c == '\U{205F}'
    || c == '\U{3000}'
  }

  /** No white space at either end. */
  predicate Trimmed(s: string) {
    s == "" || (!IsSpace(s[0]) && !IsSpace(s[|s| - 1]))
  }

  /** `strings.TrimSpace`: always trimmed, and the identity on what already is. */
  function TrimSpace(s: string): (r: string)
    ensures Trimmed(r)
    ensures Trimmed(s) ==> r == s
    decreases |s|
  {
    if Trimmed(s) then s
    else if IsSpace(s[0]) then TrimSpace(s[1..])
    else TrimSpace(s[..|s| - 1])
  }

  /** The characters of category White_Space, one by one. */
  lemma SpacesAre(c: char)
    ensures IsSpace(c) <==>
      c in "\t\n\U{B}\U{C}\r \U{85}\U{A0}\U{1680}\U{2000}\U{2001}\U{2002}\U{2003}\U{2004}\U{2005}"
      || c in "\U{2006}\U{2007}\U{2008}\U{2009}\U{200A}\U{2028}\U{2029}\U{202F}\U{205F}\U{3000}"
  {
  }

  /** `s[lo..hi]` is all of `s` but the white space at its ends. */
  predicate SpaceAround(s: string, lo: nat, hi: nat) {
    && lo <= hi <= |s|
    && (forall i :: 0 <= i < lo ==> IsSpace(s[i]))
    && (forall i :: hi <= i < |s| ==> IsSpace(s[i]))
  }

  lemma SpaceInFront(s: string, lo: nat, hi: nat)
    requires s != "" && IsSpace(s[0]) && SpaceAround(s[1..], lo, hi)
    ensures SpaceAround(s, lo + 1, hi + 1) && s[lo + 1..hi + 1] == s[1..][lo..hi]
  {
    assert forall i :: 0 < i < |s| ==> s[i] == s[1..][i - 1];
  }

  lemma SpaceBehind(s: string, lo: nat, hi: nat)
    requires s != "" && IsSpace(s[|s| - 1]) && SpaceAround(s[..|s| - 1], lo, hi)
    ensures SpaceAround(s, lo, hi) && s[lo..hi] == s[..|s| - 1][lo..hi]
  {
    assert forall i :: 0 <= i < |s| - 1 ==> s[i] == s[..|s| - 1][i];
  }

  /** Trimming takes white space off the ends and nothing else. */
  lemma {:induction false} TrimCuts(s: string) returns (lo: nat, hi: nat)
    ensures SpaceAround(s, lo, hi) && TrimSpace(s) == s[lo..hi]
    decreases |s|
  {
    if Trimmed(s) {
      lo, hi := 0, |s|;
    } else if IsSpace(s[0]) {
      lo, hi := TrimCuts(s[1..]);
      SpaceInFront(s, lo, hi);
      lo, hi := lo + 1, hi + 1;
    } else {
      lo, hi := TrimCuts(s[..|s| - 1]);
      SpaceBehind(s, lo, hi);
    }
  }

  /** Between its white space a text is what trimming leaves of it, if it ends in none. */
  lemma TrimIsTheCut(s: string, lo: nat, hi: nat)
    requires SpaceAround(s, lo, hi) && Trimmed(s[lo..hi])
    ensures TrimSpace(s) == s[lo..hi]
  {
    var l, h := TrimCuts(s);
    if lo < hi && l < h {
      assert !IsSpace(s[lo]) && !IsSpace(s[hi - 1]) by {
        assert s[lo..hi][0] == s[lo] && s[lo..hi][hi - lo - 1] == s[hi - 1];
      }
      assert !IsSpace(s[l]) && !IsSpace(s[h - 1]) by {
        assert s[l..h][0] == s[l] && s[l..h][h - l - 1] == s[h - 1];
      }
    } else if l < h {
      assert s[l..h][0] == s[l];
      assert IsSpace(s[l]);
    }
  }

  /** A text is blank if and only if it is all white space. */
  lemma BlankIsAllSpace(s: string)
    ensures Blank(s) <==> forall i :: 0 <= i < |s| ==> IsSpace(s[i])
  {
    var lo, hi := TrimCuts(s);
    if lo < hi {
      assert s[lo..hi][0] == s[lo];
    }
  }

  predicate Blank(s: string) {
    TrimSpace(s) == ""
  }

  function TrimAll(texts: seq<string>): (r: seq<string>)
    ensures |r| == |texts| && forall i :: 0 <= i < |texts| ==> r[i] == TrimSpace(texts[i])
  {
    seq(|texts|, i requires 0 <= i < |texts| => TrimSpace(texts[i]))
  }

  /** The lower-case form of one character; U+0130 and U+212A are the only non-ASCII
      characters whose lower-case form is an ASCII letter. */
  function LowerChar(c: char): char {
    if 'A' <= c <= 'Z' then (c as int + 32) as char
    else if c == '\U{0130}' then 'i'
    else if c == '\U{212A}' then 'k'
    else c
  }

  /** Letters go to the letter of their place in the alphabet, and every other character but two
      stays. */
  lemma LowerGoesByTheAlphabet(c: char)
    ensures 'A' <= c <= 'Z' ==> LowerChar(c) as int - 'a' as int == c as int - 'A' as int
    ensures !('A' <= c <= 'Z') && c !in ['\U{0130}', '\U{212A}'] ==> LowerChar(c) == c
    ensures LowerChar('\U{0130}') == 'i' && LowerChar('\U{212A}') == 'k'
  {
  }

  function ToLower(s: string): (r: string)
    ensures |r| == |s|
    ensures forall i :: 0 <= i < |s| ==> r[i] == LowerChar(s[i])
  {
    seq(|s|, i requires 0 <= i < |s| => LowerChar(s[i]))
  }

  lemma LowerIsIdempotent(s: string)
    ensures ToLower(ToLower(s)) == ToLower(s)
  {
  }

  /** Lower-casing neither creates nor removes white space. */
  lemma LowerKeepsTrimmed(s: string)
    ensures Trimmed(s) <==> Trimmed(ToLower(s))
  {
  }

  /** Lower-casing after trimming is a normal form. */
  lemma LowerTrimIsIdempotent(s: string)
    ensures ToLower(TrimSpace(ToLower(TrimSpace(s)))) == ToLower(TrimSpace(s))
  {
    LowerKeepsTrimmed(TrimSpace(s));
    LowerIsIdempotent(TrimSpace(s));
  }

  /** Trimming distributes over a suffix that does not end in white space. */
  lemma TrimOfSuffixed(s: string, t: string)
    requires t != "" && !IsSpace(t[|t| - 1])
    requires s != "" && !IsSpace(s[0])
    ensures TrimSpace(s + t) == s + t
  {
    assert (s + t)[0] == s[0];
    assert (s + t)[|s + t| - 1] == t[|t| - 1];
  }
}
