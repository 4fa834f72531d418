/** Decoded language profiles: the input the factory compiles into its table. */
module LangProfiles {

  /** Corpus-wide gram totals, one per gram length: index 0 unigrams, 1 bigrams, 2 trigrams. */
  type Totals = s: seq<int> | |s| == 3 witness [0, 0, 0]

  /** A decoded profile: the language name, the count of each gram, and the totals. */
  datatype LangProfile = LangProfile(name: string, freq: map<string, int>, nWords: Totals)

  /** The number of UTF-16 code units that encode `c`: two for a character outside the
      Basic Multilingual Plane (a surrogate pair), one otherwise. */
  function Utf16Units(c: char): nat
  {
    if c as int >= 0x1_0000 then 2 else 1
  }

  /** The length Java's `String.length()` reports: UTF-16 code units, not characters. */
  function JavaLength(w: string): (n: nat)
    ensures |w| <= n <= 2 * |w|
  {
    if w == [] then 0 else Utf16Units(w[0]) + JavaLength(w[1..])
  }

  /** On text inside the Basic Multilingual Plane, Java's length is the character count. */
  lemma {:induction false} JavaLengthOfBmp(w: string)
    requires forall i :: 0 <= i < |w| ==> w[i] as int < 0x1_0000
    ensures JavaLength(w) == |w|
  {
    if w != [] {
      assert forall i :: 0 <= i < |w[1..]| ==> w[1..][i] == w[i + 1];
      JavaLengthOfBmp(w[1..]);
    }
  }

  /** Two characters outside the Basic Multilingual Plane have Java length 4, so they are
      no gram, although a two-character string inside the plane is one. */
  lemma SurrogatePairsCountTwice()
    ensures |"\U{20000}\U{20001}"| == 2 && JavaLength("\U{20000}\U{20001}") == 4
    ensures !IsGramLength("\U{20000}\U{20001}")
  {
    assert "\U{20000}\U{20001}"[1..] == "\U{20001}";
    assert "\U{20001}"[1..] == "";
  }

  /** Only grams of Java length 1 to 3 have a probability recorded for them. */
  predicate IsGramLength(w: string)
  {
    1 <= JavaLength(w) <= 3
  }

  /** A count divided by a total, as an exact quotient. */
  function Prob(count: int, total: int): (r: real)
    ensures total != 0 ==> r * (total as real) == count as real
  {
    if total == 0 then 0.0 else count as real / total as real
  }

  /** The probability of gram `w` in profile `p`: its count over the total for its Java length. */
  function GramProb(p: LangProfile, w: string): real
    requires w in p.freq && IsGramLength(w)
  {
    Prob(p.freq[w], p.nWords[JavaLength(w) - 1])
  }
}
