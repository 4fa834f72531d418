/** The shared probability table and what one `addProfile` call does to it, as values. */
module ProbTable {
  import opened LangProfiles
  import opened Outcomes

  /** One probability per language column. */
  type Row = seq<real>

  /** Gram to row of per-language probabilities. */
  type Table = map<string, Row>

  /** The two fields a factory updates: the language list and the table. */
  datatype FactoryState = FactoryState(langlist: seq<string>, table: Table)

  /** What a loading step leaves behind: how it ended, and the state, which is kept
      as it is when the step fails partway (there is no rollback). */
  datatype Applied = Applied(outcome: Outcome, state: FactoryState)

  /** No language name occurs twice. */
  predicate Distinct(s: seq<string>)
  {
    forall i, j :: 0 <= i < j < |s| ==> s[i] != s[j]
  }

  /** A freshly allocated row (`new double[n]`). */
  function Zeros(n: nat): (r: Row)
    ensures |r| == n
    ensures forall c :: 0 <= c < n ==> r[c] == 0.0
  {
    seq(n, _ => 0.0)
  }

  /** The row gram `w` has in `t`, or the zero row that would be created for it. */
  function RowOf(t: Table, w: string, langsize: nat): Row
  {
    if w in t then t[w] else Zeros(langsize)
  }

  /** Every row of `t` has at least `n` columns. */
  predicate WideRows(t: Table, n: nat)
  {
    forall w :: w in t ==> n <= |t[w]|
  }

  /** Writing column `index` for the probability-bearing grams of `p` stays within each
      row, whether the row exists already or is created with `langsize` columns. */
  predicate Fits(t: Table, p: LangProfile, index: nat, langsize: nat)
  {
    forall w :: w in p.freq && IsGramLength(w) ==> index < |RowOf(t, w, langsize)|
  }

  lemma WideRowsFit(t: Table, p: LangProfile, index: nat, langsize: nat)
    requires WideRows(t, langsize) && index < langsize
    ensures Fits(t, p, index, langsize)
  {
  }

  /** The row gram `w` of `p` ends with: created if absent, and column `index` written
      when `w` has length 1 to 3. */
  function WriteGram(t: Table, p: LangProfile, w: string, index: nat, langsize: nat): Row
    requires w in p.freq && Fits(t, p, index, langsize)
  {
    var row := RowOf(t, w, langsize);
    if IsGramLength(w) then row[index := GramProb(p, w)] else row
  }

  /** The table once the grams in `words` (some of the keys of `p.freq`) are processed. */
  function WriteGrams(t: Table, p: LangProfile, words: set<string>, index: nat, langsize: nat): Table
    requires words <= p.freq.Keys && Fits(t, p, index, langsize)
  {
    map w | w in t.Keys + words :: if w in words then WriteGram(t, p, w, index, langsize) else t[w]
  }

  /** Processing one more gram `w` writes exactly its row. */
  lemma WriteGramsStep(t: Table, p: LangProfile, done: set<string>, w: string, index: nat, langsize: nat)
    requires done <= p.freq.Keys && w in p.freq && w !in done && Fits(t, p, index, langsize)
    ensures WriteGrams(t, p, done + {w}, index, langsize)
         == WriteGrams(t, p, done, index, langsize)[w := WriteGram(t, p, w, index, langsize)]
  {
  }

  /** Processing gram `w` from a table where the grams in `done` are processed: the row
      `w` has there is still its original one, and writing it gives the next table. */
  lemma WriteGramsNext(t: Table, p: LangProfile, done: set<string>, w: string, index: nat, langsize: nat)
    requires done <= p.freq.Keys && w in p.freq && w !in done && Fits(t, p, index, langsize)
    ensures RowOf(WriteGrams(t, p, done, index, langsize), w, langsize) == RowOf(t, w, langsize)
    ensures index < |RowOf(t, w, langsize)| || !IsGramLength(w)
    ensures WriteGrams(t, p, done + {w}, index, langsize)
         == WriteGrams(t, p, done, index, langsize)[w := WriteGram(t, p, w, index, langsize)]
  {
    WriteGramsStep(t, p, done, w, index, langsize);
  }

  lemma DistinctAppend(s: seq<string>, x: string)
    requires Distinct(s) && x !in s
    ensures Distinct(s + [x])
  {
  }

  /** The table after `addProfile(p, index, langsize)` has processed every gram of `p`. */
  function AddedTable(t: Table, p: LangProfile, index: nat, langsize: nat): (r: Table)
    requires Fits(t, p, index, langsize)
    // every gram of the profile has a row; no other row appears
    ensures r.Keys == t.Keys + p.freq.Keys
    // existing rows keep their width, created rows have `langsize` columns
    ensures forall w :: w in r ==> |r[w]| == |RowOf(t, w, langsize)|
    // column `index` of a 1-3 character gram holds freq / n_words[len - 1]
    ensures forall w :: w in p.freq && IsGramLength(w) ==> r[w][index] == GramProb(p, w)
    // no other column changes; a created row is zero outside column `index`
    ensures forall w, c :: w in r && 0 <= c < |r[w]| && c != index ==> r[w][c] == RowOf(t, w, langsize)[c]
    // a gram outside the profile, or of another length, keeps (or just gets) its row as it was
    ensures forall w :: w in r && !(w in p.freq && IsGramLength(w)) ==> r[w] == RowOf(t, w, langsize)
  {
    WriteGrams(t, p, p.freq.Keys, index, langsize)
  }

  /** One `addProfile` call on the factory's state: a duplicate name is refused before
      anything changes; otherwise the name is appended and the grams are written. */
  function AddSpec(s: FactoryState, p: LangProfile, index: nat, langsize: nat): (a: Applied)
    requires Fits(s.table, p, index, langsize)
    ensures a.outcome.Fail? <==> p.name in s.langlist
    ensures a.outcome.Fail? ==> a.outcome.error == DuplicateLangError && a.state == s
    ensures s.langlist <= a.state.langlist
    ensures Distinct(s.langlist) ==> Distinct(a.state.langlist)
    ensures WideRows(s.table, langsize) ==> WideRows(a.state.table, langsize)
  {
    if p.name in s.langlist then Applied(Fail(DuplicateLangError), s)
    else Applied(Pass, FactoryState(s.langlist + [p.name], AddedTable(s.table, p, index, langsize)))
  }
}
