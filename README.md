# DetectorFactory registry, modelled in Dafny

This project models the registry half of the `language-detection` library's
`DetectorFactory` (package `com.cybozu.labs.langdetect`). A factory compiles
per-language n-gram profiles into one shared table. The table maps each gram to
a row with one probability column per language. Next to the table the factory
keeps the list of loaded language names. A static map of named factories holds
two reserved defaults, "DEFAULT" and "SHORT". Each default loads its bundled
profiles the first time it is requested while still empty.

Layout, one module per concern:

- `outcomes.dfy` (`Outcomes`): the error codes, and `Outcome`/`Result`/`Option` for thrown exceptions and `null`.
- `profiles.dfy` (`LangProfiles`): a decoded `LangProfile` (name, `freq`, `n_words` of length 3) and the probability `freq / n_words[len-1]` as an exact `real`.
- `table.dfy` (`ProbTable`): the table as a value, and what one `addProfile` call does to it (`AddedTable`, `AddSpec`).
- `batch.dfy` (`BatchLoad`): the batch loops as functions of the starting state, and the lemmas about them. `AddAll` folds `addProfile` over a sequence of steps; each step adds a profile or aborts with an error code.
- `factory.dfy` (`Factory`): the class `DetectorFactory` with the fields `wordLangProbMap` and `langlist`. Its methods update them in place with the source's loops. Each loading method is proved equal to the function in `ProbTable`/`BatchLoad` that specifies it; `Clear`, `Create` and the helper `WriteWord` state their results directly.
- `registry.dfy` (`Registry`): the class `FactoryRegistry`, which stands for the static `factories` map, with `getFactory` and the two default accessors.
- `usage.dfy` (`Usage`): callers proved from the contracts alone.

`addProfile` iterates over `profile.freq.keySet()`, a `HashMap` whose order is
unspecified. The model picks an arbitrary remaining key at each step, and the
result is proved to be the same whatever the order.

A failed load is not rolled back: the names and columns added before the failure
stay in place. `AddAllStopsAtFailure` states this, and `Usage.DuplicateInBatchKeepsEarlier` shows it.

Every batch starts its running `index` at 0, while the language list keeps growing.
So a second batch on a factory that was not cleared writes over the columns of the
first batch. `LoadedInOrder` records both sides separately: language
`|old langlist| + k` and column `index + k`. The source documents each loader as
meant to be called once.

Points where the code does something its own text does not say, followed by the model:

- The list loader throws `NeedLoadProfileError` when `langsize < 2` (DetectorFactory.java line 204), so exactly two profiles are accepted, although the message on line 205 reads "Need more than 2 profiles".
- The Javadoc of the directory loaders (lines 150 and 163) names `FileLoadError` for a directory that cannot be opened, but a `null` listing throws `NeedLoadProfileError` (line 169). `FileLoadError` comes only from a file that cannot be read.
- A gram whose length is outside 1-3 still gets a zero row, of width `langsize` (lines 249-251). No column of that row is written.
- In the directory loader, `langsize` counts every entry of the listing, including the skipped ones (line 171).
- A reserved name is refused with an `IllegalArgumentException` (line 224), modelled as `ReservedName`.
- The gram length is Java's `word.length()` (line 252), which counts UTF-16 code units. A character outside the Basic Multilingual Plane counts twice (`JavaLength`), so for example a string of two such characters is not a 1-3 character gram.

## Model

| member | source | states |
|---|---|---|
| `LangProfiles.Prob` | src/main/java/com/cybozu/labs/langdetect/DetectorFactory.java:254 | the probability is the exact quotient: times the total it gives back the count |
| `LangProfiles.JavaLength` | src/main/java/com/cybozu/labs/langdetect/DetectorFactory.java:252 | the Java length of a string lies between its character count and twice that |
| `LangProfiles.JavaLengthOfBmp` | src/main/java/com/cybozu/labs/langdetect/DetectorFactory.java:252 | on text inside the Basic Multilingual Plane the Java length is the character count |
| `LangProfiles.SurrogatePairsCountTwice` | src/main/java/com/cybozu/labs/langdetect/DetectorFactory.java:252-253 | two supplementary characters have Java length 4, so they are no gram |
| `ProbTable.Zeros` | src/main/java/com/cybozu/labs/langdetect/DetectorFactory.java:250 | a new row has `langsize` columns, all zero |
| `ProbTable.AddedTable` | src/main/java/com/cybozu/labs/langdetect/DetectorFactory.java:248-257 | every gram of the profile gets a row and no other row appears; an existing row keeps its width and a created row has `langsize` columns; column `index` of a gram of Java (UTF-16) length 1-3 is `freq/n_words[len-1]`; no other column changes, so a created row is zero outside `index`; a gram of another length, or a gram outside the profile, keeps its row as it was, or gets a zero row |
| `ProbTable.AddSpec` | src/main/java/com/cybozu/labs/langdetect/DetectorFactory.java:242-257 | fails exactly when the name is already loaded, with `DuplicateLangError` and the state unchanged; earlier names stay a prefix; distinct names stay distinct; rows stay at least `langsize` wide |
| `BatchLoad.AddAll` | src/main/java/com/cybozu/labs/langdetect/DetectorFactory.java:207-215 | the batch loop keeps every row at least `langsize` wide, so each later `addProfile` stays in bounds |
| `BatchLoad.EntrySteps` | src/main/java/com/cybozu/labs/langdetect/DetectorFactory.java:172-173 | the entries actually loaded are never more than the listed entries (`langsize`) |
| `BatchLoad.AddAllFrame` | src/main/java/com/cybozu/labs/langdetect/DetectorFactory.java:207-215 | a batch, passing or failing, changes no column outside those it assigns (`index` to `index + n - 1`), removes no row, keeps every row's width, keeps earlier language names in place and keeps names distinct |
| `BatchLoad.AddAllColumnsExact` | src/main/java/com/cybozu/labs/langdetect/DetectorFactory.java:207-215 | after a batch that passed, the rows are exactly the old grams plus every gram of the batch's profiles, and column `index + k` of each row is the k-th profile's probability for a 1-3 length gram it has, and what that column held before (zero in a new row) otherwise |
| `BatchLoad.AddAllPass` | src/main/java/com/cybozu/labs/langdetect/DetectorFactory.java:207-215 | after a batch that passed, the k-th profile's name is appended k-th and its probabilities are in column `index + k` |
| `BatchLoad.AddAllPassIff` | src/main/java/com/cybozu/labs/langdetect/DetectorFactory.java:207-215 | a batch passes if and only if every step is a decoded profile whose name is neither loaded already nor repeated in the batch |
| `BatchLoad.AddAllSplit` | src/main/java/com/cybozu/labs/langdetect/DetectorFactory.java:207-215 | loading a batch is loading a prefix and then, only if that passed, the rest with the following columns |
| `BatchLoad.AddAllStopsAtFailure` | src/main/java/com/cybozu/labs/langdetect/DetectorFactory.java:207-215 | a failure at step m (a decode error or a duplicate name) ends the load with that error and exactly the state steps 0 to m-1 left: no rollback and nothing more |
| `BatchLoad.LoadEntriesIsAddAll` | src/main/java/com/cybozu/labs/langdetect/DetectorFactory.java:171-189 | the directory loop equals loading just the non-hidden regular files with consecutive columns: `index` advances only on loaded entries |
| `BatchLoad.LoadListColumns` | src/main/java/com/cybozu/labs/langdetect/DetectorFactory.java:201-216 | a list load that passed had at least two profiles, all decoded; the i-th profile got column i; each created row has one column per listed profile and columns beyond the batch are unchanged; the rows are the old ones plus every profile's grams, and each cell of column i is exactly as `AddAllColumnsExact` says |
| `BatchLoad.LoadDirectoryColumns` | src/main/java/com/cybozu/labs/langdetect/DetectorFactory.java:166-190 | a directory load that passed gave the k-th loaded file column k, each created row is as wide as the whole listing, the rows are the old ones plus every loaded profile's grams, and each cell is exactly as `AddAllColumnsExact` says |
| `Factory.DetectorFactory.constructor` | src/main/java/com/cybozu/labs/langdetect/DetectorFactory.java:58-61 | a new factory has no languages and an empty table |
| `Factory.DetectorFactory.AddProfile` | src/main/java/com/cybozu/labs/langdetect/DetectorFactory.java:242-258 | a duplicate name gives `DuplicateLangError` with list and table unchanged; otherwise the name is appended and the table becomes `AddedTable` of the old one, whatever order the keys are visited in; the factory invariant is kept |
| `Factory.DetectorFactory.LoadProfiles` | src/main/java/com/cybozu/labs/langdetect/DetectorFactory.java:201-216 | fewer than two profiles gives `NeedLoadProfileError` before any change; otherwise the outcome and new state are those of `AddAll` over the decoded list from column 0, a decode failure giving `FormatError` |
| `Factory.DetectorFactory.LoadProfileDirectory` | src/main/java/com/cybozu/labs/langdetect/DetectorFactory.java:166-190 | an unlistable directory gives `NeedLoadProfileError` before any change; otherwise the outcome and new state are those of the directory loop: hidden and non-regular entries are skipped, an unreadable file gives `FileLoadError`, a malformed one `FormatError` |
| `Factory.DetectorFactory.LoadProfileAsResource` | src/main/java/com/cybozu/labs/langdetect/DetectorFactory.java:88-136 | a failed scan of the bundled resources (`NeedLoadProfileError` without a code source or location, `FormatError`, `FileLoadError`) changes nothing; otherwise the scanned profiles are added with columns 0, 1, ... as `AddAll` says |
| `Factory.DetectorFactory.Clear` | src/main/java/com/cybozu/labs/langdetect/DetectorFactory.java:263-266 | list and table are both empty afterwards |
| `Factory.DetectorFactory.Create` | src/main/java/com/cybozu/labs/langdetect/DetectorFactory.java:274-279 | fails, with `NeedLoadProfileError`, exactly when no language is loaded |
| `Factory.DetectorFactory.GetLangList` | src/main/java/com/cybozu/labs/langdetect/DetectorFactory.java:298-300 | the language list in load order, with no name twice |
| `Registry.FactoryRegistry.constructor` | src/main/java/com/cybozu/labs/langdetect/DetectorFactory.java:50 | the registry starts with no factories |
| `Registry.FactoryRegistry.GetFactoryChecked` | src/main/java/com/cybozu/labs/langdetect/DetectorFactory.java:222-234 | with `checkReserved`, "DEFAULT" and "SHORT" are refused with the map unchanged; a known name returns its factory with the map unchanged; an unknown name registers a fresh empty factory under that name, with no other entry changed |
| `Registry.FactoryRegistry.GetFactory` | src/main/java/com/cybozu/labs/langdetect/DetectorFactory.java:218-220 | fails exactly for a reserved name; otherwise behaves as get-or-create |
| `Registry.FactoryRegistry.GetSelfLoadingFactory` | src/main/java/com/cybozu/labs/langdetect/DetectorFactory.java:63-83 | a factory that already has languages is returned untouched; an empty or new one ends as the bundled load leaves an empty factory; no other registered factory changes |
| `Registry.FactoryRegistry.GetDefaultFactory` | src/main/java/com/cybozu/labs/langdetect/DetectorFactory.java:63-72 | the "DEFAULT" factory is loaded from the bundled set only if its list is empty, and returned as it is otherwise |
| `Registry.FactoryRegistry.GetDefaultShortTextFactory` | src/main/java/com/cybozu/labs/langdetect/DetectorFactory.java:74-83 | the same for the "SHORT" factory |
| `Usage.LoadTwoThenCreate` | src/main/java/com/cybozu/labs/langdetect/DetectorFactory.java:201-216 | two differently named profiles load into a new factory in order, in columns 0 and 1, after which `Create` succeeds |
| `Usage.DuplicateInBatchKeepsEarlier` | src/main/java/com/cybozu/labs/langdetect/DetectorFactory.java:244-245 | a batch that repeats a name fails with `DuplicateLangError` at the repeat, keeping the earlier names and their columns |
| `Usage.ClearThenCreate` | src/main/java/com/cybozu/labs/langdetect/DetectorFactory.java:263-276 | after `Clear`, `Create` fails with `NeedLoadProfileError` |
| `Usage.RequestTwice` | src/main/java/com/cybozu/labs/langdetect/DetectorFactory.java:222-234 | asking twice for one name gives the same factory, and fails exactly for a reserved name |
| `Usage.DefaultLoadsOnce` | src/main/java/com/cybozu/labs/langdetect/DetectorFactory.java:63-72 | the first request loads the bundled profiles into the new default factory, which then holds exactly what that load gives an empty factory; a second request returns the same factory without loading again |
| `Usage.GramOfOneLanguage` | src/main/java/com/cybozu/labs/langdetect/DetectorFactory.java:201-216 | loading two languages into a new factory, a gram only the first has gets the row `[its probability, 0.0]` |

## Left out

- JSON decoding with `net.arnx.jsonic.JSON` is a foreign library. The model takes its result as input: a `JsonDecoding` is either a decoded `LangProfile` or a `JsonError`.
- Finding the bundled profiles inside the jar (lines 85-130: `CodeSource`, `JarFile`, entry filtering, per-entry decoding) is I/O. `LoadProfileAsResource` takes the outcome of that scan as input: every profile, or the error code that stopped the scan. Only the adding loop (lines 131-133) is modelled.
- `File.listFiles`, `isFile` and opening and closing streams are I/O. The directory loader takes the listing as input (`None` for a `null` listing); each `DirEntry` carries its name, whether it is a regular file, and what reading it gave.
- `loadProfile(String)` only wraps its argument in a `File`; it is covered by `LoadProfileDirectory`.
- `synchronized` methods and blocks exist for thread safety. Everything is modelled sequentially.
- `Detector` is not part of this model. Neither is `create(double)`, which only delegates to it. `Create` returns only whether a detector would be built.
- `setSeed` and the `seed` field only store a value that this model never reads.
- LangProfiles.Prob: probabilities are exact `real` quotients, not IEEE doubles. A zero total gives 0.0 here, where Java's division gives Infinity or NaN.
- LangProfiles.JavaLength: gram keys are sequences of Unicode scalar values, since a Dafny `char` cannot be a surrogate. A Java key holding an unpaired surrogate (for example `"\uD842"` from a JSON escape), whose `word.length()` is 1, is not modelled.
- Factory.DetectorFactory.AddProfile: requires that column `index` lies inside every row that a gram of Java length 1-3 writes. Otherwise Java throws `ArrayIndexOutOfBoundsException` partway through the key loop, and that path is not modelled.
- Factory.DetectorFactory.LoadProfiles: requires that existing rows are at least as wide as the batch, which is trivially true on a new or cleared factory. The out-of-bounds exception is excluded for the same reason as in `AddProfile`.
- Factory.DetectorFactory.LoadProfileDirectory: has the same row-width requirement.
- Factory.DetectorFactory.LoadProfileAsResource: has the same row-width requirement.
- Factory.DetectorFactory.GetLangList: returns the list as a value at the time of the call. Java returns a live unmodifiable view of `langlist` (line 299), so a later load or `clear` shows through a list obtained earlier; the model does not capture that.
- Table rows are sequence values inside the `wordLangProbMap` map, not separately allocated arrays. A `Detector` that shares those arrays (aliasing) is therefore not modelled.
- A `null` profile name, a `null` count, and an `n_words` array whose length is not 3 are not modelled. `Totals` is fixed at length 3, as `LangProfile` allocates it.
