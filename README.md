# Label reconciliation for phone-level pronunciation scoring

This project models the label-reconciliation engine of
`get_kaldi_labels_from_alignments.py` and proves properties about it. For each
utterance, the script lines up three sources:

- the phones a forced aligner heard;
- the canonical phone variants a pronunciation grammar allows for the sentence;
- a manually annotated reference label file.

It picks the grammar variant that best matches the aligner. It then removes
the reference rows that the variant marks as deleted (`0`), and the rows whose
canonical phone is `0`; an observed phone opposite a canonical `0` is dropped
with its row. Finally it writes at most one six-column row per observed phone:
row id, canonical phone, observed phone, label (field 3 of the reference
line), start time, end time. The model also covers the aligner-file parser of `src/generate_score_txt.py`
(`removeSymbols` and `get_alignments`). That parser reads the same aligner
format but keeps `(phone, start, end)` triples.

Every loop of the source is a `method` whose `ensures` ties its result to a
specification function. The properties the script relies on are lemmas about
those functions. An exception the script can raise is an `Err` of a `Failure`
(or of a `ScoreError`). Modules follow the program:

| file | module | models |
|---|---|---|
| `text.dfy` | `Text` | the Python built-ins used: `split`, `join`, `strip`, `re.sub` over a character class, `str(n)`, `int(s)` |
| `grammar.dfy` | `Grammar` | `generate_dict_from_transcripctions`: slot expansion, the raw and clean variant tables, the sentence texts |
| `kaldi_alignments.dfy` | `KaldiAlignments` | `get_kaldi_alignments`: phone-name normalisation, the record table, lookup by utterance |
| `reference.dfy` | `Reference` | `get_reference` |
| `filters.dfy` | `Filters` | `remove_deletion_labels_and_times`, `remove_0_canonic_phone` |
| `matching.dfy` | `Matching` | the silence/stress filter and the best-variant search of the main loop |
| `pipeline.dfy` | `Pipeline` | the `__main__` block: per-utterance reconciliation, rows, and the whole run |
| `score_alignments.dfy` | `ScoreAlignments` | `removeSymbols` and `get_alignments` of `src/generate_score_txt.py` |
| `failures.dfy`, `wrappers.dfy`, `seqs.dfy` | `Failures`, `Wrappers`, `Seqs` | the exceptions, `Option`/`Result`, generic sequence lemmas |

Inputs that the script reads from files are parameters:

- the grammar file, the aligner output and the utterance list, each as a
  sequence of lines;
- the reference label files, as a map from utterance id to that file's lines
  (`refs`).

The run's output is the list of `(utterance, rows)` pairs written, in order,
plus the failure that stopped the run, if any.

Where the code and its documentation differ, the model follows the code:

- A grammar line that is not a `TEXT` or `TRANSCRIPTION` line, or that has at
  most two fields, is skipped. No "malformed grammar line" error exists.
- A missing sentence text raises on the header `print` (line 235), before the
  reference file is read.
- A missing aligner record is detected after the reference file is read.

## Model

| member | source | states |
|---|---|---|
| Text.Split | get_kaldi_labels_from_alignments.py:82 | `str.split(sep)` yields at least one piece, and no piece holds the separator |
| Text.JoinSplit | get_kaldi_labels_from_alignments.py:231 | joining the pieces of a split with the separator gives back the string |
| Text.SplitJoin | get_kaldi_labels_from_alignments.py:231 | splitting a join of separator-free pieces gives back the pieces |
| Text.Words | get_kaldi_labels_from_alignments.py:57 | argument-less `split()` yields non-empty pieces without white space |
| Text.WordsJoin | get_kaldi_labels_from_alignments.py:301 | fields written one space apart are read back unchanged by `split()` |
| Text.StripSpec | get_kaldi_labels_from_alignments.py:62 | `strip(chars)` keeps the middle piece between the first and last characters outside the set; it is empty exactly when every character is in the set |
| Text.StripSlice | get_kaldi_labels_from_alignments.py:62 | the stripped string is the slice of the input between a leading and a trailing run of characters from the set |
| Text.StripEnds | get_kaldi_labels_from_alignments.py:62 | both ends of a non-empty stripped string lie outside the set |
| Text.StripLeftSpec | get_kaldi_labels_from_alignments.py:91 | `lstrip` drops the longest prefix made of the set |
| Text.StripRightSpec | get_kaldi_labels_from_alignments.py:91 | `rstrip` drops the longest suffix made of the set |
| Text.FilterOut | get_kaldi_labels_from_alignments.py:128 | deleting a character class keeps only characters of the input, none from the class, and changes nothing when none occurs |
| Text.FilterOutUnion | src/generate_score_txt.py:20-21 | deleting one set after another is deleting their union |
| Text.FilterOutAppend | get_kaldi_labels_from_alignments.py:128 | deletion distributes over concatenation |
| Text.FilterOutIdempotent | get_kaldi_labels_from_alignments.py:128 | deletion is idempotent |
| Text.NatToString | get_kaldi_labels_from_alignments.py:301 | `str(n)` is a non-empty digit string without a leading zero |
| Text.NatToStringValue | get_kaldi_labels_from_alignments.py:301 | the digits of `str(n)` read back as `n` |
| Text.NatToStringInjective | get_kaldi_labels_from_alignments.py:301 | distinct numbers print differently |
| Text.ParseIntNatToString | src/generate_score_txt.py:36-37 | `int(str(n)) == n` |
| Text.FilterUnderscoresDigits | src/generate_score_txt.py:36-37 | digit groups separated by underscores, as `int()` accepts them, are digits once the underscores are gone |
| Text.AllDigitsAreGroups | src/generate_score_txt.py:36-37 | a non-empty digit string is accepted in digit-group form |
| Grammar.SlotChoices | get_kaldi_labels_from_alignments.py:82 | every slot has at least one choice |
| Grammar.ExtendLength | get_kaldi_labels_from_alignments.py:88-93 | one slot step multiplies the number of sequences by the slot's choice count |
| Grammar.ExtendAt | get_kaldi_labels_from_alignments.py:89-92 | position `j * n + i` after a slot step holds sequence `i` followed by choice `j` (choices outermost) |
| Grammar.ExpandLength | get_kaldi_labels_from_alignments.py:80-93 | a line yields exactly the product of its slots' choice counts as variants |
| Grammar.Pick | get_kaldi_labels_from_alignments.py:80-93 | the variant named by one index per slot holds that slot's chosen phone at each position |
| Grammar.Rank | get_kaldi_labels_from_alignments.py:80-93 | the position of a choice of indices (mixed radix, last slot most significant) is below the variant count |
| Grammar.UnrankSpec | get_kaldi_labels_from_alignments.py:80-93 | every position below the variant count names a valid choice, and its rank is that position |
| Grammar.ExpandAt | get_kaldi_labels_from_alignments.py:80-93 | every choice of one phone per slot is a variant, at position `Rank` |
| Grammar.ExpandCovers | get_kaldi_labels_from_alignments.py:80-93 | every variant is such a choice: one phone per slot, each drawn from that slot |
| Grammar.RankInjective | get_kaldi_labels_from_alignments.py:80-93 | distinct choices sit at distinct positions, so each combination appears exactly once |
| Grammar.Clean | get_kaldi_labels_from_alignments.py:100 | a clean variant holds no `0` and is no longer than the raw one |
| Grammar.CleanKeepsOthers | get_kaldi_labels_from_alignments.py:100 | a variant without `0` is its own clean form |
| Grammar.CleanAppend | get_kaldi_labels_from_alignments.py:100 | cleaning distributes over concatenation, so order is kept |
| Grammar.CleanAllSpec | get_kaldi_labels_from_alignments.py:97-105 | the clean table has the raw table's sentences, as many variants for each, and variant `k` is raw variant `k` without its `0` entries |
| Grammar.TablesStep | get_kaldi_labels_from_alignments.py:55-95 | the tables after one more line are the tables so far with that line taken in |
| Grammar.TransKeysSound | get_kaldi_labels_from_alignments.py:67-78 | a sentence has variants only if some `TRANSCRIPTION` line with more than two fields names it |
| Grammar.TransKeysComplete | get_kaldi_labels_from_alignments.py:67-78 | every sentence such a line names has variants |
| Grammar.TranscriptionAdds | get_kaldi_labels_from_alignments.py:70-95 | a `TRANSCRIPTION` line keeps the sentence's earlier variants and appends exactly the expansion of its slots (so `ExpandAt`, `ExpandCovers` and `RankInjective` describe the added block): the product of its choice counts, each with one phone per slot |
| Grammar.VariantsOnlyGrow | get_kaldi_labels_from_alignments.py:95 | later lines never remove a sentence or a variant, they only append |
| Grammar.TextLastWins | get_kaldi_labels_from_alignments.py:64-65 | a sentence's words are those of its last `TEXT` line |
| Grammar.AppendChoice | get_kaldi_labels_from_alignments.py:90-92 | the inner loop appends every sequence so far followed by the choice |
| Grammar.ExtendSlot | get_kaldi_labels_from_alignments.py:82-93 | the slot loop computes the slot step of the expansion |
| Grammar.ExpandFields | get_kaldi_labels_from_alignments.py:80-93 | the expansion loop computes the line's variants |
| Grammar.FillCleanTable | get_kaldi_labels_from_alignments.py:97-105 | the clean loop fills the empty clean lists with the clean table |
| Grammar.ReadGrammarLine | get_kaldi_labels_from_alignments.py:57-95 | one line taken into both tables; the clean table keeps the raw table's keys with empty lists |
| Grammar.GenerateDicts | get_kaldi_labels_from_alignments.py:48-107 | the three returned dictionaries are the raw table, the cleaned raw table and the sentence texts of the lines |
| KaldiAlignments.DropLast | get_kaldi_labels_from_alignments.py:131-133 | `s[:-n]` is a prefix of `s`, `n` characters shorter, or empty when `s` is shorter than `n` |
| KaldiAlignments.NormalizePhoneSpec | get_kaldi_labels_from_alignments.py:128-133 | a phone name is the token without decoration, less at most three final characters; it holds no decoration; a token without `_`, `0` and `1` only loses its decoration |
| KaldiAlignments.DigitInsideName | get_kaldi_labels_from_alignments.py:132-133 | a `1` inside a name still drops the final character: `T1H` becomes `T1` |
| KaldiAlignments.TagThenStress | get_kaldi_labels_from_alignments.py:130-133 | the context tag goes first, then the stress digit it exposed: `AH0_B` becomes `AH` |
| KaldiAlignments.NormalizeToken | get_kaldi_labels_from_alignments.py:128-133 | the loop body computes the normalised phone name |
| KaldiAlignments.LinePhones | get_kaldi_labels_from_alignments.py:125-136 | the while loop keeps the normalised tokens at offsets 0, 3, 6, ... of the data |
| KaldiAlignments.ReadRecordLine | get_kaldi_labels_from_alignments.py:121-139 | a `phones` line yields one record of its id and phones; any other line yields none |
| KaldiAlignments.KaldiRecordsAppend | get_kaldi_labels_from_alignments.py:118-139 | records keep file order: the records of two files read in turn are those of the first, then those of the second |
| KaldiAlignments.RecordOrigin | get_kaldi_labels_from_alignments.py:121-139 | every record comes from a `phones` line, with that line's id and phones |
| KaldiAlignments.RecordFromLine | get_kaldi_labels_from_alignments.py:121-139 | every `phones` line yields a record |
| KaldiAlignments.GetKaldiAlignments | get_kaldi_labels_from_alignments.py:113-143 | the records of the `phones` lines in order; a line with fewer than two fields fails, and so does a file with no `phones` line |
| KaldiAlignments.LookupSpec | get_kaldi_labels_from_alignments.py:241-242 | the lookup finds nothing exactly when no record has the id, and with unique ids finds the phones of the one that has it |
| Reference.ReadReference | get_kaldi_labels_from_alignments.py:146-166 | succeeds exactly when every line has six fields, failing otherwise with the index error; five columns of one length per line |
| Reference.GetReference | get_kaldi_labels_from_alignments.py:146-166 | the read loop computes the five columns, or the failure |
| Filters.KeptIndicesSpec | get_kaldi_labels_from_alignments.py:173-174 | the kept positions are exactly the positions that are not `0`, strictly increasing |
| Filters.ProjectAt | get_kaldi_labels_from_alignments.py:173-178 | element `j` of a filtered column is the column's element at the `j`-th kept position |
| Filters.ProjectSelf | get_kaldi_labels_from_alignments.py:188-190 | filtering a column by itself removes its `0` entries |
| Filters.ProjectAgree | get_kaldi_labels_from_alignments.py:173-178 | a filter reads only the kept positions of a column |
| Filters.ProjectSelects | get_kaldi_labels_from_alignments.py:173-178 | a filtered column is an increasing selection of the original |
| Filters.ComposeSelects | get_kaldi_labels_from_alignments.py:290-296 | applying one filter after another is one selection, and order is kept |
| Filters.RemoveDeletionLabelsAndTimes | get_kaldi_labels_from_alignments.py:168-180 | the four columns at the positions where the chosen raw variant is not `0` |
| Filters.RemoveZeroCanonicPhone | get_kaldi_labels_from_alignments.py:182-196 | the reference column without its `0` entries, and the other four columns at the same positions |
| Matching.StripMarker | get_kaldi_labels_from_alignments.py:246-253 | a phone loses its last character exactly when that is a stress digit |
| Matching.ObservedAppend | get_kaldi_labels_from_alignments.py:243-253 | the observed phones of two lists read in turn are those of the first, then those of the second |
| Matching.ObservedAt | get_kaldi_labels_from_alignments.py:243-253 | each aligner phone contributes in place, and order is kept |
| Matching.SilenceBeforeStress | get_kaldi_labels_from_alignments.py:245-253 | the silence test runs before the stress digit is removed: `SIL1` is kept, as `SIL` |
| Matching.ObservedLength | get_kaldi_labels_from_alignments.py:243-253 | at most one observed phone per aligner phone, and exactly one each when there is no silence |
| Matching.ObservedPhones | get_kaldi_labels_from_alignments.py:243-253 | the filter loop computes the observed phones |
| Matching.ScoreSpec | get_kaldi_labels_from_alignments.py:267 | the score is at most the length; it equals the length exactly when the sequences are equal, and is zero exactly when they agree nowhere |
| Matching.BestVariant | get_kaldi_labels_from_alignments.py:262-270 | the first variant of the observed length with the highest positive score, or -1 with score 0 |
| Matching.NoMatchIff | get_kaldi_labels_from_alignments.py:262-273 | no variant is chosen exactly when every variant of the observed length agrees with the observed phones nowhere |
| Matching.ExactMatchChosen | get_kaldi_labels_from_alignments.py:262-270 | if some variant equals the observed phones, the chosen one equals them and comes no later |
| Matching.SelectBestVariant | get_kaldi_labels_from_alignments.py:262-270 | the search loop computes the best variant and its score |
| Pipeline.SpeakerSentenceSpec | get_kaldi_labels_from_alignments.py:231 | an accepted utterance id is a speaker and a sentence joined by `_`, neither holding `_` |
| Pipeline.SpeakerSentenceOf | get_kaldi_labels_from_alignments.py:231 | every such join is read back as that pair |
| Pipeline.PrepareSpec | get_kaldi_labels_from_alignments.py:231-256 | prepared inputs come from the utterance's reference file, its aligner record and its sentence, which has a text |
| Pipeline.ChooseSpec | get_kaldi_labels_from_alignments.py:262-277 | the chosen raw variant is one of the sentence's variants, and its clean form has the observed length, a positive score and no better rival; a missing sentence and "no match" fail exactly when they should |
| Pipeline.DeletionPassSpec | get_kaldi_labels_from_alignments.py:289-290 | the deletion pass keeps the reference columns aligned by one increasing selection and leaves the observed phones alone; when it runs, it brings the labels to the observed length; it fails only when the variant keeps a position past the reference file |
| Pipeline.ZeroPassSpec | get_kaldi_labels_from_alignments.py:295-296 | on columns of one length the zero pass never fails, removes every `0` reference phone and keeps all five columns aligned |
| Pipeline.PassesSpec | get_kaldi_labels_from_alignments.py:289-296 | after both passes the columns have one length and no `0` reference phone; the only failures are a reference file shorter than the observed phones (exactly then) and a variant reaching past the reference file |
| Pipeline.IncreasingBound | get_kaldi_labels_from_alignments.py:289-296 | an increasing selection from `n` positions has at most `n` elements |
| Pipeline.RowIdsDistinct | get_kaldi_labels_from_alignments.py:301 | row ids of one file are distinct |
| Pipeline.ReconcileStages | get_kaldi_labels_from_alignments.py:229-301 | a written utterance went through every stage, and its rows are those of the filtered columns |
| Pipeline.RowsFromSelections | get_kaldi_labels_from_alignments.py:301 | rows built from selections pair each selected reference line with the selected observed phone |
| Pipeline.ReconcileRows | get_kaldi_labels_from_alignments.py:229-301 | each written row pairs one reference line with one observed phone, both read in increasing order; no row's canonical phone is `0`; there are at most as many rows as observed phones |
| Pipeline.ReconcileUnedited | get_kaldi_labels_from_alignments.py:289-301 | when the reference file has as many lines as observed phones and no `0`, row `i` pairs line `i` with observed phone `i` |
| Pipeline.ReconcileFailures | get_kaldi_labels_from_alignments.py:289-301 | `np.c_` never sees columns of different lengths; "annotation longer than labels" means the reference file has fewer lines than observed phones; an index error needs the deletion pass and a variant reaching past the file |
| Pipeline.PrepareUtterance | get_kaldi_labels_from_alignments.py:231-256 | computes the utterance's inputs, or its first failure |
| Pipeline.ChooseVariant | get_kaldi_labels_from_alignments.py:262-277 | computes the chosen raw variant, or the failure |
| Pipeline.FilterColumns | get_kaldi_labels_from_alignments.py:289-296 | computes both passes |
| Pipeline.WriteRows | get_kaldi_labels_from_alignments.py:301 | row `i` is the id `utt_i` and the five columns' entries `i` |
| Pipeline.ReconcileUtterance | get_kaldi_labels_from_alignments.py:229-309 | the loop body computes the utterance's rows, or the failure that stops the script |
| Pipeline.FormatRowWords | get_kaldi_labels_from_alignments.py:301 | a written line splits back into its row's six fields when none is empty or holds white space |
| Pipeline.UtteranceIdOf | get_kaldi_labels_from_alignments.py:223-225 | a line that starts with an id and a space is read as that id, and a read id holds no space |
| Pipeline.ReadUtteranceList | get_kaldi_labels_from_alignments.py:221-225 | the read loop computes the ids |
| Pipeline.FirstFailure | get_kaldi_labels_from_alignments.py:229-309 | the written utterances are the list's first ones, each with its successful rows; a failure is the next utterance's, and without one every utterance is written |
| Pipeline.WrittenPrefixStep | get_kaldi_labels_from_alignments.py:229-301 | writing one more success keeps the written list a prefix of successes |
| Pipeline.FirstFailureOf | get_kaldi_labels_from_alignments.py:229-309 | the run stops exactly at the first failure |
| Pipeline.ProcessUtterances | get_kaldi_labels_from_alignments.py:229-309 | the utterance loop writes the successes in order up to the first failure |
| Pipeline.Run | get_kaldi_labels_from_alignments.py:213-309 | the whole script: the grammar tables, the aligner records (or their failure), then the utterance loop writing each utterance's rows up to the first failure |
| ScoreAlignments.CharsOf | src/generate_score_txt.py:19-22 | the characters of a symbol list |
| ScoreAlignments.RemoveSymbols | src/generate_score_txt.py:19-22 | the string without any of the symbols, other characters kept in order |
| ScoreAlignments.FilterOutChar | src/generate_score_txt.py:21 | `replace(symbol, '')` deletes every occurrence of the symbol |
| ScoreAlignments.RemoveSymbolsIdempotent | src/generate_score_txt.py:19-22 | removing symbols twice is removing them once |
| ScoreAlignments.ScoreSymbolChars | src/generate_score_txt.py:35-37 | the parser's symbol list has exactly the six characters given |
| ScoreAlignments.ReadTripleSpec | src/generate_score_txt.py:35-38 | a triple is read exactly from three tokens whose second and third are integers once cleaned; the end is start plus duration; a short group fails with the index error |
| ScoreAlignments.ReadTripleOk | src/generate_score_txt.py:35-39 | three tokens with integers in place read as the cleaned phone, the start and start plus duration |
| ScoreAlignments.Group | src/generate_score_txt.py:34-37 | the tokens one pass can read: a prefix of at most three |
| ScoreAlignments.TriplesOfSpec | src/generate_score_txt.py:34-39 | a line reads as one triple per group of three tokens, in order; a short read means the token count is not a multiple of three |
| ScoreAlignments.TriplesOfGroups | src/generate_score_txt.py:34-39 | a successful read has a third as many triples as tokens, triple `j` read from tokens `3j` to `3j+2` |
| ScoreAlignments.TriplesOfShort | src/generate_score_txt.py:36-37 | the index error needs a token count that is not a multiple of three |
| ScoreAlignments.TriplesOfComplete | src/generate_score_txt.py:34-39 | whole groups with integers in place are read without failure |
| ScoreAlignments.TriplesOfStep | src/generate_score_txt.py:34-39 | a triple read from the front group is followed by the triples of the rest |
| ScoreAlignments.TriplesOfStop | src/generate_score_txt.py:34-39 | a failure at the front group is the line's failure |
| ScoreAlignments.ReadPhone | src/generate_score_txt.py:35 | the token with the symbols removed |
| ScoreAlignments.ReadInteger | src/generate_score_txt.py:36-37 | `int()` of the cleaned token |
| ScoreAlignments.ReadGroup | src/generate_score_txt.py:35-39 | one pass of the inner loop reads the front group's triple, or its failure |
| ScoreAlignments.LineTriples | src/generate_score_txt.py:32-39 | the inner loop reads the line's triples, or the first failure |
| ScoreAlignments.AlignmentKeysSound | src/generate_score_txt.py:27-40 | every utterance in the table has a `phones` line with more than three fields |
| ScoreAlignments.AlignmentKeysComplete | src/generate_score_txt.py:27-40 | every such line's utterance is in the table |
| ScoreAlignments.AlignmentLastWins | src/generate_score_txt.py:31-40 | the last `phones` line of an utterance decides its triples |
| ScoreAlignments.AlignmentsFailurePersists | src/generate_score_txt.py:27-40 | a failure stops the whole read |
| ScoreAlignments.AlignmentsStep | src/generate_score_txt.py:27-40 | the table after one more line is the table so far with that line taken in |
| ScoreAlignments.ReadLine | src/generate_score_txt.py:28-40 | the loop body takes one line into the table |
| ScoreAlignments.GetAlignments | src/generate_score_txt.py:24-41 | the table of the file's lines, or the first failure |

## Left out

- File I/O is left out. The grammar file, aligner output and utterance list are sequences of lines, and the reference files are a map from utterance id to lines. The reference path built at line 233 is not modelled: a missing map entry stands for a missing file.
- `generate_trans_SAE` (line 217) writes a derived transcription file that nothing later reads, and it is not part of this model.
- The `print` calls are left out; they do not change what is written.
- Directory creation (line 300) is left out with the rest of file I/O. Its failure (for example, the path exists as a file, or permission is denied) is not modelled; in the script it would stop the run.
- `np.savetxt` is modelled as the list of rows it writes plus `Pipeline.FormatRow`, which shows one row's text line. Printing `np.arange` through `%s` is modelled as `str(n)`. An utterance id holding `%` would change the format string; that case is not modelled.
- Pipeline.Run: requires that no utterance of the list has two aligner records. For such a duplicated id, pandas `.loc` returns a frame instead of one phone list, and that behaviour is not modelled. Duplicates of ids the list never names are allowed.
- Python's white space is modelled only for the first 256 code points (`Text.Whitespace`); separators above (such as U+2028) are not. `int()` is modelled on ASCII digits only, without other Unicode decimal digits.
- The branch at lines 102-103 of `generate_dict_from_transcripctions` is not modelled. The clean dictionary always has the raw dictionary's keys, so that branch never runs; `Grammar.ReadGrammarLine` proves the key equality it relies on.
- ScoreAlignments.ReadLine: the empty placeholder `{}` stored at line 33 of `src/generate_score_txt.py` is modelled as an empty triple list. It is never observable, because a failure in that line aborts the whole function.
- The rest of `src/generate_score_txt.py` (`generate_scores_for_sample` and its command-line block) is not part of this model.
- Quirks the model keeps as written, without a claim about intent:
  - A line of the utterance list with no space keeps its line end in the id, as `split(' ')` does.
  - An observed phone `2` becomes the empty phone.
  - A `0` or `1` anywhere in an aligner token drops its last character (`KaldiAlignments.DigitInsideName`).
  - A final `2` is stripped only later, by the observed-phone filter.
  - The silence test runs before the stress digit is removed. A name such as `SIL1` (from the token `SIL12`) passes the test and is kept as `SIL` (`Matching.SilenceBeforeStress`).
