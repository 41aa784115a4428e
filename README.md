# DMS primer and oligo design engine, in Dafny

This project models the primer and oligo design engine of a deep mutational scanning
(DMS) library designer: `main_package/primer_design.py`. For each mutagenesis window
of a gene held in a vector backbone, the engine produces four things:

- a homology arm;
- a reverse primer;
- a forward primer, grown under a melting-temperature gate and kept in codon frame;
- one mutagenic oligo per degenerate codon of every wild-type codon in the sub-window,
  together with its FASTA lines.

The model has five modules.

- `Outcomes` (`outcomes.dfy`): the `Result` and `Option` types, and the two failure
  kinds, `InsufficientSequence` and `MeltingTempNeverReached`.
- `Sequences` (`sequences.dfy`): base complement and reverse complement, lower-casing,
  G+C counting, `codons_list`, `''.join` and `str` of an integer, and `Min`, the
  clamp Python applies to a slice bound past the end. Reverse complement,
  `codons_list` and `str` come with their inverses. Lower-casing and the join have
  index characterisations. The G+C count has only its length bound.
- `Primers` (`primers.dfy`): the homology arm, and the reverse primer loop. The forward
  primer is a state machine of three loops and a frame correction:
  - `ExtendLeft`: leftward extension;
  - `ExtendRight`: rightward growth under a gate, used by both the short-window guard
    and the terminal fallback;
  - `FrameCorrect`;
  - `DesignForwardPrimer`: the orchestration, reporting which `Stage` decided the
    primer. Its success is stated by `ForwardDesigned` and its failure by
    `ForwardFailed`. The two exclude each other, and a successful design is unique.
- `Oligos` (`oligos.dfy`): the per-codon random decisions, the record enumeration and
  the FASTA lines.
  - The decision loop draws from a `Sampler` object, which holds the shared random
    stream and its cursor.
  - The enumeration loop builds `OligoRecord`s slot by slot.
  - Both loops are proved equal to specification functions (`Decisions`,
    `AllRecords`, `FastaLines`), and lemmas about those functions give the draw
    order, the record order, the record count and the record contents.
- `Design` (`design.dfy`): the four Python functions as they act on the run state.
  - `seq_data` and `data_dict` are classes (`SeqData`, `DataDict`) whose fields the
    methods update in place.
  - Each method's `modifies` clause names exactly the dictionary keys the Python
    function writes.

The collaborators are parameters:

- The nearest-neighbour melting temperature is a function `tm: string -> real`.
- The `codon_table` module is a `CodonTables` value with these parts:
  - four degeneracy maps;
  - the yeast synonymous recoding map;
  - `iupac_to_aa`;
  - `contains_stop_missense_variant`, specialised to the configured genetic code.
- The random generator is a stream of uniform variates `nat -> real`. A weighted
  choice between `True` and `False` with weights `[rate, 1 - rate]` is one variate
  compared with `rate`.

The model follows the code as written, also where its evident intent differs:

- Line 42 compares (`primer_end == window_end`) instead of assigning, so the primer end
  is never clamped to the window end. `DesignForwardPrimer` states that the leftward
  extension starts from `start_index + oligo_len - homo_len` whatever `windowEnd` is.
- The short-window guard's exit test at line 59 is strict: `Tm > melt_temp`, and a G+C
  count greater than 8.
- Frame correction moves the primer start by one base and does not check the
  temperature again. The emitted primer of the `Framed` stage can therefore be one
  base shorter than the one that passed the gate, and below the threshold.
  `Primers.FramedPrimerCanMissThreshold` gives such an input.
- A stop-variant codon always uses up its stop-removal draw (line 134), even when
  `remove_stop_rate` is 0 and the draw cannot remove anything. `DrawOffsetsAdjacent`
  counts that draw.
- Degenerate codons are emitted in each table's own order.
- Both bounds of the homology-arm slice clamp to the vector's end, so a window
  starting past the vector gets a shorter, possibly empty, arm. A start closer to the
  beginning than `homo_len` is a precondition of the model, not an error result.

## Model

| member | source | states |
|---|---|---|
| `Primers.HomologyArmOf` | main_package/primer_design.py:14 | with both slice bounds clamped to the vector's end, the vector up to `start_index` is the vector up to `start_index - homo_len` followed by the arm; the arm has at most `homo_len` bases, and exactly that many when `start_index` is inside the vector |
| `Design.HomologyArm` | main_package/primer_design.py:10-17 | only `data_dict['homology_arm']` changes, and it becomes the homology arm |
| `Primers.ReverseTemplate` | main_package/primer_design.py:24 | the reverse template is the reverse complement of the vector before `start_index`; a slice end past the vector clamps, so its length is `min(start_index, len(vector))` |
| `Primers.DesignReversePrimer` | main_package/primer_design.py:24-28 | on success: the primer is a prefix of the reverse template, at least `min(15, len)` long, with `Tm >= rev_melt_temp`, and every shorter prefix from the seed length on is below the threshold (minimality); on failure: every prefix from the seed length up to the whole template is below the threshold (the source loop would never end) |
| `Primers.ReversePrimerName` | main_package/primer_design.py:30 | the name is `rev_` followed by exactly the window name |
| `Design.ReversePrimer` | main_package/primer_design.py:19-33 | on success the stored primer has all the reverse-primer properties and the stored name is `rev_` + window name; on failure neither field changes |
| `Primers.ExtendLeft` | main_package/primer_design.py:44-49 | on success the start is at most `end - 15`, its primer reaches the threshold, and every start between it and the seed is below it; failure happens exactly when every start down to 0 is below the threshold |
| `Primers.ExtendRight` | main_package/primer_design.py:55-62 | on success the end is at least `start + 15`, its primer passes the gate, and every shorter end fails it; `InsufficientSequence` happens if and only if the seed reads past the vector; `MeltingTempNeverReached` means every end up to the vector's end fails the gate |
| `Primers.FrameCorrect` | main_package/primer_design.py:67-73 | the corrected start is in the window's codon frame, moves at most one base, and is the in-frame position nearest to the old start |
| `Primers.DesignForwardPrimer` | main_package/primer_design.py:40-85 | on success the design satisfies `ForwardDesigned`: the primer is `vector[primer_start:primer_end]` with `primer_start <= window_end`; the leftward extension from the unclamped target end is minimal; the stage is Terminal iff the pre-terminal start exceeds `window_end`, else Guard iff the extended primer is longer than `oligo_len - homo_len - 12`, else Framed; Framed: in frame, at least 12 bases of sub-window, end unchanged, the frame correction of the extended start; Guard: start `start_index + 12` and the shortest primer from 15 bases with `Tm > melt_temp` and G+C count > 8; Terminal: start `window_end`, the shortest primer from 15 bases with `Tm >= melt_temp`, reached only after a successful guard growth when the guard fired. On failure the error satisfies `ForwardFailed`: the target end leaves no room for the seed; or every leftward start is below the threshold; or the reached stage's rightward growth fails, with `InsufficientSequence` for a seed past the vector and `MeltingTempNeverReached` when every end fails its gate |
| `Primers.ForwardOutcomesExclusive` | main_package/primer_design.py:40-85 | inputs with a successful design admit no failure cause, so the method returns `Ok` on them |
| `Primers.ForwardDesignUnique` | main_package/primer_design.py:40-85 | at most one design meets the success description, so a successful result is determined by the inputs |
| `Primers.FramedPrimerCanMissThreshold` | main_package/primer_design.py:67-73 | on a concrete input, the Framed design has its start moved right by frame correction, and its emitted primer is below `melt_temp` |
| `Primers.SeedPrimerSucceeds` | main_package/primer_design.py:44-73 | when every primer reaches the threshold, the target end is inside the vector, the oligo budget leaves the seed and four codons, and the frame-corrected seed start is not past the window end, the design cannot fail: the leftward extension keeps the 15-base seed, and the Framed stage moves its start to the codon boundary |
| `Design.ForwardPrimer` | main_package/primer_design.py:35-87 | on success it stores the start and bases of a design satisfying `ForwardDesigned`; on failure the error satisfies `ForwardFailed`, and neither field changes |
| `Oligos.Sampler.Draw` | main_package/primer_design.py:124 | a draw is true iff the variate at the cursor is below the rate, and it advances the cursor by exactly one |
| `Oligos.DrawOffsetsAdjacent` | main_package/primer_design.py:122-137 | codon k+1 starts drawing right after codon k's synonymous draw and, only when codon k has a stop variant, its stop-removal draw |
| `Oligos.DrawOffsetsIncrease` | main_package/primer_design.py:122-137 | the draws of an earlier codon all come before those of any later codon |
| `Oligos.DecisionAt` | main_package/primer_design.py:122-151 | decision j belongs to wild-type codon j; it takes the synonymous draw at `first + j + #earlier stop codons`; it takes the next draw for stop removal iff the codon has a stop variant, and stop removal is false otherwise; its degenerate codons are the entry of the table chosen by (synonymous, remove-stop) |
| `Oligos.NoStopRemovalAtRateZero` | main_package/primer_design.py:134-151 | with a stop-removal rate of 0, no codon removes stop variants, and each codon uses the missense or the synonymous table |
| `Oligos.DecideCodon` | main_package/primer_design.py:124-151 | one loop iteration consumes one draw, plus one more exactly when the codon has a stop variant, and yields the decision those draws determine |
| `Oligos.DrawDecisions` | main_package/primer_design.py:122-151 | the decisions are `Decisions` of the stream at the entry cursor, and the stream advances by `len(wt_list) + #codons with a stop variant` |
| `Oligos.AaPosition` | main_package/primer_design.py:155 | with Python's true division and truncation, the position is `(start_index - gene_start)/3 + 1 + i` whenever the window is in the gene's frame or starts at or after the gene |
| `Oligos.SubstitutedWindow` | main_package/primer_design.py:162 | the sub-window is the synonymous recoding before slot i, then the substitute codon, then the recoding after slot i |
| `Oligos.SubstitutedWindowSlots` | main_package/primer_design.py:162 | for codon-sized pieces, the sub-window has three bases per codon; slot i holds the substitute and every other slot holds its synonymous recoding |
| `Oligos.RecordNameReadsBack` | main_package/primer_design.py:164-165 | a record's name parses back: the window name, `_`, the wild-type codon, the decimal digits whose value is the amino-acid position (after `-` when it is negative), then the degenerate codon |
| `Oligos.AllRecordsCount` | main_package/primer_design.py:154-157 | there is exactly one record per degenerate codon of the selected tables |
| `Oligos.AllRecordsAt` | main_package/primer_design.py:154-199 | the record for degenerate codon j of slot i is at index `RecordOffset(i) + j`, in ascending slot order and then the table's order |
| `Oligos.AllRecordsFrom` | main_package/primer_design.py:154-199 | every record is the one for some slot i and degenerate codon j, at index `RecordOffset(i) + j` |
| `Oligos.RecordOffsetMonotone` | main_package/primer_design.py:154-157 | the record offsets of the slots never decrease |
| `Oligos.RecordOffsetsOrdered` | main_package/primer_design.py:154-157 | every record of an earlier slot comes before every record of a later slot |
| `Oligos.FastaLinesAt` | main_package/primer_design.py:202 | there are exactly two FASTA lines per record: line 2k is `>` + name + newline, and line 2k+1 is the full oligo + newline |
| `Oligos.RecordsCodonSized` | main_package/primer_design.py:162-166 | with codon-sized recodings and degenerate codons, every record's sub-window has three bases per codon slot, and its full oligo is the homology arm, that sub-window and the forward primer |
| `Oligos.EmitSlot` | main_package/primer_design.py:157-202 | the inner loop appends exactly the records of one slot, in the table's order, and keeps the FASTA lines in step with the records |
| `Oligos.EnumerateOligos` | main_package/primer_design.py:154-202 | the nested loops produce exactly `AllRecords` over all slots, and their FASTA lines |
| `Design.SynonymousWindowJoined` | main_package/primer_design.py:111-114 | with three-base recodings and an in-frame sub-window, the joined synonymous window is as long as the sub-window, and its codon k is the lower-cased recoding of the vector codon at `start_index + 3k` |
| `Design.RecordShape` | main_package/primer_design.py:154-166 | for codon-sized tables and an in-frame sub-window, each record's sub-window is `primer_start - start_index` bases long, and its full oligo is the homology arm, the sub-window and the forward primer |
| `Design.DecideWindow` | main_package/primer_design.py:110-151 | the wild-type codons of the sub-window get their decisions from the shared stream, which advances by one draw per codon plus one per stop-variant codon |
| `Design.AppendRecords` | main_package/primer_design.py:154-202 | the window's records, built from the yeast recoding of the vector codons, are appended to the table and their FASTA lines to the FASTA list; `data_dict` keeps the last record |
| `Design.SubWindow` | main_package/primer_design.py:89-204 | the stream advances by one draw per codon plus one per stop-variant codon; the table and the FASTA list grow by exactly the window's records and their lines; `data_dict` keeps the last record, or is unchanged if there is none |
| `Sequences.ReverseComplementAt` | main_package/primer_design.py:24 | position k of the reverse complement is the complement of position `len - 1 - k` |
| `Sequences.ReverseComplementInvolution` | main_package/primer_design.py:24 | reverse-complementing twice is the identity |
| `Sequences.Codons` | main_package/primer_design.py:106-107 | `codons_list` yields `ceil(len/3)` chunks |
| `Sequences.CodonsRoundTrip` | main_package/primer_design.py:106-107 | joining the codons gives the string back; for a length divisible by 3, every chunk has 3 bases and there are `len/3` of them |
| `Sequences.ConcatAppend` | main_package/primer_design.py:162 | `''.join` of a concatenation is the concatenation of the joins |
| `Sequences.ConcatAt` | main_package/primer_design.py:162 | element j of piece i of a join sits at the total length of the earlier pieces plus j |
| `Sequences.ConcatFrom` | main_package/primer_design.py:162 | every element of a join is element j of some piece i, at that position |
| `Sequences.ConcatCodonAt` | main_package/primer_design.py:162 | joining codon-sized pieces puts piece k at positions `3k..3k+3` |
| `Sequences.NatToStringRoundTrip` | main_package/primer_design.py:164 | the decimal rendering used in the record name reads back as the position it renders |
| `Sequences.IntToStringReadsBack` | main_package/primer_design.py:164 | `str` of a non-negative integer is a run of digits with its value; of a negative one, `-` followed by the digits of its magnitude |

## Left out

- `mt.Tm_NN`, Biopython's nearest-neighbour thermodynamics in floating point: the model
  takes it as an arbitrary function `tm: string -> real` and uses only the comparisons
  with the thresholds.
- `Bio.Seq.reverse_complement`: the model complements A, C, G and T in either case and
  leaves every other character unchanged. Biopython's IUPAC ambiguity complements are
  not modelled.
- `Primers.HomologyArmOf` and `Design.HomologyArm` require `homo_len <= start_index`.
  Python would wrap the negative start of line 14 round to the vector's end and return
  a different slice; that wrap-around is not modelled.
- `Design.SubWindow`, `Design.DecideWindow` and `Design.AppendRecords` require the
  sub-window `[start_index, primer_start)` to lie inside both the wild-type and the
  vector sequence, with `start_index <= primer_start`. The shared coordinates of the two
  sequences assume this. Python would clamp a `primer_start` past either sequence's end,
  which for different lengths gives fewer wild-type codons than vector codons. For
  `primer_start < start_index` it would give empty slices, and so no draws and no records.
  Neither case is modelled.
- `Primers.DesignForwardPrimer`: Python never fails on a slice outside the vector. It
  wraps a negative start and clamps an end past the vector. The model returns
  `InsufficientSequence` instead in these cases:
  - the seed primer at the target end does not fit inside the vector;
  - the leftward extension would pass index 0;
  - a rightward seed would read past the vector's end.

  `ForwardFailed` states exactly these causes, and `MeltingTempNeverReached`.
- `Primers.ExtendRight` and `Primers.DesignReversePrimer`: when the threshold is never
  reached before the sequence's end, the Python loop runs forever, because the slice
  stops growing. The model returns `MeltingTempNeverReached` instead.
- The numpy generator: the model includes neither the probabilities nor the generator's
  algorithm. It assumes that each weighted choice consumes one uniform variate and is
  `True` when that variate is below the first weight. Only the order of consumption
  and the comparison are modelled.
- `Oligos.Sampler.Draw` accepts any rate, where numpy's `choice` raises `ValueError`
  for a rate outside `[0, 1]`. That error is not modelled.
- The `codon_table` module and its data are parameters:
  - A wild-type codon missing from the degeneracy tables is a precondition.
  - So is a vector codon missing from the yeast recoding map.
  - The Python `KeyError` is not modelled. This also excludes the trailing partial codon
    of a sub-window whose length is not a multiple of three.
  - The type of the `iupac_to_aa` result is taken to be a string.
- The pandas table: each `DataFrame.append` copies the whole `data_dict`. The model's
  rows carry only the eleven record fields of lines 169-181, not the window-level keys
  (`start_index`, `homology_arm` and the rest) that also end up in every row. The
  quadratic cost of repeated appends is not modelled either.
- The FASTA file: the model keeps the list of line strings, not the text of any file.
- `Oligos.AaPosition`: the model uses exact real division where Python does float
  arithmetic, so very large indices are outside the model.
- `Sequences.Lower` and `Sequences.GcCount`: only ASCII case mapping is modelled.
  Python's `lower()` and `upper()` also map other Unicode letters.
- The `Design` methods return an `Option<Error>` where the Python functions return the
  updated dictionaries. On an error no key is written.
