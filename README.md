# ksw front end, modelled in Dafny

ksw is a command-line wrapper around klib's Smith-Waterman kernels. It
reads a query line and a target line at a time from standard input,
encodes both reads as codes 0..4 (A, C, G, T, other), and aligns them in
one of four modes: local, glocal, extend or global. For each pair it
writes one tab-separated line with the score and the aligned windows of
query and target. Depending on the options, it can add the CIGAR and the
reads printed back from their codes. It can also write a header line, and
it is meant to load a 4x4 or 5x5 scoring matrix from a file; as written,
any matrix file ends the run (see "Findings").

This project models the front end of two versions of the program:

- `src/main.c`, the current one:
  - option defaults and validation;
  - the scoring matrix build and `fill_matrix`;
  - the base table;
  - `align` with its mode switch and `get_cigar`'s re-alignment check;
  - CIGAR printing;
  - the header line;
  - the set-up in `main`.
- `main.c` at the repository root, the older one. Its `main` does the
  same work in a single function. It is compared with the current one
  lemma by lemma.

The alignment kernels (`ksw_align`, `ksw_glocal`, `ksw_extend`,
`ksw_global`) are not part of the model. They are passed to the
dispatcher as the fields of `Ksw.Kernels`, and nothing is assumed about
their results.

Modules, in dependency order:

| module | file | what |
|---|---|---|
| Wrappers | wrappers.dfy | `Option`, `Result`, `Outcome` |
| MachineInts | machine_ints.dfy | `byte`, `int8`, `int32`, the store into `int8_t` |
| DecimalText | decimal_text.dfy | `printf("%d")` and its inverse |
| Tsv | tsv.dfy | tab-joined lines and the reader's split |
| Cigar | cigar.dfy | packed CIGAR entries, their printing and parsing |
| BaseEncoding | base_encoding.dfy | `seq_nt4_table`, encoding and printing of reads |
| ScoringMatrix | scoring_matrix.dfy | the 5x5 matrix, its build loop, `fill_matrix` |
| Options | options.dfy | `main_opt_t`, `main_opt_init`, `main_opt_validate`, `mode_to_str` |
| Ksw | ksw.dfy | the kernel interface |
| Buffers | buffers.dfy | the newline strip on `fgets` buffers |
| Dispatch | dispatch.dfy | `get_cigar`, `align`, the header, `main`'s set-up (src/main.c) |
| Legacy | legacy.dfy | the root main.c and how it differs |

Conventions:

- Every end coordinate is exclusive: a hit is the window
  `[qlb, qle) x [tlb, tle)`.
- Where C leaves behaviour undefined, the model returns an explicit error
  or `None`:
  - a kernel window that does not lie inside the read;
  - a CIGAR operation past the end of `"MID"`;
  - a negative table index, in `BaseEncoding.Nt4AsWritten` only (both
    dispatchers encode through the corrected lookup, see "Left out").
- `exit(1)` after a message on stderr becomes a `Failure`/`Fail` value.
  That value carries what the message prints.

## Model

| member | source | states |
|---|---|---|
| MachineInts.ToInt8 | src/main.c:308 | storing an `int` into an `int8_t` keeps values in -128..127 and otherwise keeps the value modulo 256 |
| DecimalText.Digits | src/main.c:249 | the digits of a natural number are non-empty decimal digits with no leading zero |
| DecimalText.Decimal | src/main.c:249 | `%d` starts with '-' exactly for negative numbers, with a digit otherwise, and is digits after that |
| DecimalText.DigitsValueOfDigits | src/main.c:249 | the digits of n read back as n |
| DecimalText.DecimalRoundTrip | src/main.c:249 | every printed integer parses back to itself |
| DecimalText.DecimalInjective | src/main.c:249 | distinct integers print as distinct columns |
| Tsv.SplitField | src/main.c:249-265 | splitting a line that starts with a tab-free field yields that field first |
| Tsv.SplitJoin | src/main.c:249-265 | cutting a joined line of tab-free fields at its tabs gives the fields back |
| Cigar.Unpack | src/main.c:253-254 | `c >> 4` is below 2^28, `c & 0xf` below 16, and `len * 16 + op == c` |
| Cigar.UnpackPack | src/main.c:253-254 | unpacking a packed entry recovers length and operation |
| Cigar.PackUnpack | src/main.c:253-254 | every 32-bit entry is the packing of what it unpacks to |
| Cigar.PackedBits | src/main.c:253-254 | on 32-bit words, shift and mask undo `len << 4 \| op` |
| Cigar.OpChar | src/main.c:255 | `"MID"[op]` is defined exactly for op < 4 (op 3 is the literal's NUL) |
| Cigar.Render | src/main.c:250-256 | the CIGAR column can be printed exactly when every operation is below 4 |
| Cigar.DigitRun | src/main.c:255 | the leading digit run of a printed entry is maximal and all digits |
| Cigar.DigitRunOf | src/main.c:255 | the digit run of a printed length followed by a letter is the printed length |
| Cigar.UnpackAll | src/main.c:252-255 | unpacks every entry |
| Cigar.ParseEntry | src/main.c:255 | one printed entry parses back in front of the rest |
| Cigar.RenderEntry | src/main.c:255 | one entry prints exactly when its operation is below 4, as its decimal length followed by `"MID"[op]` |
| Cigar.RenderParse | src/main.c:250-256 | a printed M/I/D CIGAR parses back to its unpacked entries |
| Cigar.RenderTabFree | src/main.c:250-256 | the printed CIGAR contains no tab, so it is one column |
| BaseEncoding.TableEntry | src/main.c:39-56 | no contract; defined as entry `b` of the transcribed table, row `b / 16`, column `b % 16` (characterised by `TableIsBaseCode`) |
| BaseEncoding.BaseCode | src/main.c:38 | the code of a byte is at most 4 |
| BaseEncoding.TableIsBaseCode | src/main.c:38-56 | every entry of `seq_nt4_table` is 0..3 for ACGT in either case and 4 otherwise |
| BaseEncoding.Nt4 | src/main.c:207-208 | the code of a byte is at most 4 and is the ACGT/acgt classification |
| BaseEncoding.DecodeNt4 | src/main.c:261-263 | printing a byte's code shows the upper-case base, or 'N' for anything else |
| BaseEncoding.Nt4OfDecode | src/main.c:261-263 | encoding the printed letter of a code gives the code back |
| BaseEncoding.Encode | src/main.c:207-208 | an encoded read keeps its length and holds each byte's code, all at most 4 |
| BaseEncoding.Decode | src/main.c:261-263 | a printed read keeps the length of its codes |
| BaseEncoding.DecodeEncode | src/main.c:259-264 | a read printed back is the read upper-cased with non-ACGT bytes as 'N' |
| BaseEncoding.CharIndex | src/main.c:207 | `(int)` of a signed `char` lies in -128..127 and equals the byte exactly below 0x80 |
| BaseEncoding.Nt4AsWritten | src/main.c:207 | the lookup as written is defined exactly for bytes below 0x80, where it is the table entry |
| BaseEncoding.HighByteIndexesBeforeTable | src/main.c:207-208 | every byte from 0x80 indexes before the table |
| BaseEncoding.AsWrittenAgreesOnAscii | src/main.c:207-208 | on ASCII the lookup as written gives the corrected code |
| BaseEncoding.Utf8LeadByteOutsideTable | src/main.c:207 | byte 0xC3 reads `seq_nt4_table[-61]`; corrected it is N |
| Buffers.StripLF | src/main.c:203-204 | a trailing newline is removed and nothing else changes |
| Buffers.StripLFOnce | src/main.c:203 | only one newline is removed |
| Buffers.Stripped | src/main.c:203 | the buffer keeps its length |
| Buffers.StripNewline | src/main.c:203-204 | the length drops by one exactly when the last byte was '\n'; the string is the stripped line and the newline became NUL |
| ScoringMatrix.Matrix | src/main.c:305-312 | the matrix of given scores has the built layout |
| ScoringMatrix.BuiltIsMatrix | src/main.c:305-312 | only one matrix has the built layout for given scores |
| ScoringMatrix.DivMod5 | src/main.c:306-312 | entry `5i+j` is row i, column j |
| ScoringMatrix.Build | src/main.c:305-312 | the counter-driven loops produce the match score on the ACGT diagonal, minus the mismatch penalty off it, and 0 for N |
| ScoringMatrix.BuiltLayout | src/main.c:306-312 | entry (i, j) of a built matrix, for every i, j, in terms of the two scores |
| ScoringMatrix.DefaultScores | src/main.c:120-121 | the default scores give 1 on the diagonal, -3 elsewhere in ACGT, 0 for N |
| ScoringMatrix.LargeMatchScoreWraps | src/main.c:308 | a match score of 200 is stored as -56 |
| ScoringMatrix.CountRejectedAsWritten | src/main.c:75 | no contract; defined as `i != 16 \|\| i != 25` (characterised by `CountTestAsWrittenRejectsAll`) |
| ScoringMatrix.CountTestAsWrittenRejectsAll | src/main.c:75 | `i != 16 \|\| i != 25` rejects every count, 16 and 25 included |
| ScoringMatrix.CountTestAccepts | src/main.c:75-78 | the intended test passes exactly 16 or 25 values |
| ScoringMatrix.FirstToken | src/main.c:64-66 | the first line with a token, every line before it empty; or no line has one |
| ScoringMatrix.FillMatrixAsWritten | src/main.c:58-81 | the routine as written never succeeds: a file with a token fills all 25 entries with that first token and fails as too many values; a file without one fails the count test with the matrix unchanged |
| ScoringMatrix.FirstTokenAt | src/main.c:64-66 | a non-empty line after only empty ones is the first token's line |
| ScoringMatrix.Overwrite | src/main.c:71 | the first values replace the first entries, stored as `int8_t`, and the rest is kept |
| ScoringMatrix.Load | src/main.c:58-81 | loading succeeds exactly for 16 or 25 values and fails as too many exactly above 25 |
| ScoringMatrix.FlattenSnoc | src/main.c:64-65 | reading one more line appends its tokens |
| ScoringMatrix.FillMatrix | src/main.c:58-81 | the corrected routine leaves the matrix and outcome `Load` gives |
| ScoringMatrix.TooManyValuesAt | src/main.c:67-70 | the 26th token means more than 25 values, and the 25 stored are the first 25 |
| ScoringMatrix.FlattenPrefix | src/main.c:64-73 | the tokens of the first lines are a prefix of all tokens |
| ScoringMatrix.Rows | src/main.c:110 | a matrix written as lines of five values has one line per row |
| ScoringMatrix.FlattenRows | src/main.c:64-73 | the tokens of those lines are the matrix |
| ScoringMatrix.LoadRoundTrip | src/main.c:58-81 | a 5x5 matrix written out and loaded comes back whatever the matrix held before |
| ScoringMatrix.OneValueFile | src/main.c:64-78 | a one-value file is stored in entry 0 only and refused for its count |
| ScoringMatrix.FourByFourStoredLinearly | src/main.c:71 | a 4x4 file passes but fills entries 0..15 of the stride-5 layout, so its fifth value is the (A, N) entry |
| Options.Init | src/main.c:116-133 | the defaults satisfy every validation constraint, with no matrix file and no optional column or header |
| Options.AssertOrExit | src/main.c:135-146 | passes exactly when the condition holds, else fails with the given error |
| Options.Validate | src/main.c:148-156 | passes exactly for valid options; otherwise the first failing check in source order, with the value its message prints |
| Options.DefaultsValid | src/main.c:116-133 | the defaults pass validation and twice the default band width fits an `int` |
| Options.LargestBandWidthPasses | src/main.c:155 | the band width is bounded only from below: INT_MAX passes and twice it overflows |
| Options.ModeToStr | src/main.c:83-94 | a name exactly for modes 0..3; otherwise an error carrying the mode |
| Options.ModeNameRoundTrip | src/main.c:86-89 | each mode's name reads back as that mode, so the names are distinct |
| Options.ValidModeHasName | src/main.c:150 | a validated mode always has a name: a corollary of the mode check and `mode_to_str` (its one caller, `usage`, runs before validation) |
| Dispatch.GetCigar | src/main.c:159-189 | a CIGAR exactly when the window lies in both reads and re-aligning it globally gives the first score; otherwise the mismatch is reported with the first score |
| Dispatch.WithCigar | src/main.c:225 | without -c the hit is returned unchanged; with it the hit gains the re-alignment's CIGAR exactly when the re-alignment agrees, and otherwise fails with `get_cigar`'s error |
| Dispatch.AlignEncoded | src/main.c:213-247 | a mode outside 0..3 is the only failure without -c. Local turns inclusive ends exclusive. Glocal and global cover the whole query, global the whole target too. Extend starts both windows at 0. With a CIGAR, local and extend give the record exactly when the re-alignment of the kernel's window agrees, and the re-alignment's error otherwise; such a record is self-consistent |
| Dispatch.HeaderFields | src/main.c:317-322 | five columns, plus one for -c and two for -s, all tab-free |
| Dispatch.DecimalTabFree | src/main.c:249 | a printed number has no tab |
| Dispatch.DecodeTabFree | src/main.c:261-263 | a printed read has no tab |
| Dispatch.RecordFields | src/main.c:249-264 | a record has the header's column count: the five numbers, the CIGAR for -c, both printed reads for -s; it can be printed exactly when the CIGAR can |
| Dispatch.HeaderLine | src/main.c:317-321 | no contract; defined as the header columns joined by tabs with a newline (its columns are `HeaderFields`) |
| Dispatch.Record | src/main.c:249-265 | a line exactly when the mode switch succeeds and the CIGAR can be printed, the mode switch's error otherwise; the line is the record's columns joined by tabs, ending in '\n' |
| Dispatch.RecordMatchesHeader | src/main.c:249-265 | a record line ends in '\n' and splits into its fields, as many as the header has |
| Dispatch.EncodeInPlace | src/main.c:207-208 | the first n bytes become their codes, the rest of the buffer is unchanged |
| Dispatch.Align | src/main.c:191-267 | both buffers hold the codes of the stripped reads, and the result is the record of those codes |
| Dispatch.Prepare | src/main.c:302-322 | fails with the first validation error; succeeds exactly for valid options with an acceptable matrix file or none. The matrix is the built one or the loaded one; the header is there exactly with -H; a refused matrix file fails with the error `Load` gives ("Too many values" or the count error) |
| Dispatch.PrepareAsWritten | src/main.c:302-322 | with `fill_matrix` as written, valid options succeed exactly without a matrix file; with one, the run ends with "Too many values" or the count error for 0 values |
| Legacy.LegacyNt4 | main.c:10-27 | no contract; defined as entry `b` of main.c's own table (equal to the corrected lookup by `SameTable`) |
| Legacy.Defaults | main.c:58-72 | no contract; defined as the initial values of the option locals (its matrix is compared by `SameDefaultMatrix`) |
| Legacy.SameTable | main.c:10-27 | the root main.c's table is the same as src/main.c's |
| Legacy.ClampMinScore | main.c:95 | the minimum score is at most 0xffff and unchanged exactly when it was |
| Legacy.Xtra | main.c:95-96 | no contract; defined as the flags or-ed with the clamped minimum score (characterised by `XtraKeepsFlags` and `NegativeMinScoreSetsAllBits`) |
| Legacy.XtraKeepsFlags | main.c:95-96 | a minimum score of 0 or more lands in the low 16 bits and leaves the flag bits alone |
| Legacy.PackLow | main.c:96 | or-ing 16 bits under flags with clear low bits keeps both |
| Legacy.NegativeMinScoreSetsAllBits | main.c:81-96 | `-t -1` sets every bit of `xtra`, the flags included |
| Legacy.LegacyHit | main.c:127-154 | no contract; defined as the older mode switch (stated through `AgreeOutsideExtend`, `ExtendTargetEndDiffers` and `UnknownModeDiffers`) |
| Legacy.Text | main.c:158 | `%s` prints each byte as one character |
| Legacy.LegacyFields | main.c:157-162 | five columns, or seven with -s |
| Legacy.EncodeInto | main.c:115-116 | the first n bytes' codes go into the separate code array, the rest of it is unchanged |
| Legacy.ProcessRecord | main.c:108-163 | the text buffers change only by the newline strip; the code arrays hold the codes; the line is the mode switch's hit printed |
| Legacy.Prepare | main.c:95-105 | succeeds exactly without a matrix file or with an acceptable one; `xtra` is the clamped score or-ed in; the matrix is built or loaded; a refused matrix file fails with the error `Load` gives |
| Legacy.PrepareAsWritten | main.c:95-105 | with `fill_matrix` as written, succeeds exactly without a matrix file; with one, the run ends with "Too many values" or the count error for 0 values |
| Legacy.SameDefaultMatrix | main.c:58-60 | the older defaults build the same matrix as the newer ones |
| Legacy.AgreeOutsideExtend | main.c:127-154 | in glocal and global mode both programs report the same score and windows; in local mode too when `-t` is 0, since only the older program or-s the minimum score into the flags it hands `ksw_align` |
| Legacy.ExtendTargetEndDiffers | main.c:143-146 | in extend mode the older program zeroes the target end, so the two differ exactly when the kernel's target end is not 0 |
| Legacy.UnknownModeDiffers | main.c:127-154 | an unknown mode stops src/main.c but prints a record of zeros in the older program |
| Legacy.RawReadColumns | main.c:158 | with tab-free reads the seven-column line splits back into its fields |
| Legacy.TabInReadAddsColumn | main.c:158 | a read containing a tab turns the seven-column line into eight columns |

## Left out

- The alignment kernels (ksw.h, ksw.c) are not part of this model. They are parameters. Scores, windows and CIGARs are whatever the given functions return, and the alphabet size 5 they all receive is dropped from their signatures.
- `KSW_XSTART | KSW_XSUBO` comes from ksw.h. `xtra` is therefore a parameter (`flags` in `Legacy.Prepare`).
- Command-line parsing (`getopt`, `atoi` on arguments) and `usage` are left out. The options arrive parsed as `MainOpt` / `Legacy.Args`.
- The usage exit when `optind > argc` is left out.
- The read loop over stdin, `fgets`, `fopen`/`fclose`, `fflush` and `free` are left out.
  - A record is the two line buffers handed to `Dispatch.Align` / `Legacy.ProcessRecord`.
  - A matrix file is its lines, already cut by `strtok` and converted by `atoi`. `strtok(buffer, ",\t")` does not split at '\n', so a blank line is one token read as 0 (`[0]`); only a last line of ',' and '\t' alone without a newline has no token (`[]`).
  - The 256-byte line limit of `fill_matrix` and the 1024-byte read buffers are left out, as are strings that `atoi` does not fully parse.
- The diagnostic dump of `get_cigar` before `exit(1)` is left out. `Dispatch.ScoreMismatch` carries the values it prints.
- Dispatch.Align: the `get_cigar` call sees the window offset into the encoded buffer, which is modelled as a slice of the code sequence.
- Dispatch.Prepare, Legacy.Prepare: they model `main` with the corrected `fill_matrix`. As written, any matrix file ends the run (`Dispatch.PrepareAsWritten`, `Legacy.PrepareAsWritten`).
- Dispatch.Align, Legacy.ProcessRecord: bytes from 0x80 up go through the corrected lookup and encode as N. The source as written reads before the table there (`BaseEncoding.Nt4AsWritten`).
- Dispatch.AlignEncoded: `qe + 1` and `te + 1` are unbounded integers. `int` overflow there is not modelled.
- Dispatch.Align, Legacy.ProcessRecord: `ql0`/`tl0` are `strlen` of a buffer `fgets` filled, so they are at least 1. A line starting with a NUL byte, where the source reads `query[-1]`, is excluded by precondition.
- Legacy.ProcessRecord requires the bytes before `ql0`/`tl0` to be non-NUL, which is what `strlen` guarantees.
- `right_align_gaps` and `offset_and_length` are declared in src/main.h and read nowhere. They are fields of `MainOpt` that no operation uses.
- Glocal trimming, printing an empty CIGAR as `*`, and offset/length output are absent from the code, so they are absent from the model. The code prints an empty CIGAR as an empty column.
- `add_cigar`, `add_seq` and `add_header` are booleans, because `main` only ever sets them to 1. The source's `add_cigar == 1` and `add_seq != 0` tests therefore agree.
- Cigar.Unpack: `>> 4` and `& 0xf` are stated as division and remainder by 16 on the unsigned value. `Cigar.PackedBits` states the bit-level round trip separately.
- BaseEncoding.TableEntry: the 256-entry table is written as its sixteen source rows of sixteen entries.
- The model follows the source where it disagrees with its own headers:
  - src/main.c reads `opt->start_score`, which src/main.h does not declare; `MainOpt` has the field.
  - The message for a non-positive match score prints the mismatch score, and `Options.BadMatchScore` carries that value.
  - The older program parses `-w` but always passes a band width of 1000 (`Legacy.KernelBandWidth`).

## Findings

| source | as written | input that shows it | evidently intended | confidence | as-written member | corrected member |
|---|---|---|---|---|---|---|
| src/main.c:66-73 | `while (pch != NULL)` never calls `strtok(NULL, ",\t")`, so `pch` never advances (same at main.c:38-45) | a matrix file holding the single value 7: it is stored into all 25 entries, then "Too many values" ends the run | advance `pch` after each token | high, not executed | ScoringMatrix.FillMatrixAsWritten | ScoringMatrix.FillMatrix |
| src/main.c:75 | `i != 16 \|\| i != 25` holds for every `i` (same at main.c:47) | once `pch` advances, a file of exactly 25 values is refused with "found 25, want 16 or 25"; as written the first defect masks this one, since any file with a token stops at "Too many values" first | `i != 16 && i != 25` | high, not executed | ScoringMatrix.CountTestAsWrittenRejectsAll | ScoringMatrix.CountTestAccepts |
| src/main.c:207-208 | `seq_nt4_table[(int)query[i]]` on a `char`, which is signed on x86-64 (same at main.c:115-116) | a read containing byte 0xC3 (UTF-8 'é') reads `seq_nt4_table[-61]` | index with the byte read unsigned, giving N | medium (depends on the ABI's `char`), not executed | BaseEncoding.Utf8LeadByteOutsideTable | BaseEncoding.Nt4 |
