# Internship-placement loaders (SAE) in Dafny

The application manages internship offers ("stages") and the students placed
on them. All its state lives in parallel arrays that two loaders fill from
text files at start-up. These loaders are the only logic the program has:

- `remplirOffreStage` reads offer records `ref dept pourvu candid [etu1 [etu2 [etu3]]]`
  into seven co-indexed arrays (`tRef`, `tDpt`, `tPourvu`, `tCandid`, `tEtu1`, `tEtu2`, `tEtu3`).
  It stops at `tmax` records, at the end of the integers, or at a record cut short.
  It skips any reference below 1000 and pads unread candidate slots with 0.
- `remplirListeEtudiants` reads `num ref note` lines into three arrays.
  It returns -2 when the file holds more lines than `tmax`.

The model keeps the C structure and replaces the I/O:

- The offers file is the sequence of integer tokens that `fscanf("%d")` can
  still read. The end of that sequence stands both for end of file and for
  the first token that is not an integer.
- The students file is the sequence of its complete lines.
- The arrays and `*tlog` are values passed in and handed back.
- Whether `fopen` succeeded is a boolean argument.

Modules:

- `OfferRecord` (offer_record.dfy): one record.
  - `Offer` is one row of the seven arrays.
  - `Format` is the token layout of a record in the file.
  - `ReadOffer` is one pass of the loop body on the remaining tokens. It results in
    `End`, `Skip`, `Truncated(ref)` or `Accept(offer, width)`.
- `OfferScan` (offer_scan.dfy): `Scan` is the whole loop as a function.
  It gives the accepted records in file order, and why the loop stopped: `Exhausted`, `Full` or `Cut(ref)`.
  `Flatten` writes a list of records one after another, which gives the round-trip lemmas.
- `OfferLoader` (offer_loader.dfy): the whole call.
  - `LoadOffers` states what the call computes.
  - `FillOffers`, `FillRows` and `FillStep` are the C loop as written, with its `break`s and with `tRef[i]` written before the header is checked. They are proved equal to `LoadOffers`.
- `StudentLoader` (student_loader.dfy): `LoadStudents` states what the call computes, and `FillStudents` is its read-ahead `feof` loop.
- `Capacity` (capacity.dfy): `Room(tmax)`, the number of rows a loader may fill.
- `Sequences` (sequences.dfy): concatenation facts the proofs share.

Where the code and its doc comments disagree, the model follows the code:

- Both doc comments promise 0 on success (SAE.c:17, SAE.c:86). The code returns 1 (SAE.c:71, SAE.c:112).
- The offer loader's comment promises -1 on a read error (SAE.c:17). A record cut short is such an error, yet the loop only `break`s (SAE.c:32, 37, 42, 48) and the call returns 1 (SAE.c:71). Only a failed `fopen` gives -1.
- The student loader's comment calls -1 and -2 read errors (SAE.c:86). In the code, -2 means the file holds more lines than `tmax` (SAE.c:97-109).

Behaviour of the code that its comments do not mention:

- The offer loader does not return a record count. It adds one to `*tlog` per record and writes rows from index 0, whatever `*tlog` held on entry.
- A reference below 1000 does not end the offer scan. That one token is skipped and the scan continues (SAE.c:28-29, SAE.c:68-69).
- The number of candidate tokens read depends only on `candid`. Only 1, 2 and 3 read ids. Every other value reads none and stores all three slots as 0. `tCandid` keeps the raw value. The `pourvu` flag is never consulted.
- When the offer rows are full the remaining input is ignored. The call still returns 1.

## Model

| member | source | states |
|---|---|---|
| OfferRecord.ReadOffer | SAE.c:28-57 | The step is End exactly on empty input. It is Skip exactly when the first token is below 1000. It is Accept exactly when the reference is at least 1000 and the four header tokens plus the candidate tokens `candid` calls for are present. Otherwise it is Truncated, carrying the reference. An accepted record is storable, keeps the raw `candid`, and uses `4 + candid` tokens for `candid` in 1..3 and 4 otherwise |
| OfferRecord.ReadLayout | SAE.c:31-64 | An accepted record is exactly the layout of the tokens it consumed, so the stored fields are the tokens read, in order |
| OfferRecord.ReadFormatted | SAE.c:29-64 | A storable record written in its layout is read back whole as one Accept step, whatever follows it |
| OfferRecord.FormatInjective | SAE.c:53-57 | Two records with the same layout and zero-padded slots are equal, so the padding makes the stored row a function of the tokens |
| OfferRecord.ReadCutShort | SAE.c:31-49 | A record whose reference is read but whose header or candidate ids run out is reported as Truncated with that reference |
| OfferRecord.FilledIgnored | SAE.c:31-60 | Changing the `pourvu` token changes neither the kind of step nor the tokens consumed. Only the stored flag differs |
| OfferScan.Scan | SAE.c:28-69 | The loop stores at most `tmax` records. It stops Full only with exactly `tmax` records. A cut record leaves fewer than `tmax` records and carries a reference of at least 1000. With `tmax <= 0` nothing is read |
| OfferScan.ScanStorable | SAE.c:29-64 | Every record the loop accepts has a reference of at least 1000 and zero-padded candidate slots |
| OfferScan.SkipSentinel | SAE.c:28-69 | A token below 1000 is consumed alone and the scan goes on from the next token with the same room |
| OfferScan.ScanFormatted | SAE.c:28-69 | Records written in their layout are read back in order, and the scan then carries on over what follows with the remaining room |
| OfferScan.ScanWholeFile | SAE.c:28-69 | A file of well-formed records that fits is read completely. The scan stops at end of input, or Full when the file holds exactly `tmax` records |
| OfferScan.ScanOverCapacity | SAE.c:28-69 | With more well-formed records than `tmax`, exactly the first `tmax` are kept and the rest of the input is not read |
| OfferScan.ScanTruncated | SAE.c:30-49 | A record cut short after well-formed records stops the scan. The earlier records are kept and the cut record's reference is reported |
| OfferScan.ScanUnflatten | SAE.c:28-69 | The converse of ScanFormatted. When the loop meets no reference below 1000, the stored records, written back in their layout, are the front of the file. They are the whole file when the loop ran out of integers |
| OfferLoader.StoredContents | SAE.c:59-64 | After the writes, row `k` of the seven arrays holds record `k`, and every cell past the records is untouched |
| OfferLoader.LoadOffers | SAE.c:19-72 | If the file cannot be opened, the call returns -1 and changes nothing. Otherwise it returns 1 and `*tlog` rises by exactly the number of records stored, at most `tmax`. Rows `0..n-1` hold the scanned records in order. A cut record changes only `tRef[n]` beyond them, and nothing else changes |
| OfferLoader.LoadSkipsSentinel | SAE.c:28-69 | A sentinel token in front of the file changes nothing about the call's result |
| OfferLoader.LoadWholeFile | SAE.c:28-71 | Loading a fitting file of well-formed records returns 1, stores each record in its row in file order, and adds their count to `*tlog` |
| OfferLoader.LoadOverCapacity | SAE.c:28-71 | Records beyond `tmax` are ignored without error. The first `tmax` are stored, `*tlog` rises by `tmax`, and the call returns 1 |
| OfferLoader.LoadTruncated | SAE.c:30-71 | A record cut short keeps the earlier records and counts only them. Its reference is left in `tRef` just past them and every other cell is untouched |
| OfferLoader.ReadFields | SAE.c:31-57 | The header and candidate reads, with their four `break` conditions, give the same step as ReadOffer |
| OfferLoader.FillStep | SAE.c:29-68 | One pass of the loop body. It skips a sentinel. For a cut record it writes only `tRef[i]` and breaks, leaving `i` and `*tlog` as they were. Otherwise it writes the whole row, advances `i` and `*tlog` by one, and moves the cursor by the record's width |
| OfferLoader.FillRows | SAE.c:28-69 | The loop yields the records of Scan, in order, in rows `0..n-1`. `*tlog` rises by `n`, and on a cut record `tRef[n]` holds its reference |
| OfferLoader.FillOffers | SAE.c:19-72 | The C function as written yields exactly the return code, arrays and `*tlog` of LoadOffers |
| StudentLoader.StoredContents | SAE.c:99-101 | After the writes, row `k` of the three arrays holds line `k`, and every cell past them is untouched |
| StudentLoader.LoadStudents | SAE.c:88-113 | If the file cannot be opened, the call returns -1 and changes nothing. Otherwise it returns 1 exactly when the lines fit in `tmax` rows, and -2 exactly when they do not. It stores the lines in order and `*tlog` rises by the number stored, which is all the lines, or `tmax` when they overflow. The other cells are untouched |
| StudentLoader.FillStudents | SAE.c:88-113 | The read-ahead `feof` loop as written yields exactly the return code, arrays and `*tlog` of LoadStudents |
| StudentLoader.OverflowStoresPrefix | SAE.c:97-109 | A file with more lines than `tmax` fills the same rows and count as its first `tmax` lines alone, but returns -2 instead of 1 |

## Left out

- Opening and closing the files (`fopen`, `fclose`) and the fixed paths `DATA/offrestage.txt` and `DATA/etudiants.txt`. Whether `fopen` succeeded is an argument.
- The character-level behaviour of `fscanf`. An offers file is its sequence of readable integers. A token that is not an integer ends the input, just as end of file does, because `fscanf("%d")` keeps failing on it.
- C `int` width: tokens, `tmax` and `*tlog` are unbounded integers. Overflow of `(*tlog)++` and out-of-range numerals are not modelled.
- StudentLoader.LoadStudents: assumes the file is a sequence of complete lines, each ending in a newline. Two quirks of the `feof` loop are not modelled. A last line without a trailing newline is dropped. A non-numeric token makes the loop store stale values until `tmax` is reached.
- The grade is a C `float` that is only copied. A `real` stands for it, with no rounding.
- Caller-side array sizes: both loaders require every array to have at least `tmax` cells. That is the C caller's obligation, which `global` meets with 200-cell arrays (SAE.c:174-177).
- `menuGlobal`, the role loop in `global`, and `main` (SAE.c:130-216, TestSAE.c:12-15) are console plumbing around the loaders. They print messages and call `exit`.
- `globalResponsable`, `globalEtudiant` and `globalJury` (SAE.c:116-128) have empty bodies. The display functions `afficherTableau`, `afficherStagesPourvus`, `afficherStagesNonPourvus`, `menuResponsable` and `menuSelection` (SAE.h:8-11, SAE.h:21) are declared without bodies. Adding, removing, applying, assigning, grading and saving have no code, so nothing of them is modelled.
