# Threshold minimisation of the pixel read-out chips, modelled in Dafny

PixelCalibrations holds the scripts that tune the comparator threshold
(the `VcThr` DAC) of every read-out chip (ROC) of the CMS pixel detector.
Iterations alternate between an S-curve calibration run and a rewrite of
the DAC settings. This project models the rewrite logic in
`analysisCalibFuncs.py` and the run-folder rule in `browseCalibFiles.py`:

- A run's configuration key is resolved through the configuration
  database (`configurations.txt`) to its `dac` and `detconfig` ids
  (module `KeyDatabase`).
- The detector configuration is turned into the list of per-module DAC
  files (module `ModuleList`).
- The flat text files that pass state between iterations are read: the
  detector configuration list, the delta file, the failed-ROC file and the
  Vcal/VcThr fit report (module `CalibLists`).
- `initThresholdMinimizationSCurve` sets every mapped ROC to its lowest
  threshold minus 2 (module `InitRewrite`).
- `createNewDACsettings` moves each ROC's VcThr by 0, -4 or +2 and records
  the choice in the delta file (module `DacRewrite`).
- `checkROCthr` writes the failed-ROC file and `getFailingRocs` reads it
  back (module `ThresholdCheck` with `CalibLists.GetFailingRocs`).
- New DAC directory ids follow sorted-maximum + 1 (module `DacIds`).
- Runs are bucketed by thousands (module `RunFolder`).

Python 2's string operations are modelled in `Strings`:

- `split()` and `split(sep)`
- `join`
- `replace`
- `startswith` and `endswith`
- `int()` and `str()`
- `readlines()`

Python exceptions become `Outcome.Result` errors: `IndexError`,
`ValueError`, `Exit(message)` for `sys.exit`, and `MissingFile(name)` for
a file that is not there. A loop stops at the first error
(`Outcome.Collect`). Every file is an input value: its text, or the list
of lines `readlines()` returns. A directory is a map from file names to
contents.

The loops of the source are methods with loop invariants. Each method is
proved equal to a specification function, and the properties are proved
as lemmas about that function:

- `RewriteDacFile`, `RewriteDacFiles` and `CreateNewDacSettings`
  (`RewriteDacFile` is proved equal to the line-by-line `DacRewrite.Scan`,
  and `DacRewrite.ScanIsRewrite` proves that equal to `DacRewrite.Rewrite`)
- `InitDacFile`, `InitDacFiles` and `InitThresholdMinimization`
- `CollectModules`, `ModuleFiles` and `CreateModuleList`
- `FindFromKey`
- `CheckRocThr`

Some behaviours of the source are kept as they are and stated as lemmas:

- The delta file is opened in append mode and gets no header. Yet
  `listFromDeltaFile` skips its first line as a header, so the first ROC
  recorded in an iteration is never read back as held
  (`CalibLists.DeltaFileRoundTrip`, `DacRewrite.NextIterationHeld`).
- In the initial rewrite, a pending value of 0 means "nothing pending".
  So a ROC whose lowest threshold is 2 keeps its VcThr
  (`InitRewrite.InitFromFitReport`).
- An unmapped ROC line does not reset the pending value. So a value set by
  an earlier mapped ROC reaches the unmapped ROC's VcThr line
  (`InitRewrite.UnmappedRocTakesEarlierValue`). Only a VcThr line or the start of a file
  clears it (`InitRewrite.PendingCleared`).
- `str.replace` rewrites every occurrence of the old value's text in a
  VcThr line. For the well-formed `VcThr <n>` line only the value changes
  (`DacRewrite.RewriteVcThrLine`, `InitRewrite.InitVcThrLine`).
- The latest chunk of a key in the configuration database wins, even when
  it lacks the field (`KeyDatabase.LookupLaterChunkWins`).

## Model

| member | source | states |
|---|---|---|
| RunFolder.RunFolder | browseCalibFiles.py:49-51 | the folder is the multiple of 1000 at or below the run, for every integer run (Python 2 floor division) |
| RunFolder.RunFolderIdempotent | browseCalibFiles.py:49-51 | the folder of a folder is itself |
| RunFolder.RunFolderMonotone | browseCalibFiles.py:49-51 | a later run never gets an earlier folder |
| RunFolder.RunFolderUnique | browseCalibFiles.py:38-51 | the folder is the only multiple of 1000 whose thousand contains the run |
| RunFolder.RunPathInjective | analysisCalibFuncs.py:62 | different runs under one output directory get different `Run_<folder>/Run_<run>/` paths |
| DacIds.Max | analysisCalibFuncs.py:262-265 | the last element after sorting: an existing id no smaller than any other |
| DacIds.NewDacId | analysisCalibFuncs.py:262-266 | IndexError exactly when there is no dac directory; otherwise an id above every existing one whose predecessor exists |
| DacIds.NewDacIdFresh | analysisCalibFuncs.py:262-266 | the new id is not taken, and once it exists the next new id is one larger |
| CalibLists.ListFromFile | analysisCalibFuncs.py:222-227 | one entry per line after the first |
| CalibLists.StripPaddedWord | analysisCalibFuncs.py:225 | removing `" \n"` from `entry \n` leaves the entry |
| CalibLists.ListFromFileOfPaddedWords | analysisCalibFuncs.py:222-227 | below a header, a file of `entry \n` lines lists exactly its entries |
| CalibLists.DeltaNames | analysisCalibFuncs.py:229-235 | IndexError exactly when some line, with `" \n"` removed, has fewer than two tokens |
| CalibLists.DeltaRecordUnpadded | analysisCalibFuncs.py:229-235 | a `name delta` record has no `" \n"` to strip |
| CalibLists.DeltaRecordWords | analysisCalibFuncs.py:233 | a record reads back as the two tokens name and delta |
| CalibLists.DeltaTokens | analysisCalibFuncs.py:233 | the delta token is "0" exactly for 0 and "-4" exactly for -4 |
| CalibLists.DeltaNamesOfRecords | analysisCalibFuncs.py:229-235 | records read back give the names recorded with 0 or -4, in order |
| CalibLists.DeltaFileRoundTrip | analysisCalibFuncs.py:229-235 | reading a delta file of records gives the held names of every record but the first |
| CalibLists.GetFailingRocs | analysisCalibFuncs.py:446-460 | nothing at iteration 0; otherwise IndexError exactly when some line has no token |
| CalibLists.RocEntries | analysisCalibFuncs.py:457 | the names read are exactly the first tokens of the lines starting with BPix or FPix |
| CalibLists.InitDacSettings | analysisCalibFuncs.py:400-410 | IndexError exactly when some line has no token, or a BPix line has fewer than five |
| CalibLists.InitDacSettingsKeys | analysisCalibFuncs.py:408 | the mapped ROCs are exactly the first tokens of the BPix lines |
| CalibLists.InitDacSettingsLastWins | analysisCalibFuncs.py:408 | a ROC maps to the fifth token of its last line |
| CalibLists.FitReportLineWords | analysisCalibFuncs.py:129 | a fit-report line splits into ROC, a, b, chi2 and the lowest threshold |
| CalibLists.FitReportLineTokens | analysisCalibFuncs.py:129 | a fit-report line of a BPix ROC is an entry line whose first token is the ROC and whose fifth is the lowest threshold |
| CalibLists.FitReportRoundTrip | analysisCalibFuncs.py:400-410 | the lowest threshold the fit wrote for a ROC is the integer the map gives it |
| KeyDatabase.KeyFromKeyFile | analysisCalibFuncs.py:216-217 | the key is the last token of the second line; IndexError exactly when that line is missing or blank |
| KeyDatabase.FieldValues | analysisCalibFuncs.py:422 | IndexError exactly when a field line has no value; otherwise the first value is token 1 of the first field line, and there is none exactly when no line starts with the field |
| KeyDatabase.LastMatch | analysisCalibFuncs.py:419-422 | the last chunk that has the `key <K>` line, or none |
| KeyDatabase.Lookup | analysisCalibFuncs.py:413-426 | a found value is the first field value of the key's last chunk; with no chunk of the key the search exits with "not found" |
| KeyDatabase.FindFromKey | analysisCalibFuncs.py:413-442 | the chunk loop of `findDacFromKey` and `findDetConfigFromKey` computes `Lookup` |
| KeyDatabase.FromPath | analysisCalibFuncs.py:206-220 | an unreadable key file gives IndexError; otherwise the lookup of its key |
| KeyDatabase.FindDacFromPath | analysisCalibFuncs.py:206-220 | `findDacFromPath` is `FromPath` with the field "dac" |
| KeyDatabase.FindDetConfigFromPath | analysisCalibFuncs.py:184-198 | `findDetConfigFromPath` is `FromPath` with the field "detconfig" |
| KeyDatabase.LookupLaterChunkWins | analysisCalibFuncs.py:419-422 | a later chunk of the key decides the result, whatever came before |
| KeyDatabase.LookupIgnoresOtherKeys | analysisCalibFuncs.py:419-422 | a chunk of another key changes nothing |
| ModuleList.ModuleNameDropsLastComponent | analysisCalibFuncs.py:244-245 | the module of `a_b`, where b has no underscore, is a |
| ModuleList.ModuleNameWithoutUnderscore | analysisCalibFuncs.py:244-245 | an entry without an underscore gives the empty module name |
| ModuleList.FirstOccurrencesProperties | analysisCalibFuncs.py:246 | de-duplication leaves no duplicates, keeps every element and keeps first-occurrence order |
| ModuleList.FirstOccurrencesElements | analysisCalibFuncs.py:246 | de-duplication keeps exactly the elements of the input |
| ModuleList.FirstOccurrencesDistinct | analysisCalibFuncs.py:246 | de-duplication leaves no duplicates |
| ModuleList.FirstOccurrencesOrdered | analysisCalibFuncs.py:246 | the kept elements are in the order of their first occurrence |
| ModuleList.CollectModules | analysisCalibFuncs.py:241-246 | the modules of the entries not flagged noAnalogSignal or noInit, each once, in order of first occurrence |
| ModuleList.DacFileNameInjective | analysisCalibFuncs.py:250 | different modules get different DAC file names |
| ModuleList.DacFileNamesDistinct | analysisCalibFuncs.py:250 | distinct modules give distinct `ROC_DAC_module_<m>.dat` names |
| ModuleList.ModuleFiles | analysisCalibFuncs.py:239-251 | one `ROC_DAC_module_<m>.dat` per kept module, without duplicates and with nothing else |
| ModuleList.CreateModuleList | analysisCalibFuncs.py:237-251 | `createModuleList` resolves the detconfig id and names the module files; a missing configuration file is an error |
| ModuleList.ModuleDacFilesDistinct | analysisCalibFuncs.py:246-250 | the module files are distinct and all named `ROC_DAC_module_*.dat` |
| DacRewrite.ProcessLine | analysisCalibFuncs.py:290-310 | the branch chain of one line computes `RewriteLine`, the delta it sets and the record it writes |
| DacRewrite.RewriteDacFile | analysisCalibFuncs.py:287-310 | the line loop of one file computes `Scan`, reading the lines one after the other under the delta in force and collecting one record per ROC line |
| DacRewrite.RecordsStep | analysisCalibFuncs.py:290-300 | reading one more line adds a record exactly when it is a ROC line, with that ROC's delta |
| DacRewrite.ScanPrefix | analysisCalibFuncs.py:287-310 | a successful scan of the first lines is the rewrite of those lines with their records; a failed scan has the error of the whole rewrite |
| DacRewrite.ScanStopsAtError | analysisCalibFuncs.py:289-310 | once a line fails, nothing after it changes the outcome |
| DacRewrite.ScanIsRewrite | analysisCalibFuncs.py:287-310 | the scan of every line is `Rewrite`: each line under the delta of its nearest ROC line, one record per ROC line |
| DacRewrite.RewriteSucceeds | analysisCalibFuncs.py:289-310 | a file is rewritten exactly when every line can be read |
| DacRewrite.RewriteFailsAt | analysisCalibFuncs.py:289-310 | a failed rewrite reports the error of the first unreadable line |
| DacRewrite.RewriteKeepsLines | analysisCalibFuncs.py:289-310 | same number of lines, and every line other than a VcThr line is written unchanged |
| DacRewrite.RewriteMovesVcThr | analysisCalibFuncs.py:302-307 | a VcThr line has an integer value, and its text is replaced by value + the delta in force |
| DacRewrite.DeltaAtNearestRoc | analysisCalibFuncs.py:287-298 | the delta in force is the one chosen on the nearest preceding ROC line |
| DacRewrite.DeltaAtBeforeAnyRoc | analysisCalibFuncs.py:287 | before a file's first ROC line the delta is 0 |
| DacRewrite.VcThrLineTokens | analysisCalibFuncs.py:302-303 | a `VcThr <n>` line is a VcThr line whose value parses as n |
| DacRewrite.ReplaceVcThrValue | analysisCalibFuncs.py:307 | replacing n's text in `VcThr <n>` gives `VcThr <m>` |
| DacRewrite.RewriteVcThrLine | analysisCalibFuncs.py:302-307 | a well-formed `VcThr n` line becomes `VcThr n+d`, d the delta in force |
| DacRewrite.RecordsConcat | analysisCalibFuncs.py:300 | the records of consecutive files are concatenated |
| DacRewrite.RocNamesConcat | analysisCalibFuncs.py:290-300 | the ROC lines of two pieces of a file, one after the other |
| DacRewrite.RocNamesAreWords | analysisCalibFuncs.py:292 | the ROC names of a readable file are single tokens |
| DacRewrite.HeldNamesOfDeltas | analysisCalibFuncs.py:293-300 | the names recorded with 0 or -4 are exactly the ROCs held or failing |
| DacRewrite.NextMinimised | analysisCalibFuncs.py:229-235 | reading the records back gives the held-or-failing ROCs except the first ROC recorded |
| DacRewrite.RewriteAllPrefixErr | analysisCalibFuncs.py:282-284 | an error in the first files is the error of the whole batch |
| DacRewrite.RewriteDacFiles | analysisCalibFuncs.py:282-310 | the file loop computes `RewriteAll`, with the records of all files in order |
| DacRewrite.RewriteAllKeys | analysisCalibFuncs.py:282-284 | exactly the listed module files are written, each found in the original directory |
| DacRewrite.RewriteAllFiles | analysisCalibFuncs.py:282-310 | each written file is the rewrite of the original file of that name |
| DacRewrite.RewriteAllFile | analysisCalibFuncs.py:282-310 | a listed module file is in the original directory, and the file written for it is its rewrite |
| DacRewrite.CreateNewDacSettings | analysisCalibFuncs.py:254-344 | `createNewDACsettings` computes `NewDacSettings`: the steps in source order, the first error wins |
| DacRewrite.NewDacSettingsSteps | analysisCalibFuncs.py:254-310 | a successful iteration passed every step, and its result is made of those steps' values |
| DacRewrite.NewSettingsFreshId | analysisCalibFuncs.py:262-266 | the new dac id is not taken and exceeds every existing one |
| DacRewrite.NewDirectoryReplaces | analysisCalibFuncs.py:334-337 | copying rewritten `.dat` files over the copy of the original replaces them and keeps the rest |
| DacRewrite.NewDirectoryOfBatch | analysisCalibFuncs.py:271-337 | the new directory holds the original's files, the module files replaced by their rewrites |
| DacRewrite.NewSettingsDirectory | analysisCalibFuncs.py:270-337 | the new dac directory is the run's dac directory with each module file replaced by its rewrite |
| DacRewrite.NextIterationHeld | analysisCalibFuncs.py:254-300 | the next iteration holds exactly the held-or-failing ROCs met, except the first recorded |
| DacRewrite.MinimisedAfter | analysisCalibFuncs.py:229-235 | the next iteration reads its held list from the records written: the held-or-failing ROCs except the first |
| InitRewrite.ProcessInitLine | analysisCalibFuncs.py:376-382 | the branch chain of one line computes `InitLine` and the new pending value |
| InitRewrite.InitDacFile | analysisCalibFuncs.py:372-384 | the line loop of one file computes `InitFile` |
| InitRewrite.InitStep | analysisCalibFuncs.py:376-382 | one line read under the pending value either gives the error of the whole file or extends the rewritten prefix and moves the pending value on |
| InitRewrite.InitNextLine | analysisCalibFuncs.py:373-382 | one iteration of the line loop keeps the rewritten prefix and the pending value in step with `InitFile` |
| InitRewrite.InitAt | analysisCalibFuncs.py:373-384 | each output line is its input line under the pending value |
| InitRewrite.InitSucceeds | analysisCalibFuncs.py:373-384 | a file is rewritten exactly when every line can be read under its pending value |
| InitRewrite.InitKeepsLines | analysisCalibFuncs.py:373-384 | same number of lines; only VcThr lines read while a value is pending can change |
| InitRewrite.PendingAfterMappedRoc | analysisCalibFuncs.py:376-378 | after a mapped ROC line, up to the next ROC or VcThr line, the pending value is the ROC's value minus 2 |
| InitRewrite.PendingCleared | analysisCalibFuncs.py:372-382 | at a file's start and after a VcThr line nothing is pending until a mapped ROC line |
| InitRewrite.PendingSurvivesUnmappedRoc | analysisCalibFuncs.py:376-378 | an unmapped ROC line neither sets nor clears the pending value |
| InitRewrite.PendingKept | analysisCalibFuncs.py:372-382 | lines that are neither ROC nor VcThr lines leave the pending value as it is |
| InitRewrite.PendingPastUnmappedRoc | analysisCalibFuncs.py:372-382 | a mapped ROC's value minus 2 is still pending after a following unmapped ROC line, up to the next ROC or VcThr line |
| InitRewrite.UnmappedRocTakesEarlierValue | analysisCalibFuncs.py:372-382 | the VcThr line of an unmapped ROC that follows a mapped one is set to the mapped ROC's value minus 2 |
| InitRewrite.InitVcThrLine | analysisCalibFuncs.py:380-382 | a `VcThr n` line becomes `VcThr p` for a pending p other than 0, and is kept otherwise |
| InitRewrite.InitFromFitReport | analysisCalibFuncs.py:367-382 | a ROC's first VcThr line after its ROC line becomes its lowest threshold minus 2, unless that threshold is 2 |
| InitRewrite.PendingFromFitReport | analysisCalibFuncs.py:376-378 | after the ROC line of a ROC of the fit report, the pending value is its lowest threshold minus 2 |
| InitRewrite.RocDacFiles | analysisCalibFuncs.py:366 | only listed names starting with ROC_DAC are kept |
| InitRewrite.InitAllPrefixErr | analysisCalibFuncs.py:369-371 | an error in the first files is the error of the whole batch |
| InitRewrite.InitDacFiles | analysisCalibFuncs.py:369-384 | the file loop computes `InitAll` |
| InitRewrite.InitAllKeys | analysisCalibFuncs.py:369-371 | exactly the listed files are written, each found in the directory |
| InitRewrite.InitAllFiles | analysisCalibFuncs.py:369-384 | each written file is the initial rewrite of the original file of that name |
| InitRewrite.InitThresholdMinimization | analysisCalibFuncs.py:349-388 | `initThresholdMinimizationSCurve` computes `InitThresholds`, in source order |
| InitRewrite.InitThresholdsSteps | analysisCalibFuncs.py:349-388 | a successful run passed every step, the run's dac directory exists, and its result is made of those steps' values |
| InitRewrite.InitFileErrors | analysisCalibFuncs.py:372-384 | reading one DAC file fails only with IndexError or ValueError |
| InitRewrite.InitAllOfFound | analysisCalibFuncs.py:366-384 | when every listed file is in the directory, the batch fails only by reading a file |
| InitRewrite.InitMisses | analysisCalibFuncs.py:349-384 | with the listing of the run's dac directory, the only missing files are that directory and the fit report |
| InitRewrite.InitFreshId | analysisCalibFuncs.py:352-356 | the new dac id is not taken and exceeds every existing one |
| InitRewrite.NewDirectoryOfInit | analysisCalibFuncs.py:361-388 | the `*.dat` copy: rewritten `.dat` files replace the originals, everything else is kept |
| InitRewrite.InitDirectory | analysisCalibFuncs.py:360-388 | the new dac directory is the run's with each listed `.dat` file replaced by its rewrite |
| ThresholdCheck.CheckRocThr | analysisCalibFuncs.py:146-174 | the key loop of `checkROCthr` computes `CheckedFile`: header or old content, then one record per failing threshold histogram |
| ThresholdCheck.CheckKey | analysisCalibFuncs.py:157-167 | a key yields its record exactly when it is a threshold histogram with a low mean or too many pixels out of range |
| ThresholdCheck.FailedRecordsConcat | analysisCalibFuncs.py:157-167 | the records of consecutive keys are concatenated |
| ThresholdCheck.CheckedFileAppends | analysisCalibFuncs.py:148-155 | a second check at an iteration appends, as one check of all keys would |
| ThresholdCheck.FreshFileJoin | analysisCalibFuncs.py:148-167 | a new failed file is the rule, the titles, the rule and the records, joined by newlines |
| ThresholdCheck.ReadFreshFile | analysisCalibFuncs.py:454 | reading a new failed file back gives those lines |
| ThresholdCheck.FailedFileRoundTrip | analysisCalibFuncs.py:446-459 | `getFailingRocs` on a new failed file gives the reported ROCs named BPix* or FPix*, in key order |
| ThresholdCheck.FreshHeadsRocs | analysisCalibFuncs.py:446-459 | among the first tokens of a new failed file, the BPix or FPix names are the failing ROCs in key order |
| ThresholdCheck.CheckFeedsRewrite | analysisCalibFuncs.py:278 | the ROCs the check reports are the ones the DAC rewrite of that iteration treats as failing |
| Strings.ReadLinesOfJoin | analysisCalibFuncs.py:454 | `readlines()` of lines joined by newlines gives them back, each but the last with its newline |
| Strings.ParseIntToString | analysisCalibFuncs.py:303-307 | `int(str(n)) == n` |
| Strings.ParseIntOfDigits | analysisCalibFuncs.py:303 | `int()` of a digit string is its decimal value |
| Strings.ParseNegativeToString | analysisCalibFuncs.py:303-307 | `int(str(n)) == n` for a negative n |
| Strings.JoinSplit | analysisCalibFuncs.py:244-245 | `sep.join(s.split(sep)) == s` |

## Left out

- File-system effects are not modelled. There are no `makedirs`, `cp` or
  `shutil.copy` calls, no `os.walk` and no `PixelConfigDBCmd.exe` alias
  command. The dac directories are a map. The new directory is the
  original map with the rewritten `.dat` files laid over it.
- The staging copy under `ThresholdMinimization/dac/<id>` is not modelled.
  Only the final dac directory is.
- An `OSError` from `makedirs` when a directory already exists is not
  modelled.
- Environment variables (`PIXELCONFIGURATIONBASE`, `HOME`) and the
  absolute paths built from them are left out. Files are found by their
  relative names.
- Console prints and the summary counts of lines 321-330 have no effect
  on any file and are left out.
- An `IOError` on the key file makes the source print and return 0.
  Nothing is then done (`dac != 0` fails). The model takes the key file
  as given. It uses no `dac != 0` test, because a dac found in the
  database is a string, which always differs from 0.
- Output written before an exception stops a loop is not modelled. An
  error returns no files.
- `int()` of the dac directory names is left out. The ids are taken as
  integers.
- The order `os.listdir` returns is an input. So is the order of the ROOT
  directory's keys.
- `InitRewrite.InitThresholds` takes the listing as an input and does not
  tie it to the run's dac directory, so it also accepts a listing that
  names files the directory lacks (then `MissingFile`). `InitMisses` shows
  that a listing of the directory (`ListsDirectory`) never gives that.
  The missing dac directory is `MissingFile` of the dac id, where the
  source's `os.listdir` raises OSError.
- `InitRewrite.InitDirectory` takes every rewritten file as complete when
  `*.dat` is copied. The source never closes its output files
  (`newdacfile` at line 370), so the last file written may still be
  partly in its write buffer when `cp` copies it. The DAC rewrite closes
  each file first (line 312).
- `DacRewrite.Failing`: a failed file that cannot be opened is
  `MissingFile` before any file is rewritten. In the source,
  `getFailingRocs` prints and returns None, which fails later, at the
  first ROC line not held.
- `InitRewrite.InitThresholds`: a missing fit report is `MissingFile`
  before any file is read. In the source, `initDacSettings` returns None,
  which fails at the first ROC line.
- `DacRewrite.NewDacSettings` models the delta file in append mode as its
  earlier lines followed by the new records. That matches `readlines()`
  when the earlier content ends in a newline, as content written by this
  function does.
- ROOT is not modelled:
  - the histogram mean, RMS and integrals of `checkROCthr`, which are
    inputs of `ThresholdCheck.Histogram`
  - the `%.2f` texts
  - the fits of `fitVcalVcThr`, other than the line format of its report
  - `RunSCurveSmartRangeAnalysis`
  - `readHistoInfo`
  - the `browse*` functions of `browseCalibFiles.py`
  - plots
- `ThresholdCheck.FailedFileRoundTrip` covers a file the check creates.
  Reading a file with an earlier content is covered only through
  `CheckedFileAppends`.
- Python's Unicode whitespace for `split()` is not modelled. Only the
  ASCII whitespace characters count.
