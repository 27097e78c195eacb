/** The first step of the threshold minimisation
    (`initThresholdMinimizationSCurve`): every ROC found in the Vcal/VcThr
    fit report gets as VcThr its lowest allowed threshold minus 2. */
module InitRewrite {
  import opened Outcome
  import opened Strings
  import opened CalibLists
  import opened KeyDatabase
  import opened DacIds
  import opened DacRewrite

  /** Offset added to a ROC's lowest threshold. */
  const InitDelta := -2

  /** The VcThr value a ROC line sets pending: the ROC's value from the map
      plus the offset; 0 when the ROC is not mapped or its value is not an
      integer (a case in which the rewrite fails). */
  function MappedValue(dacs: map<string, string>, roc: string): int {
    if roc in dacs && ParseInt(dacs[roc]).Some? then ParseInt(dacs[roc]).value + InitDelta else 0
  }

  /** The pending value when line i is read: set by a mapped ROC line, kept
      across unmapped ROC lines and other lines, reset to 0 by every VcThr
      line and at the start of every file. */
  function PendingAt(lines: seq<string>, i: nat, dacs: map<string, string>): int
    requires i <= |lines|
  {
    if i == 0 then 0 else NextPending(lines[i - 1], PendingAt(lines, i - 1, dacs), dacs)
  }

  /** The pending value after reading line l. */
  function NextPending(l: string, pending: int, dacs: map<string, string>): int {
    if IsRocLine(l) && Token(l, 1) in dacs then MappedValue(dacs, Token(l, 1))
    else if IsVcThrLine(l) then 0
    else pending
  }

  /** A line the loop can handle under the pending value: a ROC line has a
      name whose mapped value, if any, is an integer; a VcThr line read
      while a value is pending has a value token. */
  predicate InitLineReadable(l: string, pending: int, dacs: map<string, string>) {
    (IsRocLine(l) ==> |Words(l)| >= 2 && (Words(l)[1] in dacs ==> ParseInt(dacs[Words(l)[1]]).Some?)) &&
    (!IsRocLine(l) && IsVcThrLine(l) && pending != 0 ==> |Words(l)| >= 2)
  }

  /** One line under the pending value: a VcThr line read while a non-zero
      value is pending gets every occurrence of its value's text replaced by
      the pending value; every other line is kept. */
  function InitLine(l: string, pending: int, dacs: map<string, string>): Result<string> {
    if IsRocLine(l) then
      var ws := Words(l);
      if |ws| < 2 then Err(IndexError)
      else if ws[1] in dacs && ParseInt(dacs[ws[1]]).None? then Err(ValueError)
      else Ok(l)
    else if IsVcThrLine(l) && pending != 0 then
      var ws := Words(l);
      if |ws| < 2 then Err(IndexError) else Ok(ReplaceAll(l, ws[1], IntToString(pending)))
    else Ok(l)
  }

  /** A line fails exactly when it cannot be read. A line is kept unless it
      is a VcThr line read while a non-zero value is pending, and such a
      line has its value's text replaced by the pending value. */
  lemma InitLineMeaning(l: string, pending: int, dacs: map<string, string>)
    ensures InitLine(l, pending, dacs).Ok? <==> InitLineReadable(l, pending, dacs)
    ensures InitLine(l, pending, dacs).Ok? && !(IsVcThrLine(l) && pending != 0) ==> InitLine(l, pending, dacs).value == l
    ensures InitLine(l, pending, dacs).Ok? && IsVcThrLine(l) && pending != 0 ==>
      InitLine(l, pending, dacs).value == ReplaceAll(l, Token(l, 1), IntToString(pending))
  {
    if IsVcThrLine(l) {
      assert !IsRocLine(l) by { assert l[0] == 'V'; }
    }
  }

  function InitLineResults(lines: seq<string>, dacs: map<string, string>): seq<Result<string>> {
    seq(|lines|, i requires 0 <= i < |lines| => InitLine(lines[i], PendingAt(lines, i, dacs), dacs))
  }

  /** The initial rewrite of one DAC file, stopping at the first line that
      cannot be read. */
  function InitFile(lines: seq<string>, dacs: map<string, string>): Result<seq<string>> {
    Collect(InitLineResults(lines, dacs))
  }

  /** Lines 376-382 of analysisCalibFuncs.py: one line read under the pending value;
      returns the line to write and the new pending value. */
  method ProcessInitLine(line: string, pending: int, dacs: map<string, string>) returns (r: Result<string>, newPending: int)
    ensures r == InitLine(line, pending, dacs)
    ensures r.Ok? ==> newPending == NextPending(line, pending, dacs)
  {
    newPending := pending;
    r := Ok(line);
    if StartsWith(line, "ROC") {
      var ws := Words(line);
      if |ws| < 2 {
        return Err(IndexError), pending;
      }
      if ws[1] in dacs {
        var parsed := ParseInt(dacs[ws[1]]);
        if parsed.None? {
          return Err(ValueError), pending;
        }
        newPending := parsed.value + InitDelta;
      }
    } else if StartsWith(line, "VcThr") {
      if newPending != 0 {
        var ws := Words(line);
        if |ws| < 2 {
          return Err(IndexError), pending;
        }
        r := Ok(ReplaceAll(line, ws[1], IntToString(newPending)));
      }
      newPending := 0;
    }
  }

  /** One line of the loop: a line that cannot be read decides the
      file's error; otherwise it extends the rewritten prefix and moves the
      pending value on. */
  lemma InitStep(lines: seq<string>, i: nat, dacs: map<string, string>, out: seq<string>, line: Result<string>, next: int)
    requires i < |lines| && Collect(InitLineResults(lines, dacs)[..i]) == Ok(out)
    requires line == InitLine(lines[i], PendingAt(lines, i, dacs), dacs)
    requires line.Ok? ==> next == NextPending(lines[i], PendingAt(lines, i, dacs), dacs)
    ensures line.Err? ==> InitFile(lines, dacs) == Err(line.error)
    ensures line.Ok? ==> next == PendingAt(lines, i + 1, dacs)
    ensures line.Ok? ==> Collect(InitLineResults(lines, dacs)[..i + 1]) == Ok(out + [line.value])
  {
    var rs := InitLineResults(lines, dacs);
    assert rs[i] == line;
    if line.Err? {
      CollectPrefixErr(rs, i, out);
    } else {
      CollectPrefixOk(rs, i, out);
    }
  }

  /** The first i lines are rewritten as out, and p is the value pending
      after them. */
  predicate InitPrefix(lines: seq<string>, dacs: map<string, string>, i: nat, p: int, out: seq<string>)
    requires i <= |lines|
  {
    p == PendingAt(lines, i, dacs) && Collect(InitLineResults(lines, dacs)[..i]) == Ok(out)
  }

  /** Lines 376-382 of analysisCalibFuncs.py as one loop iteration: line i
      either decides the file's error or extends the rewritten prefix. */
  method InitNextLine(lines: seq<string>, i: nat, dacs: map<string, string>, out: seq<string>, p: int)
    returns (line: Result<string>, next: int)
    requires i < |lines| && InitPrefix(lines, dacs, i, p, out)
    ensures line.Err? ==> InitFile(lines, dacs) == Err(line.error)
    ensures line.Ok? ==> InitPrefix(lines, dacs, i + 1, next, out + [line.value])
  {
    line, next := ProcessInitLine(lines[i], p, dacs);
    InitStep(lines, i, dacs, out, line, next);
  }

  /** Lines 372-384 of analysisCalibFuncs.py: read one DAC file line by line, carrying
      the pending VcThr value. */
  method InitDacFile(lines: seq<string>, dacs: map<string, string>) returns (r: Result<seq<string>>)
    ensures r == InitFile(lines, dacs)
  {
    var out: seq<string> := [];
    var newVcThr := 0;
    var i := 0;
    assert InitLineResults(lines, dacs)[..0] == [];
    while i < |lines|
      invariant 0 <= i <= |lines|
      invariant InitPrefix(lines, dacs, i, newVcThr, out)
    {
      var line, pending := InitNextLine(lines, i, dacs, out, newVcThr);
      if line.Err? {
        return Err(line.error);
      }
      out := out + [line.value];
      newVcThr := pending;
      i := i + 1;
    }
    assert InitLineResults(lines, dacs)[..i] == InitLineResults(lines, dacs);
    r := Ok(out);
  }

  // ---------------------------------------------------------------------
  // Properties of one file's initial rewrite

  /** Line i of a successful rewrite is that line under the pending value. */
  lemma InitAt(lines: seq<string>, i: nat, dacs: map<string, string>)
    requires InitFile(lines, dacs).Ok? && i < |lines|
    ensures |InitFile(lines, dacs).value| == |lines|
    ensures InitLine(lines[i], PendingAt(lines, i, dacs), dacs) == Ok(InitFile(lines, dacs).value[i])
  {
    var rs := InitLineResults(lines, dacs);
    assert rs[i] == InitLine(lines[i], PendingAt(lines, i, dacs), dacs);
  }

  /** The rewrite succeeds exactly when every line can be read under the
      value pending when it is read. */
  lemma InitSucceeds(lines: seq<string>, dacs: map<string, string>)
    ensures InitFile(lines, dacs).Ok? <==>
      forall i :: 0 <= i < |lines| ==> InitLineReadable(lines[i], PendingAt(lines, i, dacs), dacs)
  {
    var rs := InitLineResults(lines, dacs);
    forall i | 0 <= i < |lines| ensures (rs[i].Ok? <==> InitLineReadable(lines[i], PendingAt(lines, i, dacs), dacs)) {
      InitLineMeaning(lines[i], PendingAt(lines, i, dacs), dacs);
    }
  }

  /** Same number of lines; only VcThr lines read while a value is pending
      can change. */
  lemma InitKeepsLines(lines: seq<string>, dacs: map<string, string>)
    requires InitFile(lines, dacs).Ok?
    ensures |InitFile(lines, dacs).value| == |lines|
    ensures forall i :: 0 <= i < |lines| && !(IsVcThrLine(lines[i]) && PendingAt(lines, i, dacs) != 0) ==>
      InitFile(lines, dacs).value[i] == lines[i]
  {
    var out := InitFile(lines, dacs).value;
    forall i | 0 <= i < |lines| && !(IsVcThrLine(lines[i]) && PendingAt(lines, i, dacs) != 0) ensures out[i] == lines[i] {
      InitAt(lines, i, dacs);
      InitLineMeaning(lines[i], PendingAt(lines, i, dacs), dacs);
    }
  }

  /** After a mapped ROC line, with neither a ROC nor a VcThr line in
      between, the pending value is that ROC's value minus 2. */
  lemma {:induction false} PendingAfterMappedRoc(lines: seq<string>, j: nat, i: nat, dacs: map<string, string>, v: int)
    requires j < i <= |lines| && IsRocLine(lines[j])
    requires Token(lines[j], 1) in dacs && ParseInt(dacs[Token(lines[j], 1)]) == Some(v)
    requires forall k :: j < k < i ==> !IsRocLine(lines[k]) && !IsVcThrLine(lines[k])
    ensures PendingAt(lines, i, dacs) == v - 2
    decreases i
  {
    if i - 1 > j {
      PendingAfterMappedRoc(lines, j, i - 1, dacs, v);
    }
  }

  /** Nothing is pending at the start of a file or right after a VcThr line
      until a mapped ROC line is read: one ROC's value never reaches
      another ROC's VcThr line past a VcThr line. */
  lemma {:induction false} PendingCleared(lines: seq<string>, s: nat, i: nat, dacs: map<string, string>)
    requires s <= i <= |lines|
    requires s == 0 || IsVcThrLine(lines[s - 1])
    requires forall k :: s <= k < i ==> !(IsRocLine(lines[k]) && Token(lines[k], 1) in dacs)
    ensures PendingAt(lines, i, dacs) == 0
    decreases i
  {
    if i > s {
      PendingCleared(lines, s, i - 1, dacs);
    } else if s > 0 {
      assert !IsRocLine(lines[s - 1]) by { assert lines[s - 1][0] == 'V'; }
    }
  }

  /** An unmapped ROC line leaves the pending value as it is: it neither
      sets a value nor clears one. */
  lemma PendingSurvivesUnmappedRoc(lines: seq<string>, i: nat, dacs: map<string, string>)
    requires i < |lines| && IsRocLine(lines[i]) && Token(lines[i], 1) !in dacs
    ensures PendingAt(lines, i + 1, dacs) == PendingAt(lines, i, dacs)
  {
    assert !IsVcThrLine(lines[i]) by { assert lines[i][0] == 'R'; }
  }

  /** Lines that are neither ROC nor VcThr lines leave the pending value as
      it is. */
  lemma {:induction false} PendingKept(lines: seq<string>, s: nat, i: nat, dacs: map<string, string>)
    requires s <= i <= |lines|
    requires forall k :: s <= k < i ==> !IsRocLine(lines[k]) && !IsVcThrLine(lines[k])
    ensures PendingAt(lines, i, dacs) == PendingAt(lines, s, dacs)
    decreases i
  {
    if i > s {
      PendingKept(lines, s, i - 1, dacs);
    }
  }

  /** The value of a mapped ROC reaches the VcThr line of a following
      unmapped ROC: that ROC's VcThr is set to the earlier ROC's value
      minus 2, unless that value is 2. */
  lemma UnmappedRocTakesEarlierValue(lines: seq<string>, j: nat, k: nat, i: nat, n: int, eol: string,
                                     dacs: map<string, string>, v: int)
    requires InitFile(lines, dacs).Ok?
    requires j < k < i < |lines|
    requires IsRocLine(lines[j]) && Token(lines[j], 1) in dacs && ParseInt(dacs[Token(lines[j], 1)]) == Some(v)
    requires IsRocLine(lines[k]) && Token(lines[k], 1) !in dacs
    requires forall m :: j < m < i && m != k ==> !IsRocLine(lines[m]) && !IsVcThrLine(lines[m])
    requires lines[i] == VcThrLine(n, eol) && IsBlank(eol)
    ensures InitFile(lines, dacs).value[i] == if v != 2 then VcThrLine(v - 2, eol) else lines[i]
  {
    PendingPastUnmappedRoc(lines, j, k, i, dacs, v);
    InitVcThrLine(lines, i, n, eol, dacs);
  }

  /** The pending value of a mapped ROC survives a following unmapped ROC
      line up to the next ROC or VcThr line. */
  lemma PendingPastUnmappedRoc(lines: seq<string>, j: nat, k: nat, i: nat, dacs: map<string, string>, v: int)
    requires j < k < i <= |lines|
    requires IsRocLine(lines[j]) && Token(lines[j], 1) in dacs && ParseInt(dacs[Token(lines[j], 1)]) == Some(v)
    requires IsRocLine(lines[k]) && Token(lines[k], 1) !in dacs
    requires forall m :: j < m < i && m != k ==> !IsRocLine(lines[m]) && !IsVcThrLine(lines[m])
    ensures PendingAt(lines, i, dacs) == v - 2
  {
    PendingAfterMappedRoc(lines, j, k, dacs, v);
    PendingSurvivesUnmappedRoc(lines, k, dacs);
    PendingKept(lines, k + 1, i, dacs);
  }

  /** A well-formed `VcThr n` line becomes `VcThr p` when p is pending and
      not 0, and is kept when nothing is pending. */
  lemma InitVcThrLine(lines: seq<string>, i: nat, n: int, eol: string, dacs: map<string, string>)
    requires InitFile(lines, dacs).Ok?
    requires i < |lines| && lines[i] == VcThrLine(n, eol) && IsBlank(eol)
    ensures InitFile(lines, dacs).value[i] ==
      if PendingAt(lines, i, dacs) != 0 then VcThrLine(PendingAt(lines, i, dacs), eol) else lines[i]
  {
    InitAt(lines, i, dacs);
    VcThrLineTokens(n, eol);
    InitLineMeaning(lines[i], PendingAt(lines, i, dacs), dacs);
    ReplaceVcThrValue(n, PendingAt(lines, i, dacs), eol);
  }

  /** From the fit report to the DAC file: a ROC whose report line gives
      lowest threshold L (not overridden later in the report) has the first
      well-formed VcThr line after its ROC line set to L - 2; when L is 2
      the pending value is 0 and the line is left as it was. */
  lemma InitFromFitReport(report: seq<string>, r: nat, roc: string, a: string, b: string, chi2: string, lowest: int, reportEol: string,
                          lines: seq<string>, j: nat, i: nat, n: int, eol: string)
    requires InitDacSettings(report).Ok?
    requires IsWord(roc) && IsWord(a) && IsWord(b) && IsWord(chi2) && IsBlank(reportEol) && StartsWith(roc, "BPix")
    requires r < |report| && report[r] == FitReportLine(roc, a, b, chi2, lowest, reportEol)
    requires forall k :: r < k < |report| && IsMapLine(report[k]) ==> Token(report[k], 0) != roc
    requires InitFile(lines, InitDacSettings(report).value).Ok?
    requires j < i < |lines| && IsRocLine(lines[j]) && Token(lines[j], 1) == roc
    requires forall k :: j < k < i ==> !IsRocLine(lines[k]) && !IsVcThrLine(lines[k])
    requires lines[i] == VcThrLine(n, eol) && IsBlank(eol)
    ensures InitFile(lines, InitDacSettings(report).value).value[i] ==
      if lowest != 2 then VcThrLine(lowest - 2, eol) else lines[i]
  {
    var dacs := InitDacSettings(report).value;
    PendingFromFitReport(report, r, roc, a, b, chi2, lowest, reportEol, lines, j, i);
    InitVcThrLine(lines, i, n, eol, dacs);
  }

  /** The value pending at a VcThr line after the ROC line of a ROC from
      the fit report is that ROC's lowest threshold minus 2. */
  lemma PendingFromFitReport(report: seq<string>, r: nat, roc: string, a: string, b: string, chi2: string, lowest: int, reportEol: string,
                             lines: seq<string>, j: nat, i: nat)
    requires InitDacSettings(report).Ok?
    requires IsWord(roc) && IsWord(a) && IsWord(b) && IsWord(chi2) && IsBlank(reportEol) && StartsWith(roc, "BPix")
    requires r < |report| && report[r] == FitReportLine(roc, a, b, chi2, lowest, reportEol)
    requires forall k :: r < k < |report| && IsMapLine(report[k]) ==> Token(report[k], 0) != roc
    requires j < i < |lines| && IsRocLine(lines[j]) && Token(lines[j], 1) == roc
    requires forall k :: j < k < i ==> !IsRocLine(lines[k]) && !IsVcThrLine(lines[k])
    ensures PendingAt(lines, i, InitDacSettings(report).value) == lowest - 2
  {
    FitReportRoundTrip(report, r, roc, a, b, chi2, lowest, reportEol);
    PendingAfterMappedRoc(lines, j, i, InitDacSettings(report).value, lowest);
  }

  // ---------------------------------------------------------------------
  // All DAC files of the run's dac directory

  /** `os.listdir` filtered to the files whose name starts with ROC_DAC. */
  function RocDacFiles(listing: seq<string>): (r: seq<string>)
    ensures |r| <= |listing|
    ensures forall k :: 0 <= k < |r| ==> StartsWith(r[k], "ROC_DAC") && r[k] in listing
  {
    if listing == [] then []
    else
      var rest := RocDacFiles(listing[..|listing| - 1]);
      var last := listing[|listing| - 1];
      rest + (if StartsWith(last, "ROC_DAC") then [last] else [])
  }

  /** Every listed file is rewritten in order; a file that cannot be
      opened, or cannot be read, stops the rewrite. */
  function InitAll(names: seq<string>, dir: map<string, seq<string>>, dac: string, dacs: map<string, string>): Result<map<string, seq<string>>>
    decreases |names|
  {
    if names == [] then Ok(map[])
    else
      var before :- InitAll(names[..|names| - 1], dir, dac, dacs);
      var name := names[|names| - 1];
      if name !in dir then Err(MissingFile(DacFilePath(dac, name)))
      else
        var out :- InitFile(dir[name], dacs);
        Ok(before[name := out])
  }

  lemma {:induction false} InitAllPrefixErr(names: seq<string>, k: nat, dir: map<string, seq<string>>, dac: string, dacs: map<string, string>)
    requires k <= |names| && InitAll(names[..k], dir, dac, dacs).Err?
    ensures InitAll(names, dir, dac, dacs) == InitAll(names[..k], dir, dac, dacs)
    decreases |names| - k
  {
    if k == |names| {
      assert names[..k] == names;
    } else {
      var init := names[..|names| - 1];
      assert init[..k] == names[..k];
      InitAllPrefixErr(init, k, dir, dac, dacs);
    }
  }

  /** Lines 369-384 of analysisCalibFuncs.py: the loop over the ROC_DAC files. */
  method InitDacFiles(names: seq<string>, dir: map<string, seq<string>>, dac: string, dacs: map<string, string>)
    returns (r: Result<map<string, seq<string>>>)
    ensures r == InitAll(names, dir, dac, dacs)
  {
    var files: map<string, seq<string>> := map[];
    var k := 0;
    assert names[..0] == [];
    while k < |names|
      invariant 0 <= k <= |names|
      invariant InitAll(names[..k], dir, dac, dacs) == Ok(files)
    {
      var f := names[k];
      ghost var next := names[..k + 1];
      assert next[..k] == names[..k] && next[k] == f;
      if f !in dir {
        InitAllPrefixErr(names, k + 1, dir, dac, dacs);
        return Err(MissingFile(DacFilePath(dac, f)));
      }
      var out := InitDacFile(dir[f], dacs);
      if out.Err? {
        InitAllPrefixErr(names, k + 1, dir, dac, dacs);
        return Err(out.error);
      }
      files := files[f := out.value];
      k := k + 1;
    }
    assert names[..k] == names;
    r := Ok(files);
  }

  /** Exactly the listed files are written, each one found in the directory. */
  lemma {:induction false} InitAllKeys(names: seq<string>, dir: map<string, seq<string>>, dac: string, dacs: map<string, string>)
    requires InitAll(names, dir, dac, dacs).Ok?
    ensures forall name :: name in InitAll(names, dir, dac, dacs).value <==> name in names
    ensures forall name :: name in names ==> name in dir
    decreases |names|
  {
    if names != [] {
      var init := names[..|names| - 1];
      InitAllKeys(init, dir, dac, dacs);
      assert names == init + [names[|names| - 1]];
    }
  }

  /** Each listed file is written as its initial rewrite. */
  lemma {:induction false} InitAllFiles(names: seq<string>, dir: map<string, seq<string>>, dac: string, dacs: map<string, string>)
    requires InitAll(names, dir, dac, dacs).Ok?
    ensures forall name :: name in names ==> (name in dir && name in InitAll(names, dir, dac, dacs).value &&
      InitFile(dir[name], dacs).Ok? && InitAll(names, dir, dac, dacs).value[name] == InitFile(dir[name], dacs).value)
    decreases |names|
  {
    if names != [] {
      var init := names[..|names| - 1];
      InitAllFiles(init, dir, dac, dacs);
      assert names == init + [names[|names| - 1]];
    }
  }

  // ---------------------------------------------------------------------
  // initThresholdMinimizationSCurve

  /** What the initial step reads, given as values. */
  datatype InitInputs = InitInputs(
    keyFile: seq<string>,                             // <run>/PixelConfigurationKey.txt
    configurations: string,                           // configurations.txt
    dacIds: seq<int>,                                 // the names of the dac directories
    dacDirs: map<string, map<string, seq<string>>>,   // dac/<id>/<file>
    listing: seq<string>,                             // os.listdir of the run's dac directory
    fitReport: Option<seq<string>>)                   // mapRocVcalVcThr.txt, if present

  /** What it produces: the new dac id, the rewritten files and the new dac
      directory. */
  datatype InitSettings = InitSettings(id: int, files: map<string, seq<string>>, directory: map<string, seq<string>>)

  const FitReportFile := "mapRocVcalVcThr.txt"

  /** `initThresholdMinimizationSCurve`, steps in the order the source
      takes them: dac id of the run, new dac id, the ROC_DAC files of the
      run's dac directory (`os.listdir` fails when it does not exist), the
      ROC map, then the rewrite of every file. */
  function InitThresholds(inputs: InitInputs): Result<InitSettings> {
    var dac :- FromPath(inputs.keyFile, inputs.configurations, "dac");
    var id :- NewDacId(inputs.dacIds);
    if dac !in inputs.dacDirs then Err(MissingFile(dac))
    else
      var original := DacDir(inputs.dacDirs, dac);
      var files := RocDacFiles(inputs.listing);
      if inputs.fitReport.None? then Err(MissingFile(FitReportFile))
      else
        var dacs :- InitDacSettings(inputs.fitReport.value);
        var rewritten :- InitAll(files, original, dac, dacs);
        Ok(InitSettings(id, rewritten, NewDirectory(original, rewritten)))
  }

  /** The listing is what `os.listdir` gives for the directory: each of its
      file names once, and nothing else. */
  predicate ListsDirectory(listing: seq<string>, dir: map<string, seq<string>>) {
    (forall k :: 0 <= k < |listing| ==> listing[k] in dir) &&
    (forall name :: name in dir ==> name in listing) &&
    (forall j, k :: 0 <= j < k < |listing| ==> listing[j] != listing[k])
  }

  /** The initial rewrite of one file fails only by reading it: IndexError
      or ValueError. */
  lemma InitFileErrors(lines: seq<string>, dacs: map<string, string>)
    requires InitFile(lines, dacs).Err?
    ensures InitFile(lines, dacs).error == IndexError || InitFile(lines, dacs).error == ValueError
  {
    var rs := InitLineResults(lines, dacs);
    var i :| 0 <= i < |rs| && rs[i] == Err(InitFile(lines, dacs).error);
    assert rs[i] == InitLine(lines[i], PendingAt(lines, i, dacs), dacs);
  }

  /** When every listed file is in the directory, no file is missing: the
      batch fails only by reading a file. */
  lemma {:induction false} InitAllOfFound(names: seq<string>, dir: map<string, seq<string>>, dac: string, dacs: map<string, string>)
    requires forall k :: 0 <= k < |names| ==> names[k] in dir
    requires InitAll(names, dir, dac, dacs).Err?
    ensures InitAll(names, dir, dac, dacs).error == IndexError || InitAll(names, dir, dac, dacs).error == ValueError
    decreases |names|
  {
    var init := names[..|names| - 1];
    var name := names[|names| - 1];
    if InitAll(init, dir, dac, dacs).Err? {
      InitAllOfFound(init, dir, dac, dacs);
    } else {
      InitFileErrors(dir[name], dacs);
    }
  }

  /** With the listing of the run's dac directory, the only files the
      initial step can miss are the dac directory itself and the fit
      report. */
  lemma InitMisses(inputs: InitInputs)
    requires FromPath(inputs.keyFile, inputs.configurations, "dac").Ok?
    requires ListsDirectory(inputs.listing, DacDir(inputs.dacDirs, FromPath(inputs.keyFile, inputs.configurations, "dac").value))
    requires InitThresholds(inputs).Err? && InitThresholds(inputs).error.MissingFile?
    ensures InitThresholds(inputs).error == MissingFile(FromPath(inputs.keyFile, inputs.configurations, "dac").value) ||
      InitThresholds(inputs).error == MissingFile(FitReportFile)
  {
    var dac := FromPath(inputs.keyFile, inputs.configurations, "dac").value;
    var files := RocDacFiles(inputs.listing);
    if dac in inputs.dacDirs && NewDacId(inputs.dacIds).Ok? && inputs.fitReport.Some? && InitDacSettings(inputs.fitReport.value).Ok? {
      var dacs := InitDacSettings(inputs.fitReport.value).value;
      assert forall k :: 0 <= k < |files| ==> files[k] in inputs.listing;
      InitAllOfFound(files, DacDir(inputs.dacDirs, dac), dac, dacs);
    }
  }

  /** Lines 349-388 of analysisCalibFuncs.py, with the file system replaced by the
      inputs and outputs above. */
  method InitThresholdMinimization(inputs: InitInputs) returns (r: Result<InitSettings>)
    ensures r == InitThresholds(inputs)
  {
    var dac :- FindDacFromPath(inputs.keyFile, inputs.configurations);
    var newsettings :- NewDacId(inputs.dacIds);
    if dac !in inputs.dacDirs {
      return Err(MissingFile(dac));
    }
    var original := DacDir(inputs.dacDirs, dac);
    var files := RocDacFiles(inputs.listing);
    if inputs.fitReport.None? {
      return Err(MissingFile(FitReportFile));
    }
    var initDacs :- InitDacSettings(inputs.fitReport.value);
    var rewritten :- InitDacFiles(files, original, dac, initDacs);
    return Ok(InitSettings(newsettings, rewritten, NewDirectory(original, rewritten)));
  }

  /** A successful initial step passed every step. */
  lemma InitThresholdsSteps(inputs: InitInputs)
    requires InitThresholds(inputs).Ok?
    ensures FromPath(inputs.keyFile, inputs.configurations, "dac").Ok?
    ensures NewDacId(inputs.dacIds).Ok?
    ensures FromPath(inputs.keyFile, inputs.configurations, "dac").value in inputs.dacDirs
    ensures inputs.fitReport.Some? && InitDacSettings(inputs.fitReport.value).Ok?
    ensures var dac := FromPath(inputs.keyFile, inputs.configurations, "dac").value;
      var all := InitAll(RocDacFiles(inputs.listing), DacDir(inputs.dacDirs, dac), dac, InitDacSettings(inputs.fitReport.value).value);
      all.Ok? &&
      InitThresholds(inputs).value == InitSettings(NewDacId(inputs.dacIds).value, all.value, NewDirectory(DacDir(inputs.dacDirs, dac), all.value))
  {
  }

  /** The new dac id is not taken and exceeds every existing one. */
  lemma InitFreshId(inputs: InitInputs)
    requires InitThresholds(inputs).Ok?
    ensures InitThresholds(inputs).value.id !in inputs.dacIds
    ensures forall i :: 0 <= i < |inputs.dacIds| ==> inputs.dacIds[i] < InitThresholds(inputs).value.id
  {
    InitThresholdsSteps(inputs);
    NewDacIdFresh(inputs.dacIds);
  }

  /** The copy of `*.dat` into the new dac directory: a rewritten file
      whose name ends in `.dat` replaces the original, everything else of
      the original stays. */
  lemma NewDirectoryOfInit(names: seq<string>, original: map<string, seq<string>>, dac: string, dacs: map<string, string>)
    requires InitAll(names, original, dac, dacs).Ok?
    ensures var files := InitAll(names, original, dac, dacs).value;
      var d := NewDirectory(original, files);
      (forall name :: name in files <==> name in names) &&
      (forall name :: name in d <==> name in original) &&
      (forall name :: name in names && EndsWith(name, ".dat") ==> (name in files && name in d && d[name] == files[name])) &&
      (forall name :: name in original && !(name in names && EndsWith(name, ".dat")) ==> d[name] == original[name])
  {
    InitAllKeys(names, original, dac, dacs);
  }

  /** The new dac directory: each listed ROC_DAC file whose name ends in
      `.dat` replaced by its rewritten version, every other file copied
      unchanged. A listed file without that suffix is rewritten but not
      copied. */
  lemma InitDirectory(inputs: InitInputs)
    requires InitThresholds(inputs).Ok?
    ensures var s := InitThresholds(inputs).value;
      var original := DacDir(inputs.dacDirs, FromPath(inputs.keyFile, inputs.configurations, "dac").value);
      var files := RocDacFiles(inputs.listing);
      (forall name :: name in s.files <==> name in files) &&
      (forall name :: name in s.directory <==> name in original) &&
      (forall name :: name in files && EndsWith(name, ".dat") ==>
        (name in s.files && name in s.directory && s.directory[name] == s.files[name])) &&
      (forall name :: name in original && !(name in files && EndsWith(name, ".dat")) ==> s.directory[name] == original[name])
  {
    InitThresholdsSteps(inputs);
    var s := InitThresholds(inputs).value;
    var dac := FromPath(inputs.keyFile, inputs.configurations, "dac").value;
    var original := DacDir(inputs.dacDirs, dac);
    var files := RocDacFiles(inputs.listing);
    var dacs := InitDacSettings(inputs.fitReport.value).value;
    assert s.files == InitAll(files, original, dac, dacs).value;
    assert s.directory == NewDirectory(original, s.files);
    NewDirectoryOfInit(files, original, dac, dacs);
  }
}
