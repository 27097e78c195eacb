/** Readers of the flat text files that feed one threshold-minimisation
    iteration: the detector configuration list, the previous iteration's
    delta file, the list of failing ROCs and the Vcal/VcThr fit report. Each
    file is given as the list of lines `readlines()` returns. */
module CalibLists {
  import opened Outcome
  import opened Strings

  /** Token k of a line (`line.split()[k]`), or "" when the line is shorter;
      callers check the length first wherever Python would raise. */
  function Token(l: string, k: nat): string {
    var ws := Words(l);
    if k < |ws| then ws[k] else ""
  }

  // ---------------------------------------------------------------------
  // listFromFile

  /** `listFromFile`: every line after the first, with each " \n" removed. */
  function ListFromFile(lines: seq<string>): (r: seq<string>)
    ensures |r| == if lines == [] then 0 else |lines| - 1
  {
    if lines == [] then []
    else seq(|lines| - 1, i requires 0 <= i < |lines| - 1 => ReplaceAll(lines[i + 1], " \n", ""))
  }

  /** A line made of a token followed by " \n" comes back as the bare token. */
  lemma StripPaddedWord(w: string)
    requires IsWord(w)
    ensures ReplaceAll(w + " \n", " \n", "") == w
  {
    ReplaceSingle(w, " \n", "", "");
    assert w + " \n" + "" == w + " \n";
    assert w + "" + "" == w;
  }

  /** Below a header line, a file of `<entry> \n` lines lists its entries. */
  lemma ListFromFileOfPaddedWords(header: string, entries: seq<string>)
    requires forall i :: 0 <= i < |entries| ==> IsWord(entries[i])
    ensures ListFromFile([header] + seq(|entries|, i requires 0 <= i < |entries| => entries[i] + " \n")) == entries
  {
    var lines := [header] + seq(|entries|, i requires 0 <= i < |entries| => entries[i] + " \n");
    var r := ListFromFile(lines);
    forall i | 0 <= i < |entries| ensures r[i] == entries[i] {
      assert lines[i + 1] == entries[i] + " \n";
      StripPaddedWord(entries[i]);
    }
  }

  // ---------------------------------------------------------------------
  // The delta file: one `<roc> <delta>` line per ROC line of the DAC files

  /** The line `'%s %d\n' % (rocname, delta)` that records a ROC's delta. */
  function DeltaRecord(name: string, delta: int): string {
    name + " " + IntToString(delta) + "\n"
  }

  /** The names, in order, of the lines whose second token is "0" or "-4";
      a line with fewer than two tokens raises IndexError. */
  function DeltaNames(lines: seq<string>): (r: Result<seq<string>>)
    ensures r.Ok? <==> forall i :: 0 <= i < |lines| ==> |Words(ReplaceAll(lines[i], " \n", ""))| >= 2
    ensures r.Err? ==> r.error == IndexError
    ensures r.Ok? ==> |r.value| <= |lines|
  {
    if lines == [] then Ok([])
    else
      var ws := Words(ReplaceAll(lines[0], " \n", ""));
      if |ws| < 2 then Err(IndexError)
      else
        var rest :- DeltaNames(lines[1..]);
        assert forall i :: 0 < i < |lines| ==> lines[i] == lines[1..][i - 1];
        Ok((if ws[1] == "0" || ws[1] == "-4" then [ws[0]] else []) + rest)
  }

  /** `listFromDeltaFile`: the ROCs whose delta was 0 or -4, read from every
      line after the first. The first line is skipped as a header although
      the delta file is written without one. */
  function ListFromDeltaFile(lines: seq<string>): Result<seq<string>> {
    if lines == [] then Ok([]) else DeltaNames(lines[1..])
  }

  /** The ROCs whose recorded delta was 0 or -4, in order: what the next
      iteration treats as already minimised. */
  function HeldNames(names: seq<string>, deltas: seq<int>): seq<string>
    requires |names| == |deltas|
  {
    if names == [] then []
    else (if deltas[0] == 0 || deltas[0] == -4 then [names[0]] else []) + HeldNames(names[1..], deltas[1..])
  }

  /** A record line holds no " \n": the only newline follows a digit. */
  lemma DeltaRecordUnpadded(name: string, delta: int)
    requires IsWord(name)
    ensures !Contains(DeltaRecord(name, delta), " \n")
  {
    var d := IntToString(delta);
    var w := name + " " + d;
    var r := DeltaRecord(name, delta);
    assert r == w + "\n";
    assert forall k :: 0 <= k < |w| ==> w[k] != '\n' by {
      forall k | 0 <= k < |w| ensures w[k] != '\n' {
        if k < |name| { assert w[k] == name[k]; }
        else if k > |name| { assert w[k] == d[k - |name| - 1]; }
      }
    }
    forall i | 0 <= i <= |r| - 2 ensures !(" \n" <= r[i..]) {
      if i + 1 < |w| {
        assert r[i + 1] == w[i + 1];
      } else {
        assert r[i] == d[|d| - 1];
      }
    }
    if Contains(r, " \n") {
      ContainsAt(r, " \n");
    }
  }

  lemma DeltaRecordWords(name: string, delta: int)
    requires IsWord(name)
    ensures Words(ReplaceAll(DeltaRecord(name, delta), " \n", "")) == [name, IntToString(delta)]
  {
    DeltaRecordUnpadded(name, delta);
    ReplaceAbsent(DeltaRecord(name, delta), " \n", "");
    IntToStringIsWord(delta);
    WordsOfTwo(name, " ", IntToString(delta), "\n");
  }

  /** The token written for delta d is "0" exactly when d is 0, and "-4"
      exactly when d is -4. */
  lemma DeltaTokens(d: int)
    ensures IntToString(d) == "0" <==> d == 0
    ensures IntToString(d) == "-4" <==> d == -4
  {
    assert IntToString(0) == "0" by { assert NatToDigits(0) == [DigitChar(0)]; }
    assert IntToString(-4) == "-4" by { assert NatToDigits(4) == [DigitChar(4)]; }
    if IntToString(d) == "0" { IntToStringInjective(d, 0); }
    if IntToString(d) == "-4" { IntToStringInjective(d, -4); }
  }

  function DeltaRecords(names: seq<string>, deltas: seq<int>): seq<string>
    requires |names| == |deltas|
  {
    seq(|names|, i requires 0 <= i < |names| => DeltaRecord(names[i], deltas[i]))
  }

  lemma {:induction false} DeltaNamesOfRecords(names: seq<string>, deltas: seq<int>)
    requires |names| == |deltas|
    requires forall i :: 0 <= i < |names| ==> IsWord(names[i])
    ensures DeltaNames(DeltaRecords(names, deltas)) == Ok(HeldNames(names, deltas))
    decreases |names|
  {
    if names != [] {
      var lines := DeltaRecords(names, deltas);
      assert lines[0] == DeltaRecord(names[0], deltas[0]);
      DeltaRecordWords(names[0], deltas[0]);
      DeltaTokens(deltas[0]);
      assert lines[1..] == DeltaRecords(names[1..], deltas[1..]);
      DeltaNamesOfRecords(names[1..], deltas[1..]);
    }
  }

  /** Reading back a delta file written one record per ROC gives the ROCs
      whose delta was 0 or -4, except that the first record is always lost. */
  lemma DeltaFileRoundTrip(names: seq<string>, deltas: seq<int>)
    requires |names| == |deltas| && |names| > 0
    requires forall i :: 0 <= i < |names| ==> IsWord(names[i])
    ensures ListFromDeltaFile(DeltaRecords(names, deltas)) == Ok(HeldNames(names[1..], deltas[1..]))
  {
    assert DeltaRecords(names, deltas)[1..] == DeltaRecords(names[1..], deltas[1..]);
    DeltaNamesOfRecords(names[1..], deltas[1..]);
  }

  // ---------------------------------------------------------------------
  // getFailingRocs

  /** A line of the failed file that names a ROC. */
  predicate IsRocEntry(l: string) {
    StartsWith(l, "BPix") || StartsWith(l, "FPix")
  }

  /** The first token of each ROC line, in order. */
  function RocEntries(lines: seq<string>): (r: seq<string>)
    ensures |r| <= |lines|
    ensures forall x :: x in r <==> exists i :: 0 <= i < |lines| && IsRocEntry(lines[i]) && Token(lines[i], 0) == x
  {
    if lines == [] then []
    else
      var rest := RocEntries(lines[1..]);
      assert forall i :: 0 < i < |lines| ==> lines[i] == lines[1..][i - 1];
      (if IsRocEntry(lines[0]) then [Token(lines[0], 0)] else []) + rest
  }

  /** `getFailingRocs`: nothing at iteration 0; otherwise the first token of
      every line starting with "BPix" or "FPix". The first tokens of all lines
      are taken first, so a line without tokens raises IndexError. */
  function GetFailingRocs(iteration: int, lines: seq<string>): (r: Result<seq<string>>)
    ensures iteration == 0 ==> r == Ok([])
    ensures iteration != 0 ==> (r.Ok? <==> forall i :: 0 <= i < |lines| ==> Words(lines[i]) != [])
  {
    if iteration == 0 then Ok([])
    else if forall i :: 0 <= i < |lines| ==> Words(lines[i]) != [] then Ok(RocEntries(lines))
    else Err(IndexError)
  }

  lemma {:induction false} RocEntriesAppend(a: seq<string>, b: seq<string>)
    ensures RocEntries(a + b) == RocEntries(a) + RocEntries(b)
    decreases |a|
  {
    if a != [] {
      assert (a + b)[0] == a[0];
      assert (a + b)[1..] == a[1..] + b;
      RocEntriesAppend(a[1..], b);
    } else {
      assert a + b == b;
    }
  }

  // ---------------------------------------------------------------------
  // initDacSettings: the Vcal/VcThr fit report

  /** A report line that defines a ROC entry: first token starts with "BPix". */
  predicate IsMapLine(l: string) {
    Words(l) != [] && StartsWith(Words(l)[0], "BPix")
  }

  /** A line the dictionary comprehension can read without IndexError. */
  predicate MapLineReadable(l: string) {
    Words(l) != [] && (StartsWith(Words(l)[0], "BPix") ==> |Words(l)| >= 5)
  }

  /** `initDacSettings`: maps token 0 to token 4 of every line whose first
      token starts with "BPix"; lines are read in order, so a later line
      for the same ROC replaces an earlier one. */
  function InitDacSettings(lines: seq<string>): (r: Result<map<string, string>>)
    ensures r.Ok? <==> forall i :: 0 <= i < |lines| ==> MapLineReadable(lines[i])
    ensures r.Err? ==> r.error == IndexError
  {
    if lines == [] then Ok(map[])
    else
      var init := lines[..|lines| - 1];
      var last := lines[|lines| - 1];
      assert forall i :: 0 <= i < |init| ==> init[i] == lines[i];
      var m :- InitDacSettings(init);
      var ws := Words(last);
      if ws == [] then Err(IndexError)
      else if !StartsWith(ws[0], "BPix") then Ok(m)
      else if |ws| < 5 then Err(IndexError)
      else Ok(m[ws[0] := ws[4]])
  }

  /** The ROCs of the map are exactly the first tokens of its "BPix" lines. */
  lemma {:induction false} InitDacSettingsKeys(lines: seq<string>, roc: string)
    requires InitDacSettings(lines).Ok?
    ensures roc in InitDacSettings(lines).value <==>
      exists i :: 0 <= i < |lines| && IsMapLine(lines[i]) && Token(lines[i], 0) == roc
    decreases |lines|
  {
    if lines != [] {
      var init := lines[..|lines| - 1];
      var last := lines[|lines| - 1];
      InitDacSettingsKeys(init, roc);
      if exists i :: 0 <= i < |init| && IsMapLine(init[i]) && Token(init[i], 0) == roc {
        var i :| 0 <= i < |init| && IsMapLine(init[i]) && Token(init[i], 0) == roc;
        assert lines[i] == init[i];
      }
      if exists i :: 0 <= i < |lines| && IsMapLine(lines[i]) && Token(lines[i], 0) == roc {
        var i :| 0 <= i < |lines| && IsMapLine(lines[i]) && Token(lines[i], 0) == roc;
        if i < |init| { assert init[i] == lines[i]; }
      }
    }
  }

  /** A ROC's value comes from its last line in the report. */
  lemma {:induction false} InitDacSettingsLastWins(lines: seq<string>, i: nat)
    requires InitDacSettings(lines).Ok?
    requires i < |lines| && IsMapLine(lines[i])
    requires forall j :: i < j < |lines| && IsMapLine(lines[j]) ==> Token(lines[j], 0) != Token(lines[i], 0)
    ensures Token(lines[i], 0) in InitDacSettings(lines).value
    ensures InitDacSettings(lines).value[Token(lines[i], 0)] == Token(lines[i], 4)
    decreases |lines|
  {
    var init := lines[..|lines| - 1];
    var last := lines[|lines| - 1];
    if i < |lines| - 1 {
      assert init[i] == lines[i];
      forall j | i < j < |init| && IsMapLine(init[j]) ensures Token(init[j], 0) != Token(init[i], 0) {
        assert init[j] == lines[j];
      }
      InitDacSettingsLastWins(init, i);
    }
  }

  /** A line `<roc>   a   b   chi2   <lowest> ` of the Vcal/VcThr fit report,
      `'\n%s   %.2f   %.2f   %.2f   %d '`; `eol` is the newline that the next
      record's write puts after it, or nothing for the last record. The fit
      numbers are given as their printed tokens. */
  function FitReportLine(roc: string, a: string, b: string, chi2: string, lowest: int, eol: string): string {
    Join([roc, a, b, chi2, IntToString(lowest)], "   ") + " " + eol
  }

  lemma FitReportLineWords(roc: string, a: string, b: string, chi2: string, lowest: int, eol: string)
    requires IsWord(roc) && IsWord(a) && IsWord(b) && IsWord(chi2) && IsBlank(eol)
    ensures Words(FitReportLine(roc, a, b, chi2, lowest, eol)) == [roc, a, b, chi2, IntToString(lowest)]
  {
    IntToStringIsWord(lowest);
    var ws := [roc, a, b, chi2, IntToString(lowest)];
    assert Join(ws, "   ") + " " + eol == Join(ws, "   ") + (" " + eol);
    WordsOfJoin(ws, "   ", " " + eol);
  }

  /** What the fit wrote as a ROC's lowest threshold is what initDacSettings
      reads back for it, provided no later record names the same ROC. */
  lemma FitReportRoundTrip(lines: seq<string>, i: nat, roc: string, a: string, b: string, chi2: string, lowest: int, eol: string)
    requires InitDacSettings(lines).Ok?
    requires IsWord(roc) && IsWord(a) && IsWord(b) && IsWord(chi2) && IsBlank(eol) && StartsWith(roc, "BPix")
    requires i < |lines| && lines[i] == FitReportLine(roc, a, b, chi2, lowest, eol)
    requires forall j :: i < j < |lines| && IsMapLine(lines[j]) ==> Token(lines[j], 0) != roc
    ensures roc in InitDacSettings(lines).value
    ensures ParseInt(InitDacSettings(lines).value[roc]) == Some(lowest)
  {
    FitReportLineTokens(roc, a, b, chi2, lowest, eol);
    InitDacSettingsLastWins(lines, i);
    ParseIntToString(lowest);
  }

  /** A fit report line defines the entry of its ROC, with the lowest
      threshold as the value. */
  lemma FitReportLineTokens(roc: string, a: string, b: string, chi2: string, lowest: int, eol: string)
    requires IsWord(roc) && IsWord(a) && IsWord(b) && IsWord(chi2) && IsBlank(eol) && StartsWith(roc, "BPix")
    ensures IsMapLine(FitReportLine(roc, a, b, chi2, lowest, eol))
    ensures Token(FitReportLine(roc, a, b, chi2, lowest, eol), 0) == roc
    ensures Token(FitReportLine(roc, a, b, chi2, lowest, eol), 4) == IntToString(lowest)
  {
    FitReportLineWords(roc, a, b, chi2, lowest, eol);
    var ws := Words(FitReportLine(roc, a, b, chi2, lowest, eol));
    assert ws == [roc, a, b, chi2, IntToString(lowest)];
  }
}
