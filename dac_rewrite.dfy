/** One threshold-minimisation iteration (`createNewDACsettings`): every
    ROC's VcThr DAC value is moved by a delta chosen per ROC, and the chosen
    deltas are recorded so that the next iteration knows which ROCs to hold. */
module DacRewrite {
  import opened Outcome
  import opened Strings
  import opened CalibLists
  import opened KeyDatabase
  import opened ModuleList
  import opened DacIds

  /** Delta of a ROC that an earlier iteration already held. */
  const MinimisedDelta := 0
  /** Delta of a ROC failing the threshold check: raise the threshold. */
  const FailingDelta := -4
  /** Delta of any other ROC: lower the threshold further. */
  const PassingDelta := 2

  /** The delta chosen on a `ROC <name>` line; being minimised takes
      precedence over failing. */
  function DeltaFor(roc: string, minimised: seq<string>, failing: seq<string>): int {
    if roc in minimised then MinimisedDelta
    else if roc in failing then FailingDelta
    else PassingDelta
  }

  /** Each delta value identifies exactly one of the three cases. */
  lemma DeltaChoice(roc: string, minimised: seq<string>, failing: seq<string>)
    ensures DeltaFor(roc, minimised, failing) == MinimisedDelta <==> roc in minimised
    ensures DeltaFor(roc, minimised, failing) == FailingDelta <==> roc !in minimised && roc in failing
    ensures DeltaFor(roc, minimised, failing) == PassingDelta <==> roc !in minimised && roc !in failing
  {
  }

  predicate IsRocLine(l: string) { StartsWith(l, "ROC") }
  predicate IsVcThrLine(l: string) { StartsWith(l, "VcThr") }

  /** The delta in force when line i is read: set by the nearest ROC line
      before it, 0 at the start of every file. */
  function DeltaAt(lines: seq<string>, i: nat, minimised: seq<string>, failing: seq<string>): int
    requires i <= |lines|
  {
    if i == 0 then 0
    else if IsRocLine(lines[i - 1]) then DeltaFor(Token(lines[i - 1], 1), minimised, failing)
    else DeltaAt(lines, i - 1, minimised, failing)
  }

  /** A line the loop can handle: a ROC line has a name, a VcThr line has an
      integer value. */
  predicate LineReadable(l: string) {
    (IsRocLine(l) ==> |Words(l)| >= 2) &&
    (IsVcThrLine(l) ==> |Words(l)| >= 2 && ParseInt(Words(l)[1]).Some?)
  }

  /** One line under the delta in force: a VcThr line gets its value
      replaced (every occurrence of the value's text in the line); every
      other line is kept. */
  function RewriteLine(l: string, delta: int): Result<string> {
    if IsRocLine(l) then
      if |Words(l)| < 2 then Err(IndexError) else Ok(l)
    else if IsVcThrLine(l) then
      var ws := Words(l);
      if |ws| < 2 then Err(IndexError)
      else match ParseInt(ws[1])
        case None => Err(ValueError)
        case Some(n) => Ok(ReplaceAll(l, ws[1], IntToString(n + delta)))
    else Ok(l)
  }

  /** A line fails exactly when it cannot be read: IndexError for a
      missing token, ValueError for a value that is not an integer. A line
      that is not a VcThr line is kept as it is; a VcThr line has every
      occurrence of its value's text replaced by the moved value. */
  lemma RewriteLineMeaning(l: string, delta: int)
    ensures RewriteLine(l, delta).Ok? <==> LineReadable(l)
    ensures RewriteLine(l, delta).Err? ==> RewriteLine(l, delta).error == if |Words(l)| < 2 then IndexError else ValueError
    ensures RewriteLine(l, delta).Ok? && !IsVcThrLine(l) ==> RewriteLine(l, delta).value == l
    ensures RewriteLine(l, delta).Ok? && IsVcThrLine(l) ==>
      ParseInt(Token(l, 1)).Some? &&
      RewriteLine(l, delta).value == ReplaceAll(l, Token(l, 1), IntToString(ParseInt(Token(l, 1)).value + delta))
  {
  }

  /** What happens to each line of a file, in order. */
  function LineResults(lines: seq<string>, minimised: seq<string>, failing: seq<string>): seq<Result<string>> {
    seq(|lines|, i requires 0 <= i < |lines| => RewriteLine(lines[i], DeltaAt(lines, i, minimised, failing)))
  }

  /** The names on the ROC lines of a file, in file order. */
  function RocNames(lines: seq<string>): (r: seq<string>)
    ensures |r| <= |lines|
  {
    if lines == [] then []
    else
      var last := lines[|lines| - 1];
      RocNames(lines[..|lines| - 1]) + (if IsRocLine(last) then [Token(last, 1)] else [])
  }

  /** The deltas chosen for the given ROCs. */
  function Deltas(names: seq<string>, minimised: seq<string>, failing: seq<string>): (ds: seq<int>)
    ensures |ds| == |names|
  {
    seq(|names|, k requires 0 <= k < |names| => DeltaFor(names[k], minimised, failing))
  }

  /** One `name delta` record per ROC, in order. */
  function Records(names: seq<string>, minimised: seq<string>, failing: seq<string>): seq<string> {
    DeltaRecords(names, Deltas(names, minimised, failing))
  }

  lemma RecordsAppend(names: seq<string>, roc: string, minimised: seq<string>, failing: seq<string>)
    ensures Records(names + [roc], minimised, failing) ==
      Records(names, minimised, failing) + [DeltaRecord(roc, DeltaFor(roc, minimised, failing))]
  {
    var all := names + [roc];
    assert forall k :: 0 <= k < |names| ==> all[k] == names[k];
  }

  lemma RecordsConcat(a: seq<string>, b: seq<string>, minimised: seq<string>, failing: seq<string>)
    ensures Records(a + b, minimised, failing) == Records(a, minimised, failing) + Records(b, minimised, failing)
  {
    var all := a + b;
    assert forall k :: 0 <= k < |a| ==> all[k] == a[k];
    assert forall k :: |a| <= k < |all| ==> all[k] == b[k - |a|];
  }

  /** A rewritten DAC file and the delta records its ROC lines produced. */
  datatype Rewritten = Rewritten(lines: seq<string>, records: seq<string>)

  /** The DAC-file rewrite: every line under the delta in force, stopping at
      the first line that cannot be read; one record per ROC line. */
  function Rewrite(lines: seq<string>, minimised: seq<string>, failing: seq<string>): Result<Rewritten> {
    var out :- Collect(LineResults(lines, minimised, failing));
    Ok(Rewritten(out, Records(RocNames(lines), minimised, failing)))
  }

  /** What reading line i adds to the ROC names. */
  lemma RocNamesStep(lines: seq<string>, i: nat)
    requires i < |lines|
    ensures RocNames(lines[..i + 1]) ==
      RocNames(lines[..i]) + if IsRocLine(lines[i]) then [Token(lines[i], 1)] else []
  {
    var prefix := lines[..i + 1];
    assert prefix[..i] == lines[..i] && prefix[i] == lines[i];
  }

  /** What reading line i adds to the records. */
  lemma RecordsStep(lines: seq<string>, i: nat, minimised: seq<string>, failing: seq<string>)
    requires i < |lines|
    ensures Records(RocNames(lines[..i + 1]), minimised, failing) == Records(RocNames(lines[..i]), minimised, failing) +
      if IsRocLine(lines[i]) then [DeltaRecord(Token(lines[i], 1), DeltaFor(Token(lines[i], 1), minimised, failing))] else []
  {
    RocNamesStep(lines, i);
    if IsRocLine(lines[i]) {
      RecordsAppend(RocNames(lines[..i]), Token(lines[i], 1), minimised, failing);
    } else {
      assert RocNames(lines[..i]) + [] == RocNames(lines[..i]);
    }
  }

  /** Lines 290-309 of analysisCalibFuncs.py: one line read under the delta in force.
      A ROC line chooses the new delta and yields its record; a VcThr line
      gets its value moved by the delta; the line to write is returned. */
  method ProcessLine(line: string, delta: int, minimised: seq<string>, failing: seq<string>)
    returns (r: Result<string>, newDelta: int, record: seq<string>)
    ensures r == RewriteLine(line, delta)
    ensures r.Ok? ==> newDelta == if IsRocLine(line) then DeltaFor(Token(line, 1), minimised, failing) else delta
    ensures r.Ok? ==> record == if IsRocLine(line) then [DeltaRecord(Token(line, 1), newDelta)] else []
  {
    newDelta, record := delta, [];
    if StartsWith(line, "ROC") {
      var ws := Words(line);
      if |ws| < 2 {
        return Err(IndexError), delta, [];
      }
      var rocname := ws[1];
      if rocname in minimised {
        newDelta := 0;
      } else if rocname in failing {
        newDelta := -4;
      } else {
        newDelta := 2;
      }
      record := [DeltaRecord(rocname, newDelta)];
      r := Ok(line);
    } else if StartsWith(line, "VcThr") {
      var ws := Words(line);
      if |ws| < 2 {
        return Err(IndexError), delta, [];
      }
      var parsed := ParseInt(ws[1]);
      if parsed.None? {
        return Err(ValueError), delta, [];
      }
      var newVcThr := parsed.value + delta;
      r := Ok(ReplaceAll(line, ws[1], IntToString(newVcThr)));
    } else {
      r := Ok(line);
    }
  }

  /** The rewrite as the loop performs it: the first i lines read one after
      the other, each under the delta in force, adding its record. */
  function Scan(lines: seq<string>, i: nat, minimised: seq<string>, failing: seq<string>): Result<Rewritten>
    requires i <= |lines|
    decreases i
  {
    if i == 0 then Ok(Rewritten([], []))
    else
      var before :- Scan(lines, i - 1, minimised, failing);
      var l := lines[i - 1];
      var line :- RewriteLine(l, DeltaAt(lines, i - 1, minimised, failing));
      Ok(Rewritten(before.lines + [line], before.records +
        if IsRocLine(l) then [DeltaRecord(Token(l, 1), DeltaFor(Token(l, 1), minimised, failing))] else []))
  }

  /** Scanning the first i lines agrees with the rewrite: a successful scan
      has rewritten the first i lines and produced their records, and a
      failed scan has found the error of the whole rewrite. */
  lemma {:induction false} ScanPrefix(lines: seq<string>, i: nat, minimised: seq<string>, failing: seq<string>)
    requires i <= |lines|
    ensures Scan(lines, i, minimised, failing).Ok? ==>
      Collect(LineResults(lines, minimised, failing)[..i]) == Ok(Scan(lines, i, minimised, failing).value.lines) &&
      Scan(lines, i, minimised, failing).value.records == Records(RocNames(lines[..i]), minimised, failing)
    ensures Scan(lines, i, minimised, failing).Err? ==> Rewrite(lines, minimised, failing) == Scan(lines, i, minimised, failing)
    decreases i
  {
    var rs := LineResults(lines, minimised, failing);
    if i == 0 {
      assert lines[..0] == [] && rs[..0] == [];
    } else {
      ScanPrefix(lines, i - 1, minimised, failing);
      var before := Scan(lines, i - 1, minimised, failing);
      if before.Ok? {
        assert rs[i - 1] == RewriteLine(lines[i - 1], DeltaAt(lines, i - 1, minimised, failing));
        if rs[i - 1].Err? {
          CollectPrefixErr(rs, i - 1, before.value.lines);
        } else {
          CollectPrefixOk(rs, i - 1, before.value.lines);
          RecordsStep(lines, i - 1, minimised, failing);
        }
      }
    }
  }

  /** Once a line fails, the scan of the whole file fails with its error. */
  lemma {:induction false} ScanStopsAtError(lines: seq<string>, i: nat, k: nat, minimised: seq<string>, failing: seq<string>)
    requires i <= k <= |lines| && Scan(lines, i, minimised, failing).Err?
    ensures Scan(lines, k, minimised, failing) == Scan(lines, i, minimised, failing)
    decreases k
  {
    if k > i {
      ScanStopsAtError(lines, i, k - 1, minimised, failing);
    }
  }

  /** Scanning every line is the rewrite. */
  lemma ScanIsRewrite(lines: seq<string>, minimised: seq<string>, failing: seq<string>)
    ensures Scan(lines, |lines|, minimised, failing) == Rewrite(lines, minimised, failing)
  {
    ScanPrefix(lines, |lines|, minimised, failing);
    assert lines[..|lines|] == lines;
    assert LineResults(lines, minimised, failing)[..|lines|] == LineResults(lines, minimised, failing);
  }

  /** Lines 286-310 of analysisCalibFuncs.py: read one DAC file line by line, carrying
      the delta of the last ROC line, collecting the records and writing
      every line out. */
  method RewriteDacFile(lines: seq<string>, minimised: seq<string>, failing: seq<string>) returns (r: Result<Rewritten>)
    ensures r == Scan(lines, |lines|, minimised, failing)
  {
    var out: seq<string> := [];
    var records: seq<string> := [];
    var delta := 0;
    var i := 0;
    while i < |lines|
      invariant 0 <= i <= |lines|
      invariant delta == DeltaAt(lines, i, minimised, failing)
      invariant Scan(lines, i, minimised, failing) == Ok(Rewritten(out, records))
    {
      var line, newDelta, record := ProcessLine(lines[i], delta, minimised, failing);
      if line.Err? {
        ScanStopsAtError(lines, i + 1, |lines|, minimised, failing);
        return Err(line.error);
      }
      out := out + [line.value];
      records := records + record;
      delta := newDelta;
      i := i + 1;
    }
    r := Ok(Rewritten(out, records));
  }

  // ---------------------------------------------------------------------
  // Properties of one file's rewrite

  /** The rewrite succeeds exactly when every line can be read. */
  lemma RewriteSucceeds(lines: seq<string>, minimised: seq<string>, failing: seq<string>)
    ensures Rewrite(lines, minimised, failing).Ok? <==> forall i :: 0 <= i < |lines| ==> LineReadable(lines[i])
  {
    var rs := LineResults(lines, minimised, failing);
    forall i | 0 <= i < |lines| ensures (rs[i].Ok? <==> LineReadable(lines[i])) {
      RewriteLineMeaning(lines[i], DeltaAt(lines, i, minimised, failing));
    }
  }

  /** A failed rewrite reports the error of the first unreadable line. */
  lemma RewriteFailsAt(lines: seq<string>, minimised: seq<string>, failing: seq<string>)
    requires Rewrite(lines, minimised, failing).Err?
    ensures exists i :: (0 <= i < |lines| && !LineReadable(lines[i]) &&
      (forall j :: 0 <= j < i ==> LineReadable(lines[j])) &&
      Rewrite(lines, minimised, failing).error == if |Words(lines[i])| < 2 then IndexError else ValueError)
  {
    var rs := LineResults(lines, minimised, failing);
    var c := Collect(rs);
    assert Rewrite(lines, minimised, failing) == Err(c.error);
    var i :| 0 <= i < |rs| && rs[i] == Err(c.error) && forall j :: 0 <= j < i ==> rs[j].Ok?;
    RewriteLineMeaning(lines[i], DeltaAt(lines, i, minimised, failing));
    forall j | 0 <= j < i ensures LineReadable(lines[j]) {
      assert rs[j].Ok?;
      RewriteLineMeaning(lines[j], DeltaAt(lines, j, minimised, failing));
      assert rs[j] == RewriteLine(lines[j], DeltaAt(lines, j, minimised, failing));
    }
    assert !LineReadable(lines[i]);
    assert c.error == if |Words(lines[i])| < 2 then IndexError else ValueError;
  }

  /** Line i of a successful rewrite is that line under the delta in force. */
  lemma RewriteAt(lines: seq<string>, i: nat, minimised: seq<string>, failing: seq<string>)
    requires Rewrite(lines, minimised, failing).Ok? && i < |lines|
    ensures |Rewrite(lines, minimised, failing).value.lines| == |lines|
    ensures RewriteLine(lines[i], DeltaAt(lines, i, minimised, failing)) == Ok(Rewrite(lines, minimised, failing).value.lines[i])
  {
    var rs := LineResults(lines, minimised, failing);
    assert rs[i] == RewriteLine(lines[i], DeltaAt(lines, i, minimised, failing));
  }

  /** Same number of lines, and every line that is not a VcThr line, ROC
      lines included, is copied verbatim. */
  lemma RewriteKeepsLines(lines: seq<string>, minimised: seq<string>, failing: seq<string>)
    requires Rewrite(lines, minimised, failing).Ok?
    ensures |Rewrite(lines, minimised, failing).value.lines| == |lines|
    ensures forall i :: 0 <= i < |lines| && !IsVcThrLine(lines[i]) ==>
      Rewrite(lines, minimised, failing).value.lines[i] == lines[i]
  {
    var out := Rewrite(lines, minimised, failing).value.lines;
    forall i | 0 <= i < |lines| && !IsVcThrLine(lines[i]) ensures out[i] == lines[i] {
      RewriteAt(lines, i, minimised, failing);
      RewriteLineMeaning(lines[i], DeltaAt(lines, i, minimised, failing));
    }
  }

  /** A VcThr line has every occurrence of its value's text replaced by the
      value plus the delta in force. */
  lemma RewriteMovesVcThr(lines: seq<string>, i: nat, minimised: seq<string>, failing: seq<string>)
    requires Rewrite(lines, minimised, failing).Ok?
    requires i < |lines| && IsVcThrLine(lines[i])
    ensures ParseInt(Token(lines[i], 1)).Some?
    ensures Rewrite(lines, minimised, failing).value.lines[i] ==
      ReplaceAll(lines[i], Token(lines[i], 1), IntToString(ParseInt(Token(lines[i], 1)).value + DeltaAt(lines, i, minimised, failing)))
  {
    RewriteAt(lines, i, minimised, failing);
    RewriteLineMeaning(lines[i], DeltaAt(lines, i, minimised, failing));
  }

  /** The delta in force is the one chosen on the nearest preceding ROC line. */
  lemma {:induction false} DeltaAtNearestRoc(lines: seq<string>, j: nat, i: nat, minimised: seq<string>, failing: seq<string>)
    requires j < i <= |lines| && IsRocLine(lines[j])
    requires forall k :: j < k < i ==> !IsRocLine(lines[k])
    ensures DeltaAt(lines, i, minimised, failing) == DeltaFor(Token(lines[j], 1), minimised, failing)
    decreases i
  {
    if i - 1 > j {
      DeltaAtNearestRoc(lines, j, i - 1, minimised, failing);
    }
  }

  /** Before the first ROC line of a file the delta is 0. */
  lemma {:induction false} DeltaAtBeforeAnyRoc(lines: seq<string>, i: nat, minimised: seq<string>, failing: seq<string>)
    requires i <= |lines|
    requires forall k :: 0 <= k < i ==> !IsRocLine(lines[k])
    ensures DeltaAt(lines, i, minimised, failing) == 0
    decreases i
  {
    if i > 0 {
      DeltaAtBeforeAnyRoc(lines, i - 1, minimised, failing);
    }
  }

  /** The text of a well-formed `VcThr <n>` line. */
  function VcThrLine(n: int, eol: string): string {
    "VcThr " + IntToString(n) + eol
  }

  lemma VcThrLineTokens(n: int, eol: string)
    requires IsBlank(eol)
    ensures IsVcThrLine(VcThrLine(n, eol)) && !IsRocLine(VcThrLine(n, eol))
    ensures Words(VcThrLine(n, eol)) == ["VcThr", IntToString(n)]
    ensures ParseInt(Words(VcThrLine(n, eol))[1]) == Some(n)
  {
    IntToStringIsWord(n);
    assert VcThrLine(n, eol) == "VcThr" + " " + IntToString(n) + eol;
    WordsOfTwo("VcThr", " ", IntToString(n), eol);
    ParseIntToString(n);
  }

  /** Replacing the value's text in a well-formed VcThr line rewrites only
      the value. */
  lemma ReplaceVcThrValue(n: int, m: int, eol: string)
    requires IsBlank(eol)
    ensures ReplaceAll(VcThrLine(n, eol), IntToString(n), IntToString(m)) == VcThrLine(m, eol)
  {
    var t := IntToString(n);
    var p := "VcThr ";
    assert forall i :: 0 <= i < |p| ==> p[i] != t[0];
    assert forall i :: 0 <= i < |eol| ==> eol[i] != t[0] by {
      forall i | 0 <= i < |eol| ensures eol[i] != t[0] {
        assert IsSpace(eol[i]);
      }
    }
    ReplaceSingle(p, t, eol, IntToString(m));
  }

  /** A well-formed `VcThr n` line becomes `VcThr n+d`, d the delta in force. */
  lemma RewriteVcThrLine(lines: seq<string>, i: nat, n: int, eol: string, minimised: seq<string>, failing: seq<string>)
    requires Rewrite(lines, minimised, failing).Ok?
    requires i < |lines| && lines[i] == VcThrLine(n, eol) && IsBlank(eol)
    ensures Rewrite(lines, minimised, failing).value.lines[i] == VcThrLine(n + DeltaAt(lines, i, minimised, failing), eol)
  {
    RewriteAt(lines, i, minimised, failing);
    VcThrLineTokens(n, eol);
    RewriteLineMeaning(lines[i], DeltaAt(lines, i, minimised, failing));
    ReplaceVcThrValue(n, n + DeltaAt(lines, i, minimised, failing), eol);
  }

  /** The ROC names of two consecutive pieces of a file. */
  lemma {:induction false} RocNamesConcat(a: seq<string>, b: seq<string>)
    ensures RocNames(a + b) == RocNames(a) + RocNames(b)
    decreases |b|
  {
    if b == [] {
      assert a + b == a;
    } else {
      var init := b[..|b| - 1];
      assert (a + b)[..|a + b| - 1] == a + init;
      RocNamesConcat(a, init);
    }
  }

  /** A file's records are one per ROC line: a ROC line adds its own record,
      any other line none. */
  lemma RocNamesOfLine(l: string)
    ensures RocNames([l]) == if IsRocLine(l) then [Token(l, 1)] else []
  {
    assert [l][..0] == [];
  }

  /** The ROC names of a readable file are single tokens. */
  lemma {:induction false} RocNamesAreWords(lines: seq<string>)
    requires forall i :: 0 <= i < |lines| ==> LineReadable(lines[i])
    ensures forall k :: 0 <= k < |RocNames(lines)| ==> IsWord(RocNames(lines)[k])
    decreases |lines|
  {
    if lines != [] {
      RocNamesAreWords(lines[..|lines| - 1]);
    }
  }

  /** The names the next iteration reads back as held are the ROCs that
      were minimised or failing, in order, except the first one recorded
      (the reader skips the first line of the delta file as a header). */
  lemma HeldNamesOfDeltas(names: seq<string>, minimised: seq<string>, failing: seq<string>)
    ensures forall x :: x in HeldNames(names, Deltas(names, minimised, failing)) <==>
      x in names && (x in minimised || x in failing)
    decreases |names|
  {
    if names != [] {
      var ds := Deltas(names, minimised, failing);
      assert ds[1..] == Deltas(names[1..], minimised, failing);
      HeldNamesOfDeltas(names[1..], minimised, failing);
      assert names == [names[0]] + names[1..];
    }
  }

  /** Reading the records back: the names held by the next iteration. */
  lemma NextMinimised(names: seq<string>, minimised: seq<string>, failing: seq<string>)
    requires |names| > 0
    requires forall k :: 0 <= k < |names| ==> IsWord(names[k])
    ensures ListFromDeltaFile(Records(names, minimised, failing)).Ok?
    ensures forall x :: x in ListFromDeltaFile(Records(names, minimised, failing)).value <==>
      x in names[1..] && (x in minimised || x in failing)
  {
    var ds := Deltas(names, minimised, failing);
    DeltaFileRoundTrip(names, ds);
    assert ds[1..] == Deltas(names[1..], minimised, failing);
    HeldNamesOfDeltas(names[1..], minimised, failing);
  }

  // ---------------------------------------------------------------------
  // All module files of one iteration

  /** The path of a file of dac directory `dac`, relative to the dac base
      directory. */
  function DacFilePath(dac: string, name: string): string {
    dac + "/" + name
  }

  /** The rewritten files, by name, and the ROC names met, in order. */
  datatype Batch = Batch(files: map<string, seq<string>>, rocs: seq<string>)

  /** Every module file rewritten in list order; a file missing from the
      dac directory, or one that cannot be read, stops the iteration. */
  function RewriteAll(names: seq<string>, dir: map<string, seq<string>>, dac: string, minimised: seq<string>, failing: seq<string>): Result<Batch>
    decreases |names|
  {
    if names == [] then Ok(Batch(map[], []))
    else
      var before :- RewriteAll(names[..|names| - 1], dir, dac, minimised, failing);
      var name := names[|names| - 1];
      if name !in dir then Err(MissingFile(DacFilePath(dac, name)))
      else
        var w :- Rewrite(dir[name], minimised, failing);
        Ok(Batch(before.files[name := w.lines], before.rocs + RocNames(dir[name])))
  }

  /** An error in the first k files is the error of the whole list. */
  lemma {:induction false} RewriteAllPrefixErr(names: seq<string>, k: nat, dir: map<string, seq<string>>, dac: string, minimised: seq<string>, failing: seq<string>)
    requires k <= |names| && RewriteAll(names[..k], dir, dac, minimised, failing).Err?
    ensures RewriteAll(names, dir, dac, minimised, failing) == RewriteAll(names[..k], dir, dac, minimised, failing)
    decreases |names| - k
  {
    if k == |names| {
      assert names[..k] == names;
    } else {
      var init := names[..|names| - 1];
      assert init[..k] == names[..k];
      RewriteAllPrefixErr(init, k, dir, dac, minimised, failing);
    }
  }

  /** The rewritten files and the records of a list of module files. */
  datatype Output = Output(files: map<string, seq<string>>, records: seq<string>)

  /** Lines 282-313 of analysisCalibFuncs.py: the loop over the module files. */
  method RewriteDacFiles(names: seq<string>, dir: map<string, seq<string>>, dac: string, minimised: seq<string>, failing: seq<string>)
    returns (r: Result<Output>)
    ensures r.Ok? <==> RewriteAll(names, dir, dac, minimised, failing).Ok?
    ensures r.Err? ==> r.error == RewriteAll(names, dir, dac, minimised, failing).error
    ensures r.Ok? ==> r.value.files == RewriteAll(names, dir, dac, minimised, failing).value.files
    ensures r.Ok? ==> r.value.records == Records(RewriteAll(names, dir, dac, minimised, failing).value.rocs, minimised, failing)
  {
    var files: map<string, seq<string>> := map[];
    var records: seq<string> := [];
    ghost var rocs: seq<string> := [];
    var k := 0;
    assert names[..0] == [];
    while k < |names|
      invariant 0 <= k <= |names|
      invariant RewriteAll(names[..k], dir, dac, minimised, failing) == Ok(Batch(files, rocs))
      invariant records == Records(rocs, minimised, failing)
    {
      var f := names[k];
      ghost var next := names[..k + 1];
      assert next[..k] == names[..k] && next[k] == f;
      if f !in dir {
        RewriteAllPrefixErr(names, k + 1, dir, dac, minimised, failing);
        return Err(MissingFile(DacFilePath(dac, f)));
      }
      var w := RewriteDacFile(dir[f], minimised, failing);
      ScanIsRewrite(dir[f], minimised, failing);
      if w.Err? {
        RewriteAllPrefixErr(names, k + 1, dir, dac, minimised, failing);
        return Err(w.error);
      }
      RecordsConcat(rocs, RocNames(dir[f]), minimised, failing);
      files := files[f := w.value.lines];
      records := records + w.value.records;
      rocs := rocs + RocNames(dir[f]);
      k := k + 1;
    }
    assert names[..k] == names;
    r := Ok(Output(files, records));
  }

  /** Exactly the listed module files are written, each one found in the
      dac directory. */
  lemma {:induction false} RewriteAllKeys(names: seq<string>, dir: map<string, seq<string>>, dac: string, minimised: seq<string>, failing: seq<string>)
    requires RewriteAll(names, dir, dac, minimised, failing).Ok?
    ensures forall name :: name in RewriteAll(names, dir, dac, minimised, failing).value.files <==> name in names
    ensures forall name :: name in names ==> name in dir
    decreases |names|
  {
    if names != [] {
      var init := names[..|names| - 1];
      RewriteAllKeys(init, dir, dac, minimised, failing);
      assert names == init + [names[|names| - 1]];
    }
  }

  /** A listed module file is found in the dac directory and written as
      its rewrite. */
  lemma {:induction false} RewriteAllFile(names: seq<string>, name: string, dir: map<string, seq<string>>, dac: string, minimised: seq<string>, failing: seq<string>)
    requires RewriteAll(names, dir, dac, minimised, failing).Ok? && name in names
    ensures name in dir && Rewrite(dir[name], minimised, failing).Ok?
    ensures name in RewriteAll(names, dir, dac, minimised, failing).value.files
    ensures RewriteAll(names, dir, dac, minimised, failing).value.files[name] == Rewrite(dir[name], minimised, failing).value.lines
    decreases |names|
  {
    var init := names[..|names| - 1];
    var last := names[|names| - 1];
    var before := RewriteAll(init, dir, dac, minimised, failing).value;
    var w := Rewrite(dir[last], minimised, failing).value;
    assert RewriteAll(names, dir, dac, minimised, failing).value.files == before.files[last := w.lines];
    if name != last {
      var k :| 0 <= k < |names| && names[k] == name;
      assert k < |init| && init[k] == name;
      RewriteAllFile(init, name, dir, dac, minimised, failing);
    }
  }

  /** Every listed module file is rewritten, and nothing else is written. */
  lemma RewriteAllFiles(names: seq<string>, dir: map<string, seq<string>>, dac: string, minimised: seq<string>, failing: seq<string>)
    requires RewriteAll(names, dir, dac, minimised, failing).Ok?
    ensures forall name :: name in RewriteAll(names, dir, dac, minimised, failing).value.files <==> name in names
    ensures forall name :: name in names ==> (name in dir && Rewrite(dir[name], minimised, failing).Ok? &&
      RewriteAll(names, dir, dac, minimised, failing).value.files[name] == Rewrite(dir[name], minimised, failing).value.lines)
  {
    RewriteAllKeys(names, dir, dac, minimised, failing);
    forall name | name in names
      ensures name in dir && Rewrite(dir[name], minimised, failing).Ok? &&
        RewriteAll(names, dir, dac, minimised, failing).value.files[name] == Rewrite(dir[name], minimised, failing).value.lines
    {
      RewriteAllFile(names, name, dir, dac, minimised, failing);
    }
  }

  /** Every ROC name met in a successful batch is a single token. */
  lemma {:induction false} RewriteAllRocsAreWords(names: seq<string>, dir: map<string, seq<string>>, dac: string, minimised: seq<string>, failing: seq<string>)
    requires RewriteAll(names, dir, dac, minimised, failing).Ok?
    ensures forall k :: 0 <= k < |RewriteAll(names, dir, dac, minimised, failing).value.rocs| ==>
      IsWord(RewriteAll(names, dir, dac, minimised, failing).value.rocs[k])
    decreases |names|
  {
    if names != [] {
      var init := names[..|names| - 1];
      RewriteAllRocsAreWords(init, dir, dac, minimised, failing);
      var name := names[|names| - 1];
      RewriteSucceeds(dir[name], minimised, failing);
      RocNamesAreWords(dir[name]);
    }
  }

  // ---------------------------------------------------------------------
  // createNewDACsettings

  /** What one iteration reads, given as values: each file as its lines. */
  datatype Inputs = Inputs(
    keyFile: seq<string>,                             // <run>/PixelConfigurationKey.txt
    configurations: string,                           // configurations.txt
    detectConfigs: map<string, seq<string>>,          // detconfig/<id>/detectconfig.dat
    previousDelta: Option<seq<string>>,               // delta_<iteration-1>.txt, if present
    dacIds: seq<int>,                                 // the names of the dac directories
    dacDirs: map<string, map<string, seq<string>>>,   // dac/<id>/<file>
    failed: Option<seq<string>>,                      // failed_<iteration>.txt, if present
    deltaBefore: seq<string>)                         // what delta_<iteration>.txt already holds

  /** What one iteration produces: the new dac id, the rewritten module
      files, the new dac directory and the delta file. */
  datatype NewSettings = NewSettings(id: int, files: map<string, seq<string>>, directory: map<string, seq<string>>, delta: seq<string>)

  function DeltaFileName(iteration: int): string {
    "delta_" + IntToString(iteration) + ".txt"
  }

  function FailedFileName(iteration: int): string {
    "failed_" + IntToString(iteration) + ".txt"
  }

  /** The ROCs held at this iteration: none before the second iteration,
      otherwise those the previous delta file records with 0 or -4. */
  function Minimised(iteration: int, previousDelta: Option<seq<string>>): Result<seq<string>> {
    if iteration <= 1 then Ok([])
    else if previousDelta.None? then Err(MissingFile(DeltaFileName(iteration - 1)))
    else ListFromDeltaFile(previousDelta.value)
  }

  /** The ROCs failing at this iteration: none at iteration 0, otherwise the
      ROCs listed in the failed file. */
  function Failing(iteration: int, failed: Option<seq<string>>): Result<seq<string>> {
    if iteration != 0 && failed.None? then Err(MissingFile(FailedFileName(iteration)))
    else GetFailingRocs(iteration, if failed.Some? then failed.value else [])
  }

  /** The files of a dac directory; a directory that does not exist has none. */
  function DacDir(dirs: map<string, map<string, seq<string>>>, dac: string): map<string, seq<string>> {
    if dac in dirs then dirs[dac] else map[]
  }

  /** The files copied into the new dac directory: the rewritten `*.dat`
      files replace the copies of the originals. */
  function NewDirectory(original: map<string, seq<string>>, rewritten: map<string, seq<string>>): (d: map<string, seq<string>>) {
    original + map name | name in rewritten && EndsWith(name, ".dat") :: rewritten[name]
  }

  /** `createNewDACsettings`, steps in the order the source takes them:
      module list, held ROCs, dac id of the run, new dac id, failing ROCs,
      then the rewrite of every module file. */
  function NewDacSettings(iteration: int, inputs: Inputs): Result<NewSettings> {
    var modules :- ModuleDacFiles(inputs.keyFile, inputs.configurations, inputs.detectConfigs);
    var minimised :- Minimised(iteration, inputs.previousDelta);
    var dac :- FromPath(inputs.keyFile, inputs.configurations, "dac");
    var id :- NewDacId(inputs.dacIds);
    var failing :- Failing(iteration, inputs.failed);
    var original := DacDir(inputs.dacDirs, dac);
    var batch :- RewriteAll(modules, original, dac, minimised, failing);
    Ok(NewSettings(id, batch.files, NewDirectory(original, batch.files),
      inputs.deltaBefore + Records(batch.rocs, minimised, failing)))
  }

  /** Lines 254-344 of analysisCalibFuncs.py, with the file system replaced by the
      inputs and outputs above. */
  method CreateNewDacSettings(iteration: int, inputs: Inputs) returns (r: Result<NewSettings>)
    ensures r == NewDacSettings(iteration, inputs)
  {
    var detconfiglist :- CreateModuleList(inputs.keyFile, inputs.configurations, inputs.detectConfigs);
    var minimizedRocs: seq<string> := [];
    if iteration > 1 {
      if inputs.previousDelta.None? {
        return Err(MissingFile(DeltaFileName(iteration - 1)));
      }
      minimizedRocs :- ListFromDeltaFile(inputs.previousDelta.value);
    }
    var dac :- FindDacFromPath(inputs.keyFile, inputs.configurations);
    var newsettings :- NewDacId(inputs.dacIds);
    if iteration != 0 && inputs.failed.None? {
      return Err(MissingFile(FailedFileName(iteration)));
    }
    var failingRocs :- GetFailingRocs(iteration, if inputs.failed.Some? then inputs.failed.value else []);
    var original := DacDir(inputs.dacDirs, dac);
    var out :- RewriteDacFiles(detconfiglist, original, dac, minimizedRocs, failingRocs);
    return Ok(NewSettings(newsettings, out.files, NewDirectory(original, out.files), inputs.deltaBefore + out.records));
  }

  /** A successful iteration passed every step. */
  lemma NewDacSettingsSteps(iteration: int, inputs: Inputs)
    requires NewDacSettings(iteration, inputs).Ok?
    ensures ModuleDacFiles(inputs.keyFile, inputs.configurations, inputs.detectConfigs).Ok?
    ensures Minimised(iteration, inputs.previousDelta).Ok?
    ensures FromPath(inputs.keyFile, inputs.configurations, "dac").Ok?
    ensures NewDacId(inputs.dacIds).Ok?
    ensures Failing(iteration, inputs.failed).Ok?
    ensures var dac := FromPath(inputs.keyFile, inputs.configurations, "dac").value;
      var modules := ModuleDacFiles(inputs.keyFile, inputs.configurations, inputs.detectConfigs).value;
      var minimised := Minimised(iteration, inputs.previousDelta).value;
      var failing := Failing(iteration, inputs.failed).value;
      var batch := RewriteAll(modules, DacDir(inputs.dacDirs, dac), dac, minimised, failing);
      batch.Ok? &&
      NewDacSettings(iteration, inputs).value ==
        NewSettings(NewDacId(inputs.dacIds).value, batch.value.files, NewDirectory(DacDir(inputs.dacDirs, dac), batch.value.files),
          inputs.deltaBefore + Records(batch.value.rocs, minimised, failing)) &&
      (inputs.deltaBefore == [] ==> NewDacSettings(iteration, inputs).value.delta == Records(batch.value.rocs, minimised, failing))
  {
  }

  /** The new dac id is not taken and exceeds every existing one. */
  lemma NewSettingsFreshId(iteration: int, inputs: Inputs)
    requires NewDacSettings(iteration, inputs).Ok?
    ensures NewDacSettings(iteration, inputs).value.id !in inputs.dacIds
    ensures forall i :: 0 <= i < |inputs.dacIds| ==> inputs.dacIds[i] < NewDacSettings(iteration, inputs).value.id
  {
    NewDacSettingsSteps(iteration, inputs);
    NewDacIdFresh(inputs.dacIds);
  }

  /** Copying rewritten `.dat` files over a copy of the original directory
      replaces exactly those files. */
  lemma NewDirectoryReplaces(original: map<string, seq<string>>, rewritten: map<string, seq<string>>)
    requires forall name :: name in rewritten ==> name in original && EndsWith(name, ".dat")
    ensures var d := NewDirectory(original, rewritten);
      (forall name :: name in d <==> name in original) &&
      (forall name :: name in rewritten ==> d[name] == rewritten[name]) &&
      (forall name :: name in original && name !in rewritten ==> d[name] == original[name])
  {
  }

  /** The directory a batch produces: every listed `.dat` file replaced by
      its rewritten version, every other file of the original unchanged. */
  lemma NewDirectoryOfBatch(names: seq<string>, original: map<string, seq<string>>, dac: string, minimised: seq<string>, failing: seq<string>)
    requires RewriteAll(names, original, dac, minimised, failing).Ok?
    requires forall k :: 0 <= k < |names| ==> EndsWith(names[k], ".dat")
    ensures var files := RewriteAll(names, original, dac, minimised, failing).value.files;
      var d := NewDirectory(original, files);
      (forall name :: name in d <==> name in original) &&
      (forall name :: name in names ==> (name in files && name in d && d[name] == files[name])) &&
      (forall name :: name in original && name !in names ==> d[name] == original[name])
  {
    var files := RewriteAll(names, original, dac, minimised, failing).value.files;
    RewriteAllKeys(names, original, dac, minimised, failing);
    forall name | name in files ensures name in original && EndsWith(name, ".dat") {
      var k :| 0 <= k < |names| && names[k] == name;
    }
    NewDirectoryReplaces(original, files);
  }

  /** The new dac directory of an iteration: each module file replaced by
      its rewritten version, every other file of the run's dac directory
      copied unchanged. */
  lemma NewSettingsDirectory(iteration: int, inputs: Inputs)
    requires NewDacSettings(iteration, inputs).Ok?
    ensures var s := NewDacSettings(iteration, inputs).value;
      var original := DacDir(inputs.dacDirs, FromPath(inputs.keyFile, inputs.configurations, "dac").value);
      var modules := ModuleDacFiles(inputs.keyFile, inputs.configurations, inputs.detectConfigs).value;
      (forall name :: name in s.directory <==> name in original) &&
      (forall name :: name in modules ==> (name in s.files && name in s.directory && s.directory[name] == s.files[name])) &&
      (forall name :: name in original && name !in modules ==> s.directory[name] == original[name])
  {
    NewDacSettingsSteps(iteration, inputs);
    var dac := FromPath(inputs.keyFile, inputs.configurations, "dac").value;
    var modules := ModuleDacFiles(inputs.keyFile, inputs.configurations, inputs.detectConfigs).value;
    ModuleDacFilesDistinct(inputs.keyFile, inputs.configurations, inputs.detectConfigs);
    NewDirectoryOfBatch(modules, DacDir(inputs.dacDirs, dac), dac, Minimised(iteration, inputs.previousDelta).value, Failing(iteration, inputs.failed).value);
  }

  /** Reading the new delta file back at the next iteration (when it was
      empty before): the held ROCs are the ROCs met on the ROC lines that
      are already held or failing now, except the first ROC recorded, which
      the reader skips as a header. */
  lemma NextIterationHeld(iteration: int, inputs: Inputs)
    requires NewDacSettings(iteration, inputs).Ok? && inputs.deltaBefore == [] && iteration >= 1
    ensures ModuleDacFiles(inputs.keyFile, inputs.configurations, inputs.detectConfigs).Ok? &&
      Minimised(iteration, inputs.previousDelta).Ok? && FromPath(inputs.keyFile, inputs.configurations, "dac").Ok? &&
      Failing(iteration, inputs.failed).Ok?
    ensures var dac := FromPath(inputs.keyFile, inputs.configurations, "dac").value;
      RewriteAll(ModuleDacFiles(inputs.keyFile, inputs.configurations, inputs.detectConfigs).value, DacDir(inputs.dacDirs, dac), dac,
        Minimised(iteration, inputs.previousDelta).value, Failing(iteration, inputs.failed).value).Ok?
    ensures var s := NewDacSettings(iteration, inputs).value;
      var minimised := Minimised(iteration, inputs.previousDelta).value;
      var failing := Failing(iteration, inputs.failed).value;
      var dac := FromPath(inputs.keyFile, inputs.configurations, "dac").value;
      var modules := ModuleDacFiles(inputs.keyFile, inputs.configurations, inputs.detectConfigs).value;
      var rocs := RewriteAll(modules, DacDir(inputs.dacDirs, dac), dac, minimised, failing).value.rocs;
      Minimised(iteration + 1, Some(s.delta)).Ok? &&
      (forall x :: x in Minimised(iteration + 1, Some(s.delta)).value <==>
        rocs != [] && x in rocs[1..] && (x in minimised || x in failing))
  {
    NewDacSettingsSteps(iteration, inputs);
    var dac := FromPath(inputs.keyFile, inputs.configurations, "dac").value;
    var original := DacDir(inputs.dacDirs, dac);
    var modules := ModuleDacFiles(inputs.keyFile, inputs.configurations, inputs.detectConfigs).value;
    var minimised := Minimised(iteration, inputs.previousDelta).value;
    var failing := Failing(iteration, inputs.failed).value;
    RewriteAllRocsAreWords(modules, original, dac, minimised, failing);
    MinimisedAfter(iteration, RewriteAll(modules, original, dac, minimised, failing).value.rocs, minimised, failing);
  }

  /** The delta file of iteration n, read at iteration n + 1. */
  lemma MinimisedAfter(iteration: int, rocs: seq<string>, minimised: seq<string>, failing: seq<string>)
    requires iteration >= 1
    requires forall k :: 0 <= k < |rocs| ==> IsWord(rocs[k])
    ensures Minimised(iteration + 1, Some(Records(rocs, minimised, failing))).Ok?
    ensures forall x :: x in Minimised(iteration + 1, Some(Records(rocs, minimised, failing))).value <==>
      rocs != [] && x in rocs[1..] && (x in minimised || x in failing)
  {
    if rocs != [] {
      NextMinimised(rocs, minimised, failing);
    } else {
      assert Records(rocs, minimised, failing) == [];
      assert ListFromDeltaFile([]) == Ok([]);
    }
  }
}
