/** `checkROCthr`: the ROCs whose threshold histogram shows a failure are
    appended to `failed_<iteration>.txt`, a file that starts with a
    header; `getFailingRocs` reads that file back. */
module ThresholdCheck {
  import opened Outcome
  import opened Strings
  import opened CalibLists
  import DacRewrite

  /** A ROC fails when its mean threshold is below 35 ... */
  const MinMean: real := 35.0
  /** ... or more than 2 of its pixels lie outside the allowed range. */
  const MaxOutOfRange: real := 2.0

  /** One key of the open ROOT file: its name and, for a threshold
      histogram, its mean and RMS, the number of pixels in the bins up to
      the one holding 30 and from the one holding 120 on, and the `%.2f`
      texts of the mean and the RMS. */
  datatype Histogram = Histogram(name: string, mean: real, rms: real, outOfRange: real, meanText: string, rmsText: string)

  predicate IsThresholdKey(name: string) {
    EndsWith(name, "Threshold1D")
  }

  /** The key's name with every `_Threshold1D` removed. */
  function RocName(name: string): string {
    ReplaceAll(name, "_Threshold1D", "")
  }

  predicate RocFails(h: Histogram) {
    h.mean < MinMean || h.outOfRange > MaxOutOfRange
  }

  /** The keys written to the failed file: threshold histograms that fail. */
  predicate Reported(h: Histogram) {
    IsThresholdKey(h.name) && RocFails(h)
  }

  /** The text of a failed ROC's record, `%s  %.2f  %.2f`. */
  function RecordBody(h: Histogram): string {
    RocName(h.name) + "  " + h.meanText + "  " + h.rmsText
  }

  /** Each record is written with the newline in front of it. */
  function FailedRecord(h: Histogram): string {
    "\n" + RecordBody(h)
  }

  /** `c * n`: n copies of the character c. */
  function Repeat(c: char, n: nat): (r: string)
    ensures |r| == n && forall i :: 0 <= i < n ==> r[i] == c
  {
    seq(n, _ => c)
  }

  /** `'=' * 60` */
  const Rule: string := Repeat('=', 60)
  const ColumnTitles: string := "FalingROC" + " name" + Repeat(' ', 30) + "ThrMean" + Repeat(' ', 6) + "ThrRMS" + Repeat(' ', 5)
  /** What a new failed file starts with. */
  const FailedHeader: string := Rule + "\n" + ColumnTitles + "\n" + Rule

  /** The records of the reported keys, in the order of the keys. */
  function FailedRecords(hs: seq<Histogram>): string {
    if hs == [] then ""
    else (if Reported(hs[0]) then FailedRecord(hs[0]) else "") + FailedRecords(hs[1..])
  }

  /** The texts of the reported records, in order. */
  function ReportedBodies(hs: seq<Histogram>): (r: seq<string>)
    ensures |r| <= |hs|
  {
    if hs == [] then []
    else (if Reported(hs[0]) then [RecordBody(hs[0])] else []) + ReportedBodies(hs[1..])
  }

  /** The names of the reported ROCs, in order. */
  function ReportedRocs(hs: seq<Histogram>): (r: seq<string>)
    ensures |r| == |ReportedBodies(hs)|
  {
    if hs == [] then []
    else (if Reported(hs[0]) then [RocName(hs[0].name)] else []) + ReportedRocs(hs[1..])
  }

  /** The names among ws that start with BPix or FPix. */
  function RocNamesAmong(ws: seq<string>): (r: seq<string>)
    ensures |r| <= |ws|
  {
    if ws == [] then []
    else (if IsRocEntry(ws[0]) then [ws[0]] else []) + RocNamesAmong(ws[1..])
  }

  /** The failed file after the check: the header when there was no file,
      the earlier content otherwise, then the new records. */
  function CheckedFile(existing: Option<string>, hs: seq<Histogram>): string {
    (if existing.None? then FailedHeader else existing.value) + FailedRecords(hs)
  }

  lemma {:induction false} FailedRecordsConcat(a: seq<Histogram>, b: seq<Histogram>)
    ensures FailedRecords(a + b) == FailedRecords(a) + FailedRecords(b)
    decreases |a|
  {
    if a == [] {
      assert a + b == b;
    } else {
      assert (a + b)[0] == a[0];
      assert (a + b)[1..] == a[1..] + b;
      FailedRecordsConcat(a[1..], b);
    }
  }

  lemma FailedRecordsStep(hs: seq<Histogram>, i: nat)
    requires i < |hs|
    ensures FailedRecords(hs[..i + 1]) == FailedRecords(hs[..i]) + (if Reported(hs[i]) then FailedRecord(hs[i]) else "")
  {
    assert hs[..i + 1] == hs[..i] + [hs[i]];
    FailedRecordsConcat(hs[..i], [hs[i]]);
    assert [hs[i]][1..] == [];
  }

  /** Lines 167-172 of analysisCalibFuncs.py: the record one key adds to the file. */
  method CheckKey(roc: Histogram) returns (record: string)
    ensures record == if Reported(roc) then FailedRecord(roc) else ""
  {
    record := "";
    if EndsWith(roc.name, "Threshold1D") && (roc.mean < MinMean || roc.outOfRange > MaxOutOfRange) {
      var rocname := ReplaceAll(roc.name, "_Threshold1D", "");
      record := "\n" + rocname + "  " + roc.meanText + "  " + roc.rmsText;
    }
  }

  /** Lines 146-174 of analysisCalibFuncs.py: open or create the failed file and
      append a record for every failing threshold histogram. */
  method CheckRocThr(existing: Option<string>, keys: seq<Histogram>) returns (content: string)
    ensures content == CheckedFile(existing, keys)
  {
    if existing.None? {
      content := Rule + "\n" + ColumnTitles + "\n" + Rule;
    } else {
      content := existing.value;
    }
    ghost var start := content;
    var i := 0;
    assert keys[..0] == [];
    while i < |keys|
      invariant 0 <= i <= |keys|
      invariant content == start + FailedRecords(keys[..i])
    {
      var record := CheckKey(keys[i]);
      FailedRecordsStep(keys, i);
      AppendAssoc(start, FailedRecords(keys[..i]), record);
      content := content + record;
      i := i + 1;
    }
    assert keys[..i] == keys;
  }

  /** Checking twice at the same iteration appends the second records after
      the first, as one check of all the keys would. */
  lemma CheckedFileAppends(existing: Option<string>, a: seq<Histogram>, b: seq<Histogram>)
    ensures CheckedFile(Some(CheckedFile(existing, a)), b) == CheckedFile(existing, a + b)
  {
    FailedRecordsConcat(a, b);
  }

  /** A key that is reported has its record in the file, the others none:
      the records are exactly those of the reported keys. */
  lemma {:induction false} FailedRecordsReported(hs: seq<Histogram>)
    ensures FailedRecords(hs) == Join([[]] + ReportedBodies(hs), "\n")
    decreases |hs|
  {
    JoinRecords([], hs);
  }

  /** After a line p, the records continue it as further lines. */
  lemma {:induction false} JoinRecords(p: string, hs: seq<Histogram>)
    ensures p + FailedRecords(hs) == Join([p] + ReportedBodies(hs), "\n")
    decreases |hs|
  {
    if hs == [] {
      assert p + "" == p;
    } else if Reported(hs[0]) {
      JoinRecords(RecordBody(hs[0]), hs[1..]);
      var rest := ReportedBodies(hs[1..]);
      var b := RecordBody(hs[0]);
      var ls := [p] + ([b] + rest);
      assert ReportedBodies(hs) == [b] + rest;
      assert ls[1..] == [b] + rest;
      assert Join(ls, "\n") == p + "\n" + Join([b] + rest, "\n");
      assert FailedRecords(hs) == ("\n" + b) + FailedRecords(hs[1..]);
      AppendAssoc(p, "\n" + b, FailedRecords(hs[1..]));
      AppendAssoc(p, "\n", b);
      AppendAssoc(p + "\n", b, FailedRecords(hs[1..]));
    } else {
      JoinRecords(p, hs[1..]);
      assert ReportedBodies(hs) == ReportedBodies(hs[1..]);
      assert FailedRecords(hs) == "" + FailedRecords(hs[1..]);
    }
  }

  /** A new failed file, in lines: the rule, the column titles, the rule,
      then one record per reported key. */
  lemma FreshFileJoin(hs: seq<Histogram>)
    ensures CheckedFile(None, hs) == Join([Rule, ColumnTitles, Rule] + ReportedBodies(hs), "\n")
  {
    JoinRecords(Rule, hs);
    var ls := [Rule, ColumnTitles, Rule] + ReportedBodies(hs);
    assert ls[1..] == [ColumnTitles, Rule] + ReportedBodies(hs);
    assert ls[1..][1..] == [Rule] + ReportedBodies(hs);
    assert CheckedFile(None, hs) == Rule + "\n" + (ColumnTitles + "\n" + (Rule + FailedRecords(hs)));
  }

  /** A line whose first token is w: it starts with w, followed by
      whitespace or nothing. */
  predicate HeadedBy(l: string, w: string) {
    IsWord(w) && w <= l && (|l| == |w| || IsSpace(l[|w|]))
  }

  lemma LineHead(l: string, w: string)
    requires HeadedBy(l, w)
    ensures Words(l) != [] && Token(l, 0) == w
    ensures IsRocEntry(l) <==> IsRocEntry(w)
    ensures HeadedBy(l + "\n", w)
  {
    assert l == w + l[|w|..];
    WordsOfWordThen(w, l[|w|..]);
    PixPrefixesAreWords();
    PrefixOfHead(l, w, "BPix");
    PrefixOfHead(l, w, "FPix");
    assert (l + "\n")[..|w|] == w;
  }

  /** A prefix without whitespace of a line is a prefix of its first token. */
  lemma PixPrefixesAreWords()
    ensures IsWord("BPix") && IsWord("FPix")
  {
    assert forall i :: 0 <= i < 4 ==> "BPix"[i] != ' ' && "FPix"[i] != ' ';
  }

  lemma PrefixOfHead(l: string, w: string, q: string)
    requires HeadedBy(l, w) && IsWord(q)
    ensures q <= l <==> q <= w
  {
    if |w| < |q| && |w| < |l| {
      assert IsSpace(l[|w|]) && !IsSpace(q[|w|]);
    }
    if |w| >= |q| {
      assert l[..|q|] == w[..|q|];
    }
  }

  /** The first tokens of lines written one after another. */
  lemma {:induction false} EntriesOfTerminated(ls: seq<string>, heads: seq<string>)
    requires |heads| == |ls| && forall i :: 0 <= i < |ls| ==> HeadedBy(ls[i], heads[i])
    ensures forall i :: 0 <= i < |ls| ==> Words(Terminated(ls)[i]) != []
    ensures RocEntries(Terminated(ls)) == RocNamesAmong(heads)
    decreases |ls|
  {
    var t := Terminated(ls);
    if |ls| > 0 {
      EntriesOfTerminated(ls[1..], heads[1..]);
      assert t[1..] == Terminated(ls[1..]);
      forall i | 0 <= i < |ls| ensures Words(t[i]) != [] {
        LineHead(ls[i], heads[i]);
        if i < |ls| - 1 {
          LineHead(ls[i] + "\n", heads[i]);
        }
      }
      LineHead(ls[0], heads[0]);
      if |ls| > 1 {
        LineHead(ls[0] + "\n", heads[0]);
      }
    }
  }

  /** The failed file read back line by line. */
  lemma ReadFreshFile(hs: seq<Histogram>)
    requires forall k :: 0 <= k < |ReportedBodies(hs)| ==> '\n' !in ReportedBodies(hs)[k]
    ensures ReadLines(CheckedFile(None, hs)) == Terminated([Rule, ColumnTitles, Rule] + ReportedBodies(hs))
  {
    FreshFileJoin(hs);
    var ls := [Rule, ColumnTitles, Rule] + ReportedBodies(hs);
    assert '\n' !in Rule && '\n' !in ColumnTitles;
    forall i | 0 <= i < |ls| ensures '\n' !in ls[i] {
      if i >= 3 { assert ls[i] == ReportedBodies(hs)[i - 3]; }
    }
    if ReportedBodies(hs) != [] {
      assert ls[|ls| - 1] == ReportedBodies(hs)[|ReportedBodies(hs)| - 1];
      BodiesNotEmpty(hs);
    }
    ReadLinesOfJoin(ls);
  }

  lemma {:induction false} BodiesNotEmpty(hs: seq<Histogram>)
    ensures forall k :: 0 <= k < |ReportedBodies(hs)| ==> ReportedBodies(hs)[k] != []
    decreases |hs|
  {
    if hs != [] {
      BodiesNotEmpty(hs[1..]);
    }
  }

  /** The record of a ROC whose name and texts are single tokens starts
      with the ROC's name and has no newline. */
  lemma {:induction false} BodiesHeaded(hs: seq<Histogram>)
    requires forall k :: 0 <= k < |hs| && Reported(hs[k]) ==>
      IsWord(RocName(hs[k].name)) && IsWord(hs[k].meanText) && IsWord(hs[k].rmsText)
    ensures forall k :: 0 <= k < |ReportedBodies(hs)| ==>
      HeadedBy(ReportedBodies(hs)[k], ReportedRocs(hs)[k]) && '\n' !in ReportedBodies(hs)[k]
    decreases |hs|
  {
    if hs != [] {
      assert forall k :: 0 <= k < |hs[1..]| ==> hs[1..][k] == hs[k + 1];
      BodiesHeaded(hs[1..]);
      if Reported(hs[0]) {
        var h := hs[0];
        var b := RecordBody(h);
        var w := RocName(h.name);
        assert b[..|w|] == w && b[|w|] == ' ';
        assert '\n' !in w && '\n' !in h.meanText && '\n' !in h.rmsText;
        assert '\n' !in b;
      }
    }
  }

  /** The reported names that start with BPix or FPix. */
  function FailedRocs(hs: seq<Histogram>): seq<string> {
    RocNamesAmong(ReportedRocs(hs))
  }

  /** Round trip through the failed file: what `getFailingRocs` reads back
      from a new file written by the check are the reported ROCs whose name
      starts with BPix or FPix, in the order of the keys. */
  lemma FailedFileRoundTrip(iteration: int, hs: seq<Histogram>)
    requires iteration != 0
    requires forall k :: 0 <= k < |hs| && Reported(hs[k]) ==>
      IsWord(RocName(hs[k].name)) && IsWord(hs[k].meanText) && IsWord(hs[k].rmsText)
    ensures GetFailingRocs(iteration, ReadLines(CheckedFile(None, hs))) == Ok(FailedRocs(hs))
  {
    BodiesHeaded(hs);
    ReadFreshFile(hs);
    var ls := [Rule, ColumnTitles, Rule] + ReportedBodies(hs);
    var heads := [Rule, "FalingROC", Rule] + ReportedRocs(hs);
    FreshFileHeads(hs);
    EntriesOfTerminated(ls, heads);
    FreshHeadsRocs(hs);
    var lines := Terminated(ls);
    assert ReadLines(CheckedFile(None, hs)) == lines;
    assert forall i :: 0 <= i < |lines| ==> Words(lines[i]) != [];
  }

  /** Each line of a new failed file starts with its head: the rule, the
      word FalingROC, the rule, then the reported ROC names. */
  lemma FreshFileHeads(hs: seq<Histogram>)
    requires forall k :: 0 <= k < |ReportedBodies(hs)| ==> HeadedBy(ReportedBodies(hs)[k], ReportedRocs(hs)[k])
    ensures forall i :: 0 <= i < 3 + |ReportedBodies(hs)| ==>
      HeadedBy(([Rule, ColumnTitles, Rule] + ReportedBodies(hs))[i], ([Rule, "FalingROC", Rule] + ReportedRocs(hs))[i])
  {
    var ls := [Rule, ColumnTitles, Rule] + ReportedBodies(hs);
    var heads := [Rule, "FalingROC", Rule] + ReportedRocs(hs);
    HeaderHeads();
    forall i | 0 <= i < |ls| ensures HeadedBy(ls[i], heads[i]) {
      if i >= 3 {
        assert ls[i] == ReportedBodies(hs)[i - 3] && heads[i] == ReportedRocs(hs)[i - 3];
      } else if i == 1 {
        assert ls[i] == ColumnTitles && heads[i] == "FalingROC";
      } else {
        assert ls[i] == Rule && heads[i] == Rule;
      }
    }
  }

  /** The rule is one word; the column titles start with the word FalingROC. */
  lemma HeaderHeads()
    ensures HeadedBy(Rule, Rule)
    ensures HeadedBy(ColumnTitles, "FalingROC")
  {
    assert forall i :: 0 <= i < |Rule| ==> Rule[i] == '=';
    var w := "FalingROC";
    assert forall i :: 0 <= i < 9 ==> ColumnTitles[i] == w[i];
    assert ColumnTitles[9] == ' ';
    assert ColumnTitles[..9] == w;
  }

  /** The header's heads are not ROC names. */
  lemma FreshHeadsRocs(hs: seq<Histogram>)
    ensures RocNamesAmong([Rule, "FalingROC", Rule] + ReportedRocs(hs)) == FailedRocs(hs)
  {
    var heads := [Rule, "FalingROC", Rule] + ReportedRocs(hs);
    assert !IsRocEntry(Rule) by { assert Rule[0] == '='; }
    assert !IsRocEntry("FalingROC") by { assert "FalingROC"[1] == 'a'; }
    assert RocNamesAmong(heads) == RocNamesAmong(heads[1..]);
    assert RocNamesAmong(heads[1..]) == RocNamesAmong(heads[1..][1..]);
    assert heads[1..][1..][1..] == ReportedRocs(hs);
  }
  /** The ROCs the check reports are the failing ROCs the DAC rewrite of
      the same iteration reads, and lowers by 4 unless they are held. */
  lemma CheckFeedsRewrite(iteration: int, hs: seq<Histogram>)
    requires iteration != 0
    requires forall k :: 0 <= k < |hs| && Reported(hs[k]) ==>
      IsWord(RocName(hs[k].name)) && IsWord(hs[k].meanText) && IsWord(hs[k].rmsText)
    ensures DacRewrite.Failing(iteration, Some(ReadLines(CheckedFile(None, hs)))) == Ok(FailedRocs(hs))
  {
    FailedFileRoundTrip(iteration, hs);
  }
}
