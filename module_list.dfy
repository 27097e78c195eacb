/** The list of per-module DAC files to rewrite, derived from the detector
    configuration: one `ROC_DAC_module_<module>.dat` per module that has at
    least one usable ROC, in the order modules first appear. */
module ModuleList {
  import opened Outcome
  import opened Strings
  import opened CalibLists
  import opened KeyDatabase

  /** Entries flagged `noAnalogSignal` or `noInit` are left out. */
  predicate Skipped(entry: string) {
    Contains(entry, "noAnalogSignal") || Contains(entry, "noInit")
  }

  /** `"_".join(entry.split("_")[:-1])`: the entry without its last
      `_`-separated component (a ROC name without its `_ROC<n>` part). */
  function ModuleName(entry: string): string {
    var parts := Split(entry, "_");
    Join(parts[..|parts| - 1], "_")
  }

  lemma NoUnderscore(b: string)
    requires '_' !in b
    ensures Split(b, "_") == [b]
  {
    ContainsFirstChar(b, "_");
    SplitFromAbsent(b, "_", []);
    assert [] + b == b;
  }

  /** The module name of `a_b`, where b has no underscore, is a. */
  lemma ModuleNameDropsLastComponent(a: string, b: string)
    requires '_' !in b
    ensures ModuleName(a + "_" + b) == a
  {
    assert a + "_" + b == a + ['_'] + b;
    SplitFromCharAppend(a, '_', b, []);
    NoUnderscore(b);
    var parts := Split(a + "_" + b, "_");
    assert parts == Split(a, "_") + [b];
    assert parts[..|parts| - 1] == Split(a, "_");
    JoinSplit(a, "_");
  }

  /** An entry without any underscore gives the empty module name. */
  lemma ModuleNameWithoutUnderscore(entry: string)
    requires '_' !in entry
    ensures ModuleName(entry) == ""
  {
    NoUnderscore(entry);
  }

  /** The module names of the entries that are not skipped, in order. */
  function KeptModules(entries: seq<string>): (r: seq<string>)
    ensures |r| <= |entries|
  {
    if entries == [] then []
    else
      var last := entries[|entries| - 1];
      KeptModules(entries[..|entries| - 1]) + (if Skipped(last) then [] else [ModuleName(last)])
  }

  /** Each element once, at the place of its first occurrence. */
  function FirstOccurrences(s: seq<string>): seq<string> {
    if s == [] then []
    else
      var seen := FirstOccurrences(s[..|s| - 1]);
      if s[|s| - 1] in seen then seen else seen + [s[|s| - 1]]
  }

  predicate NoDuplicates(s: seq<string>) {
    forall i, j :: 0 <= i < j < |s| ==> s[i] != s[j]
  }

  /** Index of the first occurrence of x in s. */
  function IndexOf(s: seq<string>, x: string): (k: nat)
    requires x in s
    ensures k < |s| && s[k] == x && forall j :: 0 <= j < k ==> s[j] != x
  {
    if s[0] == x then 0 else 1 + IndexOf(s[1..], x)
  }

  lemma IndexOfAppend(s: seq<string>, y: string, x: string)
    requires x in s
    ensures x in s + [y] && IndexOf(s + [y], x) == IndexOf(s, x)
  {
    var k := IndexOf(s, x);
    var t := s + [y];
    assert t[k] == x;
    var k' := IndexOf(t, x);
    assert forall j :: 0 <= j < |s| ==> t[j] == s[j];
  }

  /** The deduplicated list has the same elements as the input. */
  lemma {:induction false} FirstOccurrencesElements(s: seq<string>)
    ensures forall x :: x in FirstOccurrences(s) <==> x in s
    decreases |s|
  {
    if s != [] {
      var init := s[..|s| - 1];
      assert s == init + [s[|s| - 1]];
      FirstOccurrencesElements(init);
    }
  }

  /** The deduplicated list has no duplicates. */
  lemma {:induction false} FirstOccurrencesDistinct(s: seq<string>)
    ensures NoDuplicates(FirstOccurrences(s))
    decreases |s|
  {
    if s != [] {
      var init := s[..|s| - 1];
      var x := s[|s| - 1];
      FirstOccurrencesDistinct(init);
      var seen := FirstOccurrences(init);
      if x !in seen {
        var r := seen + [x];
        forall i, j | 0 <= i < j < |r| ensures r[i] != r[j] {
          if j < |seen| {
            assert r[i] == seen[i] && r[j] == seen[j];
          } else {
            assert r[i] == seen[i] && r[j] == x;
          }
        }
      }
    }
  }

  /** The elements of r lie in s in the order of their first occurrences. */
  predicate OrderedIn(r: seq<string>, s: seq<string>) {
    (forall i :: 0 <= i < |r| ==> r[i] in s) &&
    forall i, j :: 0 <= i < j < |r| ==> IndexOf(s, r[i]) < IndexOf(s, r[j])
  }

  lemma OrderedAppendSeen(r: seq<string>, init: seq<string>, x: string)
    requires OrderedIn(r, init)
    ensures OrderedIn(r, init + [x])
  {
    var s := init + [x];
    forall i | 0 <= i < |r| ensures r[i] in s && IndexOf(s, r[i]) == IndexOf(init, r[i]) {
      assert r[i] in init;
      IndexOfAppend(init, x, r[i]);
    }
  }

  lemma OrderedAppendNew(r: seq<string>, init: seq<string>, x: string)
    requires OrderedIn(r, init) && x !in init
    requires forall y :: y in r ==> y in init
    ensures OrderedIn(r + [x], init + [x])
  {
    var s := init + [x];
    var t := r + [x];
    OrderedAppendSeen(r, init, x);
    assert IndexOf(s, x) == |init| by {
      assert s[|init|] == x;
      assert forall j :: 0 <= j < |init| ==> s[j] == init[j];
    }
    forall i | 0 <= i < |t| ensures t[i] in s {
      if i < |r| { assert t[i] == r[i]; }
    }
    forall i, j | 0 <= i < j < |t| ensures IndexOf(s, t[i]) < IndexOf(s, t[j]) {
      assert t[i] == r[i];
      if j < |r| {
        assert t[j] == r[j];
        assert IndexOf(s, r[i]) < IndexOf(s, r[j]);
      } else {
        assert t[j] == x;
        assert IndexOf(s, r[i]) < |init| by {
          assert r[i] in init;
          IndexOfAppend(init, x, r[i]);
        }
      }
    }
  }

  /** The deduplicated list keeps the elements in order of first occurrence. */
  lemma {:induction false} FirstOccurrencesOrdered(s: seq<string>)
    ensures OrderedIn(FirstOccurrences(s), s)
    decreases |s|
  {
    if s != [] {
      var init := s[..|s| - 1];
      var x := s[|s| - 1];
      assert s == init + [x];
      FirstOccurrencesOrdered(init);
      FirstOccurrencesElements(init);
      var seen := FirstOccurrences(init);
      if x !in seen {
        OrderedAppendNew(seen, init, x);
      } else {
        OrderedAppendSeen(seen, init, x);
      }
    } else {
      assert FirstOccurrences(s) == [];
    }
  }

  /** The deduplicated list has no duplicates, the same elements as the
      input, and keeps them in order of first occurrence. */
  lemma FirstOccurrencesProperties(s: seq<string>)
    ensures NoDuplicates(FirstOccurrences(s))
    ensures forall x :: x in FirstOccurrences(s) <==> x in s
    ensures forall i, j :: 0 <= i < j < |FirstOccurrences(s)| ==>
      FirstOccurrences(s)[i] in s && FirstOccurrences(s)[j] in s &&
      IndexOf(s, FirstOccurrences(s)[i]) < IndexOf(s, FirstOccurrences(s)[j])
  {
    FirstOccurrencesDistinct(s);
    FirstOccurrencesElements(s);
    FirstOccurrencesOrdered(s);
  }

  /** Lines 241-246 of analysisCalibFuncs.py: walk the configuration entries, skip the
      flagged ones and append each module name not seen before. */
  method CollectModules(entries: seq<string>) returns (mods: seq<string>)
    ensures mods == FirstOccurrences(KeptModules(entries))
    ensures NoDuplicates(mods)
    ensures forall m :: m in mods <==> m in KeptModules(entries)
  {
    mods := [];
    var i := 0;
    while i < |entries|
      invariant 0 <= i <= |entries|
      invariant mods == FirstOccurrences(KeptModules(entries[..i]))
    {
      var m := entries[i];
      ghost var prefix := entries[..i + 1];
      assert prefix[..i] == entries[..i] && prefix[i] == m;
      assert KeptModules(prefix) == KeptModules(entries[..i]) + (if Skipped(m) then [] else [ModuleName(m)]);
      if !Contains(m, "noAnalogSignal") && !Contains(m, "noInit") {
        var parts := Split(m, "_");
        var name := Join(parts[..|parts| - 1], "_");
        ghost var kept := KeptModules(entries[..i]);
        assert (kept + [name])[..|kept|] == kept;
        assert KeptModules(prefix) == kept + [name];
        if name !in mods {
          mods := mods + [name];
        }
      } else {
        assert Skipped(m);
        assert KeptModules(entries[..i]) + [] == KeptModules(entries[..i]);
      }
      i := i + 1;
    }
    assert entries[..i] == entries;
    FirstOccurrencesProperties(KeptModules(entries));
  }

  /** The DAC file of a module, `"ROC_DAC_module_" + mod + ".dat"`. */
  function DacFileName(mod: string): string {
    "ROC_DAC_module_" + mod + ".dat"
  }

  lemma DacFileNameInjective(a: string, b: string)
    requires DacFileName(a) == DacFileName(b)
    ensures a == b
  {
    var p := "ROC_DAC_module_";
    assert DacFileName(a)[|p|..|DacFileName(a)| - 4] == a;
    assert DacFileName(b)[|p|..|DacFileName(b)| - 4] == b;
  }

  function DacFileNames(mods: seq<string>): seq<string> {
    seq(|mods|, k requires 0 <= k < |mods| => DacFileName(mods[k]))
  }

  /** The detector configuration file of a detconfig id, relative to the
      detconfig directory. */
  function DetectConfigFile(detconfig: string): string {
    detconfig + "/detectconfig.dat"
  }

  /** Lines 239-250 of analysisCalibFuncs.py: read the detector configuration of the
      run, collect its modules and name their DAC files. */
  method ModuleFiles(detectConfig: seq<string>) returns (files: seq<string>)
    ensures files == DacFileNames(FirstOccurrences(KeptModules(ListFromFile(detectConfig))))
    ensures NoDuplicates(files)
    ensures forall f :: f in files <==> exists m :: m in KeptModules(ListFromFile(detectConfig)) && f == DacFileName(m)
  {
    var entries := ListFromFile(detectConfig);
    var mods := CollectModules(entries);
    files := seq(|mods|, k requires 0 <= k < |mods| => DacFileName(mods[k]));
    forall i, j | 0 <= i < j < |files| ensures files[i] != files[j] {
      if files[i] == files[j] { DacFileNameInjective(mods[i], mods[j]); }
    }
    forall f | f in files ensures exists m :: m in KeptModules(entries) && f == DacFileName(m) {
      var k :| 0 <= k < |files| && files[k] == f;
      assert mods[k] in KeptModules(entries);
    }
    forall f | exists m :: m in KeptModules(entries) && f == DacFileName(m) ensures f in files {
      var m :| m in KeptModules(entries) && f == DacFileName(m);
      var k :| 0 <= k < |mods| && mods[k] == m;
      assert files[k] == f;
    }
  }

  /** What `createModuleList` returns: the run's detconfig id resolved
      through the key, its configuration read, and the DAC files of its
      modules named; a configuration file that does not exist is an error. */
  function ModuleDacFiles(keyFile: seq<string>, configurations: string, detectConfigs: map<string, seq<string>>): Result<seq<string>> {
    var detconfig :- FromPath(keyFile, configurations, "detconfig");
    var path := DetectConfigFile(detconfig);
    if path !in detectConfigs then Err(MissingFile(path))
    else Ok(DacFileNames(FirstOccurrences(KeptModules(ListFromFile(detectConfigs[path])))))
  }

  /** `createModuleList`: resolve the run's key to its detconfig id, read
      that configuration and name the DAC files of its modules. */
  method CreateModuleList(keyFile: seq<string>, configurations: string, detectConfigs: map<string, seq<string>>)
    returns (r: Result<seq<string>>)
    ensures r == ModuleDacFiles(keyFile, configurations, detectConfigs)
  {
    var detconfig :- FindDetConfigFromPath(keyFile, configurations);
    var path := DetectConfigFile(detconfig);
    if path !in detectConfigs {
      return Err(MissingFile(path));
    }
    var files := ModuleFiles(detectConfigs[path]);
    return Ok(files);
  }

  /** Distinct modules have distinct DAC files, each of the DAC file form. */
  lemma DacFileNamesDistinct(mods: seq<string>)
    requires NoDuplicates(mods)
    ensures NoDuplicates(DacFileNames(mods))
    ensures forall k :: 0 <= k < |DacFileNames(mods)| ==>
      StartsWith(DacFileNames(mods)[k], "ROC_DAC_module_") && EndsWith(DacFileNames(mods)[k], ".dat")
  {
    var files := DacFileNames(mods);
    forall i, j | 0 <= i < j < |files| ensures files[i] != files[j] {
      if files[i] == files[j] { DacFileNameInjective(mods[i], mods[j]); }
    }
    forall k | 0 <= k < |files|
      ensures StartsWith(files[k], "ROC_DAC_module_") && EndsWith(files[k], ".dat")
    {
      assert files[k] == "ROC_DAC_module_" + mods[k] + ".dat";
    }
  }

  /** The module files to rewrite are distinct DAC file names. */
  lemma ModuleDacFilesDistinct(keyFile: seq<string>, configurations: string, detectConfigs: map<string, seq<string>>)
    requires ModuleDacFiles(keyFile, configurations, detectConfigs).Ok?
    ensures NoDuplicates(ModuleDacFiles(keyFile, configurations, detectConfigs).value)
    ensures forall k :: 0 <= k < |ModuleDacFiles(keyFile, configurations, detectConfigs).value| ==>
      StartsWith(ModuleDacFiles(keyFile, configurations, detectConfigs).value[k], "ROC_DAC_module_") &&
      EndsWith(ModuleDacFiles(keyFile, configurations, detectConfigs).value[k], ".dat")
  {
    var detconfig := FromPath(keyFile, configurations, "detconfig").value;
    var path := DetectConfigFile(detconfig);
    assert path in detectConfigs;
    var kept := KeptModules(ListFromFile(detectConfigs[path]));
    assert ModuleDacFiles(keyFile, configurations, detectConfigs).value == DacFileNames(FirstOccurrences(kept));
    FirstOccurrencesProperties(kept);
    DacFileNamesDistinct(FirstOccurrences(kept));
  }
}
