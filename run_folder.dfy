/** Run directories are grouped by thousands: run 1234 lives under Run_1000. */
module RunFolder {
  import opened Strings

  /** `runfolder(run)`: `int(run/1000)*1000`. The run number is a Python 2
      int, so `/` is floor division, which Dafny's `/` with a positive
      divisor also is; the result is the multiple of 1000 at or below run. */
  function RunFolder(run: int): (f: int)
    ensures f % 1000 == 0
    ensures f <= run < f + 1000
  {
    run / 1000 * 1000
  }

  /** A bucket is its own bucket. */
  lemma RunFolderIdempotent(run: int)
    ensures RunFolder(RunFolder(run)) == RunFolder(run)
  {
    var f := RunFolder(run);
    var g := RunFolder(f);
    assert f % 1000 == 0 && g % 1000 == 0;
    assert g <= f < g + 1000;
    assert (f - g) % 1000 == 0;
  }

  /** Two runs in the same thousand share a bucket; the bucket of a later run
      is never an earlier one. */
  lemma RunFolderMonotone(a: int, b: int)
    requires a <= b
    ensures RunFolder(a) <= RunFolder(b)
  {
  }

  /** The run folder depends only on the bucket: the bucket of run is the
      unique multiple of 1000 with run in [bucket, bucket + 1000). */
  lemma RunFolderUnique(run: int, f: int)
    requires f % 1000 == 0 && f <= run < f + 1000
    ensures RunFolder(run) == f
  {
    var g := RunFolder(run);
    assert -1000 < f - g < 1000;
    assert (f - g) % 1000 == 0;
  }

  /** The directory of a run, `'%s/Run_%s/Run_%d/' % (runDir, runfolder(run), run)`. */
  function RunPath(runDir: string, run: int): string {
    RunPathOf(runDir, IntToString(RunFolder(run)), IntToString(run))
  }

  function RunPathOf(runDir: string, folder: string, run: string): string {
    runDir + "/Run_" + folder + "/Run_" + run + "/"
  }

  /** Two texts without '/', each followed by a text that starts with '/',
      can only agree when the texts do. */
  lemma UpToSlash(x: string, y: string, u: string, v: string)
    requires '/' !in x && '/' !in u
    requires |y| > 0 && y[0] == '/' && |v| > 0 && v[0] == '/'
    requires x + y == u + v
    ensures x == u && y == v
  {
    var s := x + y;
    assert s[|x|] == '/' && s[|u|] == '/';
    assert forall i :: 0 <= i < |x| ==> s[i] == x[i];
    assert forall i :: 0 <= i < |u| ==> s[i] == u[i];
    assert |x| == |u|;
    assert x == s[..|x|] && u == s[..|u|];
    assert y == s[|x|..] && v == s[|u|..];
  }

  lemma StripPrefix(p: string, a: string, b: string)
    requires p + a == p + b
    ensures a == b
  {
    assert a == (p + a)[|p|..] && b == (p + b)[|p|..];
  }

  lemma StripSuffix(a: string, b: string, t: string)
    requires a + t == b + t
    ensures a == b
  {
    assert a == (a + t)[..|a|] && b == (b + t)[..|b|];
  }

  /** A run directory splits back into its folder and run texts. */
  lemma RunPathOfInjective(runDir: string, f: string, r: string, g: string, q: string)
    requires '/' !in f && '/' !in g && '/' !in r && '/' !in q
    requires RunPathOf(runDir, f, r) == RunPathOf(runDir, g, q)
    ensures f == g && r == q
  {
    var p := runDir + "/Run_";
    var tf := "/Run_" + (r + "/");
    var tg := "/Run_" + (q + "/");
    RunPathOfSplits(p, f, r);
    RunPathOfSplits(p, g, q);
    StripPrefix(p, f + tf, g + tg);
    UpToSlash(f, tf, g, tg);
    StripPrefix("/Run_", r + "/", q + "/");
    StripSuffix(r, q, "/");
  }

  lemma RunPathOfSplits(p: string, f: string, r: string)
    ensures p + f + "/Run_" + r + "/" == p + (f + ("/Run_" + (r + "/")))
  {
    AppendAssoc(p + f + "/Run_", r, "/");
    AppendAssoc(p + f, "/Run_", r + "/");
    AppendAssoc(p, f, "/Run_" + (r + "/"));
  }

  lemma NumberHasNoSlash(n: int)
    ensures '/' !in IntToString(n)
  {
    var s := IntToString(n);
    forall i | 0 <= i < |s| ensures s[i] != '/' {
      assert IsDigit(s[i]) || s[i] == '-';
    }
  }

  /** Different runs under the same output directory get different
      directories. */
  lemma RunPathInjective(runDir: string, a: int, b: int)
    requires RunPath(runDir, a) == RunPath(runDir, b)
    ensures a == b
  {
    NumberHasNoSlash(RunFolder(a));
    NumberHasNoSlash(RunFolder(b));
    NumberHasNoSlash(a);
    NumberHasNoSlash(b);
    RunPathOfInjective(runDir, IntToString(RunFolder(a)), IntToString(a), IntToString(RunFolder(b)), IntToString(b));
    IntToStringInjective(a, b);
  }
}
