/** The ways the calibration scripts stop early, and a result type carrying them. */
module Outcome {

  /** Why a script stops. IndexError and ValueError are the Python
      exceptions the scripts do not catch; Exit is a `sys.exit` with a
      message; MissingFile is an `open` of a file that is not there. */
  datatype Error =
    | IndexError
    | ValueError
    | Exit(message: string)
    | MissingFile(name: string)

  datatype Result<+T> = Ok(value: T) | Err(error: Error) {
    predicate IsFailure() { Err? }

    function PropagateFailure<U>(): Result<U>
      requires Err?
    {
      Err(error)
    }

    function Extract(): T
      requires Ok?
    {
      value
    }
  }

  /** Runs a sequence of steps in order, as straight-line Python does: the
      first step that raises stops everything, otherwise all values are kept. */
  function Collect<T>(rs: seq<Result<T>>): (r: Result<seq<T>>)
    ensures r.Ok? <==> forall i :: 0 <= i < |rs| ==> rs[i].Ok?
    ensures r.Ok? ==> |r.value| == |rs| && forall i :: 0 <= i < |rs| ==> rs[i] == Ok(r.value[i])
    ensures r.Err? ==> exists i :: 0 <= i < |rs| && rs[i] == Err(r.error) && forall j :: 0 <= j < i ==> rs[j].Ok?
  {
    if rs == [] then Ok([])
    else match rs[0]
      case Err(e) => Err(e)
      case Ok(v) =>
        match Collect(rs[1..])
        case Err(e) =>
          assert exists i :: 0 <= i < |rs[1..]| && rs[1..][i] == Err(e) && forall j :: 0 <= j < i ==> rs[1..][j].Ok?;
          var i :| 0 <= i < |rs[1..]| && rs[1..][i] == Err(e) && forall j :: 0 <= j < i ==> rs[1..][j].Ok?;
          assert rs[i + 1] == Err(e);
          assert forall j :: 0 <= j < i + 1 ==> rs[j].Ok? by {
            forall j | 0 <= j < i + 1 ensures rs[j].Ok? {
              if j > 0 { assert rs[j] == rs[1..][j - 1]; }
            }
          }
          Err(e)
        case Ok(vs) => Ok([v] + vs)
  }

  /** The error Collect reports is the one of the first failing step. */
  lemma CollectFirstError<T>(rs: seq<Result<T>>, i: nat, e: Error)
    requires i < |rs| && rs[i] == Err(e)
    requires forall j :: 0 <= j < i ==> rs[j].Ok?
    ensures Collect(rs) == Err(e)
  {
    var r := Collect(rs);
    assert r.Err?;
    var k :| 0 <= k < |rs| && rs[k] == Err(r.error) && forall j :: 0 <= j < k ==> rs[j].Ok?;
  }

  /** When every step succeeds, Collect returns exactly their values. */
  lemma CollectAllOk<T>(rs: seq<Result<T>>, vs: seq<T>)
    requires |vs| == |rs| && forall i :: 0 <= i < |rs| ==> rs[i] == Ok(vs[i])
    ensures Collect(rs) == Ok(vs)
  {
    var r := Collect(rs);
    assert r.Ok?;
    assert r.value == vs;
  }

  /** Running one more step after a successful prefix. */
  lemma CollectPrefixOk<T>(rs: seq<Result<T>>, i: nat, vs: seq<T>)
    requires i < |rs| && Collect(rs[..i]) == Ok(vs) && rs[i].Ok?
    ensures Collect(rs[..i + 1]) == Ok(vs + [rs[i].value])
  {
    var prefix := rs[..i + 1];
    assert forall j :: 0 <= j < i ==> prefix[j] == rs[..i][j];
    CollectAllOk(prefix, vs + [rs[i].value]);
  }

  /** The first failing step after a successful prefix decides the outcome. */
  lemma CollectPrefixErr<T>(rs: seq<Result<T>>, i: nat, vs: seq<T>)
    requires i < |rs| && Collect(rs[..i]) == Ok(vs) && rs[i].Err?
    ensures Collect(rs) == Err(rs[i].error)
  {
    assert forall j :: 0 <= j < i ==> rs[j] == rs[..i][j];
    CollectFirstError(rs, i, rs[i].error);
  }

  /** Concatenation of a sequence of sequences. */
  function Flatten<T>(ss: seq<seq<T>>): (r: seq<T>)
    ensures |ss| > 0 ==> r == Flatten(ss[..|ss| - 1]) + ss[|ss| - 1]
  {
    if ss == [] then []
    else
      assert ss[1..] == [] || ss[1..][..|ss[1..]| - 1] == ss[..|ss| - 1][1..];
      ss[0] + Flatten(ss[1..])
  }
}
