/** Numbering of DAC settings directories: each new snapshot takes the id
    after the largest one already present. */
module DacIds {
  import opened Outcome

  /** The largest id, which `subdirs.sort()` leaves at `subdirs[-1]`. */
  function Max(ids: seq<int>): (m: int)
    requires |ids| > 0
    ensures m in ids
    ensures forall i :: 0 <= i < |ids| ==> ids[i] <= m
  {
    if |ids| == 1 then ids[0]
    else
      var rest := Max(ids[1..]);
      if ids[0] >= rest then ids[0] else rest
  }

  /** `newsettings = subdirs[-1] + 1` after sorting the existing directory
      ids; an empty listing makes `subdirs[-1]` raise IndexError. */
  function NewDacId(subdirs: seq<int>): (r: Result<int>)
    ensures r.Err? <==> subdirs == []
    ensures r.Err? ==> r.error == IndexError
    ensures r.Ok? ==> forall i :: 0 <= i < |subdirs| ==> subdirs[i] < r.value
    ensures r.Ok? ==> r.value - 1 in subdirs
  {
    if subdirs == [] then Err(IndexError) else Ok(Max(subdirs) + 1)
  }

  /** The new directory never collides with an existing one, and once it is
      added the next new id is one larger still. */
  lemma NewDacIdFresh(subdirs: seq<int>)
    requires subdirs != []
    ensures NewDacId(subdirs).value !in subdirs
    ensures NewDacId(subdirs + [NewDacId(subdirs).value]) == Ok(NewDacId(subdirs).value + 1)
  {
    var n := NewDacId(subdirs).value;
    var grown := subdirs + [n];
    assert grown[|subdirs|] == n;
    var m := NewDacId(grown).value;
    assert n < m;
    assert m - 1 in grown;
  }
}
