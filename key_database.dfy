/** The configuration "database" `configurations.txt`: blank-line separated
    chunks, each listing a `key <K>` line and lines such as `dac <id>` and
    `detconfig <id>`. A key is resolved to the dac or detconfig id of its
    chunk. */
module KeyDatabase {
  import opened Outcome
  import opened Strings
  import opened CalibLists

  /** The key used by a run: the last token of the second line of its
      PixelConfigurationKey.txt; a shorter file or an empty second line
      raises IndexError. */
  function KeyFromKeyFile(lines: seq<string>): (r: Result<string>)
    ensures r.Ok? <==> |lines| >= 2 && Words(lines[1]) != []
    ensures r.Ok? ==> IsWord(r.value) && r.value == Words(lines[1])[|Words(lines[1])| - 1]
    ensures r.Err? ==> r.error == IndexError
  {
    if |lines| < 2 then Err(IndexError)
    else
      var ws := Words(lines[1]);
      if ws == [] then Err(IndexError) else Ok(ws[|ws| - 1])
  }

  /** The lines of one chunk, `c.split('\n')`. */
  function ChunkLines(chunk: string): seq<string> {
    Split(chunk, "\n")
  }

  /** A chunk belongs to the key when one of its lines is exactly `key <K>`. */
  predicate Matches(chunk: string, key: string) {
    ("key " + key) in ChunkLines(chunk)
  }

  /** `[item.split()[1] for item in config if item.startswith(field)]`: the
      second token of every line starting with field, in order; such a line
      with fewer than two tokens raises IndexError. */
  function FieldValues(config: seq<string>, field: string): (r: Result<seq<string>>)
    ensures r.Ok? <==> forall i :: 0 <= i < |config| && StartsWith(config[i], field) ==> |Words(config[i])| >= 2
    ensures r.Err? ==> r.error == IndexError
    ensures r.Ok? && r.value != [] ==>
      exists i :: 0 <= i < |config| && StartsWith(config[i], field) && r.value[0] == Token(config[i], 1) &&
        forall j :: 0 <= j < i ==> !StartsWith(config[j], field)
    ensures r.Ok? && r.value == [] ==> forall i :: 0 <= i < |config| ==> !StartsWith(config[i], field)
  {
    if config == [] then Ok([])
    else
      var rest := FieldValues(config[1..], field);
      assert forall i :: 0 < i < |config| ==> config[i] == config[1..][i - 1];
      if StartsWith(config[0], field) then
        var ws := Words(config[0]);
        if |ws| < 2 then Err(IndexError)
        else if rest.Err? then Err(IndexError)
        else Ok([ws[1]] + rest.value)
      else if rest.Err? then Err(IndexError)
      else
        assert rest.value != [] ==> exists i :: (0 <= i < |config[1..]| && StartsWith(config[1..][i], field) &&
          rest.value[0] == Token(config[1..][i], 1) && forall j :: 0 <= j < i ==> !StartsWith(config[1..][j], field));
        rest
  }

  /** The index of the last chunk that belongs to the key. */
  function LastMatch(chunks: seq<string>, key: string): (r: Option<nat>)
    ensures r.Some? ==> r.value < |chunks| && Matches(chunks[r.value], key)
    ensures r.Some? ==> forall j :: r.value < j < |chunks| ==> !Matches(chunks[j], key)
    ensures r.None? ==> forall j :: 0 <= j < |chunks| ==> !Matches(chunks[j], key)
  {
    if chunks == [] then None
    else if Matches(chunks[|chunks| - 1], key) then Some(|chunks| - 1)
    else
      var r := LastMatch(chunks[..|chunks| - 1], key);
      assert forall j :: 0 <= j < |chunks| - 1 ==> chunks[j] == chunks[..|chunks| - 1][j];
      r
  }

  /** The first value of the field in a chunk, when it can be read and has one. */
  function FirstField(config: seq<string>, field: string): Option<string> {
    var vs := FieldValues(config, field);
    if vs.Ok? && vs.value != [] then Some(vs.value[0]) else None
  }

  /** The field values of the latest chunk of the key seen so far (Python's
      `dac` list), or none. */
  function LatestValues(chunks: seq<string>, key: string, field: string): seq<string>
    requires MatchesReadable(chunks, key, field)
  {
    match LastMatch(chunks, key)
    case None => []
    case Some(j) => FieldValues(ChunkLines(chunks[j]), field).value
  }

  /** One more chunk read: the latest values change only if it has the key. */
  lemma LatestValuesStep(chunks: seq<string>, i: nat, key: string, field: string)
    requires i < |chunks|
    requires MatchesReadable(chunks[..i], key, field)
    requires Matches(chunks[i], key) ==> FieldValues(ChunkLines(chunks[i]), field).Ok?
    ensures MatchesReadable(chunks[..i + 1], key, field)
    ensures LatestValues(chunks[..i + 1], key, field) ==
      if Matches(chunks[i], key) then FieldValues(ChunkLines(chunks[i]), field).value
      else LatestValues(chunks[..i], key, field)
  {
    var next := chunks[..i + 1];
    assert next[..i] == chunks[..i];
    assert next[i] == chunks[i];
    assert forall j :: 0 <= j < i ==> next[j] == chunks[..i][j];
  }

  /** Every chunk of the key can be read without IndexError. */
  predicate MatchesReadable(chunks: seq<string>, key: string, field: string) {
    forall i :: 0 <= i < |chunks| && Matches(chunks[i], key) ==> FieldValues(ChunkLines(chunks[i]), field).Ok?
  }

  function NotFound(field: string): Error {
    Exit("Error: " + field + " not found")
  }

  /** What the search finds: the field of the LAST chunk of the key, its
      first field line; the search exits when that chunk has no such line
      or no chunk has the key, and raises IndexError when a chunk of the key
      has a field line without a value. */
  function Lookup(chunks: seq<string>, key: string, field: string): (r: Result<string>)
    ensures r.Ok? ==> exists i :: (0 <= i < |chunks| && Matches(chunks[i], key) &&
      (forall j :: i < j < |chunks| ==> !Matches(chunks[j], key)) &&
      FirstField(ChunkLines(chunks[i]), field) == Some(r.value))
    ensures (forall i :: 0 <= i < |chunks| ==> !Matches(chunks[i], key)) ==> r == Err(NotFound(field))
  {
    if !MatchesReadable(chunks, key, field) then Err(IndexError)
    else match LastMatch(chunks, key)
      case None => Err(NotFound(field))
      case Some(i) =>
        var vs := FieldValues(ChunkLines(chunks[i]), field).value;
        if vs == [] then Err(NotFound(field)) else Ok(vs[0])
  }

  /** `findDacFromKey` / `findDetConfigFromKey` with field "dac" or
      "detconfig": split the database into chunks and keep the field values
      of the latest chunk of the key. */
  method FindFromKey(content: string, key: string, field: string) returns (r: Result<string>)
    ensures r == Lookup(Split(content, "\n\n"), key, field)
  {
    var chunks := Split(content, "\n\n");
    var values: seq<string> := [];
    var i := 0;
    while i < |chunks|
      invariant 0 <= i <= |chunks|
      invariant MatchesReadable(chunks[..i], key, field)
      invariant values == LatestValues(chunks[..i], key, field)
    {
      var config := Split(chunks[i], "\n");
      if ("key " + key) in config {
        var found := FieldValues(config, field);
        if found.Err? {
          assert !MatchesReadable(chunks, key, field);
          return Err(found.error);
        }
        values := found.value;
      }
      LatestValuesStep(chunks, i, key, field);
      i := i + 1;
    }
    assert chunks[..i] == chunks;
    if |values| < 1 {
      return Err(NotFound(field));
    }
    return Ok(values[0]);
  }

  /** The field of the run's key: the key read from the key file, then
      looked up in the database. */
  function FromPath(keyFile: seq<string>, content: string, field: string): (r: Result<string>)
    ensures KeyFromKeyFile(keyFile).Err? ==> r == Err(IndexError)
    ensures KeyFromKeyFile(keyFile).Ok? ==> r == Lookup(Split(content, "\n\n"), KeyFromKeyFile(keyFile).value, field)
  {
    var key :- KeyFromKeyFile(keyFile);
    Lookup(Split(content, "\n\n"), key, field)
  }

  /** `findDacFromPath`: the key of the run, then its dac id. */
  method FindDacFromPath(keyFile: seq<string>, content: string) returns (r: Result<string>)
    ensures r == FromPath(keyFile, content, "dac")
  {
    var key :- KeyFromKeyFile(keyFile);
    r := FindFromKey(content, key, "dac");
  }

  /** `findDetConfigFromPath`: the key of the run, then its detconfig id. */
  method FindDetConfigFromPath(keyFile: seq<string>, content: string) returns (r: Result<string>)
    ensures r == FromPath(keyFile, content, "detconfig")
  {
    var key :- KeyFromKeyFile(keyFile);
    r := FindFromKey(content, key, "detconfig");
  }

  /** A later chunk of the key overrides everything before it, even when it
      has no field line and an earlier chunk had one. */
  lemma LookupLaterChunkWins(chunks: seq<string>, c: string, key: string, field: string)
    requires Matches(c, key)
    requires MatchesReadable(chunks, key, field)
    requires FieldValues(ChunkLines(c), field).Ok?
    ensures Lookup(chunks + [c], key, field) ==
      (var vs := FieldValues(ChunkLines(c), field).value; if vs == [] then Err(NotFound(field)) else Ok(vs[0]))
  {
    var all := chunks + [c];
    assert all[|chunks|] == c;
    assert forall i :: 0 <= i < |chunks| ==> all[i] == chunks[i];
    assert MatchesReadable(all, key, field);
  }

  /** A chunk of another key changes nothing. */
  lemma LookupIgnoresOtherKeys(chunks: seq<string>, c: string, key: string, field: string)
    requires !Matches(c, key)
    ensures Lookup(chunks + [c], key, field) == Lookup(chunks, key, field)
  {
    var all := chunks + [c];
    assert all[|chunks|] == c;
    assert all[..|all| - 1] == chunks;
    assert forall i :: 0 <= i < |chunks| ==> all[i] == chunks[i];
    assert MatchesReadable(all, key, field) == MatchesReadable(chunks, key, field);
  }
}
