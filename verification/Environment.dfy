/** The environment block handed to a child process: lines of the form key=value, each ended by a NUL,
    and one more NUL at the end. */
module Environment {
  import opened Texts

  type Env = map<Text, Text>

  const DELIMITER: char := '='

  // The position of the first c in s, or the length of s.
  function Find(c: char, s: Text): (n: nat)
    ensures n <= |s| && c !in s[..n] && (n < |s| ==> s[n] == c)
  {
    if s == [] || s[0] == c then 0
    else
      var n := Find(c, s[1..]);
      assert s[..n + 1] == [s[0]] + s[1..][..n];
      1 + n
  }

  lemma {:induction false} FindLeast(c: char, s: Text, i: nat)
    requires i < |s| && s[i] == c
    ensures Find(c, s) <= i
  {
    if s[0] != c {
      FindLeast(c, s[1..], i - 1);
    }
  }

  /* Decoding */

  // A block as the operating system hands it over: reading line after line meets the final NUL.
  predicate Terminated(block: Text)
    decreases |block|
  {
    block != [] && (block[0] == NUL || (Find(NUL, block) < |block| && Terminated(block[Find(NUL, block) + 1..])))
  }

  // A line without a delimiter is skipped, and a later line overrides an earlier one with the same key.
  function AddLine(env: Env, line: Text): Env {
    var pos := Find(DELIMITER, line);
    if pos < |line| then env[line[..pos] := line[pos + 1..]] else env
  }

  function DecodeOnto(env: Env, block: Text): Env
    requires Terminated(block)
    decreases |block|
  {
    if block[0] == NUL then env
    else
      var n := Find(NUL, block);
      DecodeOnto(AddLine(env, block[..n]), block[n + 1..])
  }

  function Decode(block: Text): Env
    requires Terminated(block)
  {
    DecodeOnto(map[], block)
  }

  /* Encoding, in the order in which the map is iterated */

  function Lines(env: Env, keys: seq<Text>): Text
    requires forall i :: 0 <= i < |keys| ==> keys[i] in env
  {
    if keys == [] then []
    else keys[0] + [DELIMITER] + env[keys[0]] + [NUL] + Lines(env, keys[1..])
  }

  function Encode(env: Env, keys: seq<Text>): Text
    requires forall i :: 0 <= i < |keys| ==> keys[i] in env
  {
    Lines(env, keys) + [NUL]
  }

  ghost predicate Enumerates(keys: seq<Text>, env: Env) {
    forall k :: k in keys <==> k in env
  }

  predicate CleanEntry(k: Text, v: Text) {
    DELIMITER !in k && NUL !in k && NUL !in v
  }

  predicate Clean(env: Env) {
    forall k :: k in env ==> CleanEntry(k, env[k])
  }

  /* Round trip */

  lemma {:induction false} FindUnique(c: char, a: Text, b: Text)
    requires c !in a
    ensures Find(c, a + [c] + b) == |a|
  {
    if a != [] {
      FindUnique(c, a[1..], b);
      assert (a + [c] + b)[1..] == a[1..] + [c] + b;
    }
  }

  lemma LineReadsBack(env: Env, k: Text, v: Text, rest: Text)
    requires CleanEntry(k, v) && Terminated(rest)
    ensures var block := k + [DELIMITER] + v + [NUL] + rest;
            Terminated(block) && DecodeOnto(env, block) == DecodeOnto(env[k := v], rest)
  {
    var line := k + [DELIMITER] + v;
    var block := line + [NUL] + rest;
    FirstLine(line, rest);
    EntryOfLine(env, k, v);
    assert block[0] == line[0] != NUL;
  }

  lemma FirstLine(line: Text, rest: Text)
    requires NUL !in line
    ensures var block, n := line + [NUL] + rest, |line|;
            Find(NUL, block) == n && block[..n] == line && block[n + 1..] == rest
  {
    FindUnique(NUL, line, rest);
  }

  lemma EntryOfLine(env: Env, k: Text, v: Text)
    requires DELIMITER !in k
    ensures AddLine(env, k + [DELIMITER] + v) == env[k := v]
  {
    var line := k + [DELIMITER] + v;
    FindUnique(DELIMITER, k, v);
    assert line[..|k|] == k && line[|k| + 1..] == v;
  }

  // The entries of some of the keys.
  function Part(env: Env, keys: seq<Text>): Env
    requires forall i :: 0 <= i < |keys| ==> keys[i] in env
  {
    map k | k in keys :: env[k]
  }

  lemma PartCons(env: Env, keys: seq<Text>, onto: Env)
    requires keys != [] && forall i :: 0 <= i < |keys| ==> keys[i] in env
    ensures onto[keys[0] := env[keys[0]]] + Part(env, keys[1..]) == onto + Part(env, keys)
  {
    assert keys == [keys[0]] + keys[1..];
  }

  lemma {:induction false} LinesReadBack(env: Env, keys: seq<Text>, onto: Env)
    requires Clean(env) && forall i :: 0 <= i < |keys| ==> keys[i] in env
    ensures Terminated(Encode(env, keys)) && DecodeOnto(onto, Encode(env, keys)) == onto + Part(env, keys)
  {
    if keys == [] {
      assert Encode(env, keys) == [NUL];
      assert Part(env, keys) == map[];
    } else {
      var k, rest := keys[0], keys[1..];
      LinesReadBack(env, rest, onto[k := env[k]]);
      LineReadsBack(onto, k, env[k], Encode(env, rest));
      assert Encode(env, keys) == k + [DELIMITER] + env[k] + [NUL] + Encode(env, rest);
      PartCons(env, keys, onto);
    }
  }

  // What is decoded never holds a delimiter in a key, nor a NUL.
  lemma {:induction false} DecodedIsClean(env: Env, block: Text)
    requires Terminated(block) && Clean(env)
    ensures Clean(DecodeOnto(env, block))
    decreases |block|
  {
    if block[0] != NUL {
      var line := block[..Find(NUL, block)];
      var pos := Find(DELIMITER, line);
      if pos < |line| {
        assert CleanEntry(line[..pos], line[pos + 1..]);
      }
      DecodedIsClean(AddLine(env, line), block[Find(NUL, block) + 1..]);
    }
  }

  // Whatever a block holds, two final NULs stop every reader of lines inside it.
  lemma {:induction false} DoubleNulTerminates(block: Text)
    requires block != [] && block[|block| - 1] == NUL && (|block| == 1 || block[|block| - 2] == NUL)
    ensures Terminated(block)
    decreases |block|
  {
    if block[0] != NUL {
      var n := Find(NUL, block);
      FindLeast(NUL, block, |block| - 2);
      DoubleNulTerminates(block[n + 1..]);
    }
  }

  lemma {:induction false} EncodedEnds(env: Env, keys: seq<Text>)
    requires forall i :: 0 <= i < |keys| ==> keys[i] in env
    ensures Lines(env, keys) == [] || Lines(env, keys)[|Lines(env, keys)| - 1] == NUL
  {
    if keys != [] {
      EncodedEnds(env, keys[1..]);
    }
  }

  lemma EncodedTerminates(env: Env, keys: seq<Text>)
    requires forall i :: 0 <= i < |keys| ==> keys[i] in env
    ensures Terminated(Encode(env, keys))
  {
    EncodedEnds(env, keys);
    DoubleNulTerminates(Encode(env, keys));
  }

  /** Environment round trip: in whatever order the map is written out, decoding its block returns the same map exactly
      when no key holds a delimiter or a NUL and no value holds a NUL. */
  lemma RoundTrip(env: Env, keys: seq<Text>)
    requires Enumerates(keys, env)
    ensures Terminated(Encode(env, keys))
    ensures Decode(Encode(env, keys)) == env <==> Clean(env)
  {
    EncodedTerminates(env, keys);
    DecodedIsClean(map[], Encode(env, keys));
    if Clean(env) {
      LinesReadBack(env, keys, map[]);
      assert map[] + Part(env, keys) == env;
    }
  }

  /** The updated block decodes to the host's environment overridden by the changes, exactly when the changes are clean;
      nothing is asked of the host's block, since what is decoded from it is. */
  lemma UpdateRoundTrip(host: Text, changes: Env, keys: seq<Text>)
    requires Terminated(host) && Enumerates(keys, Decode(host) + changes)
    ensures Terminated(Encode(Decode(host) + changes, keys))
    ensures Decode(Encode(Decode(host) + changes, keys)) == Decode(host) + changes <==> Clean(changes)
  {
    DecodedIsClean(map[], host);
    RoundTrip(Decode(host) + changes, keys);
    var merged := Decode(host) + changes;
    assert forall k :: k in changes ==> k in merged && merged[k] == changes[k];
  }

  lemma {:induction false} LinesAreEntries(env: Env, keys: seq<Text>, entries: seq<Text>)
    requires |entries| == |keys| && forall i :: 0 <= i < |keys| ==> keys[i] in env
    requires forall i :: 0 <= i < |keys| ==> entries[i] == keys[i] + "=" + env[keys[i]] + "\0"
    ensures Lines(env, keys) == Joined(entries)
  {
    if keys != [] {
      LinesAreEntries(env, keys[1..], entries[1..]);
    }
  }

  /** The block is the entries in the order of the keys, each with an equals sign and a NUL, and a NUL at the end. */
  lemma BlockIsEntries(env: Env, keys: seq<Text>, entries: seq<Text>)
    requires |entries| == |keys| && forall i :: 0 <= i < |keys| ==> keys[i] in env
    requires forall i :: 0 <= i < |keys| ==> entries[i] == keys[i] + "=" + env[keys[i]] + "\0"
    ensures Encode(env, keys) == Joined(entries) + "\0"
  {
    LinesAreEntries(env, keys, entries);
  }

  function Joined(parts: seq<Text>): Text {
    if parts == [] then "" else parts[0] + Joined(parts[1..])
  }

  /* The loops of the program */

  lemma ReadLine(env: Env, block: Text)
    requires Terminated(block) && block[0] != NUL
    ensures var n := Find(NUL, block);
            && n < |block| && Terminated(block[n + 1..])
            && DecodeOnto(env, block) == DecodeOnto(AddLine(env, block[..n]), block[n + 1..])
  {
  }

  method MapFromEnvironment(block: Text) returns (env: Env)
    requires Terminated(block)
    ensures env == Decode(block)
  {
    env := map[];
    var ptr := 0;
    assert block[0..] == block;
    while block[ptr] != NUL
      invariant ptr < |block| && Terminated(block[ptr..])
      invariant DecodeOnto(env, block[ptr..]) == DecodeOnto(map[], block)
      decreases |block| - ptr
    {
      env, ptr := NextLine(env, block, ptr);
    }
  }

  // One turn of the loop: the line at `ptr`, and the jump past its NUL.
  method NextLine(env: Env, block: Text, ptr: nat) returns (added: Env, next: nat)
    requires ptr < |block| && Terminated(block[ptr..]) && block[ptr] != NUL
    ensures ptr < next < |block| && Terminated(block[next..])
    ensures DecodeOnto(added, block[next..]) == DecodeOnto(env, block[ptr..])
  {
    ghost var rest := block[ptr..];
    assert rest[0] == block[ptr];
    ReadLine(env, rest);
    var length := Find(NUL, block[ptr..]);
    added := SplitLine(env, block[ptr..][..length]);
    next := ptr + length + 1;
    assert block[next..] == rest[length + 1..];
  }

  method SplitLine(env: Env, line: Text) returns (added: Env)
    ensures added == AddLine(env, line)
    ensures '=' !in line ==> added == env
    ensures forall k: Text, v: Text :: '=' !in k && line == k + "=" + v ==> added == env[k := v]
  {
    added := env;
    var pos := Find(DELIMITER, line);
    forall k: Text, v: Text | '=' !in k && line == k + "=" + v
      ensures pos == |k| && line[..pos] == k && line[pos + 1..] == v
    {
      FindUnique('=', k, v);
    }
    if pos < |line| {
      var key, value := line[..pos], line[pos + 1..];
      added := added[key := value];
    }
  }

  method VectorFromMap(env: Env, keys: seq<Text>) returns (buffer: Text)
    requires forall i :: 0 <= i < |keys| ==> keys[i] in env
    ensures buffer == Encode(env, keys)
  {
    buffer := [];
    for i := 0 to |keys|
      invariant buffer + Lines(env, keys[i..]) == Lines(env, keys)
    {
      var line := keys[i] + [DELIMITER] + env[keys[i]];
      assert keys[i..][1..] == keys[i + 1..];
      assert Lines(env, keys[i..]) == line + [NUL] + Lines(env, keys[i + 1..]);
      buffer := buffer + (line + [NUL]);
    }
    assert buffer + [] == buffer;
    buffer := buffer + [NUL];
  }

  method Merge(env: Env, changes: Env, changeKeys: seq<Text>) returns (merged: Env)
    requires Enumerates(changeKeys, changes)
    ensures merged == env + changes
  {
    merged := env;
    for i := 0 to |changeKeys|
      invariant merged == env + Part(changes, changeKeys[..i])
    {
      merged := merged[changeKeys[i] := changes[changeKeys[i]]];
      PartGrows(changes, changeKeys, i, env);
    }
    assert changeKeys[..|changeKeys|] == changeKeys;
    assert Part(changes, changeKeys) == changes;
  }

  lemma PartGrows(env: Env, keys: seq<Text>, i: nat, onto: Env)
    requires i < |keys| && forall j :: 0 <= j < |keys| ==> keys[j] in env
    ensures (onto + Part(env, keys[..i]))[keys[i] := env[keys[i]]] == onto + Part(env, keys[..i + 1])
  {
    assert keys[..i + 1] == keys[..i] + [keys[i]];
  }

  // `changeKeys` and `keys` are the orders in which the two maps are iterated.
  method CreateUpdatedVector(host: Text, changes: Env, changeKeys: seq<Text>, keys: seq<Text>) returns (buffer: Text)
    requires Terminated(host) && Enumerates(changeKeys, changes) && Enumerates(keys, Decode(host) + changes)
    ensures buffer == Encode(Decode(host) + changes, keys)
  {
    var env := MapFromEnvironment(host);
    env := Merge(env, changes, changeKeys);
    buffer := VectorFromMap(env, keys);
  }
}
