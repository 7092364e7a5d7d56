/** The bounded scan of an agent's material for connector secrets
    (adapters/hermes-agent/fixture_secret_scan.py).

    The stream is given as the non-empty chunks its reads return, cut in any way; the scan
    keeps only the last bytes of what it has read. */
module SecretScan {
  import opened Common

  const MAX_STREAM_BYTES := 0x8000_0000

  datatype Outcome = Clean | Empty | TooLarge | Found

  ghost predicate OccursAt(p: seq<byte>, text: seq<byte>, k: nat) {
    k + |p| <= |text| && text[k..k + |p|] == p
  }

  ghost predicate Occurs(p: seq<byte>, text: seq<byte>) {
    exists k: nat :: OccursAt(p, text, k)
  }

  ghost predicate AnyOccurs(patterns: seq<seq<byte>>, text: seq<byte>) {
    exists i :: 0 <= i < |patterns| && Occurs(patterns[i], text)
  }

  function Concat(chunks: seq<seq<byte>>): seq<byte> {
    if chunks == [] then [] else Concat(chunks[..|chunks| - 1]) + chunks[|chunks| - 1]
  }

  /** How many leading chunks the limit lets the scan look at. */
  function Within(chunks: seq<seq<byte>>, limit: nat): (n: nat)
    ensures n <= |chunks|
    ensures n == |chunks| <==> |Concat(chunks)| <= limit
    ensures |Concat(chunks[..n])| <= limit
    ensures n < |chunks| ==> |Concat(chunks[..n + 1])| > limit
  {
    if chunks == [] then 0
    else
      var k := |chunks| - 1;
      var n := Within(chunks[..k], limit);
      assert chunks[..k][..n] == chunks[..n];
      assert n < k ==> chunks[..k][..n + 1] == chunks[..n + 1];
      assert chunks[..k + 1] == chunks;
      if n == k && |Concat(chunks)| <= limit then k + 1 else n
  }

  /** What the scan must report, with no mention of chunk borders inside the readable part. */
  ghost function Verdict(chunks: seq<seq<byte>>, patterns: seq<seq<byte>>): Outcome {
    var n := Within(chunks, MAX_STREAM_BYTES);
    if n > 0 && AnyOccurs(patterns, Concat(chunks[..n])) then Found
    else if n < |chunks| then TooLarge
    else if n == 0 then Empty
    else Clean
  }

  function Longest(patterns: seq<seq<byte>>): (m: nat)
    requires patterns != []
    ensures forall i :: 0 <= i < |patterns| ==> |patterns[i]| <= m
    ensures exists i :: 0 <= i < |patterns| && |patterns[i]| == m
  {
    var k := |patterns| - 1;
    if k == 0 then
      assert |patterns[0]| == |patterns[k]|;
      |patterns[k]|
    else
      var m := Longest(patterns[..k]);
      if m < |patterns[k]| then |patterns[k]| else
        (var i :| 0 <= i < |patterns[..k]| && |patterns[..k][i]| == m; assert |patterns[i]| == m; m)
  }

  /** The tail a scan carries over. */
  predicate IsTail(carry: seq<byte>, text: seq<byte>, overlap: nat) {
    && |carry| == (if |text| <= overlap then |text| else overlap)
    && carry == text[|text| - |carry|..]
  }

  /** A pattern that did not occur before the new chunk occurs with it exactly when it occurs in
      the carried tail followed by the chunk. */
  lemma TailDecides(p: seq<byte>, text: seq<byte>, carry: seq<byte>, chunk: seq<byte>, overlap: nat)
    requires IsTail(carry, text, overlap) && |p| <= overlap + 1
    requires text != [] ==> !Occurs(p, text)
    ensures Occurs(p, text + chunk) <==> Occurs(p, carry + chunk)
  {
    var cut := |text| - |carry|;
    assert (text + chunk)[cut..] == carry + chunk;
    if k: nat :| OccursAt(p, text + chunk, k) {
      if k + |p| <= |text| && text != [] {
        assert text[k..k + |p|] == (text + chunk)[k..k + |p|];
        assert OccursAt(p, text, k);
        assert false;
      }
      assert (carry + chunk)[k - cut..k - cut + |p|] == (text + chunk)[k..k + |p|];
      assert OccursAt(p, carry + chunk, k - cut);
    }
    if k: nat :| OccursAt(p, carry + chunk, k) {
      assert (text + chunk)[k + cut..k + cut + |p|] == (carry + chunk)[k..k + |p|];
      assert OccursAt(p, text + chunk, k + cut);
    }
  }

  lemma TailDecidesAll(patterns: seq<seq<byte>>, text: seq<byte>, carry: seq<byte>, chunk: seq<byte>, overlap: nat)
    requires IsTail(carry, text, overlap)
    requires forall i :: 0 <= i < |patterns| ==> |patterns[i]| <= overlap + 1
    requires text != [] ==> !AnyOccurs(patterns, text)
    ensures AnyOccurs(patterns, text + chunk) <==> AnyOccurs(patterns, carry + chunk)
  {
    forall i | 0 <= i < |patterns|
      ensures Occurs(patterns[i], text + chunk) <==> Occurs(patterns[i], carry + chunk)
    {
      TailDecides(patterns[i], text, carry, chunk, overlap);
    }
  }

  lemma {:induction false} OccursKept(patterns: seq<seq<byte>>, text: seq<byte>, more: seq<byte>)
    requires AnyOccurs(patterns, text)
    ensures AnyOccurs(patterns, text + more)
  {
    var i :| 0 <= i < |patterns| && Occurs(patterns[i], text);
    var k: nat :| OccursAt(patterns[i], text, k);
    assert (text + more)[k..k + |patterns[i]|] == text[k..k + |patterns[i]|];
    assert OccursAt(patterns[i], text + more, k);
  }

  lemma {:induction false} ConcatSplit(chunks: seq<seq<byte>>, i: nat) returns (more: seq<byte>)
    requires i <= |chunks|
    ensures Concat(chunks) == Concat(chunks[..i]) + more
  {
    if i == |chunks| {
      more := [];
      assert chunks[..i] == chunks;
    } else {
      var k := |chunks| - 1;
      var part := ConcatSplit(chunks[..k], i);
      assert chunks[..k][..i] == chunks[..i];
      more := part + chunks[k];
    }
  }

  lemma PrefixIsShorter(chunks: seq<seq<byte>>, i: nat, j: nat)
    requires i <= j <= |chunks|
    ensures |Concat(chunks[..i])| <= |Concat(chunks[..j])|
  {
    var more := ConcatSplit(chunks[..j], i);
    assert chunks[..j][..i] == chunks[..i];
  }

  /** A pattern seen in the chunks read so far is one the verdict reports. */
  lemma FoundEarly(chunks: seq<seq<byte>>, patterns: seq<seq<byte>>, i: nat)
    requires 0 < i <= |chunks| && |Concat(chunks[..i])| <= MAX_STREAM_BYTES
    requires AnyOccurs(patterns, Concat(chunks[..i]))
    ensures Verdict(chunks, patterns) == Found
  {
    var n := Within(chunks, MAX_STREAM_BYTES);
    if n < i {
      PrefixIsShorter(chunks, n + 1, i);
    }
    var more := ConcatSplit(chunks[..n], i);
    assert chunks[..n][..i] == chunks[..i];
    OccursKept(patterns, Concat(chunks[..i]), more);
  }

  method FindPatterns(data: seq<byte>, patterns: seq<seq<byte>>) returns (found: bool)
    ensures found <==> AnyOccurs(patterns, data)
  {
    for i := 0 to |patterns|
      invariant forall j :: 0 <= j < i ==> !Occurs(patterns[j], data)
    {
      var hit := Contains(patterns[i], data);
      if hit {
        return true;
      }
    }
    return false;
  }

  method Contains(p: seq<byte>, data: seq<byte>) returns (hit: bool)
    ensures hit <==> Occurs(p, data)
  {
    var k := 0;
    while k + |p| <= |data|
      invariant forall j: nat :: j < k ==> !OccursAt(p, data, j)
    {
      if data[k..k + |p|] == p {
        assert OccursAt(p, data, k);
        return true;
      }
      k := k + 1;
    }
    return false;
  }

  /** `combined[-overlap:] if overlap else b""`; a negative overlap drops the first byte. */
  function Carry(combined: seq<byte>, overlap: int): seq<byte>
    requires combined != [] && -1 <= overlap
  {
    if overlap == 0 then []
    else if overlap < 0 then combined[1..]
    else if |combined| <= overlap then combined
    else combined[|combined| - overlap..]
  }

  /** Streaming scan is exact: whatever the cut of the stream into reads, the result is the
      verdict on the whole readable text, although only a bounded tail is kept. */
  method ScanStream(chunks: seq<seq<byte>>, patterns: seq<seq<byte>>) returns (r: Outcome)
    requires patterns != []
    requires forall i :: 0 <= i < |chunks| ==> chunks[i] != []
    ensures r == Verdict(chunks, patterns)
  {
    var total := 0;
    var overlap := Longest(patterns) - 1;
    var carry: seq<byte> := [];
    ghost var text: seq<byte> := [];
    for i := 0 to |chunks|
      invariant text == Concat(chunks[..i])
      invariant total == |text| <= MAX_STREAM_BYTES
      invariant i > 0 ==> text != [] && !AnyOccurs(patterns, text)
      invariant i > 0 ==> overlap >= 0
      invariant overlap >= 0 ==> IsTail(carry, text, overlap)
      invariant i == 0 ==> carry == []
    {
      var chunk := chunks[i];
      assert chunks[..i + 1][..i] == chunks[..i] && chunks[..i + 1][i] == chunk;
      assert Concat(chunks[..i + 1]) == text + chunk;
      total := total + |chunk|;
      if total > MAX_STREAM_BYTES {
        LimitReached(chunks, patterns, i);
        return TooLarge;
      }
      var combined := carry + chunk;
      var found := FindPatterns(combined, patterns);
      if overlap >= 0 {
        TailDecidesAll(patterns, text, carry, chunk, overlap);
      } else {
        EmptyPatternOccurs(patterns, combined);
        assert combined == text + chunk;
      }
      if found {
        FoundEarly(chunks, patterns, i + 1);
        return Found;
      }
      carry := Carry(combined, overlap);
      text := text + chunk;
    }
    assert chunks[..|chunks|] == chunks;
    r := if total == 0 then Empty else Clean;
  }

  lemma EmptyPatternOccurs(patterns: seq<seq<byte>>, text: seq<byte>)
    requires patterns != [] && Longest(patterns) == 0
    ensures AnyOccurs(patterns, text)
  {
    assert OccursAt(patterns[0], text, 0);
  }

  /** When chunk `i` crosses the limit, the readable part ends before it. */
  lemma LimitReached(chunks: seq<seq<byte>>, patterns: seq<seq<byte>>, i: nat)
    requires i < |chunks| && |Concat(chunks[..i])| <= MAX_STREAM_BYTES < |Concat(chunks[..i + 1])|
    requires i > 0 ==> !AnyOccurs(patterns, Concat(chunks[..i]))
    ensures Verdict(chunks, patterns) == TooLarge
  {
    var n := Within(chunks, MAX_STREAM_BYTES);
    if n < i {
      PrefixIsShorter(chunks, n + 1, i);
    }
    if i < n {
      PrefixIsShorter(chunks, i + 1, n);
    }
  }

  /** A stream that fits is judged by its bytes alone: two ways of cutting it get one verdict. */
  lemma CutsDoNotMatter(a: seq<seq<byte>>, b: seq<seq<byte>>, patterns: seq<seq<byte>>)
    requires forall i :: 0 <= i < |a| ==> a[i] != []
    requires forall i :: 0 <= i < |b| ==> b[i] != []
    requires Concat(a) == Concat(b) && |Concat(a)| <= MAX_STREAM_BYTES
    ensures Verdict(a, patterns) == Verdict(b, patterns)
    ensures Verdict(a, patterns) == Clean <==> Concat(a) != [] && !AnyOccurs(patterns, Concat(a))
  {
    assert a[..|a|] == a && b[..|b|] == b;
  }
}
