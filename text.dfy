/** Joining strings with a separator, the shape every list-valued placeholder takes. */
module Text {

  /** The parts in order, with `sep` between neighbours and nowhere else. */
  function Join(sep: string, parts: seq<string>): string
    decreases |parts|
  {
    if |parts| == 0 then ""
    else if |parts| == 1 then parts[0]
    else parts[0] + sep + Join(sep, parts[1..])
  }

  /** The sum of the lengths of the parts. */
  function TotalLength(parts: seq<string>): nat
    decreases |parts|
  {
    if |parts| == 0 then 0 else |parts[0]| + TotalLength(parts[1..])
  }

  predicate EndsWith(s: string, suffix: string)
  {
    |suffix| <= |s| && s[|s| - |suffix|..] == suffix
  }

  predicate StartsWith(s: string, prefix: string)
  {
    |prefix| <= |s| && s[..|prefix|] == prefix
  }

  /** Appending one more part to a non-empty list adds exactly one separator and the part. */
  lemma {:induction false} JoinSnoc(sep: string, parts: seq<string>, x: string)
    requires |parts| > 0
    ensures Join(sep, parts + [x]) == Join(sep, parts) + sep + x
    decreases |parts|
  {
    if |parts| == 1 {
      assert (parts + [x])[1..] == [x];
    } else {
      assert (parts + [x])[1..] == parts[1..] + [x];
      JoinSnoc(sep, parts[1..], x);
    }
  }

  /** Two non-empty lists joined as one get exactly one separator where they meet. */
  lemma {:induction false} JoinConcat(sep: string, a: seq<string>, b: seq<string>)
    requires |a| > 0 && |b| > 0
    ensures Join(sep, a + b) == Join(sep, a) + sep + Join(sep, b)
    decreases |a|
  {
    if |a| == 1 {
      assert (a + b)[1..] == b;
    } else {
      assert (a + b)[1..] == a[1..] + b;
      JoinConcat(sep, a[1..], b);
    }
  }

  /** A joined list holds the parts' characters and |parts| - 1 separators, nothing more. */
  lemma {:induction false} JoinLength(sep: string, parts: seq<string>)
    requires |parts| > 0
    ensures |Join(sep, parts)| == TotalLength(parts) + (|parts| - 1) * |sep|
    decreases |parts|
  {
    if |parts| > 1 {
      JoinLength(sep, parts[1..]);
      assert TotalLength(parts[1..][1..]) == TotalLength(parts[2..]) by {
        assert parts[1..][1..] == parts[2..];
      }
    }
  }

  /** A joined non-empty list starts with its first part and ends with its last one. */
  lemma {:induction false} JoinEnds(sep: string, parts: seq<string>)
    requires |parts| > 0
    ensures StartsWith(Join(sep, parts), parts[0])
    ensures EndsWith(Join(sep, parts), parts[|parts| - 1])
    decreases |parts|
  {
    if |parts| > 1 {
      JoinEnds(sep, parts[1..]);
      var rest := Join(sep, parts[1..]);
      var last := parts[|parts| - 1];
      assert parts[1..][|parts[1..]| - 1] == last;
      var whole := parts[0] + sep + rest;
      assert whole[|whole| - |last|..] == rest[|rest| - |last|..];
    }
  }

  /**
    * What a loop that appends part after part has written after the first k
    * parts: each part is followed by a separator unless it is the last of all.
    */
  function JoinedUpTo(sep: string, parts: seq<string>, k: nat): string
    requires k <= |parts|
  {
    if k == 0 then "" else Join(sep, parts[..k]) + (if k < |parts| then sep else "")
  }

  /** One more part written, followed by a separator unless it is the last part. */
  lemma JoinedUpToStep(sep: string, parts: seq<string>, k: nat)
    requires k < |parts|
    ensures JoinedUpTo(sep, parts, k + 1)
         == JoinedUpTo(sep, parts, k) + parts[k] + (if k + 1 < |parts| then sep else "")
  {
    if k > 0 {
      JoinSnoc(sep, parts[..k], parts[k]);
      assert parts[..k] + [parts[k]] == parts[..k + 1];
    } else {
      assert parts[..1] == [parts[0]];
    }
  }

  /** Once every part is written, the loop has produced the joined list. */
  lemma JoinedUpToAll(sep: string, parts: seq<string>)
    ensures JoinedUpTo(sep, parts, |parts|) == Join(sep, parts)
  {
    assert parts[..|parts|] == parts;
  }
}
