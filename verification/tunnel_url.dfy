/**
 * The public-URL pattern `https://[a-zA-Z0-9-]+\.trycloudflare\.com` and the
 * leftmost match `re.search` finds for it in one line of tunnel output.
 *
 * The host run cannot contain `.`, so from a given start the only candidate
 * is the maximal run of host characters; the search takes the first start
 * at which that candidate is followed by the suffix.
 */
module TunnelUrl {
  import opened Wrappers

  const Scheme: string := "https://"
  const Suffix: string := ".trycloudflare.com"

  /** The character class `[a-zA-Z0-9-]`. */
  predicate IsHostChar(c: char) {
    ('a' <= c <= 'z') || ('A' <= c <= 'Z') || ('0' <= c <= '9') || c == '-'
  }

  /** The whole of `m` is a tunnel URL: scheme, a non-empty host run, suffix. */
  predicate IsTunnelUrl(m: string) {
    && |m| > |Scheme| + |Suffix|
    && m[..|Scheme|] == Scheme
    && m[|m| - |Suffix|..] == Suffix
    && forall k :: |Scheme| <= k < |m| - |Suffix| ==> IsHostChar(m[k])
  }

  /** The pattern matches `line[i..j]`. */
  predicate MatchesAt(line: string, i: int, j: int) {
    0 <= i <= j <= |line| && IsTunnelUrl(line[i..j])
  }

  /** The length of the run of host characters that starts at `from`. */
  function HostRun(line: string, from: nat): (n: nat)
    requires from <= |line|
    ensures from + n <= |line|
    ensures forall k :: from <= k < from + n ==> IsHostChar(line[k])
    ensures from + n == |line| || !IsHostChar(line[from + n])
    decreases |line| - from
  {
    if from < |line| && IsHostChar(line[from]) then 1 + HostRun(line, from + 1) else 0
  }

  /** The end of the match that starts at `i` (the greedy run followed by the suffix), if there is one. */
  function MatchFrom(line: string, i: nat): (r: Option<nat>)
    requires i <= |line|
    ensures r.Some? ==> MatchesAt(line, i, r.value)
  {
    if i + |Scheme| <= |line| && line[i..i + |Scheme|] == Scheme then
      var e := i + |Scheme| + HostRun(line, i + |Scheme|);
      if e > i + |Scheme| && e + |Suffix| <= |line| && line[e..e + |Suffix|] == Suffix then
        var m := line[i..e + |Suffix|];
        assert m[..|Scheme|] == line[i..i + |Scheme|];
        assert m[|m| - |Suffix|..] == line[e..e + |Suffix|];
        Some(e + |Suffix|)
      else None
    else None
  }

  /** A run of host characters ending at a non-host character (or the end) is the maximal run. */
  lemma {:induction false} HostRunExact(line: string, from: nat, to: nat)
    requires from <= to <= |line|
    requires forall k :: from <= k < to ==> IsHostChar(line[k])
    requires to == |line| || !IsHostChar(line[to])
    ensures from + HostRun(line, from) == to
    decreases |line| - from
  {
    if from < to {
      HostRunExact(line, from + 1, to);
    }
  }

  /** Every match that starts at `i` is the one `MatchFrom` finds: a start has at most one match. */
  lemma MatchFromComplete(line: string, i: nat, j: nat)
    requires MatchesAt(line, i, j)
    ensures MatchFrom(line, i) == Some(j)
  {
    var m := line[i..j];
    var h := i + |Scheme|;
    var e := j - |Suffix|;
    assert line[i..h] == m[..|Scheme|];
    assert line[e..j] == m[|m| - |Suffix|..];
    forall k | h <= k < e
      ensures IsHostChar(line[k])
    {
      assert line[k] == m[k - i];
    }
    assert line[e] == m[|m| - |Suffix|] == '.';
    HostRunExact(line, h, e);
  }

  /** `re.search` from position `i` on: the span of the first start at or after `i` that has a match. */
  function SearchFrom(line: string, i: nat): (r: Option<(nat, nat)>)
    requires i <= |line|
    ensures r.Some? ==> i <= r.value.0 && MatchesAt(line, r.value.0, r.value.1)
    decreases |line| - i
  {
    match MatchFrom(line, i)
    case Some(j) => Some((i, j))
    case None => if i == |line| then None else SearchFrom(line, i + 1)
  }

  /** The span found is the leftmost match, and the only one at its start; finding none means there is none. */
  lemma {:induction false} SearchFromLeftmost(line: string, i: nat)
    requires i <= |line|
    ensures var r := SearchFrom(line, i);
            && (r.Some? ==> forall a, b :: i <= a && MatchesAt(line, a, b) ==>
                              r.value.0 < a || (r.value.0 == a && r.value.1 == b))
            && (r.None? ==> forall a, b :: i <= a ==> !MatchesAt(line, a, b))
    decreases |line| - i
  {
    if MatchFrom(line, i).Some? {
      forall a, b | i <= a && MatchesAt(line, a, b)
        ensures i < a || (i == a && MatchFrom(line, i) == Some(b))
      {
        if a == i {
          MatchFromComplete(line, i, b);
        }
      }
    } else {
      forall a, b | i <= a && MatchesAt(line, a, b)
        ensures i < a
      {
        if a == i {
          MatchFromComplete(line, i, b);
        }
      }
      if i < |line| {
        SearchFromLeftmost(line, i + 1);
      }
    }
  }

  /** `re.search(pattern, line)`: the span of the leftmost match, if any. */
  function Search(line: string): Option<(nat, nat)> {
    SearchFrom(line, 0)
  }

  /**
   * `match.group(0)` of the search, or `None` when nothing matches: the text
   * of the match that starts leftmost in the line.
   */
  function Find(line: string): (r: Option<string>)
    ensures r.Some? ==> IsTunnelUrl(r.value)
    ensures r.Some? <==> exists a, b :: MatchesAt(line, a, b)
    ensures r.Some? ==> exists i, j :: MatchesAt(line, i, j) && r.value == line[i..j] &&
                          forall a, b :: MatchesAt(line, a, b) ==> i < a || (i == a && j == b)
  {
    SearchFromLeftmost(line, 0);
    var s := Search(line);
    if s.Some? then Some(line[s.value.0..s.value.1]) else None
  }

  /** The address in the example line is a tunnel URL. */
  lemma ReadyUrlMatches()
    ensures IsTunnelUrl("https://abc-def.trycloudflare.com")
  {
    var host := "abc-def";
    var m := Scheme + host + Suffix;
    assert m == "https://abc-def.trycloudflare.com";
    assert m[..|Scheme|] == Scheme;
    assert m[|m| - |Suffix|..] == Suffix;
    assert IsHostChar(host[0]) && IsHostChar(host[1]) && IsHostChar(host[2]) && IsHostChar(host[3]) &&
           IsHostChar(host[4]) && IsHostChar(host[5]) && IsHostChar(host[6]);
    forall k | |Scheme| <= k < |m| - |Suffix|
      ensures IsHostChar(m[k])
    {
      assert m[k] == host[k - |Scheme|];
    }
  }

  /** The example line of a freshly opened tunnel yields exactly its URL. */
  lemma ReadyLineExample()
    ensures Find("https://abc-def.trycloudflare.com tunnel ready\n") == Some("https://abc-def.trycloudflare.com")
  {
    var line := "https://abc-def.trycloudflare.com tunnel ready\n";
    ReadyUrlMatches();
    assert line[0..33] == "https://abc-def.trycloudflare.com";
    assert MatchesAt(line, 0, 33);
  }
}
