/**
 Reading pod and namespace names out of an event message: the leftmost non-overlapping matches of the pattern
   pods\/"([\w-]+)" -n "([\w-]+)"
 with \w over ASCII, as Go's regexp package has it.
 */
module PodScanner {
  import opened Options
  import opened Texts

  datatype Pair = Pair(pod: string, namespace: string)

  datatype Match = Match(at: nat, pair: Pair)

  predicate IsWordChar(c: char) {
    '0' <= c <= '9' || 'A' <= c <= 'Z' || 'a' <= c <= 'z' || c == '_' || c == '-'
  }

  predicate IsWord(s: string) {
    s != [] && forall i :: 0 <= i < |s| ==> IsWordChar(s[i])
  }

  const OPENING := "pods/\""
  const MIDDLE := "\" -n \""
  const CLOSING := "\""

  /** How a pod and its namespace are written in a message. */
  function Render(p: Pair): (r: string)
    ensures |r| == 13 + |p.pod| + |p.namespace|
  {
    OPENING + p.pod + MIDDLE + p.namespace + CLOSING
  }

  ghost predicate IsPair(p: Pair) {
    IsWord(p.pod) && IsWord(p.namespace)
  }

  /** The pattern matches at position i, with the pair p as its two groups. */
  ghost predicate IsMatch(msg: string, i: int, p: Pair) {
    IsPair(p) && OccursAt(msg, Render(p), i)
  }

  /** The pattern in full: two non-empty words of these characters, between these three pieces of text. */
  lemma MatchInWords(msg: string, i: int, pod: string, namespace: string)
    ensures IsMatch(msg, i, Pair(pod, namespace)) <==>
            && pod != "" && namespace != ""
            && (forall c :: c in pod || c in namespace ==>
                              '0' <= c <= '9' || 'A' <= c <= 'Z' || 'a' <= c <= 'z' || c in {'_', '-'})
            && OccursAt(msg, "pods/\"" + pod + "\" -n \"" + namespace + "\"", i)
  {
    assert forall k :: 0 <= k < |pod| ==> pod[k] in pod;
    assert forall k :: 0 <= k < |namespace| ==> namespace[k] in namespace;
  }

  // ---------------------------------------------------------------------------------------------
  // The shape of a match
  // ---------------------------------------------------------------------------------------------

  lemma RenderShape(p: Pair)
    ensures var r, a, b := Render(p), |p.pod|, |p.namespace|;
            && r[..6] == OPENING && r[6..6 + a] == p.pod && r[6 + a..12 + a] == MIDDLE
            && r[12 + a..12 + a + b] == p.namespace && r[12 + a + b..] == CLOSING
  {
  }

  /** Where the pieces of a match lie in the message. */
  lemma MatchShape(msg: string, i: int, p: Pair)
    requires IsMatch(msg, i, p)
    ensures var a, b := |p.pod|, |p.namespace|;
            && 0 <= i && i + 13 + a + b <= |msg|
            && msg[i..i + 6] == OPENING
            && msg[i + 6..i + 6 + a] == p.pod
            && msg[i + 6 + a..i + 12 + a] == MIDDLE
            && msg[i + 12 + a..i + 12 + a + b] == p.namespace
            && msg[i + 12 + a + b] == '"'
  {
    var r, a, b := Render(p), |p.pod|, |p.namespace|;
    RenderShape(p);
    SubSlice(msg, i, |r|, 0, 6);
    SubSlice(msg, i, |r|, 6, 6 + a);
    SubSlice(msg, i, |r|, 6 + a, 12 + a);
    SubSlice(msg, i, |r|, 12 + a, 12 + a + b);
    assert msg[i + 12 + a + b] == msg[i..i + |r|][12 + a + b] == r[12 + a + b..][0];
  }

  lemma SubSlice(s: string, i: nat, n: nat, from: nat, to: nat)
    requires i + n <= |s| && from <= to <= n
    ensures s[i..i + n][from..to] == s[i + from..i + to]
  {
    var a, b := s[i..i + n][from..to], s[i + from..i + to];
    assert |a| == |b|;
    assert forall k :: 0 <= k < |a| ==> a[k] == s[i..i + n][from + k] == b[k];
  }

  /** Character by character: the only slash stands at offset 4, and the quotes frame the two words. */
  lemma MatchChars(msg: string, i: int, p: Pair)
    requires IsMatch(msg, i, p)
    ensures var a, b := |p.pod|, |p.namespace|;
            && 0 <= i && i + 13 + a + b <= |msg|
            && (forall k :: i <= k < i + 13 + a + b ==> (msg[k] == '/' <==> k == i + 4))
            && (forall k :: i <= k < i + 5 ==> msg[k] != '"')
            && msg[i + 5] == msg[i + 6 + a] == msg[i + 12 + a + b] == '"'
            && (forall k :: i + 6 <= k < i + 6 + a ==> IsWordChar(msg[k]))
            && (forall k :: i + 12 + a <= k < i + 12 + a + b ==> IsWordChar(msg[k]))
  {
    var a, b := |p.pod|, |p.namespace|;
    MatchShape(msg, i, p);
    forall k | i <= k < i + 6 ensures msg[k] == OPENING[k - i] {
      assert msg[k] == msg[i..i + 6][k - i];
    }
    forall k | i + 6 <= k < i + 6 + a ensures IsWordChar(msg[k]) {
      assert msg[k] == p.pod[k - i - 6];
    }
    forall k | i + 6 + a <= k < i + 12 + a ensures msg[k] == MIDDLE[k - i - 6 - a] {
      assert msg[k] == msg[i + 6 + a..i + 12 + a][k - i - 6 - a];
    }
    forall k | i + 12 + a <= k < i + 12 + a + b ensures IsWordChar(msg[k]) {
      assert msg[k] == p.namespace[k - i - 12 - a];
    }
  }

  lemma MatchFromShape(msg: string, i: int, p: Pair)
    requires 0 <= i && i + 13 + |p.pod| + |p.namespace| <= |msg| && IsPair(p)
    requires var a, b := |p.pod|, |p.namespace|;
             && msg[i..i + 6] == OPENING
             && msg[i + 6..i + 6 + a] == p.pod
             && msg[i + 6 + a..i + 12 + a] == MIDDLE
             && msg[i + 12 + a..i + 12 + a + b] == p.namespace
             && msg[i + 12 + a + b] == '"'
    ensures IsMatch(msg, i, p)
  {
    var a, b := |p.pod|, |p.namespace|;
    SliceSplit(msg, i, i + 6, i + 6 + a);
    SliceSplit(msg, i, i + 6 + a, i + 12 + a);
    SliceSplit(msg, i, i + 12 + a, i + 12 + a + b);
    SliceSplit(msg, i, i + 12 + a + b, i + 13 + a + b);
    assert msg[i + 12 + a + b..i + 13 + a + b] == CLOSING;
    assert msg[i..i + |Render(p)|] == Render(p);
  }

  lemma SliceSplit(s: string, i: nat, j: nat, k: nat)
    requires i <= j <= k <= |s|
    ensures s[i..k] == s[i..j] + s[j..k]
  {
  }

  /** The match at a position is unique. */
  lemma MatchUnique(msg: string, i: int, p: Pair, q: Pair)
    requires IsMatch(msg, i, p) && IsMatch(msg, i, q)
    ensures p == q
  {
    MatchChars(msg, i, p);
    MatchChars(msg, i, q);
    assert |p.pod| == |q.pod|;
    assert |p.namespace| == |q.namespace|;
    MatchShape(msg, i, p);
    MatchShape(msg, i, q);
  }

  /** Two different occurrences of the pattern never overlap. */
  lemma MatchesDisjoint(msg: string, i: int, p: Pair, j: int, q: Pair)
    requires IsMatch(msg, i, p) && IsMatch(msg, j, q) && i < j
    ensures i + |Render(p)| <= j
  {
    MatchChars(msg, i, p);
    MatchChars(msg, j, q);
    assert msg[j + 4] == '/';
  }

  // ---------------------------------------------------------------------------------------------
  // The scanner
  // ---------------------------------------------------------------------------------------------

  ghost function MatchAtPosition(msg: string, i: nat): Option<Match> {
    if exists p :: IsMatch(msg, i, p) then
      var p :| IsMatch(msg, i, p);
      Some(Match(i, p))
    else
      None
  }

  /** Every occurrence of the pattern that starts before position n, in order; overlaps would be listed too. */
  ghost function OccurrencesBelow(msg: string, n: nat): seq<Match> {
    if n == 0 then []
    else
      var m := MatchAtPosition(msg, n - 1);
      OccurrencesBelow(msg, n - 1) + if m.Some? then [m.value] else []
  }

  ghost function Occurrences(msg: string): seq<Match> {
    OccurrencesBelow(msg, |msg|)
  }

  lemma {:induction false} OccurrencesBelowAll(msg: string, n: nat)
    ensures forall m :: m in OccurrencesBelow(msg, n) <==> m.at < n && IsMatch(msg, m.at, m.pair)
    ensures forall i, j :: 0 <= i < j < |OccurrencesBelow(msg, n)| ==>
                             OccurrencesBelow(msg, n)[i].at < OccurrencesBelow(msg, n)[j].at
  {
    if n > 0 {
      OccurrencesBelowAll(msg, n - 1);
      var shorter, all := OccurrencesBelow(msg, n - 1), OccurrencesBelow(msg, n);
      forall m: Match
        ensures m in all <==> m.at < n && IsMatch(msg, m.at, m.pair)
      {
        if m.at == n - 1 && IsMatch(msg, n - 1, m.pair) {
          MatchUnique(msg, n - 1, m.pair, MatchAtPosition(msg, n - 1).value.pair);
          assert all[|all| - 1] == m;
        }
      }
      forall i, j | 0 <= i < j < |all|
        ensures all[i].at < all[j].at
      {
        if j == |shorter| {
          assert all[i] in shorter;
        }
      }
    }
  }

  /** Completeness of the scan: it lists exactly the occurrences of the pattern, from left to right. */
  lemma OccurrencesAreAllMatches(msg: string)
    ensures forall m :: m in Occurrences(msg) <==> IsMatch(msg, m.at, m.pair)
    ensures forall i, j :: 0 <= i < j < |Occurrences(msg)| ==>
                             Occurrences(msg)[i].at + |Render(Occurrences(msg)[i].pair)| <= Occurrences(msg)[j].at
  {
    OccurrencesBelowAll(msg, |msg|);
    var all := Occurrences(msg);
    forall i, j | 0 <= i < j < |all|
      ensures all[i].at + |Render(all[i].pair)| <= all[j].at
    {
      assert all[i] in all && all[j] in all;
      MatchesDisjoint(msg, all[i].at, all[i].pair, all[j].at, all[j].pair);
    }
  }

  /** The end of the longest run of word characters from position i on. */
  method WordEnd(msg: string, i: nat) returns (e: nat)
    requires i <= |msg|
    ensures i <= e <= |msg|
    ensures forall k :: i <= k < e ==> IsWordChar(msg[k])
    ensures e == |msg| || !IsWordChar(msg[e])
  {
    e := i;
    while e < |msg| && IsWordChar(msg[e])
      invariant i <= e <= |msg|
      invariant forall k :: i <= k < e ==> IsWordChar(msg[k])
    {
      e := e + 1;
    }
  }

  /** A match, if there is one, has the word ends the greedy scan finds. */
  lemma GreedyEnds(msg: string, i: nat, p: Pair, e: nat)
    requires IsMatch(msg, i, p)
    requires i + 6 <= e <= |msg|
    requires forall k :: i + 6 <= k < e ==> IsWordChar(msg[k])
    requires e == |msg| || !IsWordChar(msg[e])
    ensures e == i + 6 + |p.pod|
  {
    MatchChars(msg, i, p);
  }

  lemma GreedyNamespaceEnds(msg: string, i: nat, p: Pair, f: nat)
    requires IsMatch(msg, i, p)
    requires i + 12 + |p.pod| <= f <= |msg|
    requires forall k :: i + 12 + |p.pod| <= k < f ==> IsWordChar(msg[k])
    requires f == |msg| || !IsWordChar(msg[f])
    ensures f == i + 12 + |p.pod| + |p.namespace|
  {
    MatchChars(msg, i, p);
  }

  method MatchAt(msg: string, i: nat) returns (m: Option<Match>)
    requires i <= |msg|
    ensures m.Some? ==> m.value.at == i && IsMatch(msg, i, m.value.pair)
    ensures m.None? ==> forall p :: !IsMatch(msg, i, p)
  {
    if !(i + 6 <= |msg| && msg[i..i + 6] == OPENING) {
      forall p | IsMatch(msg, i, p) ensures false { MatchShape(msg, i, p); }
      return None;
    }
    var e := WordEnd(msg, i + 6);
    if e == i + 6 || !(e + 6 <= |msg| && msg[e..e + 6] == MIDDLE) {
      forall p | IsMatch(msg, i, p) ensures false { MatchShape(msg, i, p); GreedyEnds(msg, i, p, e); }
      return None;
    }
    var f := WordEnd(msg, e + 6);
    if f == e + 6 || !(f < |msg| && msg[f] == '"') {
      forall p | IsMatch(msg, i, p) ensures false {
        MatchShape(msg, i, p);
        GreedyEnds(msg, i, p, e);
        GreedyNamespaceEnds(msg, i, p, f);
      }
      return None;
    }
    var pair := Pair(msg[i + 6..e], msg[e + 6..f]);
    MatchFromShape(msg, i, pair);
    m := Some(Match(i, pair));
  }

  lemma {:induction false} NoneInside(msg: string, m: Match, n: nat)
    requires IsMatch(msg, m.at, m.pair)
    requires m.at < n <= m.at + |Render(m.pair)|
    ensures OccurrencesBelow(msg, n) == OccurrencesBelow(msg, m.at) + [m]
  {
    if n == m.at + 1 {
      MatchUnique(msg, m.at, m.pair, MatchAtPosition(msg, m.at).value.pair);
    } else {
      NoneInside(msg, m, n - 1);
      if MatchAtPosition(msg, n - 1).Some? {
        MatchesDisjoint(msg, m.at, m.pair, n - 1, MatchAtPosition(msg, n - 1).value.pair);
        assert false;
      }
    }
  }

  /** FindAllStringSubmatch: continues after each match, and yet misses no occurrence. */
  method FindAll(msg: string) returns (matches: seq<Match>)
    ensures matches == Occurrences(msg)
  {
    matches := [];
    var i := 0;
    while i < |msg|
      invariant 0 <= i <= |msg|
      invariant matches == OccurrencesBelow(msg, i)
    {
      var m := MatchAt(msg, i);
      if m.Some? {
        NoneInside(msg, m.value, i + |Render(m.value.pair)|);
        matches := matches + [m.value];
        i := i + |Render(m.value.pair)|;
      } else {
        i := i + 1;
      }
    }
  }

  // ---------------------------------------------------------------------------------------------
  // The pod map
  // ---------------------------------------------------------------------------------------------

  predicate IsOpenShift(namespace: string) {
    Contains(namespace, "openshift-")
  }

  function PairsOf(matches: seq<Match>): seq<Pair> {
    seq(|matches|, i requires 0 <= i < |matches| => matches[i].pair)
  }

  /** The pairs outside the OpenShift namespaces, in order. */
  function Kept(pairs: seq<Pair>): seq<Pair> {
    if pairs == [] then []
    else
      var last := pairs[|pairs| - 1];
      Kept(pairs[..|pairs| - 1]) + if IsOpenShift(last.namespace) then [] else [last]
  }

  /** Writes the pairs into a map one after the other. */
  function LastWriteWins(pairs: seq<Pair>): map<string, string> {
    if pairs == [] then map[]
    else
      var last := pairs[|pairs| - 1];
      LastWriteWins(pairs[..|pairs| - 1])[last.pod := last.namespace]
  }

  ghost function PodNamespaces(message: string): map<string, string> {
    LastWriteWins(Kept(PairsOf(Occurrences(message))))
  }

  method ParsePodsAndNamespaces(message: string) returns (podNamespaces: map<string, string>)
    ensures podNamespaces == PodNamespaces(message)
  {
    var matches := FindAll(message);
    ghost var pairs := PairsOf(matches);
    podNamespaces := map[];
    for i := 0 to |matches|
      invariant podNamespaces == LastWriteWins(Kept(pairs[..i]))
    {
      var podName := matches[i].pair.pod;
      var podNamespace := matches[i].pair.namespace;
      assert pairs[..i + 1] == pairs[..i] + [pairs[i]];
      KeptAppend(pairs[..i], pairs[i]);
      if !IsOpenShift(podNamespace) {
        podNamespaces := podNamespaces[podName := podNamespace];
      }
    }
    assert pairs[..|matches|] == pairs;
  }

  /** Occurrence i is the last one of its pod outside the OpenShift namespaces. */
  ghost predicate IsLastKept(pairs: seq<Pair>, i: nat, pod: string) {
    && i < |pairs| && pairs[i].pod == pod && !IsOpenShift(pairs[i].namespace)
    && forall j :: i < j < |pairs| && pairs[j].pod == pod ==> IsOpenShift(pairs[j].namespace)
  }

  /** One more pair writes its entry, unless its namespace is filtered out: then it erases nothing. */
  lemma KeptAppend(pairs: seq<Pair>, p: Pair)
    ensures LastWriteWins(Kept(pairs + [p])) ==
            if IsOpenShift(p.namespace) then LastWriteWins(Kept(pairs))
            else LastWriteWins(Kept(pairs))[p.pod := p.namespace]
  {
    assert (pairs + [p])[..|pairs|] == pairs;
    var kept := Kept(pairs);
    if IsOpenShift(p.namespace) {
      assert Kept(pairs + [p]) == kept + [] == kept;
    } else {
      assert Kept(pairs + [p]) == kept + [p];
      assert (kept + [p])[..|kept|] == kept;
    }
  }

  /** How one more pair changes which one is the last kept of a pod. */
  lemma LastKeptAppend(pairs: seq<Pair>, p: Pair, pod: string, i: nat)
    ensures IsLastKept(pairs + [p], i, pod) <==>
            if p.pod == pod && !IsOpenShift(p.namespace) then i == |pairs| else IsLastKept(pairs, i, pod)
  {
    var all := pairs + [p];
    assert all[|pairs|] == p && forall j :: 0 <= j < |pairs| ==> all[j] == pairs[j];
  }

  /** A pod is in the map iff some kept pair names it, and then with the namespace of the last such pair. */
  lemma {:induction false} KeptContent(pairs: seq<Pair>, pod: string)
    ensures pod in LastWriteWins(Kept(pairs)) <==> exists i: nat :: IsLastKept(pairs, i, pod)
    ensures forall i: nat :: IsLastKept(pairs, i, pod) ==>
                               pod in LastWriteWins(Kept(pairs)) && LastWriteWins(Kept(pairs))[pod] == pairs[i].namespace
  {
    if pairs != [] {
      var n := |pairs| - 1;
      KeptContent(pairs[..n], pod);
      assert pairs == pairs[..n] + [pairs[n]];
      KeptAppend(pairs[..n], pairs[n]);
      forall i: nat { LastKeptAppend(pairs[..n], pairs[n], pod, i); }
      if pairs[n].pod == pod && !IsOpenShift(pairs[n].namespace) {
        assert IsLastKept(pairs, n, pod);
      }
    }
  }

  /** What the namespace filter looks for, anywhere in the name. */
  lemma OpenShiftInWords(namespace: string)
    ensures IsOpenShift(namespace) <==> exists i :: OccursAt(namespace, "openshift-", i)
  {
    if i :| OccursAt(namespace, "openshift-", i) {
      assert 0 <= i <= |namespace|;
    }
  }

  /** At `at` the message has this pod, outside the OpenShift namespaces; and nowhere further on. */
  ghost predicate IsLastMention(message: string, at: int, pod: string, namespace: string) {
    && IsMatch(message, at, Pair(pod, namespace)) && !IsOpenShift(namespace)
    && forall later, other :: later > at && IsMatch(message, later, Pair(pod, other)) ==> IsOpenShift(other)
  }

  /** The parser, without the scan: a pod gets the namespace of its last mention in the text that is not filtered out. */
  lemma ParsedFromText(message: string, pod: string, namespace: string)
    ensures pod in PodNamespaces(message) && PodNamespaces(message)[pod] == namespace <==>
            exists at :: IsLastMention(message, at, pod, namespace)
  {
    var all := Occurrences(message);
    OccurrencesAreAllMatches(message);
    KeptContent(PairsOf(all), pod);
    forall i: nat | IsLastKept(PairsOf(all), i, pod)
      ensures IsLastMention(message, all[i].at, pod, all[i].pair.namespace)
    {
      LastKeptIsLastMention(message, i, pod);
    }
    forall at | IsLastMention(message, at, pod, namespace)
      ensures exists i: nat :: IsLastKept(PairsOf(all), i, pod) && all[i].pair.namespace == namespace
    {
      var i := LastMentionIsLastKept(message, at, pod, namespace);
    }
  }

  lemma LastKeptIsLastMention(message: string, i: nat, pod: string)
    requires IsLastKept(PairsOf(Occurrences(message)), i, pod)
    ensures IsLastMention(message, Occurrences(message)[i].at, pod, Occurrences(message)[i].pair.namespace)
  {
    var all := Occurrences(message);
    OccurrencesAreAllMatches(message);
    assert all[i] in all;
    forall later, other | later > all[i].at && IsMatch(message, later, Pair(pod, other))
      ensures IsOpenShift(other)
    {
      assert Match(later, Pair(pod, other)) in all;
      var j :| 0 <= j < |all| && all[j] == Match(later, Pair(pod, other));
      assert j > i;
      assert PairsOf(all)[j] == Pair(pod, other);
    }
  }

  lemma LastMentionIsLastKept(message: string, at: int, pod: string, namespace: string) returns (i: nat)
    requires IsLastMention(message, at, pod, namespace)
    ensures IsLastKept(PairsOf(Occurrences(message)), i, pod)
    ensures Occurrences(message)[i].pair.namespace == namespace
  {
    var all := Occurrences(message);
    OccurrencesAreAllMatches(message);
    assert Match(at, Pair(pod, namespace)) in all;
    i :| 0 <= i < |all| && all[i] == Match(at, Pair(pod, namespace));
    forall j | i < j < |all| && PairsOf(all)[j].pod == pod
      ensures IsOpenShift(PairsOf(all)[j].namespace)
    {
      assert all[j] in all && all[j].at > at;
      assert all[j].pair == Pair(pod, all[j].pair.namespace);
    }
  }

  /** Every entry of the map is written in the message, as a pair outside the OpenShift namespaces. */
  lemma PodNamespacesWitness(message: string, pod: string) returns (at: nat)
    requires pod in PodNamespaces(message)
    ensures IsMatch(message, at, Pair(pod, PodNamespaces(message)[pod]))
    ensures !IsOpenShift(PodNamespaces(message)[pod])
  {
    var all := Occurrences(message);
    KeptContent(PairsOf(all), pod);
    var i: nat :| IsLastKept(PairsOf(all), i, pod);
    OccurrencesAreAllMatches(message);
    assert all[i] in all;
    at := all[i].at;
  }

  // ---------------------------------------------------------------------------------------------
  // Printing and reading back
  // ---------------------------------------------------------------------------------------------

  ghost predicate QuoteFree(s: string) {
    forall i :: 0 <= i < |s| ==> s[i] != '"'
  }

  /** The pairs rendered one after the other, with arbitrary text before, between and after them. */
  function Print(pairs: seq<Pair>, texts: seq<string>): string
    requires |texts| == |pairs| + 1
  {
    if pairs == [] then texts[0] else texts[0] + Render(pairs[0]) + Print(pairs[1..], texts[1..])
  }

  /** What follows a text: its matches, moved behind it. */
  lemma MatchBehind(text: string, rest: string, i: nat, q: Pair)
    requires i >= |text|
    ensures IsMatch(text + rest, i, q) <==> IsMatch(rest, i - |text|, q)
  {
    if i + |Render(q)| <= |text + rest| {
      assert (text + rest)[i..i + |Render(q)|] == rest[i - |text|..i - |text| + |Render(q)|];
    }
  }

  /** A message that starts with text and one rendered pair has its first match there, and the others in the rest. */
  lemma FirstMatch(text: string, p: Pair, rest: string, i: nat, q: Pair)
    requires QuoteFree(text) && IsPair(p)
    ensures IsMatch(text + Render(p) + rest, i, q) <==>
            || (i == |text| && q == p)
            || (i >= |text + Render(p)| && IsMatch(rest, i - |text + Render(p)|, q))
  {
    var r := Render(p);
    var msg := text + r + rest;
    var n := |text + r|;
    assert msg[|text|..n] == r;
    assert IsMatch(msg, |text|, p);
    if i >= n {
      MatchBehind(text + r, rest, i, q);
    }
    assert forall k :: 0 <= k < |text| ==> msg[k] == text[k];
    if IsMatch(msg, i, q) {
      MatchChars(msg, i, q);
      if i < |text| {
        MatchesDisjoint(msg, i, q, |text|, p);
      } else if i == |text| {
        MatchUnique(msg, i, p, q);
      } else {
        MatchesDisjoint(msg, |text|, p, i, q);
      }
    }
  }

  lemma FirstMatchAt(text: string, p: Pair, rest: string, i: nat)
    requires QuoteFree(text) && IsPair(p)
    ensures var n := |text + Render(p)|;
            var m := MatchAtPosition(text + Render(p) + rest, i);
            && (i == |text| ==> m == Some(Match(i, p)))
            && (i < n && i != |text| ==> m == None)
            && (i >= n ==> (m.Some? <==> MatchAtPosition(rest, i - n).Some?) &&
                           (m.Some? ==> m.value.pair == MatchAtPosition(rest, i - n).value.pair))
  {
    var msg, n := text + Render(p) + rest, |text + Render(p)|;
    forall q { FirstMatch(text, p, rest, i, q); }
    if i >= n && MatchAtPosition(rest, i - n).Some? {
      var q := MatchAtPosition(rest, i - n).value.pair;
      assert IsMatch(msg, i, q);
      MatchUnique(msg, i, q, MatchAtPosition(msg, i).value.pair);
    } else if i == |text| {
      assert IsMatch(msg, i, p);
    }
  }

  lemma PairsStep(msg: string, k: nat)
    requires k > 0
    ensures var m := MatchAtPosition(msg, k - 1);
            PairsOf(OccurrencesBelow(msg, k)) ==
            if m.Some? then PairsOf(OccurrencesBelow(msg, k - 1)) + [m.value.pair] else PairsOf(OccurrencesBelow(msg, k - 1))
  {
  }

  lemma {:induction false} ScanPrinted(text: string, p: Pair, rest: string, k: nat)
    requires QuoteFree(text) && IsPair(p)
    ensures var n := |text + Render(p)|;
            PairsOf(OccurrencesBelow(text + Render(p) + rest, k)) ==
            if k <= |text| then []
            else if k < n then [p]
            else [p] + PairsOf(OccurrencesBelow(rest, k - n))
  {
    if k > 0 {
      ScanPrinted(text, p, rest, k - 1);
      FirstMatchAt(text, p, rest, k - 1);
      PairsStep(text + Render(p) + rest, k);
      if k > |text + Render(p)| {
        PairsStep(rest, k - |text + Render(p)|);
      }
    }
  }

  /** Whatever quote-free text surrounds them, the scan reads back exactly the printed pairs, in order. */
  lemma {:induction false} PrintScan(pairs: seq<Pair>, texts: seq<string>)
    requires |texts| == |pairs| + 1
    requires forall i :: 0 <= i < |texts| ==> QuoteFree(texts[i])
    requires forall i :: 0 <= i < |pairs| ==> IsPair(pairs[i])
    ensures PairsOf(Occurrences(Print(pairs, texts))) == pairs
  {
    if pairs == [] {
      OccurrencesAreAllMatches(texts[0]);
      if Occurrences(texts[0]) != [] {
        var m := Occurrences(texts[0])[0];
        assert m in Occurrences(texts[0]);
        MatchChars(texts[0], m.at, m.pair);
        assert false;
      }
    } else {
      var rest := Print(pairs[1..], texts[1..]);
      PrintScan(pairs[1..], texts[1..]);
      ScanPrinted(texts[0], pairs[0], rest, |texts[0] + Render(pairs[0]) + rest|);
      assert pairs == [pairs[0]] + pairs[1..];
    }
  }

  /** Reading back a printed list gives its last-write-wins map, less the OpenShift namespaces. */
  lemma {:induction false} PrintParse(pairs: seq<Pair>, texts: seq<string>)
    requires |texts| == |pairs| + 1
    requires forall i :: 0 <= i < |texts| ==> QuoteFree(texts[i])
    requires forall i :: 0 <= i < |pairs| ==> IsPair(pairs[i])
    ensures PodNamespaces(Print(pairs, texts)) == LastWriteWins(Kept(pairs))
    ensures forall pod, i: nat :: IsLastKept(pairs, i, pod) ==>
                               pod in PodNamespaces(Print(pairs, texts)) &&
                               PodNamespaces(Print(pairs, texts))[pod] == pairs[i].namespace
    ensures forall pod :: pod in PodNamespaces(Print(pairs, texts)) ==> exists i: nat :: IsLastKept(pairs, i, pod)
  {
    PrintScan(pairs, texts);
    forall pod { KeptContent(pairs, pod); }
  }
}
