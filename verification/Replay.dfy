/** Pairing the assistant messages a client replays with the continuations saved for them. */
module Replay {
  import opened Wrappers

  /** `keys[i]` is the key of message i, when it is an assistant message that has one. */
  type Keys = seq<Option<string>>

  /** Positions of one key, in order. */
  function Positions(keys: Keys, key: string): (positions: seq<nat>)
    ensures forall p :: 0 <= p < |positions| ==> positions[p] < |keys| && keys[positions[p]] == Some(key)
  {
    if keys == [] then []
    else
      var n := |keys| - 1;
      Positions(keys[..n], key) + if keys[n] == Some(key) then [n] else []
  }

  function CountAfter(keys: Keys, i: nat, key: string): nat
    requires i <= |keys|
    decreases |keys| - i
  {
    if i == |keys| then 0 else CountAfter(keys, i + 1, key) + if keys[i] == Some(key) then 1 else 0
  }

  /**
   The reference: message i is paired with saved record j exactly when both have the same key
   and the same number of later occurrences of it on their own side.
   */
  ghost predicate Pairs(incoming: Keys, saved: Keys, i: nat, j: nat) {
    && i < |incoming| && j < |saved|
    && incoming[i].Some? && incoming[i] == saved[j]
    && CountAfter(incoming, i + 1, incoming[i].value) == CountAfter(saved, j + 1, incoming[i].value)
  }

  ghost predicate IsMatching(incoming: Keys, saved: Keys, matched: map<nat, nat>) {
    && (forall i :: i in matched ==> Pairs(incoming, saved, i, matched[i]))
    && (forall i, j :: Pairs(incoming, saved, i, j) ==> i in matched && matched[i] == j)
  }

  // Positions and counts

  lemma {:induction false} CountSplit(keys: Keys, n: nat, key: string, i: nat)
    requires i <= n < |keys| && n == |keys| - 1
    ensures CountAfter(keys, i, key) == CountAfter(keys[..n], i, key) + if keys[n] == Some(key) then 1 else 0
    decreases n - i
  {
    if i < n {
      CountSplit(keys, n, key, i + 1);
    }
  }

  /** The p-th position of a key has exactly the remaining positions after it. */
  lemma {:induction false} PositionCounts(keys: Keys, key: string, p: nat)
    requires p < |Positions(keys, key)|
    ensures CountAfter(keys, Positions(keys, key)[p] + 1, key) == |Positions(keys, key)| - 1 - p
  {
    var n := |keys| - 1;
    var before := Positions(keys[..n], key);
    if p < |before| {
      PositionCounts(keys[..n], key, p);
      CountSplit(keys, n, key, before[p] + 1);
    }
  }

  lemma {:induction false} PositionsComplete(keys: Keys, key: string, i: nat) returns (p: nat)
    requires i < |keys| && keys[i] == Some(key)
    ensures p < |Positions(keys, key)| && Positions(keys, key)[p] == i
  {
    var n := |keys| - 1;
    if i == n {
      p := |Positions(keys[..n], key)|;
    } else {
      p := PositionsComplete(keys[..n], key, i);
    }
  }

  /** Pairing by later occurrences is pairing the two position lists from their ends. */
  lemma PairsByPosition(incoming: Keys, saved: Keys, key: string, p: nat, q: nat)
    requires p < |Positions(incoming, key)| && q < |Positions(saved, key)|
    ensures Pairs(incoming, saved, Positions(incoming, key)[p], Positions(saved, key)[q])
            <==> |Positions(incoming, key)| - p == |Positions(saved, key)| - q
  {
    PositionCounts(incoming, key, p);
    PositionCounts(saved, key, q);
  }

  lemma PairsDecomposes(incoming: Keys, saved: Keys, i: nat, j: nat) returns (p: nat, q: nat)
    requires Pairs(incoming, saved, i, j)
    ensures var key := incoming[i].value;
      && p < |Positions(incoming, key)| && Positions(incoming, key)[p] == i
      && q < |Positions(saved, key)| && Positions(saved, key)[q] == j
      && |Positions(incoming, key)| - p == |Positions(saved, key)| - q
  {
    var key := incoming[i].value;
    p := PositionsComplete(incoming, key, i);
    q := PositionsComplete(saved, key, j);
    PairsByPosition(incoming, saved, key, p, q);
  }

  lemma {:induction false} PositionsIncrease(keys: Keys, key: string, p: nat, q: nat)
    requires p < q < |Positions(keys, key)|
    ensures Positions(keys, key)[p] < Positions(keys, key)[q]
  {
    var before := Positions(keys[..|keys| - 1], key);
    if q < |before| {
      PositionsIncrease(keys[..|keys| - 1], key, p, q);
    }
  }

  // What a matching is, in general

  /** The reference determines the matching. */
  lemma MatchingIsUnique(incoming: Keys, saved: Keys, a: map<nat, nat>, b: map<nat, nat>)
    requires IsMatching(incoming, saved, a) && IsMatching(incoming, saved, b)
    ensures a == b
  {
    assert a.Keys == b.Keys;
  }

  /** Two messages never share a saved record, and replays of one key keep their order. */
  lemma MatchingKeepsOrder(incoming: Keys, saved: Keys, matched: map<nat, nat>, i: nat, k: nat)
    requires IsMatching(incoming, saved, matched) && i in matched && k in matched && i < k
    ensures matched[i] != matched[k]
    ensures incoming[i] == incoming[k] ==> matched[i] < matched[k]
  {
    if incoming[i] == incoming[k] {
      var key := incoming[i].value;
      var p, q := PairsDecomposes(incoming, saved, i, matched[i]);
      var r, t := PairsDecomposes(incoming, saved, k, matched[k]);
      if r < p {
        PositionsIncrease(incoming, key, r, p);
      }
      PositionsIncrease(saved, key, q, t);
    }
  }

  /** Of each key the newest min(occurrences, saved) messages are matched, and no others. */
  lemma MatchesNewestOccurrences(incoming: Keys, saved: Keys, matched: map<nat, nat>, key: string, p: nat)
    requires IsMatching(incoming, saved, matched) && p < |Positions(incoming, key)|
    ensures Positions(incoming, key)[p] in matched <==> |Positions(incoming, key)| - p <= |Positions(saved, key)|
  {
    var i := Positions(incoming, key)[p];
    if i in matched {
      var r, q := PairsDecomposes(incoming, saved, i, matched[i]);
      if r < p {
        PositionsIncrease(incoming, key, r, p);
      } else if p < r {
        PositionsIncrease(incoming, key, p, r);
      }
    }
    var q := |Positions(saved, key)| - (|Positions(incoming, key)| - p);
    if q >= 0 {
      PairsByPosition(incoming, saved, key, p, q);
      assert Pairs(incoming, saved, i, Positions(saved, key)[q]);
    }
  }

  // The loops

  function ByKey(table: map<string, seq<nat>>, key: string): seq<nat> {
    if key in table then table[key] else []
  }

  function Newest(s: seq<nat>, n: nat): seq<nat> {
    if |s| <= n then s else s[|s| - n..]
  }

  /** The table one pass over the keys builds. */
  function Grouped(keys: Keys): map<string, seq<nat>> {
    if keys == [] then map[]
    else
      var n := |keys| - 1;
      var table := Grouped(keys[..n]);
      if keys[n].Some? then table[keys[n].value := ByKey(table, keys[n].value) + [n]] else table
  }

  /** It holds the positions of every key. */
  lemma {:induction false} GroupedHolds(keys: Keys, key: string)
    ensures ByKey(Grouped(keys), key) == Positions(keys, key)
    ensures key in Grouped(keys) <==> Positions(keys, key) != []
  {
    if keys != [] {
      GroupedHolds(keys[..|keys| - 1], key);
    }
  }

  lemma {:induction false} PositionsFind(keys: Keys, i: nat)
    requires i < |keys| && keys[i].Some?
    ensures Positions(keys, keys[i].value) != []
  {
    if i < |keys| - 1 {
      PositionsFind(keys[..|keys| - 1], i);
    }
  }

  method GroupByKey(keys: Keys) returns (table: map<string, seq<nat>>)
    ensures table == Grouped(keys)
  {
    table := map[];
    var i := 0;
    while i < |keys|
      invariant 0 <= i <= |keys|
      invariant table == Grouped(keys[..i])
    {
      assert keys[..i + 1][..i] == keys[..i];
      if keys[i].Some? {
        var key := keys[i].value;
        table := table[key := ByKey(table, key) + [i]];
      }
      i := i + 1;
    }
    assert keys[..|keys|] == keys;
  }

  lemma GroupedIsPositions(keys: Keys)
    ensures forall key :: ByKey(Grouped(keys), key) == Positions(keys, key)
    ensures forall i :: 0 <= i < |keys| && keys[i].Some? ==> keys[i].value in Grouped(keys)
  {
    forall key ensures ByKey(Grouped(keys), key) == Positions(keys, key) {
      GroupedHolds(keys, key);
    }
    forall i | 0 <= i < |keys| && keys[i].Some? ensures keys[i].value in Grouped(keys) {
      PositionsFind(keys, i);
      GroupedHolds(keys, keys[i].value);
    }
  }

  function FromEnd<T>(s: seq<T>, t: nat): T
    requires t < |s|
  {
    s[|s| - 1 - t]
  }

  lemma NewestAligned(s: seq<nat>, n: nat, t: nat)
    requires t < |Newest(s, n)|
    ensures FromEnd(Newest(s, n), t) == FromEnd(s, t)
  {
  }

  lemma PairsFromEnd(incoming: Keys, saved: Keys, key: string, t: nat)
    requires t < |Positions(incoming, key)| && t < |Positions(saved, key)|
    ensures Pairs(incoming, saved, FromEnd(Positions(incoming, key), t), FromEnd(Positions(saved, key), t))
  {
    PairsByPosition(incoming, saved, key, |Positions(incoming, key)| - 1 - t, |Positions(saved, key)| - 1 - t);
  }

  ghost predicate PairsOfKey(incoming: Keys, saved: Keys, key: string, pairs: map<nat, nat>) {
    forall i :: i in pairs ==> i < |incoming| && incoming[i] == Some(key) && Pairs(incoming, saved, i, pairs[i])
  }

  lemma PairsOfKeyComplete(incoming: Keys, saved: Keys, key: string, pairs: map<nat, nat>)
    requires forall t: nat :: t < |Positions(incoming, key)| && t < |Positions(saved, key)| ==> FromEnd(Positions(incoming, key), t) in pairs
    ensures forall i: nat, j: nat :: Pairs(incoming, saved, i, j) && incoming[i] == Some(key) ==> i in pairs
  {
    forall i: nat, j: nat | Pairs(incoming, saved, i, j) && incoming[i] == Some(key)
      ensures i in pairs
    {
      var p, q := PairsDecomposes(incoming, saved, i, j);
      assert FromEnd(Positions(incoming, key), |Positions(incoming, key)| - 1 - p) == i;
    }
  }

  /** Pairs the newest positions of one key on both sides, in order. */
  method MatchKey(incoming: Keys, saved: Keys, key: string, indexes: seq<nat>, cached: seq<nat>)
    returns (pairs: map<nat, nat>)
    requires indexes == Positions(incoming, key) && cached == Positions(saved, key)
    ensures PairsOfKey(incoming, saved, key, pairs)
    ensures forall i: nat, j: nat :: Pairs(incoming, saved, i, j) && incoming[i] == Some(key) ==> i in pairs
  {
    pairs := map[];
    var selected := Newest(cached, |indexes|);
    var targets := Newest(indexes, |selected|);
    var t := |targets|;
    while t > 0
      invariant 0 <= t <= |targets|
      invariant PairsOfKey(incoming, saved, key, pairs)
      invariant forall u: nat :: t <= u < |targets| ==> FromEnd(indexes, u) in pairs
    {
      t := t - 1;
      NewestAligned(indexes, |selected|, t);
      NewestAligned(cached, |indexes|, t);
      PairsFromEnd(incoming, saved, key, t);
      pairs := pairs[FromEnd(targets, t) := FromEnd(selected, t)];
    }
    PairsOfKeyComplete(incoming, saved, key, pairs);
  }

  /** The reference never pairs one message with two records. */
  lemma PairIsUnique(incoming: Keys, saved: Keys, i: nat, j: nat, k: nat)
    requires Pairs(incoming, saved, i, j) && Pairs(incoming, saved, i, k)
    ensures j == k
  {
    var p, q := PairsDecomposes(incoming, saved, i, j);
    var r, t := PairsDecomposes(incoming, saved, i, k);
    if p < r {
      PositionsIncrease(incoming, incoming[i].value, p, r);
    } else if r < p {
      PositionsIncrease(incoming, incoming[i].value, r, p);
    }
  }

  /** Groups both sides by key and pairs each key's newest occurrences. */
  method AssistantContinuations(incoming: Keys, saved: Keys) returns (matched: map<nat, nat>)
    ensures IsMatching(incoming, saved, matched)
  {
    var cachedByKey := GroupByKey(saved);
    var incomingByKey := GroupByKey(incoming);
    GroupedIsPositions(saved);
    GroupedIsPositions(incoming);
    matched := map[];
    var todo := incomingByKey.Keys;
    while todo != {}
      invariant todo <= incomingByKey.Keys
      invariant forall i :: i in matched ==> i < |incoming| && incoming[i].Some? && incoming[i].value !in todo && Pairs(incoming, saved, i, matched[i])
      invariant forall i: nat, j: nat :: Pairs(incoming, saved, i, j) && incoming[i].value !in todo ==> i in matched
      decreases todo
    {
      var key :| key in todo;
      var pairs := MatchKey(incoming, saved, key, incomingByKey[key], ByKey(cachedByKey, key));
      matched := matched + pairs;
      todo := todo - {key};
    }
    forall i: nat, j: nat | Pairs(incoming, saved, i, j) ensures i in matched && matched[i] == j {
      PairIsUnique(incoming, saved, i, j, matched[i]);
    }
  }

  // Agreement with position

  /** The assistant messages, in order. */
  function Assistants(keys: Keys): (positions: seq<nat>)
    ensures forall p :: 0 <= p < |positions| ==> positions[p] < |keys| && keys[positions[p]].Some?
  {
    if keys == [] then []
    else
      var n := |keys| - 1;
      Assistants(keys[..n]) + if keys[n].Some? then [n] else []
  }

  lemma {:induction false} AssistantsIncrease(keys: Keys, p: nat, q: nat)
    requires p < q < |Assistants(keys)|
    ensures Assistants(keys)[p] < Assistants(keys)[q]
  {
    var before := keys[..|keys| - 1];
    if q < |Assistants(before)| {
      AssistantsIncrease(before, p, q);
    }
  }

  /** Where the assistant message after the p-th one stands, or the end. */
  function NextAssistant(keys: Keys, p: nat): nat
    requires p < |Assistants(keys)|
  {
    if p + 1 == |Assistants(keys)| then |keys| else Assistants(keys)[p + 1]
  }

  lemma {:induction false} NothingBetween(keys: Keys, p: nat, x: nat)
    requires p < |Assistants(keys)| && Assistants(keys)[p] < x < NextAssistant(keys, p)
    ensures x < |keys| && keys[x].None?
  {
    var n := |keys| - 1;
    if x < n && p < |Assistants(keys[..n])| {
      NothingBetween(keys[..n], p, x);
    }
  }

  function Overlap(incoming: Keys, saved: Keys): nat {
    var a := |Assistants(incoming)|;
    if a < |saved| then a else |saved|
  }

  /** Counted from the end, both sides have the same keys: one history is a suffix of the other. */
  ghost predicate SuffixesAgree(incoming: Keys, saved: Keys) {
    forall t: nat :: t < Overlap(incoming, saved) ==> incoming[FromEnd(Assistants(incoming), t)] == FromEnd(saved, t)
  }

  /** Exact right alignment: the t-th assistant message from the end gets the t-th record from the end. */
  ghost predicate IsRightAligned(incoming: Keys, saved: Keys, matched: map<nat, nat>) {
    var a := Assistants(incoming);
    && (forall t: nat :: t < Overlap(incoming, saved) ==>
          FromEnd(a, t) in matched && matched[FromEnd(a, t)] == |saved| - 1 - t)
    && (forall p :: 0 <= p < |a| && a[p] in matched ==> |a| - 1 - p < Overlap(incoming, saved))
  }

  lemma {:induction false} CountSkips(keys: Keys, lo: nat, hi: nat, key: string)
    requires lo <= hi <= |keys| && forall x :: lo <= x < hi ==> keys[x].None?
    ensures CountAfter(keys, lo, key) == CountAfter(keys, hi, key)
    decreases hi - lo
  {
    if lo < hi {
      CountSkips(keys, lo + 1, hi, key);
    }
  }

  lemma {:induction false} CountFalls(keys: Keys, lo: nat, hi: nat, key: string)
    requires lo <= hi <= |keys|
    ensures CountAfter(keys, hi, key) <= CountAfter(keys, lo, key)
    decreases hi - lo
  {
    if lo < hi {
      CountFalls(keys, lo + 1, hi, key);
    }
  }

  /** Nothing but other messages stands between two neighbouring assistant messages. */
  lemma CountAfterAssistant(keys: Keys, p: nat, key: string)
    requires p < |Assistants(keys)|
    ensures CountAfter(keys, Assistants(keys)[p] + 1, key) == CountAfter(keys, NextAssistant(keys, p), key)
  {
    var lo, hi := Assistants(keys)[p] + 1, NextAssistant(keys, p);
    if p + 1 < |Assistants(keys)| {
      AssistantsIncrease(keys, p, p + 1);
    }
    forall x | lo <= x < hi ensures keys[x].None? {
      NothingBetween(keys, p, x);
    }
    CountSkips(keys, lo, hi, key);
  }

  lemma {:induction false} AlignedCounts(incoming: Keys, saved: Keys, t: nat, key: string)
    requires SuffixesAgree(incoming, saved) && t < Overlap(incoming, saved)
    ensures CountAfter(incoming, FromEnd(Assistants(incoming), t) + 1, key) == CountAfter(saved, |saved| - t, key)
  {
    CountAfterAssistant(incoming, |Assistants(incoming)| - 1 - t, key);
    if t > 0 {
      AlignedCounts(incoming, saved, t - 1, key);
      var i := FromEnd(Assistants(incoming), t - 1);
      assert incoming[i] == FromEnd(saved, t - 1);
      assert NextAssistant(incoming, |Assistants(incoming)| - 1 - t) == i;
    }
  }

  lemma AlignedPairs(incoming: Keys, saved: Keys, t: nat)
    requires SuffixesAgree(incoming, saved) && t < Overlap(incoming, saved)
    ensures Pairs(incoming, saved, FromEnd(Assistants(incoming), t), |saved| - 1 - t)
  {
    var i := FromEnd(Assistants(incoming), t);
    assert incoming[i] == FromEnd(saved, t);
    AlignedCounts(incoming, saved, t, incoming[i].value);
  }

  /** A message older than every saved record finds all records of its key taken. */
  lemma TooOldHasNoPair(incoming: Keys, saved: Keys, p: nat, j: nat)
    requires SuffixesAgree(incoming, saved) && p < |Assistants(incoming)| - |saved| && j < |saved|
    ensures !Pairs(incoming, saved, Assistants(incoming)[p], j)
  {
    var a := Assistants(incoming);
    var i := a[p];
    var t := |saved| - 1;
    var first := FromEnd(a, t);
    assert incoming[first] == FromEnd(saved, t);
    AssistantsIncrease(incoming, p, |a| - 1 - t);
    if Pairs(incoming, saved, i, j) {
      var key := incoming[i].value;
      AlignedCounts(incoming, saved, t, key);
      CountFalls(incoming, i + 1, first, key);
      CountFalls(saved, 0, j, key);
    }
  }

  /**
   Matching by key is exact right alignment by position, duplicates included, if and only if
   the replayed history and the saved one agree as far back as both reach.
   */
  lemma MatchingIsRightAlignmentIff(incoming: Keys, saved: Keys, matched: map<nat, nat>)
    requires IsMatching(incoming, saved, matched)
    ensures IsRightAligned(incoming, saved, matched) <==> SuffixesAgree(incoming, saved)
  {
    var a := Assistants(incoming);
    if SuffixesAgree(incoming, saved) {
      forall t: nat | t < Overlap(incoming, saved)
        ensures FromEnd(a, t) in matched && matched[FromEnd(a, t)] == |saved| - 1 - t
      {
        AlignedPairs(incoming, saved, t);
      }
      forall p | 0 <= p < |a| && a[p] in matched
        ensures |a| - 1 - p < Overlap(incoming, saved)
      {
        assert Pairs(incoming, saved, a[p], matched[a[p]]);
        if p < |a| - |saved| {
          TooOldHasNoPair(incoming, saved, p, matched[a[p]]);
        }
      }
    } else {
      var t: nat :| t < Overlap(incoming, saved) && incoming[FromEnd(a, t)] != FromEnd(saved, t);
      if FromEnd(a, t) in matched {
        assert Pairs(incoming, saved, FromEnd(a, t), matched[FromEnd(a, t)]);
      }
    }
  }
}
