/** Token-budgeted context packing: CompileContext walks the ranked results once
    and keeps whatever still fits. */
module ContextPacking {
  import opened Common

  // ---------- token estimate ----------

  /** Number of maximal runs of non-space characters (Go's strings.Fields). */
  function WordCount(text: string): nat {
    if text == [] then 0
    else
      WordCount(text[..|text| - 1])
      + (if !IsGoSpace(text[|text| - 1]) && (|text| == 1 || IsGoSpace(text[|text| - 2])) then 1 else 0)
  }

  /** UTF-8 bytes of a character; Go's len counts bytes. */
  function ByteWidth(c: char): nat {
    if c as int < 0x80 then 1 else if c as int < 0x800 then 2 else if c as int < 0x10000 then 3 else 4
  }

  function ByteLength(text: string): nat {
    if text == [] then 0 else ByteLength(text[..|text| - 1]) + ByteWidth(text[|text| - 1])
  }

  lemma NextCharacter(s: string, c: char)
    ensures WordCount(s + [c]) == WordCount(s) + (if !IsGoSpace(c) && (s == [] || IsGoSpace(s[|s| - 1])) then 1 else 0)
  {
    assert (s + [c])[..|s|] == s;
  }

  /** A word is one word, and words with a space between them add up. */
  lemma {:induction false} WordsAddUp(a: string, c: char, b: string)
    requires IsGoSpace(c)
    ensures WordCount(a + [c] + b) == WordCount(a) + WordCount(b)
  {
    if b == [] {
      assert a + [c] + b == a + [c];
      NextCharacter(a, c);
    } else {
      var init, last := b[..|b| - 1], b[|b| - 1];
      assert b == init + [last] && a + [c] + b == (a + [c] + init) + [last];
      WordsAddUp(a, c, init);
      NextCharacter(init, last);
      NextCharacter(a + [c] + init, last);
    }
  }

  lemma {:induction false} OneWord(word: string)
    requires word != [] && forall i :: 0 <= i < |word| ==> !IsGoSpace(word[i])
    ensures WordCount(word) == 1
  {
    if |word| > 1 {
      OneWord(word[..|word| - 1]);
    } else {
      assert word[..0] == [];
    }
  }

  /** Bytes add up, and a text of ASCII characters has one for each. */
  lemma {:induction false} BytesAddUp(a: string, b: string)
    ensures ByteLength(a + b) == ByteLength(a) + ByteLength(b)
    ensures (forall i :: 0 <= i < |b| ==> (b[i] as int) < 128) ==> ByteLength(b) == |b|
  {
    if b == [] {
      assert a + b == a;
    } else {
      var n := |b| - 1;
      BytesAddUp(a, b[..n]);
      assert (a + b)[..|a| + n] == a + b[..n];
    }
  }

  /** Every text costs at least one token. */
  function EstimateTokens(text: string): (tokens: nat)
    ensures tokens >= 1 && (WordCount(text) == 0 ==> tokens == 1)
    ensures WordCount(text) > 0 ==> 0 <= 20 * (tokens - WordCount(text)) - ByteLength(text) < 20
  {
    var count := WordCount(text);
    if count == 0 then 1 else count + (ByteLength(text) + 19) / 20
  }

  /** The budget asked for, or else the profile's limit; the profile loader
      replaces a limit that is not positive by 800. */
  function Budget(requested: int, profileLimit: int): (budget: int)
    ensures budget > 0
    ensures requested > 0 ==> budget == requested
    ensures requested <= 0 ==> budget == profileLimit || (profileLimit <= 0 && budget == 800)
  {
    if requested > 0 then requested else if profileLimit > 0 then profileLimit else 800
  }

  // ---------- packing ----------

  datatype Hit = Hit(id: string, text: string)

  datatype Packet = Packet(snippets: seq<Hit>, tokenCount: nat)

  /** Total cost of the results whose rank is chosen. */
  function Cost(results: seq<Hit>, chosen: set<nat>): nat {
    if results == [] then 0
    else
      var last := |results| - 1;
      Cost(results[..last], chosen) + (if last in chosen then EstimateTokens(results[last].text) else 0)
  }

  /** The chosen results in rank order. */
  function Select(results: seq<Hit>, chosen: set<nat>): seq<Hit> {
    if results == [] then []
    else
      var last := |results| - 1;
      Select(results[..last], chosen) + (if last in chosen then [results[last]] else [])
  }

  predicate Agree(a: set<nat>, b: set<nat>, rank: nat) {
    forall i: nat :: i < rank ==> (i in a <==> i in b)
  }

  /** The packet is made of the chosen ranks, within budget, and nothing that was
      left out would still fit. */
  predicate IsPacking(results: seq<Hit>, budget: int, chosen: set<nat>, packet: Packet) {
    && (forall i :: i in chosen ==> i < |results|)
    && packet.snippets == Select(results, chosen)
    && packet.tokenCount == Cost(results, chosen) <= budget
    && forall i: nat :: i < |results| && i !in chosen ==> packet.tokenCount + EstimateTokens(results[i].text) > budget
  }

  /** At the first rank where another choice differs, the packing has the result and
      the other choice does not, or the other choice is over budget. */
  ghost predicate IsRankOptimal(results: seq<Hit>, budget: int, chosen: set<nat>) {
    forall other: set<nat>, rank: nat ::
      rank < |results| && Agree(chosen, other, rank) && rank !in chosen && rank in other ==> Cost(results, other) > budget
  }

  lemma {:induction false} CostMonotone(results: seq<Hit>, rank: nat, chosen: set<nat>)
    requires rank <= |results|
    ensures Cost(results[..rank], chosen) <= Cost(results, chosen)
  {
    if rank < |results| {
      CostMonotone(results[..|results| - 1], rank, chosen);
      assert results[..|results| - 1][..rank] == results[..rank];
    } else {
      assert results[..rank] == results;
    }
  }

  lemma {:induction false} SameChoice(results: seq<Hit>, a: set<nat>, b: set<nat>)
    requires Agree(a, b, |results|)
    ensures Cost(results, a) == Cost(results, b) && Select(results, a) == Select(results, b)
  {
    if results != [] {
      SameChoice(results[..|results| - 1], a, b);
    }
  }

  /** Each of the first n results was either taken or did not fit when it was seen. */
  predicate Greedy(results: seq<Hit>, budget: int, chosen: set<nat>, n: nat)
    requires n <= |results|
  {
    forall i: nat :: i < n && i !in chosen ==> Cost(results[..i], chosen) + EstimateTokens(results[i].text) > budget
  }

  /** Taking result n leaves the past as it was. */
  lemma TakeNext(results: seq<Hit>, budget: int, chosen: set<nat>, n: nat)
    requires n < |results| && Greedy(results, budget, chosen, n) && forall k :: k in chosen ==> k < n
    ensures var larger := chosen + {n};
            && Greedy(results, budget, larger, n + 1)
            && Cost(results[..n + 1], larger) == Cost(results[..n], chosen) + EstimateTokens(results[n].text)
            && Select(results[..n + 1], larger) == Select(results[..n], chosen) + [results[n]]
  {
    var larger := chosen + {n};
    assert results[..n + 1][..n] == results[..n];
    SameChoice(results[..n], chosen, larger);
    forall i: nat | i < n + 1 && i !in larger
      ensures Cost(results[..i], larger) + EstimateTokens(results[i].text) > budget
    {
      SameChoice(results[..i], chosen, larger);
    }
  }

  /** What the greedy walk guarantees once it is over. */
  lemma GreedyIsBest(results: seq<Hit>, budget: int, chosen: set<nat>)
    requires Greedy(results, budget, chosen, |results|)
    ensures IsRankOptimal(results, budget, chosen)
    ensures forall i: nat :: i < |results| && i !in chosen ==> Cost(results, chosen) + EstimateTokens(results[i].text) > budget
  {
    forall other: set<nat>, rank: nat
      | rank < |results| && Agree(chosen, other, rank) && rank !in chosen && rank in other
      ensures Cost(results, other) > budget
    {
      SameChoice(results[..rank], chosen, other);
      assert results[..rank + 1][..rank] == results[..rank];
      CostMonotone(results, rank + 1, other);
    }
    forall i: nat | i < |results| && i !in chosen
      ensures Cost(results, chosen) + EstimateTokens(results[i].text) > budget
    {
      CostMonotone(results, i, chosen);
    }
  }

  /** A packet made of a choice of ranks that fits and that no other choice beats. */
  ghost predicate IsBestPacket(results: seq<Hit>, budget: int, packet: Packet) {
    exists chosen: set<nat> :: IsPacking(results, budget, chosen, packet) && IsRankOptimal(results, budget, chosen)
  }

  lemma WalkIsBest(results: seq<Hit>, budget: int, chosen: set<nat>)
    requires Greedy(results, budget, chosen, |results|) && Cost(results, chosen) <= budget
    requires forall i :: i in chosen ==> i < |results|
    ensures IsBestPacket(results, budget, Packet(Select(results, chosen), Cost(results, chosen)))
  {
    GreedyIsBest(results, budget, chosen);
    assert IsPacking(results, budget, chosen, Packet(Select(results, chosen), Cost(results, chosen)));
  }

  /** Skipping result n leaves the past as it was, too. */
  lemma SkipNext(results: seq<Hit>, budget: int, chosen: set<nat>, n: nat)
    requires n < |results| && Greedy(results, budget, chosen, n) && forall k :: k in chosen ==> k < n
    requires Cost(results[..n], chosen) + EstimateTokens(results[n].text) > budget
    ensures Greedy(results, budget, chosen, n + 1)
    ensures Cost(results[..n + 1], chosen) == Cost(results[..n], chosen)
    ensures Select(results[..n + 1], chosen) == Select(results[..n], chosen)
  {
    assert results[..n + 1][..n] == results[..n];
  }

  /** What the walk has chosen among the first n results, and what it shows for it. */
  ghost predicate Walked(results: seq<Hit>, budget: int, chosen: set<nat>, n: nat, snippets: seq<Hit>, tokenCount: nat)
    requires n <= |results|
  {
    && (forall k :: k in chosen ==> k < n)
    && snippets == Select(results[..n], chosen) && tokenCount == Cost(results[..n], chosen) <= budget
    && Greedy(results, budget, chosen, n)
  }

  lemma WalkSkips(results: seq<Hit>, budget: int, chosen: set<nat>, n: nat, snippets: seq<Hit>, tokenCount: nat)
    requires n < |results| && Walked(results, budget, chosen, n, snippets, tokenCount)
    requires tokenCount + EstimateTokens(results[n].text) > budget
    ensures Walked(results, budget, chosen, n + 1, snippets, tokenCount)
  {
    SkipNext(results, budget, chosen, n);
  }

  lemma WalkTakes(results: seq<Hit>, budget: int, chosen: set<nat>, n: nat, snippets: seq<Hit>, tokenCount: nat)
    requires n < |results| && Walked(results, budget, chosen, n, snippets, tokenCount)
    requires tokenCount + EstimateTokens(results[n].text) <= budget
    ensures Walked(results, budget, chosen + {n}, n + 1, snippets + [results[n]], tokenCount + EstimateTokens(results[n].text))
  {
    TakeNext(results, budget, chosen, n);
  }

  lemma WalkedIsBest(results: seq<Hit>, budget: int, chosen: set<nat>, snippets: seq<Hit>, tokenCount: nat)
    requires Walked(results, budget, chosen, |results|, snippets, tokenCount)
    ensures IsBestPacket(results, budget, Packet(snippets, tokenCount))
  {
    assert results[..|results|] == results;
    WalkIsBest(results, budget, chosen);
  }

  /** One result: it is kept if it still fits. */
  method Consider(results: seq<Hit>, budget: int, i: nat, ghost chosen: set<nat>, snippets: seq<Hit>, tokenCount: nat)
    returns (ghost chosen': set<nat>, snippets': seq<Hit>, tokenCount': nat)
    requires budget > 0 && i < |results| && Walked(results, budget, chosen, i, snippets, tokenCount)
    ensures Walked(results, budget, chosen', i + 1, snippets', tokenCount')
  {
    var cost := EstimateTokens(results[i].text);
    if budget > 0 && tokenCount + cost > budget {
      WalkSkips(results, budget, chosen, i, snippets, tokenCount);
      return chosen, snippets, tokenCount;
    }
    WalkTakes(results, budget, chosen, i, snippets, tokenCount);
    return chosen + {i}, snippets + [results[i]], tokenCount + cost;
  }

  method CompileContext(results: seq<Hit>, requested: int, profileLimit: int) returns (packet: Packet)
    ensures IsBestPacket(results, Budget(requested, profileLimit), packet)
  {
    var budget := Budget(requested, profileLimit);
    var snippets: seq<Hit>, tokenCount: nat := [], 0;
    ghost var chosen: set<nat> := {};
    NothingWalked(results, budget);
    for i := 0 to |results|
      invariant Walked(results, budget, chosen, i, snippets, tokenCount)
    {
      chosen, snippets, tokenCount := Consider(results, budget, i, chosen, snippets, tokenCount);
    }
    packet := Packet(snippets, tokenCount);
    WalkedIsBest(results, budget, chosen, snippets, tokenCount);
  }

  lemma NothingWalked(results: seq<Hit>, budget: int)
    requires budget > 0
    ensures Walked(results, budget, {}, 0, [], 0)
  {
  }

  /** There is only one rank-optimal choice within budget, so the packet is determined. */
  lemma PackingIsUnique(results: seq<Hit>, budget: int, p: Packet, q: Packet)
    requires IsBestPacket(results, budget, p) && IsBestPacket(results, budget, q)
    ensures p == q
  {
    var a :| IsPacking(results, budget, a, p) && IsRankOptimal(results, budget, a);
    var b :| IsPacking(results, budget, b, q) && IsRankOptimal(results, budget, b);
    AgreeUpTo(results, budget, a, b, |results|);
    SameChoice(results, a, b);
  }

  lemma {:induction false} AgreeUpTo(results: seq<Hit>, budget: int, a: set<nat>, b: set<nat>, n: nat)
    requires n <= |results|
    requires IsRankOptimal(results, budget, a) && Cost(results, a) <= budget
    requires IsRankOptimal(results, budget, b) && Cost(results, b) <= budget
    ensures Agree(a, b, n)
  {
    if n > 0 {
      AgreeUpTo(results, budget, a, b, n - 1);
      assert Agree(b, a, n - 1);
      assert !(n - 1 !in a && n - 1 in b);
      assert !(n - 1 !in b && n - 1 in a);
    }
  }
}
