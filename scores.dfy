/** Style names and the per-style high-score table. */
module Scores {

  /** The names of the styles 0 to 3 (lines 570-576). */
  const StyleNames: seq<string> := ["Gapped Border", "Circular", "Maze", "Blob"]

  /** Lines 570-578: the name of a style index; anything that is not an index of a style is
      'Standard'. */
  function StyleName(i: int): (name: string)
    ensures 0 <= i < |StyleNames| ==> name == StyleNames[i]
    ensures !(0 <= i < |StyleNames|) ==> name == "Standard"
    ensures name != ""
  {
    if 0 <= i < |StyleNames| then StyleNames[i] else "Standard"
  }

  /** Each style has its own entry in the high-score table, and none of them is the fallback. */
  lemma StyleNamesDistinct(i: int, j: int)
    requires 0 <= i < |StyleNames| && 0 <= j < |StyleNames|
    ensures StyleName(i) == StyleName(j) <==> i == j
    ensures StyleName(i) != "Standard"
  {
  }

  /** The stored score of a style; a style without an entry counts as 0 (lines 85-87). */
  function Stored(best: map<string, int>, name: string): int
  {
    if name in best then best[name] else 0
  }

  /** Lines 81-100, the score part: the entry of the style is created when missing and raised to
      the new score when that beats it, with the flag set exactly then; other entries stay. */
  function MergeScore(best: map<string, int>, name: string, score: int): (r: (map<string, int>, bool))
    ensures r.0.Keys == best.Keys + {name}
    ensures r.0[name] >= score && r.0[name] >= Stored(best, name)
    ensures r.0[name] == score || r.0[name] == Stored(best, name)
    ensures forall k :: k in best && k != name ==> r.0[k] == best[k]
    ensures r.1 <==> score > Stored(best, name)
  {
    var previous := Stored(best, name);
    if score > previous then (best[name := score], true) else (best[name := previous], false)
  }

  /** Recording the same game twice changes nothing the second time and reports no new record. */
  lemma MergeIdempotent(best: map<string, int>, name: string, score: int)
    ensures var once := MergeScore(best, name, score).0;
      MergeScore(once, name, score) == (once, false)
  {
    var once := MergeScore(best, name, score).0;
    assert once[name := once[name]] == once;
  }

  /** No stored score ever goes down. */
  lemma MergeMonotone(best: map<string, int>, name: string, score: int)
    ensures forall k :: k in best ==> k in MergeScore(best, name, score).0 && Stored(best, k) <= MergeScore(best, name, score).0[k]
  {
  }

  /** Record a sequence of games, one after another. */
  function MergeAll(best: map<string, int>, games: seq<(string, int)>): map<string, int>
    decreases |games|
  {
    if games == [] then best else MergeAll(MergeScore(best, games[0].0, games[0].1).0, games[1..])
  }

  /** After several games each style holds the best of its stored score and the scores played. */
  lemma {:induction false} MergeAllBest(best: map<string, int>, games: seq<(string, int)>, i: int)
    requires 0 <= i < |games|
    ensures games[i].0 in MergeAll(best, games)
    ensures Stored(MergeAll(best, games), games[i].0) >= games[i].1
    decreases |games|
  {
    var next := MergeScore(best, games[0].0, games[0].1).0;
    if i == 0 {
      MergeAllKeeps(next, games[1..], games[0].0);
    } else {
      MergeAllBest(next, games[1..], i - 1);
    }
  }

  lemma {:induction false} MergeAllKeeps(best: map<string, int>, games: seq<(string, int)>, name: string)
    requires name in best
    ensures name in MergeAll(best, games) && Stored(MergeAll(best, games), name) >= best[name]
    decreases |games|
  {
    if games != [] {
      MergeAllKeeps(MergeScore(best, games[0].0, games[0].1).0, games[1..], name);
    }
  }
}
